/**
 * callOpenAI as the rest of the service sees it. The HTTP exchange is not
 * modelled: its outcome, the content string of the first choice or a failure
 * anywhere in the exchange, arrives as a Reply. What is modelled is the
 * post-processing of quest-generation replies that arrive wrapped in a
 * markdown code fence.
 */
module ModelClient {
  import opened Wrappers
  import opened Text

  /** The outcome of one chat-completion request. */
  datatype Reply = Content(text: string) | TransportFailure

  /** Which request getQuest sent; the wording of the prompts is not modelled. */
  datatype Prompt = ValidationPrompt(question: string) | GenerationPrompt(question: string)

  /** The RuntimeException callOpenAI throws when anything in the call fails. */
  datatype Fatal = ModelInvocationFailure

  /** The opening of a fenced JSON block. */
  const FenceOpen: string := "```json"

  /** The closing fence is assumed to be the last three characters. */
  const FenceCloseLength: nat := 3

  /**
   * The content callOpenAI returns for a reply. Only quest generation strips
   * a fence: the seven characters of the opening fence and the last three
   * characters are cut off and the rest is trimmed. A fenced reply shorter
   * than ten characters makes the cut fail, and that failure is rethrown as
   * the fatal error like any other.
   */
  function CallOpenAI(reply: Reply, isQuestGeneration: bool): (r: Result<string, Fatal>)
    ensures reply.TransportFailure? ==> r.Failure?
    ensures r.Success? ==> |r.value| <= |reply.text|
    ensures reply.Content? && !isQuestGeneration ==> r == Success(reply.text)
  {
    match reply
    case TransportFailure => Failure(ModelInvocationFailure)
    case Content(text) =>
      if isQuestGeneration && StartsWith(text, FenceOpen) then
        if |text| < |FenceOpen| + FenceCloseLength then Failure(ModelInvocationFailure)
        else Success(Trim(text[|FenceOpen|..|text| - FenceCloseLength]))
      else Success(text)
  }

  /** A generation reply that does not start with the fence comes back unchanged. */
  lemma UnfencedUnchanged(text: string, isQuestGeneration: bool)
    requires !StartsWith(text, FenceOpen)
    ensures CallOpenAI(Content(text), isQuestGeneration) == Success(text)
  {
  }

  /**
   * Fencing a body, with blanks around it, and stripping the fence gives the
   * body back.
   */
  lemma StripFencedBody(w1: string, body: string, w2: string)
    requires forall k :: 0 <= k < |w1| ==> IsBlank(w1[k])
    requires forall k :: 0 <= k < |w2| ==> IsBlank(w2[k])
    requires body == [] || (!IsBlank(body[0]) && !IsBlank(body[|body| - 1]))
    ensures CallOpenAI(Content(FenceOpen + w1 + body + w2 + "```"), true) == Success(body)
  {
    var text := FenceOpen + w1 + body + w2 + "```";
    assert text[..|FenceOpen|] == FenceOpen;
    assert text[|FenceOpen|..|text| - FenceCloseLength] == w1 + body + w2;
    TrimSurrounded(w1, body, w2);
  }

  /** The usual fenced reply loses its fence and the line breaks around the array. */
  lemma StripExample()
    ensures CallOpenAI(Content("```json\n[1,2,3]\n```"), true) == Success("[1,2,3]")
  {
    assert "```json\n[1,2,3]\n```" == FenceOpen + "\n" + "[1,2,3]" + "\n" + "```";
    StripFencedBody("\n", "[1,2,3]", "\n");
  }

  /**
   * The fixed cut assumes the closing fence ends the reply: a line break after
   * it leaves a backtick in the content.
   */
  lemma TrailingNewlineKeepsBacktick()
    ensures CallOpenAI(Content("```json\n[1]\n```\n"), true) == Success("[1]\n`")
  {
    var text := "```json\n[1]\n```\n";
    assert text[..|FenceOpen|] == FenceOpen;
    assert text[|FenceOpen|..|text| - FenceCloseLength] == "\n" + "[1]\n`" + [];
    TrimSurrounded("\n", "[1]\n`", []);
  }

  /** A fenced reply too short to hold both fences is a fatal error. */
  lemma ShortFencedReplyFails(text: string)
    requires StartsWith(text, FenceOpen) && |text| < 10
    ensures CallOpenAI(Content(text), true) == Failure(ModelInvocationFailure)
  {
  }
}
