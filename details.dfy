/**
 * getQuestDetails: a summary of the quest's question, then fill-in-the-blank
 * quizzes written from that summary, merged into one response. Every failure
 * on the way ends in the same fixed error payload.
 */
module Details {
  import opened Wrappers
  import opened Json
  import opened ModelClient

  /**
   * What getQuestDetails answers: the summary and quizzes (the order of the
   * two keys in the written map is not fixed, so they are kept as a record),
   * or the error payload.
   */
  datatype QuestDetail = QuestDetail(summary: string, quizzes: Json) | DetailsError

  /** The fixed text returned for any failure. */
  const ErrorPayload: string := "{\"error\": \"詳細の生成に失敗しました。\"}"

  /**
   * The merge for the replies to the summary request and the quiz request
   * (both sent without the quest-generation flag). It fails when either
   * request fails, when the quiz reply is not JSON, and when the parsed quiz
   * reply has no "quizzes" field, which puts a null into Map.of.
   */
  function GetQuestDetails(summaryReply: Reply, quizReply: Reply): (r: QuestDetail)
    ensures r.QuestDetail? <==>
              summaryReply.Content? && quizReply.Content?
              && ReadTree(quizReply.text).Some? && Has(ReadTree(quizReply.text).value, "quizzes")
    ensures r.QuestDetail? ==> r.summary == summaryReply.text
    ensures r.QuestDetail? ==> Get(ReadTree(quizReply.text).value, "quizzes") == Some(r.quizzes)
  {
    match CallOpenAI(summaryReply, false)
    case Failure(_) => DetailsError
    case Success(summary) =>
      match CallOpenAI(quizReply, false)
      case Failure(_) => DetailsError
      case Success(quizText) =>
        match ReadTree(quizText)
        case None => DetailsError
        case Some(quizData) =>
          match Get(quizData, "quizzes")
          case None => DetailsError
          case Some(quizzes) => QuestDetail(summary, quizzes)
  }

  /**
   * The texts getQuestDetails may return for a result: the error payload, or
   * the two-key map written with its keys in either order. A caller can tell
   * the two apart: only the error renders as the error payload.
   */
  predicate Renders(d: QuestDetail, text: string): (b: bool)
    ensures b ==> (text == ErrorPayload <==> d.DetailsError?)
  {
    match d
    case DetailsError => text == ErrorPayload
    case QuestDetail(summary, quizzes) =>
      var f1, f2 := Field("summary", JStr(summary)), Field("quizzes", quizzes);
      WrittenKeyStart([f1, f2]);
      WrittenKeyStart([f2, f1]);
      assert ErrorPayload[2] == 'e';
      text == Write(JObj([f1, f2])) || text == Write(JObj([f2, f1]))
  }

  /** A merged response reads back as an object carrying the summary and the quizzes. */
  lemma RenderedDetailReadsBack(summary: string, quizzes: Json, text: string)
    requires Renders(QuestDetail(summary, quizzes), text)
    ensures ReadTree(text).Some?
    ensures Get(ReadTree(text).value, "summary") == Some(JStr(summary))
    ensures Get(ReadTree(text).value, "quizzes") == Some(quizzes)
  {
    var f1, f2 := Field("summary", JStr(summary)), Field("quizzes", quizzes);
    var j := if text == Write(JObj([f1, f2])) then JObj([f1, f2]) else JObj([f2, f1]);
    ReadTreeWrite(j);
    assert j.fields[..1] == [j.fields[0]] && j.fields[..1][..0] == [];
  }

  /**
   * Whatever quiz list the model writes under "quizzes" is passed on as it
   * is: neither the count of three nor the shape of a quiz is checked.
   */
  lemma AnyQuizListPassesThrough(summary: string, quizzes: seq<Json>)
    ensures GetQuestDetails(Content(summary), Content(Write(JObj([Field("quizzes", JArr(quizzes))]))))
            == QuestDetail(summary, JArr(quizzes))
  {
    var quizData := JObj([Field("quizzes", JArr(quizzes))]);
    ReadTreeWrite(quizData);
    assert quizData.fields[..0] == [];
  }

  /**
   * Text after the parsed quiz object is never read: the details are the
   * same as for the object alone.
   */
  lemma QuizTrailingTextIgnored(summary: string, fields: seq<Field>, rest: string)
    ensures GetQuestDetails(Content(summary), Content(Write(JObj(fields)) + rest))
            == GetQuestDetails(Content(summary), Content(Write(JObj(fields))))
  {
    TrailingTextIgnored(JObj(fields), rest);
    ReadTreeWrite(JObj(fields));
  }

  /** A quiz reply without a "quizzes" field is a failure, even when it is valid JSON. */
  lemma MissingQuizzesFails(summary: string, quizData: Json)
    requires !Has(quizData, "quizzes")
    ensures GetQuestDetails(Content(summary), Content(Write(quizData))) == DetailsError
  {
    ReadTreeWrite(quizData);
  }

  /**
   * Fences are only stripped from quest-generation replies: a quiz reply in
   * a markdown code fence does not parse, and the details fail.
   */
  lemma FencedQuizReplyFails(summary: string, body: string)
    ensures GetQuestDetails(Content(summary), Content(FenceOpen + body)) == DetailsError
  {
    var text := FenceOpen + body;
    assert text[0] == '`';
    assert SkipWs(text) == text;
  }
}
