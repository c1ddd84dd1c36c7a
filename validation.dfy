/**
 * isValidQuestion: the model is asked whether the question is a meaningful
 * one, and its reply counts as yes when, trimmed and upper-cased, it contains
 * "YES" anywhere.
 */
module Validation {
  import opened Wrappers
  import opened Text
  import opened ModelClient

  const Affirmative: string := "YES"

  /**
   * The test applied to the reply text. The trim never matters: a reply is
   * accepted exactly when its upper-case form contains "YES".
   */
  predicate Accepts(reply: string): (b: bool)
    ensures b <==> Contains(Upper(reply), Affirmative)
  {
    TrimIrrelevant(reply);
    Contains(Upper(Trim(reply)), Affirmative)
  }

  /**
   * isValidQuestion on the outcome of its request (sent without the
   * quest-generation flag); a failed request is the fatal error.
   */
  function IsValidQuestion(reply: Reply): (r: Result<bool, Fatal>)
    ensures r.Failure? <==> reply.TransportFailure?
    ensures r.Success? ==> (r.value <==> Accepts(reply.text))
  {
    match CallOpenAI(reply, false)
    case Failure(e) => Failure(e)
    case Success(text) => Success(Accepts(text))
  }

  /** "YES" has no blank in it, so an occurrence never reaches into surrounding blanks. */
  lemma {:induction false} ContainsIgnoresBlanks(w1: string, b: string, w2: string)
    requires forall k :: 0 <= k < |w1| ==> IsBlank(w1[k])
    requires forall k :: 0 <= k < |w2| ==> IsBlank(w2[k])
    ensures Contains(w1 + b + w2, Affirmative) <==> Contains(b, Affirmative)
  {
    var s := w1 + b + w2;
    var t := Affirmative;
    ContainsIff(s, t);
    ContainsIff(b, t);
    if Contains(s, t) {
      var i :| OccursAt(s, t, i);
      assert s[i] == t[0] && s[i + 2] == t[2];
      assert !IsBlank(s[i]) && !IsBlank(s[i + 2]);
      assert forall k :: 0 <= k < |w1| ==> s[k] == w1[k];
      assert forall k :: |w1| + |b| <= k < |s| ==> s[k] == w2[k - |w1| - |b|];
      assert |w1| <= i && i + 3 <= |w1| + |b|;
      assert b[i - |w1|..i - |w1| + 3] == s[i..i + 3];
      assert OccursAt(b, t, i - |w1|);
    }
    if Contains(b, t) {
      var i :| OccursAt(b, t, i);
      assert s[|w1| + i..|w1| + i + 3] == b[i..i + 3];
      assert OccursAt(s, t, |w1| + i);
    }
  }

  /** Trimming first makes no difference to whether the upper-case form contains "YES". */
  lemma TrimIrrelevant(reply: string)
    ensures Contains(Upper(Trim(reply)), Affirmative) <==> Contains(Upper(reply), Affirmative)
  {
    var a := LeadingBlanks(reply);
    var b := Trim(reply);
    var w1, w2 := reply[..a], reply[a + |b|..];
    assert reply == w1 + b + w2;
    UpperAppend(w1 + b, w2);
    UpperAppend(w1, b);
    UpperBlanks(w1);
    UpperBlanks(w2);
    ContainsIgnoresBlanks(w1, Upper(b), w2);
  }

  /** c is the ASCII letter upper in either casing. */
  predicate IsLetter(c: char, upper: char)
    requires 'A' <= upper <= 'Z'
  {
    c == upper || c == (upper as int + 32) as char
  }

  /** "yes" in any casing anywhere in the reply accepts it. */
  lemma AcceptsAnyCasing(reply: string, i: nat)
    requires i + 3 <= |reply|
    requires IsLetter(reply[i], 'Y') && IsLetter(reply[i + 1], 'E') && IsLetter(reply[i + 2], 'S')
    ensures Accepts(reply)
  {
    var pre, mid, post := reply[..i], reply[i..i + 3], reply[i + 3..];
    assert reply == pre + mid + post;
    assert mid[1..][1..] == mid[2..] && mid[2..][1..] == [];
    assert Upper(mid[2..]) == UpperChar(mid[2]);
    assert Upper(mid[1..]) == UpperChar(mid[1]) + UpperChar(mid[2]);
    assert Upper(mid) == Affirmative;
    UpperAppend(pre + mid, post);
    UpperAppend(pre, mid);
    var u := Upper(reply);
    assert u[|Upper(pre)|..|Upper(pre)| + 3] == Affirmative;
    ContainsIff(u, Affirmative);
    assert OccursAt(u, Affirmative, |Upper(pre)|);
  }

  /** A reply with no y, Y or y-with-ring is rejected. */
  lemma RejectsWithoutY(reply: string)
    requires forall k :: 0 <= k < |reply| ==> reply[k] != 'Y' && reply[k] != 'y' && reply[k] != '\U{1E99}'
    ensures !Accepts(reply)
  {
    if Accepts(reply) {
      var u := Upper(reply);
      ContainsIff(u, Affirmative);
      var i :| OccursAt(u, Affirmative, i);
      assert u[i] == 'Y';
      UpperLetterSource(reply, i, 'Y');
      assert false;
    }
  }

  /** "NO" rejects and "yes." accepts. */
  lemma Examples()
    ensures !Accepts("NO")
    ensures Accepts("yes.")
  {
    RejectsWithoutY("NO");
    AcceptsAnyCasing("yes.", 0);
  }
}
