/**
 * The few java.lang.String operations the service relies on: trim(),
 * toUpperCase(), startsWith() and contains(). Strings are sequences of
 * characters (Unicode scalar values).
 */
module Text {

  /** String.trim treats every character at or below U+0020 as removable. */
  predicate IsBlank(c: char) {
    c <= ' '
  }

  /** Number of blanks at the front of s. */
  function LeadingBlanks(s: string): (n: nat)
    ensures n <= |s|
    ensures forall k :: 0 <= k < n ==> IsBlank(s[k])
    ensures n < |s| ==> !IsBlank(s[n])
  {
    if |s| > 0 && IsBlank(s[0]) then 1 + LeadingBlanks(s[1..]) else 0
  }

  /** Number of blanks at the back of s. */
  function TrailingBlanks(s: string): (n: nat)
    ensures n <= |s|
    ensures forall k :: |s| - n <= k < |s| ==> IsBlank(s[k])
    ensures n < |s| ==> !IsBlank(s[|s| - 1 - n])
  {
    if |s| > 0 && IsBlank(s[|s| - 1]) then 1 + TrailingBlanks(s[..|s| - 1]) else 0
  }

  /**
   * String.trim: the part of s between its leading and its trailing blanks.
   * The result starts right after the leading blanks, everything after it is
   * blank, and it is empty or begins and ends with a non-blank.
   */
  function Trim(s: string): (r: string)
    ensures LeadingBlanks(s) + |r| <= |s|
    ensures r == s[LeadingBlanks(s)..LeadingBlanks(s) + |r|]
    ensures forall k :: LeadingBlanks(s) + |r| <= k < |s| ==> IsBlank(s[k])
    ensures r == [] || (!IsBlank(r[0]) && !IsBlank(r[|r| - 1]))
  {
    var rest := s[LeadingBlanks(s)..];
    rest[..|rest| - TrailingBlanks(rest)]
  }

  /** Surrounding blanks are exactly what Trim removes. */
  lemma {:induction false} TrimSurrounded(w1: string, b: string, w2: string)
    requires forall k :: 0 <= k < |w1| ==> IsBlank(w1[k])
    requires forall k :: 0 <= k < |w2| ==> IsBlank(w2[k])
    requires b == [] || (!IsBlank(b[0]) && !IsBlank(b[|b| - 1]))
    ensures b != [] ==> Trim(w1 + b + w2) == b
    ensures b == [] ==> Trim(w1 + b + w2) == []
  {
    var s := w1 + b + w2;
    var r := Trim(s);
    var a := LeadingBlanks(s);
    assert forall k :: 0 <= k < |w1| ==> s[k] == w1[k];
    assert forall k :: |w1| + |b| <= k < |s| ==> s[k] == w2[k - |w1| - |b|];
    if b != [] {
      // the first non-blank of s is b[0], the last one is b[|b| - 1]
      assert s[|w1|] == b[0];
      assert a == |w1|;
      assert s[|w1| + |b| - 1] == b[|b| - 1];
      assert |r| == |b|;
      assert s[|w1|..|w1| + |b|] == b;
    } else {
      assert forall k :: 0 <= k < |s| ==> IsBlank(s[k]);
      assert a == |s|;
    }
  }

  /** Trimming twice is trimming once. */
  lemma TrimIdempotent(s: string)
    ensures Trim(Trim(s)) == Trim(s)
  {
    TrimSurrounded([], Trim(s), []);
    assert [] + Trim(s) + [] == Trim(s);
  }

  /** String.startsWith: every character of prefix sits at the same index of s. */
  predicate StartsWith(s: string, prefix: string): (b: bool)
    ensures b <==> |prefix| <= |s| && forall k :: 0 <= k < |prefix| ==> s[k] == prefix[k]
  {
    |prefix| <= |s| && s[..|prefix|] == prefix
  }

  /** t occurs in s starting at index i. */
  predicate OccursAt(s: string, t: string, i: int) {
    0 <= i && i + |t| <= |s| && s[i..i + |t|] == t
  }

  /** String.contains, by scanning s from the front. */
  function Contains(s: string, t: string): (r: bool)
    ensures r ==> |t| <= |s|
    ensures StartsWith(s, t) ==> r
    decreases |s|
  {
    if |t| > |s| then false
    else if s[..|t|] == t then true
    else Contains(s[1..], t)
  }

  /** Contains agrees with the positional definition of an occurrence. */
  lemma {:induction false} ContainsIff(s: string, t: string)
    ensures Contains(s, t) <==> exists i :: OccursAt(s, t, i)
    decreases |s|
  {
    if |t| > |s| {
      assert forall i :: !OccursAt(s, t, i);
    } else if s[..|t|] == t {
      assert OccursAt(s, t, 0);
    } else {
      ContainsIff(s[1..], t);
      if Contains(s[1..], t) {
        var i :| OccursAt(s[1..], t, i);
        assert s[1..][i..i + |t|] == s[i + 1..i + 1 + |t|];
        assert OccursAt(s, t, i + 1);
      }
      if exists i :: OccursAt(s, t, i) {
        var i :| OccursAt(s, t, i);
        assert i != 0;
        assert s[1..][i - 1..i - 1 + |t|] == s[i..i + |t|];
        assert OccursAt(s[1..], t, i - 1);
      }
    }
  }

  /**
   * The upper-case form of one character under String.toUpperCase. ASCII
   * letters and every character whose upper-case form holds an ASCII 'S' or
   * 'Y' are mapped; other characters keep their form (see README).
   */
  function UpperChar(c: char): string {
    if 'a' <= c <= 'z' then [(c as int - 32) as char]
    else if c == '\U{00DF}' then "SS"            // sharp s
    else if c == '\U{017F}' then "S"             // long s
    else if c == '\U{FB05}' || c == '\U{FB06}' then "ST"  // s-t ligatures
    else if c == '\U{1E99}' then "Y\U{030A}"     // y with ring above
    else [c]
  }

  /**
   * String.toUpperCase, character by character. The result is never shorter
   * than s and holds no lower-case ASCII letter.
   */
  function Upper(s: string): (r: string)
    ensures |r| >= |s|
    ensures forall k :: 0 <= k < |r| ==> !('a' <= r[k] <= 'z')
  {
    if s == [] then [] else UpperChar(s[0]) + Upper(s[1..])
  }

  lemma {:induction false} UpperAppend(a: string, b: string)
    ensures Upper(a + b) == Upper(a) + Upper(b)
  {
    if a != [] {
      assert (a + b)[1..] == a[1..] + b;
      UpperAppend(a[1..], b);
    } else {
      assert a + b == b;
    }
  }

  /** Blanks have no upper-case form of their own. */
  lemma {:induction false} UpperBlanks(w: string)
    requires forall k :: 0 <= k < |w| ==> IsBlank(w[k])
    ensures Upper(w) == w
  {
    if w != [] {
      UpperBlanks(w[1..]);
    }
  }

  /** Where Upper(s) has an 'E', s has an 'e' or 'E'; likewise for 'Y'. */
  lemma {:induction false} UpperLetterSource(s: string, k: int, letter: char)
    requires letter == 'E' || letter == 'Y'
    requires 0 <= k < |Upper(s)| && Upper(s)[k] == letter
    ensures exists m :: 0 <= m < |s| && (s[m] == letter || s[m] == (letter as int + 32) as char
                                         || (letter == 'Y' && s[m] == '\U{1E99}'))
  {
    assert s != [];
    var head := UpperChar(s[0]);
    assert Upper(s) == head + Upper(s[1..]);
    if k < |head| {
      assert head[k] == letter;
      assert s[0] == letter || s[0] == (letter as int + 32) as char || (letter == 'Y' && s[0] == '\U{1E99}');
    } else {
      assert Upper(s[1..])[k - |head|] == letter;
      UpperLetterSource(s[1..], k - |head|, letter);
      var m :| 0 <= m < |s[1..]| && (s[1..][m] == letter || s[1..][m] == (letter as int + 32) as char
                                     || (letter == 'Y' && s[1..][m] == '\U{1E99}'));
      assert s[m + 1] == s[1..][m];
    }
  }
}
