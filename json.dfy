/**
 * The JSON trees the service reads and writes through Jackson's ObjectMapper:
 * writeValueAsString / toString (Write, compact form) and readTree (ReadTree,
 * a partial function). Numbers are integers; see README for what else is
 * outside this codec.
 */
module Json {
  import opened Wrappers

  datatype Json =
    | JNull
    | JBool(b: bool)
    | JNum(n: int)
    | JStr(s: string)
    | JArr(items: seq<Json>)
    | JObj(fields: seq<Field>)

  datatype Field = Field(key: string, value: Json)

  // ---------------------------------------------------------------------
  // Tree access, as JsonNode offers it
  // ---------------------------------------------------------------------

  /**
   * What `for (JsonNode n : root)` visits: the elements of an array, the
   * values of an object in field order, nothing for any other node.
   */
  function Elements(j: Json): (xs: seq<Json>)
    ensures j.JArr? ==> xs == j.items
    ensures j.JObj? ==> |xs| == |j.fields| && forall i :: 0 <= i < |xs| ==> xs[i] == j.fields[i].value
    ensures !j.JArr? && !j.JObj? ==> xs == []
  {
    match j
    case JArr(items) => items
    case JObj(fields) => seq(|fields|, i requires 0 <= i < |fields| => fields[i].value)
    case _ => []
  }

  /**
   * JsonNode.has(name): true exactly for an object one of whose fields has
   * that name; an array or a scalar has no fields.
   */
  predicate Has(j: Json, key: string): (b: bool)
    ensures b <==> j.JObj? && exists f :: f in j.fields && f.key == key
  {
    j.JObj? && exists i :: 0 <= i < |j.fields| && j.fields[i].key == key
  }

  /**
   * The value of the field named key that comes last: readTree keeps only the
   * last of duplicated keys.
   */
  function LastValue(fields: seq<Field>, key: string): (r: Option<Json>)
    ensures r.None? <==> forall i :: 0 <= i < |fields| ==> fields[i].key != key
    ensures r.Some? ==> exists i :: 0 <= i < |fields| && fields[i] == Field(key, r.value)
                                    && forall m :: i < m < |fields| ==> fields[m].key != key
  {
    if fields == [] then None
    else if fields[|fields| - 1].key == key then Some(fields[|fields| - 1].value)
    else LastValue(fields[..|fields| - 1], key)
  }

  /** JsonNode.get(name): the field's value, or Java's null (None) for a missing field or a non-object. */
  function Get(j: Json, key: string): (r: Option<Json>)
    ensures r.Some? <==> Has(j, key)
  {
    if j.JObj? then LastValue(j.fields, key) else None
  }

  // ---------------------------------------------------------------------
  // Writer
  // ---------------------------------------------------------------------

  predicate IsDigit(c: char) {
    '0' <= c <= '9'
  }

  function Digit(d: nat): (c: char)
    requires d < 10
    ensures IsDigit(c)
  {
    ('0' as int + d) as char
  }

  /** Decimal digits of n, most significant first, no leading zero. */
  function NatDigits(n: nat): (ds: string)
    ensures ds != [] && IsDigit(ds[0])
    ensures ds[0] == '0' ==> n == 0 && |ds| == 1
  {
    if n < 10 then [Digit(n)] else NatDigits(n / 10) + [Digit(n % 10)]
  }

  function WriteInt(n: int): string {
    if n < 0 then "-" + NatDigits(-n) else NatDigits(n)
  }

  /** Upper-case hexadecimal digit, as Jackson writes it in \u escapes. */
  function HexDigit(d: nat): char
    requires d < 16
  {
    if d < 10 then Digit(d) else ('A' as int + d - 10) as char
  }

  /** How Jackson writes one character inside a string literal. */
  function EscapeChar(c: char): string {
    if c == '"' then "\\\""
    else if c == '\\' then "\\\\"
    else if c == '\U{8}' then "\\b"
    else if c == '\t' then "\\t"
    else if c == '\n' then "\\n"
    else if c == '\U{C}' then "\\f"
    else if c == '\r' then "\\r"
    else if c < ' ' then "\\u00" + [HexDigit(c as int / 16), HexDigit(c as int % 16)]
    else [c]
  }

  function EscapeString(s: string): string {
    if s == [] then [] else EscapeChar(s[0]) + EscapeString(s[1..])
  }

  function WriteString(s: string): string {
    "\"" + EscapeString(s) + "\""
  }

  /**
   * The compact text of a tree (ObjectMapper.writeValueAsString,
   * JsonNode.toString). It always starts with the first character of a
   * token, never with whitespace or a closing bracket.
   */
  function Write(j: Json): (w: string)
    ensures w != [] && !IsWs(w[0]) && w[0] != ']'
  {
    match j
    case JNull => "null"
    case JBool(b) => if b then "true" else "false"
    case JNum(n) => WriteInt(n)
    case JStr(s) => WriteString(s)
    case JArr(items) => "[" + WriteItems(items) + "]"
    case JObj(fields) => "{" + WriteFields(fields) + "}"
  }

  function WriteItems(items: seq<Json>): string {
    if items == [] then []
    else if |items| == 1 then Write(items[0])
    else Write(items[0]) + "," + WriteItems(items[1..])
  }

  function WriteFields(fields: seq<Field>): string {
    if fields == [] then []
    else if |fields| == 1 then WriteField(fields[0])
    else WriteField(fields[0]) + "," + WriteFields(fields[1..])
  }

  function WriteField(f: Field): string {
    WriteString(f.key) + ":" + Write(f.value)
  }

  // ---------------------------------------------------------------------
  // Parser
  // ---------------------------------------------------------------------

  /** The four whitespace characters JSON allows between tokens. */
  predicate IsWs(c: char) {
    c == ' ' || c == '\t' || c == '\n' || c == '\r'
  }

  function SkipWs(s: string): (r: string)
    ensures |r| <= |s|
  {
    if |s| > 0 && IsWs(s[0]) then SkipWs(s[1..]) else s
  }

  /** Number of decimal digits at the front of s. */
  function DigitRun(s: string): (n: nat)
    ensures n <= |s|
  {
    if |s| > 0 && IsDigit(s[0]) then 1 + DigitRun(s[1..]) else 0
  }

  function DigitValue(c: char): nat {
    if IsDigit(c) then c as int - '0' as int else 0
  }

  /** The number a run of decimal digits denotes. */
  function DigitsValue(ds: string): nat {
    if ds == [] then 0
    else DigitsValue(ds[..|ds| - 1]) * 10 + DigitValue(ds[|ds| - 1])
  }

  /** An integer literal: optional minus, then 0 or a digit run without leading zero. */
  function ParseNumber(s: string): (r: Option<(Json, string)>)
    ensures r.Some? ==> |r.value.1| < |s|
  {
    var neg := |s| > 0 && s[0] == '-';
    var body := if neg then s[1..] else s;
    var k := DigitRun(body);
    if k == 0 || (body[0] == '0' && k > 1) then None
    else
      var v: int := DigitsValue(body[..k]);
      Some((JNum(if neg then -v else v), body[k..]))
  }

  predicate IsHex(c: char) {
    '0' <= c <= '9' || 'A' <= c <= 'F' || 'a' <= c <= 'f'
  }

  function HexValue(c: char): (v: nat)
    requires IsHex(c)
    ensures v < 16
  {
    if '0' <= c <= '9' then c as int - '0' as int
    else if 'A' <= c <= 'F' then c as int - 'A' as int + 10
    else c as int - 'a' as int + 10
  }

  /**
   * The character an escape sequence stands for, and the length of the
   * sequence after the backslash. A \u escape naming a surrogate half is
   * refused (surrogate pairs are outside this codec).
   */
  function ParseEscape(s: string): (r: Option<(char, nat)>)
    ensures r.Some? ==> 1 <= r.value.1 <= |s|
  {
    if s == [] then None
    else if s[0] == '"' then Some(('"', 1))
    else if s[0] == '\\' then Some(('\\', 1))
    else if s[0] == '/' then Some(('/', 1))
    else if s[0] == 'b' then Some(('\U{8}', 1))
    else if s[0] == 't' then Some(('\t', 1))
    else if s[0] == 'n' then Some(('\n', 1))
    else if s[0] == 'f' then Some(('\U{C}', 1))
    else if s[0] == 'r' then Some(('\r', 1))
    else if s[0] == 'u' && |s| >= 5 && IsHex(s[1]) && IsHex(s[2]) && IsHex(s[3]) && IsHex(s[4]) then
      var code := HexValue(s[1]) * 4096 + HexValue(s[2]) * 256 + HexValue(s[3]) * 16 + HexValue(s[4]);
      if 0xD800 <= code < 0xE000 then None else Some((code as char, 5))
    else None
  }

  /** The characters of a string literal after its opening quote, up to and without the closing quote. */
  function ParseStringBody(s: string): (r: Option<(string, string)>)
    ensures r.Some? ==> |r.value.1| < |s|
  {
    if s == [] then None
    else if s[0] == '"' then Some(([], s[1..]))
    else if s[0] < ' ' then None
    else if s[0] == '\\' then
      match ParseEscape(s[1..])
      case None => None
      case Some((c, n)) =>
        match ParseStringBody(s[1 + n..])
        case None => None
        case Some((str, rest)) => Some(([c] + str, rest))
    else
      match ParseStringBody(s[1..])
      case None => None
      case Some((str, rest)) => Some(([s[0]] + str, rest))
  }

  function ParseLiteral(s: string, word: string, v: Json): (r: Option<(Json, string)>)
    requires word != []
    ensures r.Some? ==> |r.value.1| < |s|
  {
    if |word| <= |s| && s[..|word|] == word then Some((v, s[|word|..])) else None
  }

  /** One value after optional whitespace, and what follows it. */
  function ParseValue(s: string): (r: Option<(Json, string)>)
    ensures r.Some? ==> |r.value.1| < |s|
    decreases |s|, 1
  {
    var t := SkipWs(s);
    if t == [] then None
    else if t[0] == 'n' then ParseLiteral(t, "null", JNull)
    else if t[0] == 't' then ParseLiteral(t, "true", JBool(true))
    else if t[0] == 'f' then ParseLiteral(t, "false", JBool(false))
    else if t[0] == '"' then
      match ParseStringBody(t[1..])
      case None => None
      case Some((str, rest)) => Some((JStr(str), rest))
    else if t[0] == '[' then ParseArray(t[1..])
    else if t[0] == '{' then ParseObject(t[1..])
    else ParseNumber(t)
  }

  /** An array after its '[': empty, or elements up to the closing ']'. */
  function ParseArray(s: string): (r: Option<(Json, string)>)
    ensures r.Some? ==> |r.value.1| < |s|
    decreases |s|, 3
  {
    var t := SkipWs(s);
    if t != [] && t[0] == ']' then Some((JArr([]), t[1..]))
    else
      match ParseItems(s)
      case None => None
      case Some((items, rest)) => Some((JArr(items), rest))
  }

  /** Comma-separated values, through the closing ']'. */
  function ParseItems(s: string): (r: Option<(seq<Json>, string)>)
    ensures r.Some? ==> |r.value.1| < |s|
    decreases |s|, 2
  {
    match ParseValue(s)
    case None => None
    case Some((v, rest)) =>
      var t := SkipWs(rest);
      if t == [] then None
      else if t[0] == ']' then Some(([v], t[1..]))
      else if t[0] == ',' then
        match ParseItems(t[1..])
        case None => None
        case Some((vs, rest')) => Some(([v] + vs, rest'))
      else None
  }

  /** An object after its '{': empty, or members up to the closing '}'. */
  function ParseObject(s: string): (r: Option<(Json, string)>)
    ensures r.Some? ==> |r.value.1| < |s|
    decreases |s|, 3
  {
    var t := SkipWs(s);
    if t != [] && t[0] == '}' then Some((JObj([]), t[1..]))
    else
      match ParseMembers(s)
      case None => None
      case Some((fields, rest)) => Some((JObj(fields), rest))
  }

  /** Comma-separated "key": value members, through the closing '}'. */
  function ParseMembers(s: string): (r: Option<(seq<Field>, string)>)
    ensures r.Some? ==> |r.value.1| < |s|
    decreases |s|, 2
  {
    var t := SkipWs(s);
    if t == [] || t[0] != '"' then None
    else
      match ParseStringBody(t[1..])
      case None => None
      case Some((key, rest)) =>
        var u := SkipWs(rest);
        if u == [] || u[0] != ':' then None
        else
          match ParseValue(u[1..])
          case None => None
          case Some((v, rest')) =>
            var w := SkipWs(rest');
            if w == [] then None
            else if w[0] == '}' then Some(([Field(key, v)], w[1..]))
            else if w[0] == ',' then
              match ParseMembers(w[1..])
              case None => None
              case Some((fs, rest'')) => Some(([Field(key, v)] + fs, rest''))
            else None
  }

  /** Characters Java counts as part of an identifier, among those from '0' on (ASCII only). */
  predicate IsIdentPart(c: char) {
    IsDigit(c) || 'A' <= c <= 'Z' || 'a' <= c <= 'z' || c == '_'
  }

  /**
   * What the tokenizer demands right after a root value: a number must end
   * the text or be followed by whitespace, and a literal must not run on
   * into an identifier character. After any other value nothing is read.
   */
  predicate RootValueEnds(j: Json, rest: string) {
    if j.JNum? then rest == [] || IsWs(rest[0])
    else if j.JNull? || j.JBool? then rest == [] || !IsIdentPart(rest[0])
    else true
  }

  /**
   * ObjectMapper.readTree with its default features: the first value of the
   * text, after optional whitespace. What follows that value is never read
   * (trailing tokens are not checked), except for the end check of a root
   * number or literal.
   */
  function ReadTree(s: string): (r: Option<Json>)
    ensures SkipWs(s) == [] ==> r.None?
    ensures r.Some? ==> ParseValue(s).Some? && ParseValue(s).value.0 == r.value
  {
    match ParseValue(s)
    case None => None
    case Some((j, rest)) => if RootValueEnds(j, rest) then Some(j) else None
  }

  // ---------------------------------------------------------------------
  // Round trip: readTree gives back every tree that was written
  // ---------------------------------------------------------------------

  /** A text that cannot continue the digit run of a number written before it. */
  predicate Delimited(rest: string) {
    rest == [] || !IsDigit(rest[0])
  }

  lemma {:induction false} NatDigitsAreDigits(n: nat)
    ensures forall k :: 0 <= k < |NatDigits(n)| ==> IsDigit(NatDigits(n)[k])
  {
    if n >= 10 {
      NatDigitsAreDigits(n / 10);
    }
  }

  lemma {:induction false} NatDigitsValue(n: nat)
    ensures DigitsValue(NatDigits(n)) == n
  {
    var ds := NatDigits(n);
    if n >= 10 {
      NatDigitsValue(n / 10);
      assert ds[..|ds| - 1] == NatDigits(n / 10);
    }
  }

  lemma {:induction false} DigitRunOf(ds: string, rest: string)
    requires forall k :: 0 <= k < |ds| ==> IsDigit(ds[k])
    requires Delimited(rest)
    ensures DigitRun(ds + rest) == |ds|
  {
    if ds != [] {
      assert (ds + rest)[1..] == ds[1..] + rest;
      DigitRunOf(ds[1..], rest);
    } else {
      assert ds + rest == rest;
    }
  }

  // Single parsing steps over an arbitrary text, each the unfolding of one
  // parser function; the round-trip proofs below are built from them.

  lemma ValueOfLiteral(s: string)
    requires s != [] && (s[0] == 'n' || s[0] == 't' || s[0] == 'f')
    ensures ParseValue(s) == if s[0] == 'n' then ParseLiteral(s, "null", JNull)
                             else if s[0] == 't' then ParseLiteral(s, "true", JBool(true))
                             else ParseLiteral(s, "false", JBool(false))
  {
  }

  lemma ValueOfQuote(s: string)
    requires s != [] && s[0] == '"'
    ensures ParseValue(s) == match ParseStringBody(s[1..])
                             case None => None
                             case Some((str, rest)) => Some((JStr(str), rest))
  {
  }

  lemma ValueOfBracket(s: string)
    requires s != [] && s[0] == '['
    ensures ParseValue(s) == ParseArray(s[1..])
  {
  }

  lemma ValueOfBrace(s: string)
    requires s != [] && s[0] == '{'
    ensures ParseValue(s) == ParseObject(s[1..])
  {
  }

  lemma ValueOfNumber(s: string)
    requires s != [] && (s[0] == '-' || IsDigit(s[0]))
    ensures ParseValue(s) == ParseNumber(s)
  {
  }

  lemma ArrayClose(t: string)
    requires t != [] && t[0] == ']'
    ensures ParseArray(t) == Some((JArr([]), t[1..]))
  {
  }

  lemma ArrayOpen(t: string, items: seq<Json>, rest: string)
    requires t != [] && !IsWs(t[0]) && t[0] != ']'
    requires ParseItems(t) == Some((items, rest))
    ensures ParseArray(t) == Some((JArr(items), rest))
  {
  }

  lemma ObjectClose(t: string)
    requires t != [] && t[0] == '}'
    ensures ParseObject(t) == Some((JObj([]), t[1..]))
  {
  }

  lemma ObjectOpen(t: string, fields: seq<Field>, rest: string)
    requires t != [] && t[0] == '"'
    requires ParseMembers(t) == Some((fields, rest))
    ensures ParseObject(t) == Some((JObj(fields), rest))
  {
  }

  lemma ItemsLast(s: string, x: Json, after: string)
    requires ParseValue(s) == Some((x, after))
    requires after != [] && after[0] == ']'
    ensures ParseItems(s) == Some(([x], after[1..]))
  {
  }

  lemma ItemsMore(s: string, x: Json, after: string, xs: seq<Json>, rest: string)
    requires ParseValue(s) == Some((x, after))
    requires after != [] && after[0] == ','
    requires ParseItems(after[1..]) == Some((xs, rest))
    ensures ParseItems(s) == Some(([x] + xs, rest))
  {
  }

  /** The last member `"key":value}`. */
  lemma MemberLast(s: string, key: string, afterKey: string, v: Json, after: string)
    requires s != [] && s[0] == '"'
    requires ParseStringBody(s[1..]) == Some((key, afterKey))
    requires afterKey != [] && afterKey[0] == ':'
    requires ParseValue(afterKey[1..]) == Some((v, after))
    requires after != [] && after[0] == '}'
    ensures ParseMembers(s) == Some(([Field(key, v)], after[1..]))
  {
    assert SkipWs(s) == s;
    assert SkipWs(afterKey) == afterKey;
    assert SkipWs(after) == after;
  }

  /** A member `"key":value,` followed by more members. */
  lemma MemberMore(s: string, key: string, afterKey: string, v: Json, after: string,
                   fs: seq<Field>, rest: string)
    requires s != [] && s[0] == '"'
    requires ParseStringBody(s[1..]) == Some((key, afterKey))
    requires afterKey != [] && afterKey[0] == ':'
    requires ParseValue(afterKey[1..]) == Some((v, after))
    requires after != [] && after[0] == ','
    requires ParseMembers(after[1..]) == Some((fs, rest))
    ensures ParseMembers(s) == Some(([Field(key, v)] + fs, rest))
  {
    assert SkipWs(s) == s;
    assert SkipWs(afterKey) == afterKey;
    assert SkipWs(after) == after;
  }

  lemma StringPlain(s: string)
    requires s != [] && s[0] != '"' && s[0] != '\\' && s[0] >= ' '
    ensures ParseStringBody(s) == match ParseStringBody(s[1..])
                                  case None => None
                                  case Some((str, rest)) => Some(([s[0]] + str, rest))
  {
  }

  lemma StringEscaped(s: string, c: char, n: nat)
    requires s != [] && s[0] == '\\'
    requires ParseEscape(s[1..]) == Some((c, n))
    ensures ParseStringBody(s) == match ParseStringBody(s[1 + n..])
                                  case None => None
                                  case Some((str, rest)) => Some(([c] + str, rest))
  {
  }

  // Facts about concatenation over plain sequence variables, so that the
  // proofs below never have to unfold the writer to cut its output apart.

  lemma HeadTail(a: string, b: string)
    requires a != []
    ensures (a + b)[0] == a[0] && (a + b)[1..] == a[1..] + b && (a + b)[|a|..] == b
  {
  }

  lemma Regroup(a: string, b: string, c: string)
    ensures a + b + c == a + (b + c)
  {
  }

  /** A list element, a separator, the remaining elements and the closing bracket. */
  lemma ListShape(head: string, sep: string, tail: string, close: string, rest: string)
    requires |sep| == 1
    ensures head + sep + tail + close + rest == head + (sep + (tail + close + rest))
    ensures (sep + (tail + close + rest))[1..] == tail + close + rest
  {
  }

  /** The text `"e":w` followed by after, cut where the parser cuts it. */
  lemma FieldShape(e: string, w: string, after: string)
    ensures ("\"" + e + "\"" + ":" + w + after)[0] == '"'
    ensures ("\"" + e + "\"" + ":" + w + after)[1..] == e + "\"" + (":" + w + after)
    ensures (":" + w + after)[1..] == w + after
  {
    var t := "\"" + e + "\"" + ":" + w + after;
    assert t == "\"" + (e + "\"" + (":" + w + after));
  }

  lemma ParseWriteNat(n: nat, rest: string)
    requires Delimited(rest)
    ensures ParseNumber(NatDigits(n) + rest) == Some((JNum(n), rest))
  {
    var ds := NatDigits(n);
    var s := ds + rest;
    NatDigitsAreDigits(n);
    DigitRunOf(ds, rest);
    NatDigitsValue(n);
    assert s[0] == ds[0];
    assert s[..|ds|] == ds;
    assert s[|ds|..] == rest;
  }

  /** A minus sign in front of a positive number negates it. */
  lemma NegativeStep(s: string, m: int, rest: string)
    requires s != [] && s[0] == '-' && m > 0
    requires ParseNumber(s[1..]) == Some((JNum(m), rest))
    ensures ParseNumber(s) == Some((JNum(-m), rest))
  {
  }

  lemma ParseWriteNegative(m: int, rest: string)
    requires m > 0 && Delimited(rest)
    ensures ParseNumber("-" + NatDigits(m) + rest) == Some((JNum(-m), rest))
  {
    var s := "-" + NatDigits(m) + rest;
    assert s[1..] == NatDigits(m) + rest;
    ParseWriteNat(m, rest);
    NegativeStep(s, m, rest);
  }

  lemma ParseWriteInt(n: int, rest: string)
    requires Delimited(rest)
    ensures ParseValue(WriteInt(n) + rest) == Some((JNum(n), rest))
  {
    var s := WriteInt(n) + rest;
    if n < 0 {
      assert s == "-" + NatDigits(-n) + rest;
      ParseWriteNegative(-n, rest);
    } else {
      assert s[0] == NatDigits(n)[0];
      ParseWriteNat(n, rest);
    }
    ValueOfNumber(s);
  }

  lemma HexRoundTrip(d: nat)
    requires d < 16
    ensures IsHex(HexDigit(d)) && HexValue(HexDigit(d)) == d
  {
  }

  /** An escaped character comes back from its escape sequence. */
  lemma ParseWriteEscape(c: char, rest: string)
    requires |EscapeChar(c)| > 1
    ensures EscapeChar(c)[0] == '\\'
    ensures ParseEscape(EscapeChar(c)[1..] + rest) == Some((c, |EscapeChar(c)| - 1))
  {
    var e := EscapeChar(c);
    if c < ' ' && c != '\U{8}' && c != '\t' && c != '\n' && c != '\U{C}' && c != '\r' {
      var hi, lo := c as int / 16, c as int % 16;
      HexRoundTrip(hi);
      HexRoundTrip(lo);
      var t := e[1..] + rest;
      assert t[0] == 'u' && t[1] == '0' && t[2] == '0' && t[3] == HexDigit(hi) && t[4] == HexDigit(lo);
      assert HexValue(t[1]) == 0 && HexValue(t[2]) == 0;
    }
  }

  lemma {:induction false} ParseWriteString(s: string, rest: string)
    ensures ParseStringBody(EscapeString(s) + "\"" + rest) == Some((s, rest))
  {
    var input := EscapeString(s) + "\"" + rest;
    if s == [] {
      assert input == "\"" + rest;
    } else {
      var c := s[0];
      var e := EscapeChar(c);
      var tail := EscapeString(s[1..]) + "\"" + rest;
      Regroup(e, EscapeString(s[1..]), "\"");
      Regroup(e, EscapeString(s[1..]) + "\"", rest);
      assert input == e + tail;
      HeadTail(e, tail);
      ParseWriteString(s[1..], rest);
      if |e| == 1 {
        assert e == [c] && c != '"' && c != '\\' && c >= ' ';
        StringPlain(input);
      } else {
        ParseWriteEscape(c, tail);
        HeadTail(e[1..], tail);
        StringEscaped(input, c, |e| - 1);
      }
      assert [c] + s[1..] == s;
    }
  }

  lemma ParseWriteStr(str: string, rest: string)
    ensures ParseValue(WriteString(str) + rest) == Some((JStr(str), rest))
  {
    var s := WriteString(str) + rest;
    assert s[1..] == EscapeString(str) + "\"" + rest;
    ParseWriteString(str, rest);
    ValueOfQuote(s);
  }

  lemma ParseWriteLiteral(j: Json, rest: string)
    requires j.JNull? || j.JBool?
    ensures ParseValue(Write(j) + rest) == Some((j, rest))
  {
    var s := Write(j) + rest;
    var w := Write(j);
    assert s[..|w|] == w && s[|w|..] == rest;
    ValueOfLiteral(s);
  }

  lemma {:induction false} ParseWrite(j: Json, rest: string)
    requires Delimited(rest)
    ensures ParseValue(Write(j) + rest) == Some((j, rest))
    decreases j, 2
  {
    match j
    case JNull => ParseWriteLiteral(j, rest);
    case JBool(_) => ParseWriteLiteral(j, rest);
    case JNum(n) => ParseWriteInt(n, rest);
    case JStr(str) => ParseWriteStr(str, rest);
    case JArr(items) => ParseWriteArray(items, rest);
    case JObj(fields) => ParseWriteObject(fields, rest);
  }

  lemma {:induction false} ParseWriteArray(items: seq<Json>, rest: string)
    ensures ParseValue(Write(JArr(items)) + rest) == Some((JArr(items), rest))
    decreases items, 2
  {
    var s := Write(JArr(items)) + rest;
    var t := WriteItems(items) + "]" + rest;
    assert s == "[" + t;
    assert s[1..] == t;
    ValueOfBracket(s);
    if items == [] {
      assert t == "]" + rest;
      ArrayClose(t);
    } else {
      ParseWriteItems(items, rest);
      assert t[0] == Write(items[0])[0];
      ArrayOpen(t, items, rest);
    }
  }

  lemma {:induction false} ParseWriteObject(fields: seq<Field>, rest: string)
    ensures ParseValue(Write(JObj(fields)) + rest) == Some((JObj(fields), rest))
    decreases fields, 2
  {
    var s := Write(JObj(fields)) + rest;
    var t := WriteFields(fields) + "}" + rest;
    assert s == "{" + t;
    assert s[1..] == t;
    ValueOfBrace(s);
    if fields == [] {
      assert t == "}" + rest;
      ObjectClose(t);
    } else {
      ParseWriteMembers(fields, rest);
      assert t[0] == '"';
      ObjectOpen(t, fields, rest);
    }
  }

  lemma {:induction false} ParseWriteItems(items: seq<Json>, rest: string)
    requires items != []
    ensures ParseItems(WriteItems(items) + "]" + rest) == Some((items, rest))
    decreases items, 1
  {
    if |items| == 1 {
      var x := items[0];
      var s := WriteItems(items) + "]" + rest;
      Regroup(Write(x), "]", rest);
      ParseWrite(x, "]" + rest);
      ItemsLast(s, x, "]" + rest);
      assert ("]" + rest)[1..] == rest;
      assert items == [x];
    } else {
      ParseWriteMoreItems(items, rest);
    }
  }

  lemma {:induction false} ParseWriteMoreItems(items: seq<Json>, rest: string)
    requires |items| > 1
    ensures ParseItems(WriteItems(items) + "]" + rest) == Some((items, rest))
    decreases items, 0
  {
    var x := items[0];
    var s := WriteItems(items) + "]" + rest;
    var tail := WriteItems(items[1..]) + "]" + rest;
    ListShape(Write(x), ",", WriteItems(items[1..]), "]", rest);
    ParseWrite(x, "," + tail);
    ParseWriteItems(items[1..], rest);
    ItemsMore(s, x, "," + tail, items[1..], rest);
    assert [x] + items[1..] == items;
  }

  /** The written member `"key":value`, then its text `after`, pieced apart. */
  lemma FieldText(f: Field, after: string)
    ensures (WriteField(f) + after)[0] == '"'
    ensures (WriteField(f) + after)[1..] == EscapeString(f.key) + "\"" + (":" + Write(f.value) + after)
    ensures (":" + Write(f.value) + after)[1..] == Write(f.value) + after
  {
    FieldShape(EscapeString(f.key), Write(f.value), after);
  }

  lemma FieldLast(f: Field, after: string)
    requires ParseValue(Write(f.value) + after) == Some((f.value, after))
    requires after != [] && after[0] == '}'
    ensures ParseMembers(WriteField(f) + after) == Some(([f], after[1..]))
  {
    var s := WriteField(f) + after;
    var afterKey := ":" + Write(f.value) + after;
    FieldText(f, after);
    ParseWriteString(f.key, afterKey);
    MemberLast(s, f.key, afterKey, f.value, after);
  }

  lemma FieldMore(f: Field, after: string, fs: seq<Field>, rest: string)
    requires ParseValue(Write(f.value) + after) == Some((f.value, after))
    requires after != [] && after[0] == ','
    requires ParseMembers(after[1..]) == Some((fs, rest))
    ensures ParseMembers(WriteField(f) + after) == Some(([f] + fs, rest))
  {
    var s := WriteField(f) + after;
    var afterKey := ":" + Write(f.value) + after;
    FieldText(f, after);
    ParseWriteString(f.key, afterKey);
    MemberMore(s, f.key, afterKey, f.value, after, fs, rest);
  }

  lemma {:induction false} ParseWriteMembers(fields: seq<Field>, rest: string)
    requires fields != []
    ensures ParseMembers(WriteFields(fields) + "}" + rest) == Some((fields, rest))
    decreases fields, 1
  {
    var f := fields[0];
    if |fields| == 1 {
      var s := WriteFields(fields) + "}" + rest;
      Regroup(WriteField(f), "}", rest);
      ParseWrite(f.value, "}" + rest);
      FieldLast(f, "}" + rest);
      assert ("}" + rest)[1..] == rest;
      assert fields == [f];
    } else {
      ParseWriteMoreMembers(fields, rest);
    }
  }

  lemma {:induction false} ParseWriteMoreMembers(fields: seq<Field>, rest: string)
    requires |fields| > 1
    ensures ParseMembers(WriteFields(fields) + "}" + rest) == Some((fields, rest))
    decreases fields, 0
  {
    var f := fields[0];
    var s := WriteFields(fields) + "}" + rest;
    var tail := WriteFields(fields[1..]) + "}" + rest;
    ListShape(WriteField(f), ",", WriteFields(fields[1..]), "}", rest);
    ParseWrite(f.value, "," + tail);
    ParseWriteMembers(fields[1..], rest);
    FieldMore(f, "," + tail, fields[1..], rest);
    assert [f] + fields[1..] == fields;
  }

  /** Parsing what was written gives back the same tree. */
  lemma ReadTreeWrite(j: Json)
    ensures ReadTree(Write(j)) == Some(j)
  {
    ParseWrite(j, []);
    assert Write(j) + [] == Write(j);
  }

  /**
   * Nothing after a root array, object or string is read: readTree gives
   * that value whatever text follows it.
   */
  lemma TrailingTextIgnored(j: Json, rest: string)
    requires j.JArr? || j.JObj? || j.JStr?
    ensures ReadTree(Write(j) + rest) == Some(j)
  {
    match j
    case JArr(items) => ParseWriteArray(items, rest);
    case JObj(fields) => ParseWriteObject(fields, rest);
    case JStr(str) => ParseWriteStr(str, rest);
  }

  /** A root number is read only when the text ends or whitespace follows it. */
  lemma RootNumberEnd(n: int, rest: string)
    requires Delimited(rest)
    ensures ReadTree(Write(JNum(n)) + rest)
            == if rest == [] || IsWs(rest[0]) then Some(JNum(n)) else None
  {
    ParseWriteInt(n, rest);
  }

  /** A root literal is read only when no identifier character follows it. */
  lemma RootLiteralEnd(j: Json, rest: string)
    requires j.JNull? || j.JBool?
    ensures ReadTree(Write(j) + rest)
            == if rest == [] || !IsIdentPart(rest[0]) then Some(j) else None
  {
    ParseWriteLiteral(j, rest);
  }

  /** A written object shows the first character of its first key right after `{"`. */
  lemma WrittenKeyStart(fields: seq<Field>)
    requires fields != [] && fields[0].key != [] && |EscapeChar(fields[0].key[0])| == 1
    ensures |Write(JObj(fields))| > 2 && Write(JObj(fields))[2] == fields[0].key[0]
  {
    var key := fields[0].key;
    var e := EscapeString(key);
    assert e == EscapeChar(key[0]) + EscapeString(key[1..]);
    assert e[0] == key[0];
    var field := WriteField(fields[0]);
    assert field == "\"" + e + "\"" + ":" + Write(fields[0].value);
    assert field[1] == key[0];
    var w := WriteFields(fields);
    assert w[..|field|] == field;
    assert w[1] == key[0];
    assert Write(JObj(fields))[2] == w[1];
  }

  /** Writing loses nothing: different trees have different texts. */
  lemma WriteInjective(a: Json, b: Json)
    requires Write(a) == Write(b)
    ensures a == b
  {
    ReadTreeWrite(a);
    ReadTreeWrite(b);
  }
}
