/** String operations the forms and route handlers rely on, as JavaScript's
    String methods define them, restricted to what the model needs:
    startsWith, includes, trim (over the whitespace set listed in
    IsWhitespace), ASCII-only toLowerCase/toUpperCase and the two uses of
    split (first field before a separator, last field after it). */
module Strings {

  /** JavaScript `s.startsWith(prefix)`. */
  predicate StartsWith(s: string, prefix: string) {
    |prefix| <= |s| && s[..|prefix|] == prefix
  }

  /** JavaScript `s.includes(sub)`: `sub` occurs at some offset of `s`. */
  predicate Contains(s: string, sub: string) {
    StartsWith(s, sub) || (s != [] && Contains(s[1..], sub))
  }

  /** The characters JavaScript's `trim` removes that the model knows of:
      the ASCII white space and line terminators, NO-BREAK SPACE and the
      byte order mark. */
  predicate IsWhitespace(c: char) {
    c == ' ' || c == '\t' || c == '\n' || c == '\r' || c == '\U{B}' || c == '\U{C}'
    || c == '\U{A0}' || c == '\U{FEFF}'
  }

  /** How many white-space characters `s` starts with. */
  function LeadingSpaces(s: string): (k: nat)
    ensures k <= |s|
    ensures forall i | 0 <= i < k :: IsWhitespace(s[i])
    ensures k < |s| ==> !IsWhitespace(s[k])
  {
    if s != [] && IsWhitespace(s[0]) then 1 + LeadingSpaces(s[1..]) else 0
  }

  /** The length of `s` without the white space it ends with. */
  function ContentEnd(s: string): (k: nat)
    ensures k <= |s|
    ensures forall i | k <= i < |s| :: IsWhitespace(s[i])
    ensures k > 0 ==> !IsWhitespace(s[k - 1])
  {
    if s != [] && IsWhitespace(s[|s| - 1]) then ContentEnd(s[..|s| - 1]) else |s|
  }

  /** JavaScript `s.trimStart()`. */
  function TrimStart(s: string): string {
    s[LeadingSpaces(s)..]
  }

  /** JavaScript `s.trimEnd()`. */
  function TrimEnd(s: string): string {
    s[..ContentEnd(s)]
  }

  /** JavaScript `s.trim()`. */
  function Trim(s: string): string {
    TrimEnd(TrimStart(s))
  }

  /** What trimming promises: the result is the slice of the input that
      starts at offset `k`, it has no white space at either end, and
      everything cut away is white space. */
  lemma TrimSpec(s: string) returns (k: nat)
    ensures k + |Trim(s)| <= |s| && Trim(s) == s[k..k + |Trim(s)|]
    ensures forall i | 0 <= i < k :: IsWhitespace(s[i])
    ensures forall i | k + |Trim(s)| <= i < |s| :: IsWhitespace(s[i])
  {
    k := LeadingSpaces(s);
    var t := s[k..];
    var e := ContentEnd(t);
    assert Trim(s) == t[..e] == s[k..k + e];
    forall i | k + e <= i < |s| ensures IsWhitespace(s[i]) {
      assert s[i] == t[i - k];
    }
  }

  /** The trimmed string neither starts nor ends with white space. */
  lemma TrimEnds(s: string)
    ensures Trim(s) == [] || (!IsWhitespace(Trim(s)[0]) && !IsWhitespace(Trim(s)[|Trim(s)| - 1]))
  {
    var t := TrimStart(s);
    var r := TrimEnd(t);
    if r != [] {
      assert r[0] == t[0] == s[LeadingSpaces(s)];
    }
  }

  /** A string trims to empty exactly when every character is white space. */
  lemma TrimEmptyIff(s: string)
    ensures Trim(s) == [] <==> forall i | 0 <= i < |s| :: IsWhitespace(s[i])
  {
    var k := TrimSpec(s);
  }

  /** Trimming twice is trimming once. */
  lemma TrimIdempotent(s: string)
    ensures Trim(Trim(s)) == Trim(s)
  {
    var r := Trim(s);
    TrimEnds(s);
    assert LeadingSpaces(r) == 0;
    assert ContentEnd(r) == |r|;
  }

  /** A string without white space trims to itself. */
  lemma TrimNoWhitespace(s: string)
    requires forall i | 0 <= i < |s| :: !IsWhitespace(s[i])
    ensures Trim(s) == s
  {
    assert LeadingSpaces(s) == 0;
    assert TrimStart(s) == s;
    assert ContentEnd(s) == |s|;
  }

  /** ASCII `toLowerCase` on one character. */
  function LowerChar(c: char): char {
    if 'A' <= c <= 'Z' then (c as int + 32) as char else c
  }

  /** ASCII `toUpperCase` on one character. */
  function UpperChar(c: char): char {
    if 'a' <= c <= 'z' then (c as int - 32) as char else c
  }

  /** JavaScript `s.toLowerCase()`, restricted to ASCII letters. */
  function ToLower(s: string): (r: string)
    ensures |r| == |s|
    ensures forall i | 0 <= i < |s| :: r[i] == LowerChar(s[i])
  {
    seq(|s|, i requires 0 <= i < |s| => LowerChar(s[i]))
  }

  /** Case mapping never turns white space into something else or back, so
      lowercasing and trimming commute. */
  lemma TrimStartToLower(s: string)
    ensures TrimStart(ToLower(s)) == ToLower(TrimStart(s))
  {
    var low := ToLower(s);
    var k, k' := LeadingSpaces(s), LeadingSpaces(low);
    assert forall i | 0 <= i < |s| :: IsWhitespace(low[i]) <==> IsWhitespace(s[i]);
    assert forall i | 0 <= i < k' :: IsWhitespace(s[i]);
    assert forall i | 0 <= i < k :: IsWhitespace(low[i]);
    assert k == k';
    assert low[k..] == ToLower(s[k..]);
  }

  lemma TrimEndToLower(s: string)
    ensures TrimEnd(ToLower(s)) == ToLower(TrimEnd(s))
  {
    var low := ToLower(s);
    var e, e' := ContentEnd(s), ContentEnd(low);
    assert forall i | 0 <= i < |s| :: IsWhitespace(low[i]) <==> IsWhitespace(s[i]);
    assert forall i | e' <= i < |s| :: IsWhitespace(s[i]);
    assert forall i | e <= i < |s| :: IsWhitespace(low[i]);
    assert e == e';
    assert low[..e] == ToLower(s[..e]);
  }

  lemma TrimToLowerCommute(s: string)
    ensures Trim(ToLower(s)) == ToLower(Trim(s))
  {
    TrimStartToLower(s);
    TrimEndToLower(TrimStart(s));
  }

  /** The index of the first `c` in `s`, or `|s|` when there is none. */
  function FirstIndexOf(s: string, c: char): (k: nat)
    ensures k <= |s|
    ensures k < |s| ==> s[k] == c
    ensures forall j | 0 <= j < k :: s[j] != c
  {
    if s == [] || s[0] == c then 0 else 1 + FirstIndexOf(s[1..], c)
  }

  /** The index of the last `c` in `s`, or -1 when there is none. */
  function LastIndexOf(s: string, c: char): (k: int)
    ensures -1 <= k < |s|
    ensures k >= 0 ==> s[k] == c
    ensures forall j | k < j < |s| :: s[j] != c
  {
    if s == [] then -1
    else if s[|s| - 1] == c then |s| - 1
    else LastIndexOf(s[..|s| - 1], c)
  }

  /** JavaScript `s.split(sep)[0]` for a one-character separator: the text
      before the first `sep`, or all of `s` when there is none. */
  function BeforeFirst(s: string, sep: char): (r: string)
    ensures StartsWith(s, r)
    ensures forall j | 0 <= j < |r| :: r[j] != sep
    ensures |r| < |s| ==> s[|r|] == sep
  {
    s[..FirstIndexOf(s, sep)]
  }

  /** JavaScript `s.split(sep).pop()` for a one-character separator: the
      text after the last `sep`, or all of `s` when there is none. */
  function AfterLast(s: string, sep: char): (r: string)
    ensures |r| <= |s| && r == s[|s| - |r|..]
  {
    s[LastIndexOf(s, sep) + 1..]
  }

  /** The last field holds no separator, and it is all of `s` unless a
      separator stands just before it. */
  lemma AfterLastSpec(s: string, sep: char)
    ensures var r := AfterLast(s, sep);
      (forall j | 0 <= j < |r| :: r[j] != sep)
      && (|r| < |s| ==> s[|s| - |r| - 1] == sep)
      && (sep !in s ==> r == s)
  {
    var k := LastIndexOf(s, sep);
    var r := AfterLast(s, sep);
    forall j | 0 <= j < |r| ensures r[j] != sep {
      assert r[j] == s[k + 1 + j];
    }
    assert k >= 0 ==> s[k] in s;
  }
}
