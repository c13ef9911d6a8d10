/** The string operations the modelled code takes from its standard library. */
module Text {

  /** `char::is_whitespace`: the Unicode White_Space property. */
  predicate IsWhitespace(c: char) {
    || '\t' <= c <= '\r' || c == ' ' || c == '\U{0085}' || c == '\U{00A0}' || c == '\U{1680}'
    || '\U{2000}' <= c <= '\U{200A}' || c == '\U{2028}' || c == '\U{2029}' || c == '\U{202F}'
    || c == '\U{205F}' || c == '\U{3000}'
  }

  function TrimStart(s: string): (t: string)
    ensures |t| <= |s|
  {
    if s != [] && IsWhitespace(s[0]) then TrimStart(s[1..]) else s
  }

  function TrimEnd(s: string): (t: string)
    ensures |t| <= |s|
  {
    if s != [] && IsWhitespace(s[|s| - 1]) then TrimEnd(s[..|s| - 1]) else s
  }

  function Trim(s: string): string {
    TrimEnd(TrimStart(s))
  }

  /** `trim_end_matches(c)` */
  function TrimEndMatches(s: string, c: char): (t: string)
    ensures |t| <= |s|
  {
    if s != [] && s[|s| - 1] == c then TrimEndMatches(s[..|s| - 1], c) else s
  }

  /** The characters of `s` that are not whitespace. */
  function Unspaced(s: string): (t: string)
    ensures forall c :: c in t <==> c in s && !IsWhitespace(c)
  {
    if s == [] then [] else (if IsWhitespace(s[0]) then [] else [s[0]]) + Unspaced(s[1..])
  }

  /** `to_ascii_uppercase` on one character. */
  function Upper(c: char): char {
    if 'a' <= c <= 'z' then c - 'a' + 'A' else c
  }

  function UpperAll(s: string): (t: string)
    ensures |t| == |s| && forall i :: 0 <= i < |s| ==> t[i] == Upper(s[i])
  {
    if s == [] then [] else [Upper(s[0])] + UpperAll(s[1..])
  }

  /** Whitespace removed and letters upper-cased: how commands are compared. */
  function Normalize(s: string): string {
    UpperAll(Unspaced(s))
  }

  /** `t` occurs in `s` at position `i`. */
  predicate OccursAt(s: string, t: string, i: int) {
    0 <= i <= |s| - |t| && s[i..i + |t|] == t
  }

  predicate Contains(s: string, t: string) {
    exists i :: 0 <= i <= |s| - |t| && OccursAt(s, t, i)
  }

  /** No line break in it. */
  predicate OneLine(s: string) {
    '\r' !in s && '\n' !in s
  }

  /** Concatenation of all the pieces. */
  function Join(pieces: seq<string>): string {
    if pieces == [] then "" else pieces[0] + Join(pieces[1..])
  }

  /** `split(['\r', '\n'])`: the pieces between carriage returns and line feeds. */
  function SplitLines(s: string): (pieces: seq<string>)
    ensures |pieces| >= 1
  {
    if s == [] then [""]
    else if s[0] == '\r' || s[0] == '\n' then [""] + SplitLines(s[1..])
    else
      var rest := SplitLines(s[1..]);
      [[s[0]] + rest[0]] + rest[1..]
  }

  /** Number of characters before the first whitespace. */
  function TokenLength(s: string): (n: nat)
    ensures n <= |s|
    ensures forall i :: 0 <= i < n ==> !IsWhitespace(s[i])
    ensures n < |s| ==> IsWhitespace(s[n])
  {
    if s == [] || IsWhitespace(s[0]) then 0 else 1 + TokenLength(s[1..])
  }

  /** `split_whitespace` */
  function Tokens(s: string): seq<string> {
    if s == [] then []
    else if IsWhitespace(s[0]) then Tokens(s[1..])
    else
      var n := TokenLength(s);
      assert n > 0;
      [s[..n]] + Tokens(s[n..])
  }

  // ---- Lemmas ----

  /** No break characters in `a`: it is the first piece. */
  lemma {:induction false} SplitPiece(a: string, sep: char, b: string)
    requires sep == '\r' || sep == '\n'
    requires OneLine(a)
    ensures SplitLines(a + [sep] + b) == [a] + SplitLines(b)
  {
    var s := a + [sep] + b;
    if a == [] {
      assert s[1..] == b;
    } else {
      assert s[1..] == a[1..] + [sep] + b;
      SplitPiece(a[1..], sep, b);
      assert [a[0]] + a[1..] == a;
    }
  }

  lemma {:induction false} TokenPiece(tok: string, rest: string)
    requires tok != [] && forall c :: c in tok ==> !IsWhitespace(c)
    ensures Tokens(tok + [' '] + rest) == [tok] + Tokens(rest)
  {
    var s := tok + [' '] + rest;
    var n := TokenLength(s);
    assert s[|tok|] == ' ';
    assert forall i :: 0 <= i < |tok| ==> s[i] == tok[i];
    assert n == |tok|;
    assert s[..n] == tok;
    assert s[n..] == [' '] + rest;
    assert s[n..][1..] == rest;
  }

  lemma {:induction false} TokenAlone(tok: string)
    requires tok != [] && forall c :: c in tok ==> !IsWhitespace(c)
    ensures Tokens(tok) == [tok]
  {
    var n := TokenLength(tok);
    assert n == |tok|;
    assert tok[..n] == tok;
    assert tok[n..] == "";
  }

  lemma {:induction false} UnspacedAppend(a: string, b: string)
    ensures Unspaced(a + b) == Unspaced(a) + Unspaced(b)
  {
    if a == [] {
      assert a + b == b;
    } else {
      assert (a + b)[1..] == a[1..] + b;
      UnspacedAppend(a[1..], b);
    }
  }

  lemma {:induction false} UnspacedSame(s: string)
    requires forall c :: c in s ==> !IsWhitespace(c)
    ensures Unspaced(s) == s
  {
    if s != [] {
      UnspacedSame(s[1..]);
    }
  }

  /** Nothing to upper-case. */
  lemma UpperSame(s: string)
    requires forall i :: 0 <= i < |s| ==> !('a' <= s[i] <= 'z')
    ensures UpperAll(s) == s
  {
    assert forall i :: 0 <= i < |s| ==> Upper(s[i]) == s[i];
  }

  /** Trimming removes nothing but whitespace at the ends. */
  lemma {:induction false} TrimStartUnspaced(s: string)
    ensures Unspaced(TrimStart(s)) == Unspaced(s)
  {
    if s != [] && IsWhitespace(s[0]) {
      TrimStartUnspaced(s[1..]);
    }
  }

  lemma {:induction false} TrimEndUnspaced(s: string)
    ensures Unspaced(TrimEnd(s)) == Unspaced(s)
  {
    if s != [] && IsWhitespace(s[|s| - 1]) {
      TrimEndUnspaced(s[..|s| - 1]);
      assert s == s[..|s| - 1] + [s[|s| - 1]];
      UnspacedAppend(s[..|s| - 1], [s[|s| - 1]]);
    }
  }

  lemma NormalizeTrim(s: string)
    ensures Normalize(Trim(s)) == Normalize(s)
  {
    TrimStartUnspaced(s);
    TrimEndUnspaced(TrimStart(s));
  }

  /** What trimming keeps. */
  lemma {:induction false} TrimStartChars(s: string)
    ensures forall c :: c in TrimStart(s) ==> c in s
  {
    if s != [] && IsWhitespace(s[0]) {
      TrimStartChars(s[1..]);
    }
  }

  lemma {:induction false} TrimEndChars(s: string)
    ensures forall c :: c in TrimEnd(s) ==> c in s
  {
    if s != [] && IsWhitespace(s[|s| - 1]) {
      TrimEndChars(s[..|s| - 1]);
    }
  }

  lemma TrimChars(s: string)
    ensures forall c :: c in Trim(s) ==> c in s
  {
    TrimStartChars(s);
    TrimEndChars(TrimStart(s));
  }

  /** A string that neither starts nor ends with whitespace is left alone. */
  predicate Trimmed(s: string) {
    s == [] || (!IsWhitespace(s[0]) && !IsWhitespace(s[|s| - 1]))
  }

  lemma TrimmedIsFixed(s: string)
    requires Trimmed(s)
    ensures Trim(s) == s
  {
  }

  lemma {:induction false} TrimEndTrimmed(s: string)
    requires s == [] || !IsWhitespace(s[0])
    ensures Trimmed(TrimEnd(s))
  {
    if s != [] && IsWhitespace(s[|s| - 1]) {
      TrimEndTrimmed(s[..|s| - 1]);
    }
  }

  lemma {:induction false} TrimStartStarts(s: string)
    ensures TrimStart(s) == [] || !IsWhitespace(TrimStart(s)[0])
  {
    if s != [] && IsWhitespace(s[0]) {
      TrimStartStarts(s[1..]);
    }
  }

  lemma TrimIsTrimmed(s: string)
    ensures Trimmed(Trim(s))
  {
    TrimStartStarts(s);
    TrimEndTrimmed(TrimStart(s));
  }

  /** A string without some character of `t` does not contain `t`. */
  lemma LacksCharacter(s: string, t: string, c: char)
    requires c in t && c !in s
    ensures !Contains(s, t)
  {
    var k :| 0 <= k < |t| && t[k] == c;
    forall i | 0 <= i <= |s| - |t|
      ensures !OccursAt(s, t, i)
    {
      assert s[i..i + |t|][k] == s[i + k];
    }
  }

  /** Lexicographic order on characters: the order of the modelled `BTreeMap<String, _>`. */
  predicate Less(a: string, b: string) {
    b != [] && (a == [] || a[0] < b[0] || (a[0] == b[0] && Less(a[1..], b[1..])))
  }

  lemma {:induction false} LessTotal(a: string, b: string)
    ensures a == b || Less(a, b) || Less(b, a)
  {
    if a != [] && b != [] && a[0] == b[0] {
      LessTotal(a[1..], b[1..]);
      assert a == [a[0]] + a[1..] && b == [b[0]] + b[1..];
    }
  }

  lemma {:induction false} LessTransitive(a: string, b: string, c: string)
    requires Less(a, b) && Less(b, c)
    ensures Less(a, c)
  {
    if a != [] && a[0] == b[0] && b[0] == c[0] {
      LessTransitive(a[1..], b[1..], c[1..]);
    }
  }

  lemma {:induction false} LessIrreflexive(a: string)
    ensures !Less(a, a)
  {
    if a != [] {
      LessIrreflexive(a[1..]);
    }
  }
}
