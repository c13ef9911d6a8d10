/** Reading one adapter reply: noise stripped, lines kept, the whole classified
    (core/adapter/src/response.rs). */
module Response {
  import opened Wrappers
  import opened Text
  import opened Hex

  datatype ResponseClass =
    | Ok | Data | Info
    | NoData | NotUnderstood | UnableToConnect | SearchingTimedOut
    | BusError | Stopped | BufferFull | AdapterError | Timeout
  {
    predicate IsSuccess() {
      Ok? || Data? || Info?
    }
  }

  datatype AdapterResponse = AdapterResponse(command: string, lines: seq<string>, classified: ResponseClass, searched: bool)

  predicate IsAlphanumeric(c: char) {
    '0' <= c <= '9' || 'A' <= c <= 'Z' || 'a' <= c <= 'z'
  }

  /** Letters and digits only, upper-cased. */
  function Squash(line: string): string {
    if line == [] then []
    else (if IsAlphanumeric(line[0]) then [Upper(line[0])] else []) + Squash(line[1..])
  }

  /** Hex digits with trailing colons: one token of adapter output. */
  predicate IsHexToken(token: string) {
    var digits := TrimEndMatches(token, ':');
    digits != [] && AllHex(digits)
  }

  predicate IsHexLine(line: string) {
    Tokens(line) != [] && forall i :: 0 <= i < |Tokens(line)| ==> IsHexToken(Tokens(line)[i])
  }

  /** The scan `is_hex_line` makes, stopping at the first token that is not hex. */
  method ScanHexLine(line: string) returns (hex: bool)
    ensures hex <==> IsHexLine(line)
  {
    var any := false;
    var tokens := Tokens(line);
    for i := 0 to |tokens|
      invariant any <==> i > 0
      invariant forall k :: 0 <= k < i ==> IsHexToken(tokens[k])
    {
      if !IsHexToken(tokens[i]) {
        return false;
      }
      any := true;
    }
    return any;
  }

  /** What one line of a reply says about the whole of it, if it says a failure. */
  function FailureOf(line: string): Option<ResponseClass> {
    var l := Squash(line);
    if line != [] && forall i :: 0 <= i < |line| ==> line[i] == '?' then Some(NotUnderstood)
    else if Contains(l, "UNABLETOCONNECT") || Contains(l, "NABLETO") then Some(UnableToConnect)
    else if Contains(l, "NODATA") then Some(NoData)
    else if Contains(l, "BUFFERFULL") then Some(BufferFull)
    else if Contains(l, "STOPPED") then Some(Stopped)
    else if Contains(l, "BUSINIT") && (Contains(l, "ERR") || l == "BUSINITBUS") then Some(BusError)
    else if || Contains(l, "BUSBUSY") || Contains(l, "BUSERROR") || Contains(l, "CANERROR")
            || Contains(l, "FBERROR") || Contains(l, "DATAERROR") || Contains(l, "RXERROR") then Some(BusError)
    else if l == "ERROR" || "ERR" <= l then Some(AdapterError)
    else None
  }

  /** The first failure among the lines decides. */
  function FirstFailure(lines: seq<string>): Option<ResponseClass> {
    if lines == [] then None
    else if FailureOf(lines[0]).Some? then FailureOf(lines[0])
    else FirstFailure(lines[1..])
  }

  function Classify(lines: seq<string>, terminated: bool): ResponseClass {
    if !terminated then Timeout
    else if lines == [] then NoData
    else if FirstFailure(lines).Some? then FirstFailure(lines).value
    else if forall i :: 0 <= i < |lines| ==> UpperAll(lines[i]) == "OK" then Ok
    else if exists i :: 0 <= i < |lines| && IsHexLine(lines[i]) then Data
    else Info
  }

  method ClassifyLines(lines: seq<string>, terminated: bool) returns (class_: ResponseClass)
    ensures class_ == Classify(lines, terminated)
  {
    if !terminated {
      return Timeout;
    }
    if lines == [] {
      return NoData;
    }
    for i := 0 to |lines|
      invariant FirstFailure(lines[i..]) == FirstFailure(lines)
    {
      assert lines[i..][1..] == lines[i + 1..];
      if FailureOf(lines[i]).Some? {
        return FailureOf(lines[i]).value;
      }
    }
    var ok := forall i :: 0 <= i < |lines| ==> UpperAll(lines[i]) == "OK";
    if ok {
      return Ok;
    }
    for i := 0 to |lines|
      invariant forall k :: 0 <= k < i ==> !IsHexLine(lines[k])
    {
      var hex := ScanHexLine(lines[i]);
      if hex {
        return Data;
      }
    }
    return Info;
  }

  /** A piece of the raw reply without its prompt. */
  function Cleaned(piece: string): string {
    Trim(TrimEndMatches(Trim(piece), '>'))
  }

  predicate IsSearching(line: string) {
    UpperAll(line) == "SEARCHING..." || UpperAll(line) == "SEARCHING"
  }

  predicate IsContent(line: string, echo: string) {
    line != [] && Normalize(line) != echo && !IsSearching(line)
  }

  /** The lines left when blanks, echoes and progress are removed. */
  function Kept(pieces: seq<string>, echo: string): seq<string> {
    if pieces == [] then []
    else (if IsContent(Cleaned(pieces[0]), echo) then [Cleaned(pieces[0])] else []) + Kept(pieces[1..], echo)
  }

  predicate IsProgress(line: string, echo: string) {
    line != [] && Normalize(line) != echo && IsSearching(line)
  }

  /** How many pieces only report a protocol search. */
  function ProgressCount(pieces: seq<string>, echo: string): nat {
    if pieces == [] then 0
    else (if IsProgress(Cleaned(pieces[0]), echo) then 1 else 0) + ProgressCount(pieces[1..], echo)
  }

  predicate Searched(pieces: seq<string>, echo: string) {
    ProgressCount(pieces, echo) > 0
  }

  function ParseReply(command: string, raw: string, terminated: bool): AdapterResponse {
    var pieces := SplitLines(raw);
    var lines := Kept(pieces, Normalize(command));
    AdapterResponse(command, lines, Classify(lines, terminated), Searched(pieces, Normalize(command)))
  }

  method Parse(command: string, raw: string, terminated: bool) returns (r: AdapterResponse)
    ensures r == ParseReply(command, raw, terminated)
  {
    var lines, searched := KeepLines(SplitLines(raw), Normalize(command));
    var classified := ClassifyLines(lines, terminated);
    r := AdapterResponse(command, lines, classified, searched);
  }

  method KeepLines(pieces: seq<string>, echo: string) returns (lines: seq<string>, searched: bool)
    ensures lines == Kept(pieces, echo)
    ensures searched == Searched(pieces, echo)
  {
    hide Cleaned, Normalize, IsSearching, Kept, ProgressCount;
    searched := false;
    lines := [];
    NothingKept(echo);
    assert pieces[0..] == pieces;
    assert lines + Kept(pieces, echo) == Kept(pieces, echo);
    ghost var seen: nat := 0;
    for i := 0 to |pieces|
      invariant lines + Kept(pieces[i..], echo) == Kept(pieces, echo)
      invariant seen + ProgressCount(pieces[i..], echo) == ProgressCount(pieces, echo)
      invariant searched <==> seen > 0
    {
      var t := Cleaned(pieces[i]);
      KeptNext(lines, pieces, i, echo);
      if t == [] {
        continue;
      }
      if Normalize(t) == echo {
        continue;
      }
      if IsSearching(t) {
        searched, seen := true, seen + 1;
        continue;
      }
      lines := lines + [t];
    }
    assert pieces[|pieces|..] == [];
    assert lines + [] == lines;
  }

  lemma NothingKept(echo: string)
    ensures Kept([], echo) == [] && ProgressCount([], echo) == 0
  {
  }

  /** One piece accounted for: what is kept so far and what is still to come make the same whole. */
  lemma KeptNext(lines: seq<string>, pieces: seq<string>, i: nat, echo: string)
    requires i < |pieces|
    ensures var t, rest := Cleaned(pieces[i]), Kept(pieces[i + 1..], echo);
            lines + Kept(pieces[i..], echo) == (if IsContent(t, echo) then lines + [t] else lines) + rest
    ensures var t := Cleaned(pieces[i]);
            ProgressCount(pieces[i..], echo) == (if IsProgress(t, echo) then 1 else 0) + ProgressCount(pieces[i + 1..], echo)
  {
    hide Cleaned, IsContent, IsProgress;
    var t, rest := Cleaned(pieces[i]), Kept(pieces[i + 1..], echo);
    assert pieces[i..][0] == pieces[i] && pieces[i..][1..] == pieces[i + 1..];
    assert lines + ([t] + rest) == (lines + [t]) + rest;
    assert lines + ([] + rest) == lines + rest;
  }

  // ---- Hexadecimal output is never taken for an error ----

  lemma {:induction false} TrimEndMatchesChars(s: string, c: char)
    ensures forall d :: d in s ==> d in TrimEndMatches(s, c) || d == c
  {
    if s != [] && s[|s| - 1] == c {
      TrimEndMatchesChars(s[..|s| - 1], c);
      assert s == s[..|s| - 1] + [c];
    }
  }

  predicate InSome(tokens: seq<string>, c: char) {
    exists i :: 0 <= i < |tokens| && c in tokens[i]
  }

  lemma {:induction false} TokenCharacters(s: string, c: char)
    requires c in s && !IsWhitespace(c)
    ensures InSome(Tokens(s), c)
  {
    if IsWhitespace(s[0]) {
      TokenCharacters(s[1..], c);
    } else {
      var n := TokenLength(s);
      var rest := Tokens(s[n..]);
      if c in s[..n] {
        assert c in Tokens(s)[0];
      } else {
        assert s == s[..n] + s[n..];
        TokenCharacters(s[n..], c);
        var i :| 0 <= i < |rest| && c in rest[i];
        assert Tokens(s)[i + 1] == rest[i];
      }
    }
  }

  /** The characters of a hex line: digits, colons and whitespace. */
  lemma HexLineCharacters(line: string)
    requires IsHexLine(line)
    ensures forall c :: c in line ==> IsWhitespace(c) || IsHexDigit(c) || c == ':'
    ensures exists c :: c in line && IsHexDigit(c)
  {
    forall c | c in line
      ensures IsWhitespace(c) || IsHexDigit(c) || c == ':'
    {
      if !IsWhitespace(c) {
        TokenCharacters(line, c);
        var i :| 0 <= i < |Tokens(line)| && c in Tokens(line)[i];
        TrimEndMatchesChars(Tokens(line)[i], ':');
      }
    }
    SomeDigit(line);
  }

  lemma {:induction false} SomeDigit(line: string)
    requires IsHexLine(line)
    ensures exists c :: c in line && IsHexDigit(c)
  {
    var tok := Tokens(line)[0];
    assert IsHexToken(tok);
    TrimEndPrefix(tok, ':');
    assert IsHexDigit(tok[0]);
    FirstToken(line);
  }

  lemma {:induction false} TrimEndPrefix(s: string, c: char)
    ensures TrimEndMatches(s, c) <= s
  {
    if s != [] && s[|s| - 1] == c {
      TrimEndPrefix(s[..|s| - 1], c);
    }
  }

  lemma {:induction false} FirstToken(s: string)
    requires Tokens(s) != []
    ensures forall c :: c in Tokens(s)[0] ==> c in s
  {
    if IsWhitespace(s[0]) {
      FirstToken(s[1..]);
    }
  }

  /** No hex line can squash into an error banner: every banner has a letter past F. */
  lemma HexLineIsNoFailure(line: string)
    requires IsHexLine(line)
    ensures FailureOf(line) == None
    ensures UpperAll(line) != "OK"
  {
    HexLineCharacters(line);
    var l := Squash(line);
    SquashHex(line);
    var d :| d in line && IsHexDigit(d);
    var k :| 0 <= k < |line| && line[k] == d;
    assert line[k] != '?';
    NoTimingBanner(l);
    NoBusBanner(l);
    NoPlainError(l);
    assert Upper(line[k]) != 'O' && Upper(line[k]) != 'K';
    assert "OK" == ['O', 'K'];
  }

  /** Squashing a hex line leaves digits. */
  lemma {:induction false} SquashHex(line: string)
    requires forall c :: c in line ==> IsWhitespace(c) || IsHexDigit(c) || c == ':'
    ensures HexOnly(Squash(line))
  {
    if line != [] {
      SquashHex(line[1..]);
      assert line[0] in line;
    }
  }

  predicate HexOnly(l: string) {
    forall c :: c in l ==> IsHexDigit(c)
  }

  lemma NoTimingBanner(l: string)
    requires HexOnly(l)
    ensures !Contains(l, "UNABLETOCONNECT") && !Contains(l, "NABLETO") && !Contains(l, "NODATA")
    ensures !Contains(l, "BUFFERFULL") && !Contains(l, "STOPPED") && !Contains(l, "BUSINIT")
  {
    NotHex(l, "UNABLETOCONNECT", 0);
    NotHex(l, "NABLETO", 0);
    NotHex(l, "NODATA", 0);
    NotHex(l, "BUFFERFULL", 1);
    NotHex(l, "STOPPED", 0);
    NotHex(l, "BUSINIT", 1);
  }

  lemma NoBusBanner(l: string)
    requires HexOnly(l)
    ensures !Contains(l, "BUSBUSY") && !Contains(l, "BUSERROR") && !Contains(l, "CANERROR")
    ensures !Contains(l, "FBERROR") && !Contains(l, "DATAERROR") && !Contains(l, "RXERROR")
  {
    NotHex(l, "BUSBUSY", 1);
    NotHex(l, "BUSERROR", 1);
    NotHex(l, "CANERROR", 2);
    NotHex(l, "FBERROR", 3);
    NotHex(l, "DATAERROR", 2);
    NotHex(l, "RXERROR", 0);
  }

  lemma NoPlainError(l: string)
    requires HexOnly(l)
    ensures l != "ERROR" && !("ERR" <= l)
  {
    if |l| >= 2 {
      assert l[1] in l;
      assert "ERROR"[1] == 'R' && "ERR"[1] == 'R';
    }
  }

  lemma NotHex(l: string, banner: string, k: nat)
    requires HexOnly(l)
    requires k < |banner| && !IsHexDigit(banner[k])
    ensures !Contains(l, banner)
  {
    LacksCharacter(l, banner, banner[k]);
  }

  /** Nothing but hex lines is always data, however many modules answered. */
  lemma {:induction false} HexLinesAreData(lines: seq<string>)
    requires lines != [] && forall i :: 0 <= i < |lines| ==> IsHexLine(lines[i])
    ensures Classify(lines, true) == Data
  {
    NoFailures(lines);
    HexLineIsNoFailure(lines[0]);
    assert IsHexLine(lines[0]);
  }

  lemma {:induction false} NoFailures(lines: seq<string>)
    requires forall i :: 0 <= i < |lines| ==> IsHexLine(lines[i])
    ensures FirstFailure(lines) == None
  {
    if lines != [] {
      HexLineIsNoFailure(lines[0]);
      NoFailures(lines[1..]);
    }
  }

  /** One failing line anywhere makes the whole reply a failure, whatever else it holds. */
  lemma {:induction false} AnyFailureFails(lines: seq<string>, i: nat)
    requires i < |lines| && FailureOf(lines[i]).Some?
    ensures !Classify(lines, true).IsSuccess()
  {
    FirstFailureFound(lines, i);
  }

  lemma {:induction false} FirstFailureFound(lines: seq<string>, i: nat)
    requires i < |lines| && FailureOf(lines[i]).Some?
    ensures FirstFailure(lines).Some? && !FirstFailure(lines).value.IsSuccess()
  {
    if FailureOf(lines[0]).None? {
      FirstFailureFound(lines[1..], i - 1);
    }
  }
}
