/** Recorded adapter conversations as text (`Transcript`, simulator/src/replay.rs). */
module Transcripts {
  import opened Wrappers
  import opened Text

  datatype Exchange = Exchange(command: string, lines: seq<string>)

  datatype Transcript = Transcript(comments: seq<string>, exchanges: seq<Exchange>)

  datatype ParseError = ReplyBeforeCommand | UnknownLine

  // ---- Lines of a text ----

  function FirstBreak(s: string): (n: nat)
    ensures n <= |s| && (n < |s| ==> s[n] == '\n') && forall i :: 0 <= i < n ==> s[i] != '\n'
  {
    if s == "" || s[0] == '\n' then 0 else 1 + FirstBreak(s[1..])
  }

  function DropReturn(s: string): string {
    if s != "" && s[|s| - 1] == '\r' then s[..|s| - 1] else s
  }

  /** `str::lines` */
  function Lines(text: string): seq<string> {
    if text == "" then []
    else
      var n := FirstBreak(text);
      if n == |text| then [text] else [DropReturn(text[..n])] + Lines(text[n + 1..])
  }

  // ---- Parsing ----

  /** The transcript so far and the exchange still open. */
  datatype Parsing = Parsing(comments: seq<string>, exchanges: seq<Exchange>, current: Option<Exchange>)
  {
    function Closed(): seq<Exchange> {
      if current.Some? then exchanges + [current.value] else exchanges
    }

    function Finish(): Transcript {
      Transcript(comments, Closed())
    }
  }

  const START := Parsing([], [], None)

  /** One line: a comment, a command, a reply or a blank. */
  function ParseLine(st: Parsing, raw: string): Result<Parsing, ParseError> {
    var trimmed := TrimStart(TrimEnd(raw));
    if trimmed == "" then Success(st)
    else if trimmed[0] == '#' then
      Success(if st.current.None? then st.(comments := st.comments + [Trim(trimmed[1..])]) else st)
    else if trimmed[0] == '>' then
      Success(st.(exchanges := st.Closed(), current := Some(Exchange(Trim(trimmed[1..]), []))))
    else if trimmed[0] == '<' then
      match st.current
      case Some(e) => Success(st.(current := Some(e.(lines := e.lines + [Trim(trimmed[1..])]))))
      case None => Failure(ReplyBeforeCommand)
    else Failure(UnknownLine)
  }

  function ParseLines(lines: seq<string>, st: Parsing): Result<Transcript, ParseError> {
    if lines == [] then Success(st.Finish())
    else
      match ParseLine(st, lines[0])
      case Failure(e) => Failure(e)
      case Success(next) => ParseLines(lines[1..], next)
  }

  function ParseText(text: string): Result<Transcript, ParseError> {
    ParseLines(Lines(text), START)
  }

  /** `Transcript::parse` */
  method Parse(text: string) returns (r: Result<Transcript, ParseError>)
    ensures r == ParseText(text)
  {
    var comments: seq<string>, exchanges: seq<Exchange>, current: Option<Exchange> := [], [], None;
    var lines := Lines(text);
    for i := 0 to |lines|
      invariant ParseLines(lines[i..], Parsing(comments, exchanges, current)) == ParseLines(lines, START)
    {
      var line := TrimEnd(lines[i]);
      var trimmed := TrimStart(line);
      assert lines[i..][0] == lines[i] && lines[i..][1..] == lines[i + 1..];
      if trimmed == "" {
        continue;
      }
      if trimmed[0] == '#' {
        if current.None? {
          comments := comments + [Trim(trimmed[1..])];
        }
        continue;
      }
      if trimmed[0] == '>' {
        if current.Some? {
          exchanges := exchanges + [current.value];
        }
        current := Some(Exchange(Trim(trimmed[1..]), []));
      } else if trimmed[0] == '<' {
        if current.None? {
          return Failure(ReplyBeforeCommand);
        }
        current := Some(current.value.(lines := current.value.lines + [Trim(trimmed[1..])]));
      } else {
        return Failure(UnknownLine);
      }
    }
    assert lines[|lines|..] == [];
    if current.Some? {
      exchanges := exchanges + [current.value];
    }
    r := Success(Transcript(comments, exchanges));
  }

  // ---- Printing ----

  function Marked(mark: char, s: string): string {
    [mark, ' '] + s
  }

  function MarkedText(mark: char, lines: seq<string>, rest: string): string {
    if lines == [] then rest else Marked(mark, lines[0]) + ['\n'] + MarkedText(mark, lines[1..], rest)
  }

  function ExchangesText(exchanges: seq<Exchange>): string {
    if exchanges == [] then ""
    else Marked('>', exchanges[0].command) + ['\n'] + MarkedText('<', exchanges[0].lines, ExchangesText(exchanges[1..]))
  }

  function ToText(t: Transcript): string {
    MarkedText('#', t.comments, ExchangesText(t.exchanges))
  }

  /** `Transcript::to_text` */
  method Render(t: Transcript) returns (s: string)
    ensures s == ToText(t)
  {
    s := RenderLines("", '#', t.comments, ExchangesText(t.exchanges));
    for i := 0 to |t.exchanges|
      invariant s + ExchangesText(t.exchanges[i..]) == ToText(t)
    {
      var e := t.exchanges[i];
      ExchangesNext(s, t.exchanges, i);
      s := s + "> " + e.command + "\n";
      s := RenderLines(s, '<', e.lines, ExchangesText(t.exchanges[i + 1..]));
    }
    assert t.exchanges[|t.exchanges|..] == [];
    assert s + "" == s;
  }

  lemma ExchangesNext(s: string, exchanges: seq<Exchange>, i: nat)
    requires i < |exchanges|
    ensures var e := exchanges[i];
            s + ExchangesText(exchanges[i..]) ==
            (s + "> " + e.command + "\n") + MarkedText('<', e.lines, ExchangesText(exchanges[i + 1..]))
  {
    hide MarkedText;
    var e := exchanges[i];
    assert exchanges[i..][0] == e && exchanges[i..][1..] == exchanges[i + 1..];
    assert Marked('>', e.command) + ['\n'] == "> " + e.command + "\n";
  }

  method RenderLines(before: string, mark: char, lines: seq<string>, ghost rest: string) returns (s: string)
    ensures s + rest == before + MarkedText(mark, lines, rest)
  {
    s := before;
    for i := 0 to |lines|
      invariant s + MarkedText(mark, lines[i..], rest) == before + MarkedText(mark, lines, rest)
    {
      assert lines[i..][0] == lines[i] && lines[i..][1..] == lines[i + 1..];
      ghost var was := s;
      s := s + [mark, ' '] + lines[i] + "\n";
      assert s == was + (Marked(mark, lines[i]) + ['\n']);
    }
    assert lines[|lines|..] == [];
  }

  // ---- The round trip ----

  /** A string a line of the text can carry. */
  predicate Kept(s: string) {
    Trimmed(s) && '\n' !in s
  }

  predicate AllKept(lines: seq<string>) {
    forall i :: 0 <= i < |lines| ==> Kept(lines[i])
  }

  predicate KeptTranscript(t: Transcript) {
    && AllKept(t.comments)
    && forall i :: 0 <= i < |t.exchanges| ==> Kept(t.exchanges[i].command) && AllKept(t.exchanges[i].lines)
  }

  lemma LinesPiece(a: string, rest: string)
    requires '\n' !in a && a != "" && a[|a| - 1] != '\r'
    ensures Lines(a + ['\n'] + rest) == [a] + Lines(rest)
  {
    var text := a + ['\n'] + rest;
    var n := FirstBreak(text);
    assert text[|a|] == '\n';
    assert forall i :: 0 <= i < |a| ==> text[i] == a[i];
    assert n == |a|;
    assert text[..n] == a && text[n + 1..] == rest;
  }

  lemma TrimBlank(s: string)
    requires Trimmed(s)
    ensures Trim([' '] + s) == s
  {
    assert ([' '] + s)[1..] == s;
    TrimmedIsFixed(s);
    assert TrimStart([' '] + s) == TrimStart(s);
  }

  /** What a marked line reads as: its mark and, the mark taken off and trimmed, its text. */
  lemma MarkedLine(mark: char, s: string)
    requires Kept(s) && !IsWhitespace(mark)
    ensures var trimmed := TrimStart(TrimEnd(Marked(mark, s)));
            trimmed != "" && trimmed[0] == mark && Trim(trimmed[1..]) == s
  {
    var m := Marked(mark, s);
    if s == "" {
      assert m[..1] == [mark];
      assert TrimEnd(m) == TrimEnd([mark]) == [mark];
      assert [mark][1..] == "";
    } else {
      assert m[|m| - 1] == s[|s| - 1];
      assert m[1..] == [' '] + s;
      TrimBlank(s);
    }
  }

  lemma MarkedIsLine(mark: char, s: string, rest: string)
    requires Kept(s) && mark != '\n'
    ensures Lines(Marked(mark, s) + ['\n'] + rest) == [Marked(mark, s)] + Lines(rest)
  {
    var m := Marked(mark, s);
    assert m[|m| - 1] == if s == "" then ' ' else s[|s| - 1];
    LinesPiece(m, rest);
  }

  /** What a marked line does to the parse. */
  function AfterMark(st: Parsing, mark: char, s: string): Parsing
    requires mark == '<' ==> st.current.Some?
  {
    if mark == '#' then (if st.current.None? then st.(comments := st.comments + [s]) else st)
    else if mark == '>' then st.(exchanges := st.Closed(), current := Some(Exchange(s, [])))
    else if mark == '<' then st.(current := Some(st.current.value.(lines := st.current.value.lines + [s])))
    else st
  }

  lemma ParseMarked(mark: char, s: string, rest: string, st: Parsing)
    requires Kept(s) && (mark == '#' || mark == '>' || mark == '<') && (mark == '<' ==> st.current.Some?)
    ensures ParseLines(Lines(Marked(mark, s) + ['\n'] + rest), st) == ParseLines(Lines(rest), AfterMark(st, mark, s))
  {
    hide Lines, Kept, Trim, TrimEnd, TrimStart;
    MarkedIsLine(mark, s, rest);
    MarkedLine(mark, s);
    assert ([Marked(mark, s)] + Lines(rest))[1..] == Lines(rest);
  }

  lemma {:induction false} ParseComments(comments: seq<string>, rest: string, st: Parsing)
    requires AllKept(comments) && st.current.None?
    ensures ParseLines(Lines(MarkedText('#', comments, rest)), st) == ParseLines(Lines(rest), st.(comments := st.comments + comments))
  {
    hide Lines, Kept, ParseLines, Marked;
    if comments == [] {
      assert st.comments + comments == st.comments;
    } else {
      ParseMarked('#', comments[0], MarkedText('#', comments[1..], rest), st);
      var next := st.(comments := st.comments + [comments[0]]);
      ParseComments(comments[1..], rest, next);
      assert next.comments + comments[1..] == st.comments + comments;
    }
  }

  lemma {:induction false} ParseReplies(lines: seq<string>, rest: string, st: Parsing)
    requires AllKept(lines) && st.current.Some?
    ensures ParseLines(Lines(MarkedText('<', lines, rest)), st)
         == ParseLines(Lines(rest), st.(current := Some(st.current.value.(lines := st.current.value.lines + lines))))
  {
    hide Lines, Kept, ParseLines, Marked;
    var e := st.current.value;
    if lines == [] {
      assert e.lines + lines == e.lines;
    } else {
      ParseMarked('<', lines[0], MarkedText('<', lines[1..], rest), st);
      ParseReplies(lines[1..], rest, st.(current := Some(e.(lines := e.lines + [lines[0]]))));
      assert e.lines + [lines[0]] + lines[1..] == e.lines + lines;
    }
  }

  lemma {:induction false} ParseExchanges(exchanges: seq<Exchange>, st: Parsing)
    requires forall i :: 0 <= i < |exchanges| ==> Kept(exchanges[i].command) && AllKept(exchanges[i].lines)
    ensures ParseLines(Lines(ExchangesText(exchanges)), st) == Success(Transcript(st.comments, st.Closed() + exchanges))
  {
    hide Kept, AllKept, Marked, MarkedText, ParseLine, FirstBreak, DropReturn;
    if exchanges == [] {
      assert st.Closed() + exchanges == st.Closed();
      assert Lines("") == [];
    } else {
      hide Lines, ParseLines;
      var e, rest := exchanges[0], ExchangesText(exchanges[1..]);
      ParseMarked('>', e.command, MarkedText('<', e.lines, rest), st);
      var started := AfterMark(st, '>', e.command);
      ParseReplies(e.lines, rest, started);
      assert [] + e.lines == e.lines;
      ParseExchanges(exchanges[1..], started.(current := Some(e)));
      assert st.Closed() + [e] + exchanges[1..] == st.Closed() + exchanges;
    }
  }

  /** Printing then parsing gives the transcript back. */
  lemma ParsePrinted(t: Transcript)
    requires KeptTranscript(t)
    ensures ParseText(ToText(t)) == Success(t)
  {
    ParseComments(t.comments, ExchangesText(t.exchanges), START);
    assert [] + t.comments == t.comments;
    ParseExchanges(t.exchanges, START.(comments := t.comments));
    assert [] + t.exchanges == t.exchanges;
  }

  // ---- Every parse is in normal form ----

  predicate KeptParsing(st: Parsing) {
    && AllKept(st.comments)
    && (forall i :: 0 <= i < |st.exchanges| ==> Kept(st.exchanges[i].command) && AllKept(st.exchanges[i].lines))
    && (st.current.Some? ==> Kept(st.current.value.command) && AllKept(st.current.value.lines))
  }

  lemma TrimKept(s: string)
    requires '\n' !in s
    ensures Kept(Trim(s))
  {
    TrimIsTrimmed(s);
    TrimChars(s);
  }

  lemma ParseLineKept(st: Parsing, raw: string)
    requires KeptParsing(st) && '\n' !in raw && ParseLine(st, raw).Success?
    ensures KeptParsing(ParseLine(st, raw).value)
  {
    hide Kept;
    TrimEndChars(raw);
    TrimStartChars(TrimEnd(raw));
    var trimmed := TrimStart(TrimEnd(raw));
    if trimmed != "" {
      assert '\n' !in trimmed[1..];
      TrimKept(trimmed[1..]);
    }
  }

  lemma {:induction false} ParseLinesKept(lines: seq<string>, st: Parsing)
    requires KeptParsing(st) && (forall i :: 0 <= i < |lines| ==> '\n' !in lines[i]) && ParseLines(lines, st).Success?
    ensures KeptTranscript(ParseLines(lines, st).value)
  {
    hide ParseLine, Kept, AllKept;
    if lines != [] {
      ParseLineKept(st, lines[0]);
      ParseLinesKept(lines[1..], ParseLine(st, lines[0]).value);
    }
  }

  lemma {:induction false} LinesUnbroken(text: string)
    ensures forall i :: 0 <= i < |Lines(text)| ==> '\n' !in Lines(text)[i]
  {
    if text != "" {
      var n := FirstBreak(text);
      if n < |text| {
        LinesUnbroken(text[n + 1..]);
      }
    }
  }

  lemma ParsedIsKept(text: string)
    requires ParseText(text).Success?
    ensures KeptTranscript(ParseText(text).value)
  {
    LinesUnbroken(text);
    ParseLinesKept(Lines(text), START);
  }

  /** Exactly the transcripts of trimmed, unbroken strings come back from their own text. */
  lemma RoundTripExactly(t: Transcript)
    ensures ParseText(ToText(t)) == Success(t) <==> KeptTranscript(t)
  {
    if KeptTranscript(t) {
      ParsePrinted(t);
    } else if ParseText(ToText(t)).Success? {
      ParsedIsKept(ToText(t));
    }
  }

  /** Printing what was parsed is a normal form: parsing it again changes nothing. */
  lemma NormalForm(text: string)
    requires ParseText(text).Success?
    ensures ParseText(ToText(ParseText(text).value)) == ParseText(text)
  {
    ParsedIsKept(text);
    ParsePrinted(ParseText(text).value);
  }
}
