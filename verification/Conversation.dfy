/** A whole reply as text: the emulator prints it (simulator/src/elm.rs), the adapter parses,
    classifies and reassembles it (core/adapter/src/response.rs, elm327.rs). */
module Conversation {
  import opened Wrappers
  import opened Text
  import opened Hex
  import opened EcuReplies
  import opened IsoTp
  import opened FrameText
  import opened Response
  import opened Assemble
  import opened Interleaving
  import opened WireRoundTrip

  function Terminator(linefeeds: bool): string {
    if linefeeds then "\r\n" else "\r"
  }

  /** The lines with their terminators, then the blank line and the prompt. */
  function Rows(lines: seq<string>, linefeeds: bool): string {
    if lines == [] then "\r>" else lines[0] + Terminator(linefeeds) + Rows(lines[1..], linefeeds)
  }

  /** What the adapter reads back: the command echoed if echo is on, the lines, the prompt. */
  function ReplyText(command: string, echo: bool, linefeeds: bool, lines: seq<string>): string {
    (if echo then Trim(command) + "\r" else "") + Rows(lines, linefeeds)
  }

  /** `finish` */
  method Finish(out: string, lines: seq<string>, linefeeds: bool) returns (text: string)
    ensures text == out + Rows(lines, linefeeds)
  {
    text := out;
    for i := 0 to |lines|
      invariant text + Rows(lines[i..], linefeeds) == out + Rows(lines, linefeeds)
    {
      RowsNext(text, lines, linefeeds, i);
      text := text + lines[i];
      text := text + Terminator(linefeeds);
    }
    assert lines[|lines|..] == [];
    text := text + "\r" + ">";
  }

  lemma RowsNext(text: string, lines: seq<string>, linefeeds: bool, i: nat)
    requires i < |lines|
    ensures text + Rows(lines[i..], linefeeds) == text + lines[i] + Terminator(linefeeds) + Rows(lines[i + 1..], linefeeds)
  {
    assert lines[i..][0] == lines[i] && lines[i..][1..] == lines[i + 1..];
  }

  /** A line that survives the wire: no break in it, nothing at its ends to strip. */
  predicate CleanLine(line: string) {
    OneLine(line) && line != [] && Cleaned(line) == line
  }

  /** The lines a parse keeps. */
  function Contents(lines: seq<string>, echo: string): seq<string> {
    if lines == [] then []
    else (if IsContent(lines[0], echo) then [lines[0]] else []) + Contents(lines[1..], echo)
  }

  lemma KeptPieces(a: seq<string>, b: seq<string>, echo: string)
    requires |a| == 1
    ensures Kept(a + b, echo) == (if IsContent(Cleaned(a[0]), echo) then [Cleaned(a[0])] else []) + Kept(b, echo)
    ensures ProgressCount(a + b, echo) == (if IsProgress(Cleaned(a[0]), echo) then 1 else 0) + ProgressCount(b, echo)
  {
    assert (a + b)[0] == a[0] && (a + b)[1..] == b;
  }

  lemma BlankPiece()
    ensures Cleaned("") == "" && Cleaned(">") == ""
  {
    assert TrimEnd(">") == ">" && TrimStart(">") == ">";
    assert TrimEndMatches(">", '>') == TrimEndMatches(">"[..0], '>');
  }

  lemma SplitPrompt()
    ensures SplitLines("\r>") == ["", ">"]
  {
    assert "\r>"[1..] == ">" && ">"[1..] == "";
    assert SplitLines("") == [""] && [""][1..] == [];
    assert SplitLines(">") == [['>'] + ""] + [""][1..];
    assert ['>'] + "" == ">";
  }

  lemma KeptPrompt(echo: string)
    ensures Kept(SplitLines("\r>"), echo) == []
    ensures ProgressCount(SplitLines("\r>"), echo) == 0
  {
    hide Cleaned, SplitLines;
    SplitPrompt();
    BlankPiece();
    KeptPieces([""], [">"], echo);
    KeptPieces([">"], [], echo);
    assert [">"] + [] == [">"] && [""] + [">"] == ["", ">"];
  }

  /** One row of the reply is one piece of the split, plus an empty one between a carriage return
      and its line feed. */
  lemma KeptRow(line: string, rest: string, linefeeds: bool, echo: string)
    requires CleanLine(line)
    ensures Kept(SplitLines(line + Terminator(linefeeds) + rest), echo)
         == (if IsContent(line, echo) then [line] else []) + Kept(SplitLines(rest), echo)
    ensures ProgressCount(SplitLines(line + Terminator(linefeeds) + rest), echo)
         == (if IsProgress(line, echo) then 1 else 0) + ProgressCount(SplitLines(rest), echo)
  {
    hide SplitLines, IsContent, IsProgress, Cleaned;
    if linefeeds {
      assert line + Terminator(true) + rest == line + ['\r'] + ("" + ['\n'] + rest);
      SplitPiece(line, '\r', "" + ['\n'] + rest);
      SplitPiece("", '\n', rest);
      KeptPieces([line], [""] + SplitLines(rest), echo);
      KeptPieces([""], SplitLines(rest), echo);
      BlankPiece();
      NotBlank(echo);
      assert [] + Kept(SplitLines(rest), echo) == Kept(SplitLines(rest), echo);
    } else {
      assert line + Terminator(false) + rest == line + ['\r'] + rest;
      SplitPiece(line, '\r', rest);
      KeptPieces([line], SplitLines(rest), echo);
    }
  }

  lemma NotBlank(echo: string)
    ensures !IsContent("", echo) && !IsProgress("", echo)
  {
  }

  /** How many of the lines only report a search. */
  function SearchCount(lines: seq<string>, echo: string): nat {
    if lines == [] then 0 else (if IsProgress(lines[0], echo) then 1 else 0) + SearchCount(lines[1..], echo)
  }

  lemma {:induction false} KeptRows(lines: seq<string>, linefeeds: bool, echo: string)
    requires forall i :: 0 <= i < |lines| ==> CleanLine(lines[i])
    ensures Kept(SplitLines(Rows(lines, linefeeds)), echo) == Contents(lines, echo)
    ensures ProgressCount(SplitLines(Rows(lines, linefeeds)), echo) == SearchCount(lines, echo)
  {
    hide SplitLines, Kept, IsContent, IsProgress, CleanLine;
    if lines == [] {
      KeptPrompt(echo);
    } else {
      KeptRows(lines[1..], linefeeds, echo);
      KeptRow(lines[0], Rows(lines[1..], linefeeds), linefeeds, echo);
    }
  }

  /** Commands are single lines without a prompt character. */
  predicate IsCommand(command: string) {
    OneLine(command) && '>' !in command
  }

  lemma EchoDropped(command: string, rest: string)
    requires IsCommand(command)
    ensures Kept(SplitLines(Trim(command) + "\r" + rest), Normalize(command)) == Kept(SplitLines(rest), Normalize(command))
    ensures ProgressCount(SplitLines(Trim(command) + "\r" + rest), Normalize(command)) == ProgressCount(SplitLines(rest), Normalize(command))
  {
    hide SplitLines, Normalize, IsSearching, Kept, ProgressCount;
    var t := Trim(command);
    EchoPiece(command);
    SplitPiece(t, '\r', rest);
    KeptPieces([t], SplitLines(rest), Normalize(command));
    assert [] + Kept(SplitLines(rest), Normalize(command)) == Kept(SplitLines(rest), Normalize(command));
  }

  lemma EchoPiece(command: string)
    requires IsCommand(command)
    ensures OneLine(Trim(command)) && Normalize(Cleaned(Trim(command))) == Normalize(command)
  {
    hide Normalize;
    TrimChars(command);
    TrimIsTrimmed(command);
    TrimmedIsFixed(Trim(command));
    NoPromptTrimmed(Trim(command));
    NormalizeTrim(command);
  }

  lemma NoPromptTrimmed(s: string)
    requires '>' !in s
    ensures TrimEndMatches(s, '>') == s
  {
    if s != [] {
      assert s[|s| - 1] in s;
    }
  }

  /** What a parse makes of any printed reply. */
  lemma ParsePrinted(command: string, echo: bool, linefeeds: bool, lines: seq<string>)
    requires IsCommand(command)
    requires forall i :: 0 <= i < |lines| ==> CleanLine(lines[i])
    ensures var r := ParseReply(command, ReplyText(command, echo, linefeeds, lines), true);
            && r.lines == Contents(lines, Normalize(command))
            && r.classified == Classify(Contents(lines, Normalize(command)), true)
            && (r.searched <==> SearchCount(lines, Normalize(command)) > 0)
  {
    hide SplitLines, Kept, ProgressCount, Classify, CleanLine, Normalize, ReplyText, Contents, SearchCount;
    ReplyKept(command, echo, linefeeds, lines);
  }

  lemma ReplyKept(command: string, echo: bool, linefeeds: bool, lines: seq<string>)
    requires IsCommand(command)
    requires forall i :: 0 <= i < |lines| ==> CleanLine(lines[i])
    ensures var pieces := SplitLines(ReplyText(command, echo, linefeeds, lines));
            && Kept(pieces, Normalize(command)) == Contents(lines, Normalize(command))
            && ProgressCount(pieces, Normalize(command)) == SearchCount(lines, Normalize(command))
  {
    hide SplitLines, Kept, ProgressCount, CleanLine, Normalize, Trim, Contents, SearchCount, IsCommand, Rows;
    KeptRows(lines, linefeeds, Normalize(command));
    if echo {
      EchoDropped(command, Rows(lines, linefeeds));
    } else {
      assert "" + Rows(lines, linefeeds) == Rows(lines, linefeeds);
    }
  }

  // ---- Frames ----

  lemma EncodeLength(frame: Frame)
    ensures |Encode(frame, 8)| >= 8
  {
  }

  lemma FrameLinePlain(reply: EcuReply, spaces: bool, i: nat)
    requires reply.responseId < 0x1_0000_0000
    ensures PlainLine(FrameLine(reply, true, spaces, i))
  {
    hide LineText, PlainLine, Encode, FrameAt;
    EncodeLength(FrameAt(reply.payload, i));
    LinePlain(reply.Id(), FrameData(reply, i), spaces);
  }

  lemma PlainIsClean(line: string)
    requires PlainLine(line)
    ensures CleanLine(line) && !IsSearching(line)
  {
    TrimmedIsFixed(line);
    assert TrimEndMatches(line, '>') == line;
    assert Upper(line[0]) != 'S';
    assert "SEARCHING..."[0] == 'S' && "SEARCHING"[0] == 'S';
    assert OneLine(line);
  }

  lemma PlainIsHexLine(line: string)
    requires PlainLine(line)
    ensures IsHexLine(line)
  {
    PlainTokens(line, 0);
    assert line[0..] == line;
  }

  /** Every token of what is left of a printed line is hex. */
  lemma {:induction false} PlainTokens(line: string, from: nat)
    requires PlainLine(line) && from < |line|
    ensures Tokens(line[from..]) != [] && forall i :: 0 <= i < |Tokens(line[from..])| ==> IsHexToken(Tokens(line[from..])[i])
    decreases |line| - from
  {
    var s := line[from..];
    assert s[0] == line[from];
    if IsWhitespace(s[0]) {
      assert s[1..] == line[from + 1..];
      PlainTokens(line, from + 1);
    } else {
      var n := TokenLength(s);
      assert forall i :: 0 <= i < n ==> s[..n][i] == line[from + i];
      DigitToken(s[..n]);
      assert s[n..] == line[from + n..];
      if from + n < |line| {
        PlainTokens(line, from + n);
      }
    }
  }

  lemma DigitToken(token: string)
    requires token != [] && forall i :: 0 <= i < |token| ==> IsDigit(token[i])
    ensures IsHexToken(token)
  {
  }

  lemma {:induction false} AllLinesPlain(replies: seq<EcuReply>, spaces: bool)
    requires forall i :: 0 <= i < |replies| ==> replies[i].responseId < 0x1_0000_0000
    ensures forall i :: 0 <= i < |AllLines(replies, true, spaces)| ==> PlainLine(AllLines(replies, true, spaces)[i])
  {
    hide PlainLine, FrameLine;
    if replies != [] {
      var n := |replies| - 1;
      AllLinesPlain(replies[..n], spaces);
      forall i | 0 <= i < FrameCount(replies[n].payload)
        ensures PlainLine(ReplyLines(replies[n], true, spaces)[i])
      {
        FrameLinePlain(replies[n], spaces, i);
      }
    }
  }

  /** Whether a search is reported first. */
  function Banner(searching: bool): seq<string> {
    if searching then ["SEARCHING..."] else []
  }

  lemma BannerClean()
    ensures CleanLine("SEARCHING...") && IsSearching("SEARCHING...")
  {
    hide UpperAll, Trim;
    var s := "SEARCHING...";
    TrimmedIsFixed(s);
    UpperSame(s);
    assert TrimEndMatches(s, '>') == s;
  }

  /** The text of a data reply to `command`. */
  function DataReply(command: string, echo: bool, linefeeds: bool, searching: bool, replies: seq<EcuReply>, spaces: bool): string {
    ReplyText(command, echo, linefeeds, Banner(searching) + AllLines(replies, true, spaces))
  }

  lemma {:induction false} ContentsAreLines(lines: seq<string>, echo: string)
    requires forall i :: 0 <= i < |lines| ==> PlainLine(lines[i])
    ensures forall l :: l in Contents(lines, echo) ==> l in lines && PlainLine(l) && Normalize(l) != echo
    ensures (forall i :: 0 <= i < |lines| ==> Normalize(lines[i]) != echo) ==> Contents(lines, echo) == lines
    ensures SearchCount(lines, echo) == 0
  {
    hide PlainLine, Normalize, IsSearching;
    if lines != [] {
      ContentsAreLines(lines[1..], echo);
      PlainIsClean(lines[0]);
      assert lines == [lines[0]] + lines[1..];
    }
  }

  /** What is left of a data reply after parsing: the frame lines, less any that read as the command. */
  lemma AllClean(lines: seq<string>, searching: bool)
    requires CleanLine("SEARCHING...") && forall i :: 0 <= i < |lines| ==> PlainLine(lines[i])
    ensures forall i :: 0 <= i < |Banner(searching) + lines| ==> CleanLine((Banner(searching) + lines)[i])
  {
    hide CleanLine, PlainLine;
    var all := Banner(searching) + lines;
    forall i | 0 <= i < |all|
      ensures CleanLine(all[i])
    {
      if !searching || i > 0 {
        PlainIsClean(lines[if searching then i - 1 else i]);
      }
    }
  }

  /** What a parse makes of printed frame lines, a search reported before them or not. */
  lemma ParsePlain(command: string, echo: bool, linefeeds: bool, searching: bool, lines: seq<string>)
    requires IsCommand(command) && forall i :: 0 <= i < |lines| ==> PlainLine(lines[i])
    ensures var r := ParseReply(command, ReplyText(command, echo, linefeeds, Banner(searching) + lines), true);
            && r.lines == Contents(lines, Normalize(command))
            && r.classified == Classify(r.lines, true)
            && (Normalize(command) != "SEARCHING..." ==> r.searched == searching)
  {
    hide CleanLine, ParseReply, Classify, Normalize, PlainLine, ReplyText, Contents, SearchCount, Banner;
    BannerClean();
    AllClean(lines, searching);
    ParsePrinted(command, echo, linefeeds, Banner(searching) + lines);
    ContentsAreLines(lines, Normalize(command));
    BannerDropped(lines, searching, Normalize(command));
  }

  lemma BannerDropped(lines: seq<string>, searching: bool, echo: string)
    ensures Contents(Banner(searching) + lines, echo) == Contents(lines, echo)
    ensures SearchCount(Banner(searching) + lines, echo)
         == (if searching && echo != "SEARCHING..." then 1 else 0) + SearchCount(lines, echo)
  {
    hide Normalize, IsSearching;
    var all := Banner(searching) + lines;
    BannerClean();
    SearchingNormal();
    if searching {
      assert all[0] == "SEARCHING..." && all[1..] == lines;
    } else {
      assert all == lines;
    }
  }

  /** Printed frame lines, none of which reads as the command, are data and come back as they are. */
  lemma ParseFrames(command: string, echo: bool, linefeeds: bool, searching: bool, lines: seq<string>)
    requires IsCommand(command) && lines != [] && NoLineIsCommand(command, lines)
    requires forall i :: 0 <= i < |lines| ==> PlainLine(lines[i])
    ensures var r := ParseReply(command, ReplyText(command, echo, linefeeds, Banner(searching) + lines), true);
            r.classified == Data && r.lines == lines
  {
    hide ParseReply, Classify, Normalize, PlainLine, IsHexLine;
    ParsePlain(command, echo, linefeeds, searching, lines);
    ContentsAreLines(lines, Normalize(command));
    forall i | 0 <= i < |lines|
      ensures IsHexLine(lines[i])
    {
      PlainIsHexLine(lines[i]);
    }
    HexLinesAreData(lines);
  }

  lemma ParseDataReply(command: string, echo: bool, linefeeds: bool, searching: bool, replies: seq<EcuReply>, spaces: bool)
    requires IsCommand(command)
    requires forall i :: 0 <= i < |replies| ==> replies[i].responseId < 0x1_0000_0000
    ensures var r := ParseReply(command, DataReply(command, echo, linefeeds, searching, replies, spaces), true);
            && r.lines == Contents(AllLines(replies, true, spaces), Normalize(command))
            && r.classified == Classify(r.lines, true)
            && (Normalize(command) != "SEARCHING..." ==> r.searched == searching)
  {
    hide AllLines, ParseReply, Classify, Normalize, PlainLine, ReplyText, Banner;
    AllLinesPlain(replies, spaces);
    ParsePlain(command, echo, linefeeds, searching, AllLines(replies, true, spaces));
  }

  lemma SearchingNormal()
    ensures Normalize("SEARCHING...") == "SEARCHING..."
  {
    hide UpperAll, Unspaced;
    var s := "SEARCHING...";
    assert forall i :: 0 <= i < |s| ==> s[i] == '.' || 'A' <= s[i] <= 'Z';
    UnspacedSame(s);
    UpperSame(s);
  }

  /** No printed line reads as the command itself, which the parse would take for an echo. */
  predicate NoLineIsCommand(command: string, lines: seq<string>) {
    forall i :: 0 <= i < |lines| ==> Normalize(lines[i]) != Normalize(command)
  }

  /** The full round trip. Whatever modules reply, on 11- or 29-bit CAN, spaces on or off and
      believed or not, echo on or off, line feeds on or off, searching or not: the text classifies
      as data and reassembles to exactly those replies. */
  lemma FullRoundTrip(command: string, echo: bool, linefeeds: bool, searching: bool, replies: seq<EcuReply>, spaces: bool, how: Reading, keepPartial: bool)
    requires IsCommand(command) && replies != [] && Distinct(replies) && AllDeliverable(replies, how.protocol)
    requires NoLineIsCommand(command, AllLines(replies, true, spaces))
    ensures var r := ParseReply(command, DataReply(command, echo, linefeeds, searching, replies, spaces), true);
            && r.classified == Data
            && r.lines == AllLines(replies, true, spaces)
            && Assembly(r.lines, how, keepPartial).Success?
            && Carries(Assembly(r.lines, how, keepPartial).value, replies, spaces)
  {
    hide ParseReply, Classify, Normalize, PlainLine, AllLines, Carries, Distinct, FoldLines, OwnPieces, Decode,
         ReplyText, Banner;
    var lines := AllLines(replies, true, spaces);
    AllLinesPlain(replies, spaces);
    SomeLines(replies, spaces);
    ParseFrames(command, echo, linefeeds, searching, lines);
    AllLinesDecode(replies, spaces, how);
    PrintedRepliesAssemble(replies, lines, spaces, how, keepPartial);
  }

  lemma SomeLines(replies: seq<EcuReply>, spaces: bool)
    requires replies != [] && |replies[|replies| - 1].payload| >= 1
    ensures AllLines(replies, true, spaces) != []
  {
    hide FrameLine;
    var last := replies[|replies| - 1];
    assert |ReplyLines(last, true, spaces)| >= 1;
  }

  // ---- And only then ----

  /** In the strict form a message's raw lines are all the lines its module sent. */
  lemma {:induction false} StrictRaw(pieces: seq<Piece>)
    requires FoldPieces(pieces, false).Success?
    ensures var st := FoldPieces(pieces, false).value;
            |st.raw| == |pieces| && st.cut.None? && forall i :: 0 <= i < |pieces| ==> st.raw[i] == pieces[i].line
  {
    hide Feed, ParseFrame;
    if pieces != [] {
      StrictRaw(pieces[..|pieces| - 1]);
    }
  }

  lemma {:induction false} PiecesAreLines(lines: seq<string>, a: string, how: Reading)
    ensures forall p :: p in OwnPieces(lines, a, how) ==> p.line in lines && Decode(p.line, how.spaces, how.protocol).Success?
  {
    hide Decode;
    if lines != [] {
      PiecesAreLines(lines[..|lines| - 1], a, how);
    }
  }

  /** Every raw line of a message was among the lines and decodes, and there is at least one. */
  lemma RawLinesArrived(lines: seq<string>, how: Reading, a: string)
    requires Assembly(lines, how, false).Success? && a in Assembly(lines, how, false).value
    ensures var raw := Assembly(lines, how, false).value[a].rawLines;
            raw != [] && forall i :: 0 <= i < |raw| ==> raw[i] in lines && Decode(raw[i], how.spaces, how.protocol).Success?
  {
    hide FoldLines, OwnPieces, FoldPieces, Decode;
    Projection(lines, how, false, a);
    StrictRaw(OwnPieces(lines, a, how));
    PiecesAreLines(lines, a, how);
    var pieces := OwnPieces(lines, a, how);
    forall i | 0 <= i < |pieces|
      ensures pieces[i].line in lines && Decode(pieces[i].line, how.spaces, how.protocol).Success?
    {
      assert pieces[i] in pieces;
    }
  }

  lemma OversizeLineFails(reply: EcuReply, spaces: bool, how: Reading)
    requires Addressed(reply, how.protocol) && |reply.payload| > MAX_CLASSIC_LENGTH
    ensures Decode(FrameLine(reply, true, spaces, 0), how.spaces, how.protocol).Failure?
  {
    hide LineText, SplitHeaderLine, Encode;
    OversizeFirstFrame(reply.payload);
    SplitLine(reply.Id(), FrameData(reply, 0), spaces, how.spaces, how.protocol);
    IdText(reply.Id());
  }

  /** A delivered reply was deliverable, and none of its lines was taken for the command. */
  lemma DeliveredOnlyIf(reply: EcuReply, lines: seq<string>, spaces: bool, how: Reading)
    requires Addressed(reply, how.protocol) && Assembly(lines, how, false).Success?
    requires reply.Address() in Assembly(lines, how, false).value
    requires Assembly(lines, how, false).value[reply.Address()] == Delivered(reply, spaces)
    ensures Deliverable(reply, how.protocol)
    ensures forall i :: 0 <= i < FrameCount(reply.payload) ==> FrameLine(reply, true, spaces, i) in lines
  {
    hide FrameLine, Decode, Assembled;
    RawLinesArrived(lines, how, reply.Address());
    var raw := ReplyLines(reply, true, spaces);
    assert raw[0] == FrameLine(reply, true, spaces, 0);
    forall i | 0 <= i < FrameCount(reply.payload)
      ensures FrameLine(reply, true, spaces, i) in lines
    {
      assert raw[i] == FrameLine(reply, true, spaces, i);
    }
    if |reply.payload| > MAX_CLASSIC_LENGTH {
      OversizeLineFails(reply, spaces, how);
      assert false;
    }
  }

  lemma {:induction false} AllLinesOf(replies: seq<EcuReply>, spaces: bool, l: string)
    requires l in AllLines(replies, true, spaces)
    ensures exists k, i :: 0 <= k < |replies| && 0 <= i < FrameCount(replies[k].payload) && l == FrameLine(replies[k], true, spaces, i)
  {
    hide FrameLine;
    var n := |replies| - 1;
    if l in AllLines(replies[..n], true, spaces) {
      AllLinesOf(replies[..n], spaces, l);
      var k, i :| 0 <= k < n && 0 <= i < FrameCount(replies[..n][k].payload) && l == FrameLine(replies[..n][k], true, spaces, i);
      assert replies[..n][k] == replies[k];
    } else {
      var i :| 0 <= i < FrameCount(replies[n].payload) && l == ReplyLines(replies[n], true, spaces)[i];
      assert l == FrameLine(replies[n], true, spaces, i);
    }
  }

  /** The exact condition: the replies come back from the text if and only if something replied, every
      payload has 1 to 4095 bytes, and no printed line reads as the command. */
  lemma RoundTripExactly(command: string, echo: bool, linefeeds: bool, searching: bool, replies: seq<EcuReply>, spaces: bool, how: Reading)
    requires IsCommand(command) && Distinct(replies)
    requires forall i :: 0 <= i < |replies| ==> Addressed(replies[i], how.protocol)
    ensures var r := ParseReply(command, DataReply(command, echo, linefeeds, searching, replies, spaces), true);
            && r.classified == Data && Assembly(r.lines, how, false).Success?
            && Carries(Assembly(r.lines, how, false).value, replies, spaces)
            <==>
            && replies != [] && AllDeliverable(replies, how.protocol)
            && NoLineIsCommand(command, AllLines(replies, true, spaces))
  {
    hide ParseReply, DataReply, Classify, Normalize, AllLines, Assembled, PlainLine, Distinct, FrameLine,
         Deliverable, Contents;
    var r := ParseReply(command, DataReply(command, echo, linefeeds, searching, replies, spaces), true);
    if replies != [] && AllDeliverable(replies, how.protocol) && NoLineIsCommand(command, AllLines(replies, true, spaces)) {
      FullRoundTrip(command, echo, linefeeds, searching, replies, spaces, how, false);
    } else if r.classified == Data && Assembly(r.lines, how, false).Success? && Carries(Assembly(r.lines, how, false).value, replies, spaces) {
      ParseDataReply(command, echo, linefeeds, searching, replies, spaces);
      CarriedOnlyIf(command, r.lines, replies, spaces, how);
      assert false;
    }
  }

  lemma CarriedOnlyIf(command: string, kept: seq<string>, replies: seq<EcuReply>, spaces: bool, how: Reading)
    requires forall i :: 0 <= i < |replies| ==> Addressed(replies[i], how.protocol)
    requires kept == Contents(AllLines(replies, true, spaces), Normalize(command))
    requires Classify(kept, true) == Data && Assembly(kept, how, false).Success?
    requires Carries(Assembly(kept, how, false).value, replies, spaces)
    ensures replies != [] && AllDeliverable(replies, how.protocol)
    ensures NoLineIsCommand(command, AllLines(replies, true, spaces))
  {
    hide Normalize, Assembled, PlainLine, FrameLine, Deliverable, IsContent, IsHexLine;
    var lines := AllLines(replies, true, spaces);
    AllLinesPlain(replies, spaces);
    ContentsAreLines(lines, Normalize(command));
    forall k | 0 <= k < |replies|
      ensures Deliverable(replies[k], how.protocol)
      ensures forall i :: 0 <= i < FrameCount(replies[k].payload) ==> FrameLine(replies[k], true, spaces, i) in kept
    {
      DeliveredOnlyIf(replies[k], kept, spaces, how);
    }
    forall j | 0 <= j < |lines|
      ensures Normalize(lines[j]) != Normalize(command)
    {
      AllLinesOf(replies, spaces, lines[j]);
    }
  }
}
