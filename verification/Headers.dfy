/** Which commands move the emulator's request header, and what a reply to one proves. */
module Headers {
  import opened Wrappers
  import opened Text
  import opened Hex
  import opened EcuReplies
  import opened Response
  import opened Conversation
  import opened Elm

  /** Turns the printing of headers or of spaces on or off. */
  predicate IsSwitch(c: string) {
    c == "ATH0" || c == "ATH1" || c == "ATS0" || c == "ATS1"
  }

  /** Neither sets the header or its priority, nor what is printed, nor resets the device. */
  predicate Harmless(command: string) {
    var c := Normalize(command);
    !("ATSH" <= c) && !("ATCP" <= c) && c != "ATZ" && c != "ATWS" && !IsSwitch(c)
  }

  /** The header `ATSH` with this parameter selects at the standard priority; none if refused. */
  function ShortValue(p: Personality, v: string): Option<nat> {
    if Unsupported(p, "ATSH" + v) then None else ParsedHeader(v, DEFAULT_PRIORITY)
  }

  predicate PriorityAccepted(p: Personality, v: string) {
    !Unsupported(p, "ATCP" + v) && |v| == 2 && FromStrRadix16(v) == Some(DEFAULT_PRIORITY)
  }

  /** The request header the adapter's header string stands for; an eight-character one goes out as
      a priority and a short header. */
  function HeaderValue(p: Personality, h: string): Option<nat> {
    if |h| == 8 then
      if PriorityAccepted(p, Normalize(h[..2])) then ShortValue(p, Normalize(h[2..])) else None
    else ShortValue(p, Normalize(h))
  }

  /** The device is on this header, so sending it again would change nothing. */
  predicate Held(d: Device, p: Personality, h: string) {
    d.priority == DEFAULT_PRIORITY && HeaderValue(p, h) == Some(d.header)
  }

  lemma NormalizeAppend(a: string, b: string)
    ensures Normalize(a + b) == Normalize(a) + Normalize(b)
  {
    UnspacedAppend(a, b);
    UpperAppend(Unspaced(a), Unspaced(b));
  }

  lemma {:induction false} UpperAppend(a: string, b: string)
    ensures UpperAll(a + b) == UpperAll(a) + UpperAll(b)
  {
    if a == [] {
      assert a + b == b;
    } else {
      assert (a + b)[1..] == a[1..] + b;
      UpperAppend(a[1..], b);
    }
  }

  /** Text without whitespace or lower case is its own normal form. */
  predicate Plain(s: string) {
    forall i :: 0 <= i < |s| ==> !IsWhitespace(s[i]) && !('a' <= s[i] <= 'z')
  }

  lemma PlainIsNormal(s: string)
    requires Plain(s)
    ensures Normalize(s) == s
  {
    hide UpperAll, Unspaced;
    UnspacedSame(s);
    UpperSame(s);
  }

  /** `ATSH` and the like keep their prefix under normalization. */
  lemma PrefixIsNormal(prefix: string, v: string)
    requires Plain(prefix)
    ensures Normalize(prefix + v) == prefix + Normalize(v)
  {
    hide Normalize;
    NormalizeAppend(prefix, v);
    PlainIsNormal(prefix);
  }

  // ---- What each command does to the header ----

  /** The same request header, priority, and printing of headers and spaces. */
  predicate SameStanding(d: Device, e: Device) {
    d.header == e.header && d.priority == e.priority && d.headers == e.headers && d.spaces == e.spaces
  }

  lemma HarmlessKeepsHeader(d: Device, p: Personality, v: VehicleKind, command: string, answers: seq<EcuReply>)
    requires !("ATSH" <= command) && !("ATCP" <= command) && command != "ATZ" && command != "ATWS" && !IsSwitch(command)
    ensures SameStanding(d, Answer(d, p, v, command, answers).0)
  {
    hide Unsupported, Decimal, FrameLines, WrongProtocol, Pairs, AllHex, Print;
    if "AT" <= command && !("ST" <= command) {
      var rest := command[2..];
      assert command == "AT" + rest;
      AtKeepsHeader(d, p, v, rest);
    }
  }

  lemma AtKeepsHeader(d: Device, p: Personality, v: VehicleKind, rest: string)
    requires !("SH" <= rest) && !("CP" <= rest) && rest != "Z" && rest != "WS" && !IsSwitch("AT" + rest)
    ensures SameStanding(d, AtReply(d, p, v, rest).0)
  {
    hide Unsupported, Print, ToggleReply;
    ToggleKeepsHeader(d, p, v, rest);
  }

  lemma ToggleKeepsHeader(d: Device, p: Personality, v: VehicleKind, rest: string)
    requires !IsSwitch("AT" + rest)
    ensures SameStanding(d, ToggleReply(d, p, v, rest).0)
  {
    hide Print;
    assert rest == "H0" ==> "AT" + rest == "ATH0";
    assert rest == "H1" ==> "AT" + rest == "ATH1";
    assert rest == "S0" ==> "AT" + rest == "ATS0";
    assert rest == "S1" ==> "AT" + rest == "ATS1";
  }

  /** A letter's setting turned on or off. */
  function Turned(d: Device, letter: char, on: bool): Device {
    match letter
    case 'E' => d.(echo := on)
    case 'L' => d.(linefeeds := on)
    case 'S' => d.(spaces := on)
    case 'H' => d.(headers := on)
    case _ => d
  }

  /** `ATE`, `ATL`, `ATS` and `ATH` turn what their letter stands for off with 0 and on with 1, and
      nothing else. */
  lemma TurnAnswer(d: Device, p: Personality, v: VehicleKind, letter: char, digit: char, answers: seq<EcuReply>)
    requires letter in "ELSH" && digit in "01"
    ensures var c := "AT" + [letter, digit];
            && Plain(c)
            && Answer(d, p, v, c, answers) == if Unsupported(p, c) then (d, ["?"]) else (Turned(d, letter, digit == '1'), ["OK"])
  {
    hide Unsupported, ToggleReply, Turned;
    var c, rest := "AT" + [letter, digit], [letter, digit];
    assert c[2..] == rest && "AT" + rest == c && "AT" <= c;
    NotPrefix("ST", c, 0);
    LetterPrefixes(rest);
    TurnToggles(d, p, v, letter, digit);
  }

  lemma TurnToggles(d: Device, p: Personality, v: VehicleKind, letter: char, digit: char)
    requires letter in "ELSH" && digit in "01"
    ensures ToggleReply(d, p, v, [letter, digit]) == (Turned(d, letter, digit == '1'), ["OK"])
  {
    hide Print;
    var rest := [letter, digit];
    assert |rest| == 2 && |"I"| == 1 && "@1"[0] == '@';
    if letter == 'E' {
      assert digit == '0' ==> rest == "E0";
    } else if letter == 'L' {
      assert digit == '0' ==> rest == "L0";
    } else if letter == 'S' {
      assert digit == '0' ==> rest == "S0";
    } else {
      assert digit == '0' ==> rest == "H0";
    }
  }

  lemma LetterPrefixes(rest: string)
    requires |rest| == 2 && rest[0] in "ELSH" && rest[1] in "01"
    ensures !("SH" <= rest) && !("CP" <= rest) && !("SP" <= rest) && !("ST" <= rest) && !("AT" <= rest) && !("CAF" <= rest)
    ensures rest != "WS" && rest != "Z" && |rest| == 2 && rest != "@1" && rest != "I"
  {
    NotPrefix("SH", rest, 1);
    NotPrefix("CP", rest, 0);
    NotPrefix("SP", rest, 1);
    NotPrefix("ST", rest, 1);
    NotPrefix("AT", rest, 0);
    assert "WS"[1] == 'S' && |"Z"| == 1 && |"I"| == 1 && "@1"[0] == '@';
  }

  /** What a switch of headers or spaces switches, and nothing else. */
  lemma SwitchAnswer(d: Device, p: Personality, v: VehicleKind, command: string, answers: seq<EcuReply>)
    requires IsSwitch(command)
    ensures Answer(d, p, v, command, answers)
         == if Unsupported(p, command) then (d, ["?"])
            else (if command[2] == 'H' then d.(headers := command[3] == '1') else d.(spaces := command[3] == '1'), ["OK"])
  {
    hide Unsupported, Answer;
    assert "AT" + [command[2], command[3]] == command;
    TurnAnswer(d, p, v, command[2], command[3], answers);
  }

  lemma NotPrefix(p: string, s: string, i: nat)
    requires i < |p| && i < |s| && p[i] != s[i]
    ensures !(p <= s)
  {
  }

  lemma HeaderAnswer(d: Device, p: Personality, v: VehicleKind, h: string, answers: seq<EcuReply>)
    ensures Answer(d, p, v, "ATSH" + h, answers) == if Unsupported(p, "ATSH" + h) then (d, ["?"]) else SetHeaderReply(d, h)
  {
    hide Unsupported, ToggleReply, SetPriorityReply, SelectProtocolReply, SetHeaderReply;
    var c := "ATSH" + h;
    assert c[2..] == "SH" + h && ("SH" + h)[2..] == h && "AT" + ("SH" + h) == c;
    NotPrefix("ST", c, 0);
    assert "AT" <= c && "SH" <= c[2..];
  }

  lemma PriorityAnswer(d: Device, p: Personality, v: VehicleKind, h: string, answers: seq<EcuReply>)
    ensures Answer(d, p, v, "ATCP" + h, answers) == if Unsupported(p, "ATCP" + h) then (d, ["?"]) else SetPriorityReply(d, h)
  {
    hide Unsupported, ToggleReply, SetPriorityReply, SelectProtocolReply, SetHeaderReply;
    var c := "ATCP" + h;
    assert c[2..] == "CP" + h && ("CP" + h)[2..] == h && "AT" + ("CP" + h) == c;
    NotPrefix("ST", c, 0);
    NotPrefix("SH", c[2..], 0);
    assert "AT" <= c && "CP" <= c[2..];
  }

  lemma ResetAnswer(d: Device, p: Personality, v: VehicleKind, command: string, answers: seq<EcuReply>)
    requires command == "ATZ" || command == "ATWS"
    ensures Answer(d, p, v, command, answers) == if Unsupported(p, command) then (d, ["?"]) else (ResetDevice(d), [p.banner])
  {
    hide Unsupported, ToggleReply, SetPriorityReply, SelectProtocolReply, SetHeaderReply, ResetDevice;
    var rest := command[2..];
    assert rest == "Z" || rest == "WS";
    assert "AT" + rest == command && "AT" <= command;
    NotPrefix("ST", command, 0);
    NotPrefix("SH", rest, 0);
    NotPrefix("CP", rest, 0);
    NotPrefix("SP", rest, 0);
    NotPrefix("ST", rest, 0);
    NotPrefix("AT", rest, 0);
    NotPrefix("CAF", rest, 0);
  }

  /** Sending a header the device is on changes nothing at all and is accepted: skipping it is the same. */
  lemma SkipIsSend(d: Device, p: Personality, v: VehicleKind, h: string)
    requires Held(d, p, h)
    ensures |h| == 8 ==>
              && Answer(d, p, v, Normalize("ATCP" + h[..2]), []) == (d, ["OK"])
              && Answer(d, p, v, Normalize("ATSH" + h[2..]), []) == (d, ["OK"])
    ensures |h| != 8 ==> Answer(d, p, v, Normalize("ATSH" + h), []) == (d, ["OK"])
  {
    hide Answer, Normalize, Unsupported, FromStrRadix16;
    if |h| == 8 {
      PrefixIsNormal("ATCP", h[..2]);
      PrefixIsNormal("ATSH", h[2..]);
      PriorityAnswer(d, p, v, Normalize(h[..2]), []);
      HeaderAnswer(d, p, v, Normalize(h[2..]), []);
    } else {
      PrefixIsNormal("ATSH", h);
      HeaderAnswer(d, p, v, Normalize(h), []);
    }
  }

  // ---- What a reply proves ----

  lemma {:induction false} SquashAppend(a: string, b: string)
    ensures Squash(a + b) == Squash(a) + Squash(b)
  {
    if a == [] {
      assert a + b == b;
    } else {
      assert (a + b)[1..] == a[1..] + b;
      SquashAppend(a[1..], b);
    }
  }

  lemma {:induction false} SquashLetters(s: string)
    requires forall i :: 0 <= i < |s| ==> 'A' <= s[i] <= 'Z'
    ensures Squash(s) == s
  {
    if s != [] {
      SquashLetters(s[1..]);
    }
  }

  lemma SquashBlank()
    ensures Squash(" ") == ""
  {
    assert " "[1..] == "";
  }

  lemma TwoWords(a: string, b: string)
    requires forall i :: 0 <= i < |a| ==> 'A' <= a[i] <= 'Z'
    requires forall i :: 0 <= i < |b| ==> 'A' <= b[i] <= 'Z'
    ensures Squash(a + " " + b) == a + b
  {
    hide Squash;
    SquashAppend(a + " ", b);
    SquashAppend(a, " ");
    SquashLetters(a);
    SquashLetters(b);
    SquashBlank();
    assert a + "" == a;
  }

  lemma WholeContains(s: string)
    ensures Contains(s, s)
  {
    assert s[0..|s|] == s;
    assert OccursAt(s, s, 0);
  }

  lemma Banners()
    ensures FailureOf("BUFFER FULL").Some? && FailureOf("STOPPED").Some? && FailureOf("CAN ERROR").Some? && FailureOf("?").Some?
  {
    hide Squash, Contains;
    TwoWords("BUFFER", "FULL");
    assert "BUFFER" + " " + "FULL" == "BUFFER FULL" && "BUFFER" + "FULL" == "BUFFERFULL";
    WholeContains("BUFFERFULL");
    SquashLetters("STOPPED");
    WholeContains("STOPPED");
    TwoWords("CAN", "ERROR");
    assert "CAN" + " " + "ERROR" == "CAN ERROR" && "CAN" + "ERROR" == "CANERROR";
    WholeContains("CANERROR");
  }

  lemma WordsClean(line: string)
    requires line != [] && forall i :: 0 <= i < |line| ==> line[i] == ' ' || line[i] == '?' || 'A' <= line[i] <= 'Z'
    requires line[0] != ' ' && line[|line| - 1] != ' '
    ensures CleanLine(line)
  {
    TrimmedIsFixed(line);
    assert TrimEndMatches(line, '>') == line;
    assert OneLine(line);
  }

  /** One line: the reply is that line's failure, or nothing if it was taken for the echo. */
  lemma OneLineReply(command: string, echo: bool, linefeeds: bool, line: string)
    requires IsCommand(command) && CleanLine(line)
    ensures var r := ParseReply(command, ReplyText(command, echo, linefeeds, [line]), true);
            && r.lines == (if IsContent(line, Normalize(command)) then [line] else [])
            && r.classified == Classify(r.lines, true)
  {
    hide ParseReply, ReplyText, IsContent, CleanLine, Classify, Normalize;
    ParsePrinted(command, echo, linefeeds, [line]);
    assert [line][1..] == [];
    assert Contents([line], Normalize(command)) == (if IsContent(line, Normalize(command)) then [line] else []) + Contents([], Normalize(command));
  }

  lemma FailingLine(command: string, echo: bool, linefeeds: bool, line: string)
    requires IsCommand(command) && CleanLine(line) && FailureOf(line).Some?
    ensures !ParseReply(command, ReplyText(command, echo, linefeeds, [line]), true).classified.IsSuccess()
  {
    hide ParseReply, ReplyText, IsContent, CleanLine, Normalize, FailureOf;
    OneLineReply(command, echo, linefeeds, line);
    AnyFailureFails([line], 0);
  }

  lemma PromptEnds(command: string, echo: bool, linefeeds: bool, lines: seq<string>)
    ensures '>' in ReplyText(command, echo, linefeeds, lines)
  {
    RowsPrompt(lines, linefeeds);
  }

  lemma {:induction false} RowsPrompt(lines: seq<string>, linefeeds: bool)
    ensures '>' in Rows(lines, linefeeds)
  {
    if lines == [] {
      assert Rows(lines, linefeeds)[1] == '>';
    } else {
      RowsPrompt(lines[1..], linefeeds);
    }
  }

  /** What the adapter makes of a text: read to the prompt, parsed and classified. */
  function Understood(command: string, text: string): AdapterResponse {
    ParseReply(command, text, '>' in text)
  }

  /** An injected fault is never read as success. */
  lemma FaultIsFailure(d: Device, command: string, fault: InjectedFault)
    requires IsCommand(command)
    ensures !Understood(command, FaultText(d, command, fault)).classified.IsSuccess()
  {
    hide ReplyText, CleanLine, FailureOf, SplitLines, Kept, ProgressCount;
    Banners();
    match fault
    case Silence =>
    case BufferFullFault => WordsClean("BUFFER FULL"); FaultLine(d, command, "BUFFER FULL");
    case StoppedFault => WordsClean("STOPPED"); FaultLine(d, command, "STOPPED");
    case NotUnderstoodFault => WordsClean("?"); FaultLine(d, command, "?");
    case BusErrorFault => WordsClean("CAN ERROR"); FaultLine(d, command, "CAN ERROR");
  }

  lemma FaultLine(d: Device, command: string, line: string)
    requires IsCommand(command) && CleanLine(line) && FailureOf(line).Some?
    ensures !Understood(command, ReplyText(command, d.echo, d.linefeeds, [line])).classified.IsSuccess()
  {
    hide ReplyText, CleanLine, FailureOf, ParseReply;
    FailingLine(command, d.echo, d.linefeeds, line);
    PromptEnds(command, d.echo, d.linefeeds, [line]);
  }

  /** A refusal is never read as success. */
  lemma RefusalIsFailure(command: string, echo: bool, linefeeds: bool)
    requires IsCommand(command)
    ensures !Understood(command, ReplyText(command, echo, linefeeds, ["?"])).classified.IsSuccess()
  {
    hide ReplyText, CleanLine, FailureOf;
    WordsClean("?");
    Banners();
    FaultLine(POWER_ON.(echo := echo, linefeeds := linefeeds), command, "?");
  }

  /** A banner the adapter can read: one clean line, none of the error words in it. */
  predicate ReadableBanner(banner: string) {
    CleanLine(banner) && FailureOf(banner).None? && !IsSearching(banner) && Normalize(banner) != "ATZ" && Normalize(banner) != "ATWS"
  }

  /** A clean, harmless line that is not the echo is a success. */
  lemma LineIsSuccess(command: string, echo: bool, linefeeds: bool, line: string)
    requires IsCommand(command) && CleanLine(line) && FailureOf(line).None? && IsContent(line, Normalize(command))
    ensures Understood(command, ReplyText(command, echo, linefeeds, [line])).classified.IsSuccess()
  {
    hide ReplyText, CleanLine, FailureOf, ParseReply, IsContent, Normalize, IsHexLine, UpperAll;
    OneLineReply(command, echo, linefeeds, line);
    PromptEnds(command, echo, linefeeds, [line]);
    assert FirstFailure([line]) == FirstFailure([line][1..]);
  }

  lemma OkIsSuccess(command: string, echo: bool, linefeeds: bool)
    requires IsCommand(command) && "AT" <= Normalize(command)
    ensures Understood(command, ReplyText(command, echo, linefeeds, ["OK"])).classified.IsSuccess()
  {
    hide ReplyText, CleanLine;
    WordsClean("OK");
    OkIsContent(Normalize(command));
    OkIsNoFailure();
    LineIsSuccess(command, echo, linefeeds, "OK");
  }

  lemma OkIsContent(echo: string)
    requires "AT" <= echo
    ensures IsContent("OK", echo)
  {
    hide UpperAll, Unspaced;
    PlainIsNormal("OK");
    UpperSame("OK");
    assert "OK" != echo by {
      assert echo[0] == 'A';
    }
  }

  lemma OkIsNoFailure()
    ensures FailureOf("OK").None?
  {
    hide Squash;
    SquashLetters("OK");
    assert |"OK"| == 2;
    assert "OK"[0] != '?';
    ShortContains("OK", "UNABLETOCONNECT");
    ShortContains("OK", "NABLETO");
    ShortContains("OK", "NODATA");
    ShortContains("OK", "BUFFERFULL");
    ShortContains("OK", "STOPPED");
    ShortContains("OK", "BUSINIT");
    ShortContains("OK", "BUSBUSY");
    ShortContains("OK", "BUSERROR");
    ShortContains("OK", "CANERROR");
    ShortContains("OK", "FBERROR");
    ShortContains("OK", "DATAERROR");
    ShortContains("OK", "RXERROR");
  }

  lemma ShortContains(s: string, t: string)
    requires |s| < |t|
    ensures !Contains(s, t)
  {
  }
}
