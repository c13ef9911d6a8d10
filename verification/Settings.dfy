/** What the commands of a connection set on the device (simulator/src/elm.rs), and what the adapter
    learns of it (core/adapter/src/elm327.rs). */
module Settings {
  import opened Wrappers
  import opened Text
  import opened Hex
  import opened Protocols
  import opened EcuReplies
  import opened Response
  import opened Conversation
  import opened Elm
  import opened Headers
  import opened Transports
  import opened Commands
  import opened Reactions
  import opened Adapter
  import opened Runs
  import opened Verdicts
  import opened EndToEnd

  /** The device after these lines, one after another. */
  function After(d: Device, p: Personality, v: VehicleKind, lines: seq<string>): Device
    decreases |lines|
  {
    if lines == [] then d else After(Answer(d, p, v, Normalize(lines[0]), []).0, p, v, lines[1..])
  }

  lemma {:induction false} AfterAppend(d: Device, p: Personality, v: VehicleKind, a: seq<string>, b: seq<string>)
    ensures After(d, p, v, a + b) == After(After(d, p, v, a), p, v, b)
    decreases |a|
  {
    hide Answer, Normalize;
    if a == [] {
      assert a + b == b;
    } else {
      assert (a + b)[1..] == a[1..] + b;
      AfterAppend(Answer(d, p, v, Normalize(a[0]), []).0, p, v, a[1..], b);
    }
  }

  lemma AfterOne(d: Device, p: Personality, v: VehicleKind, c: string)
    requires Plain(c)
    ensures After(d, p, v, [c]) == Answer(d, p, v, c, []).0
  {
    hide Answer;
    PlainIsNormal(c);
    assert [c][1..] == [];
    assert After(Answer(d, p, v, c, []).0, p, v, []) == Answer(d, p, v, c, []).0;
  }

  // ---- Each setting ----

  /** The protocol numbered so, or the automatic choice. */
  function Selected(d: Device, n: nat): Device {
    d.(requestedProtocol := n, protocol := if n == 0 then None else Some(n), onSecondaryBus := false)
  }

  /** `ATSP` with a digit selects that protocol, on the primary bus. */
  lemma SelectAnswer(d: Device, p: Personality, v: VehicleKind, n: nat)
    requires n <= 9
    ensures var c := "ATSP" + Print(n, 0);
            && Plain(c)
            && Answer(d, p, v, c, []) == if Unsupported(p, c) then (d, ["?"]) else (Selected(d, n), ["OK"])
  {
    hide Unsupported, ToggleReply, FromStrRadix16;
    var digit := Print(n, 0);
    OneDigit(n);
    var c, rest := "ATSP" + digit, "SP" + digit;
    assert c[2..] == rest && rest[2..] == digit && "AT" + rest == c && "AT" <= c && "SP" <= rest;
    NotPrefix("ST", c, 0);
    NotPrefix("SH", rest, 1);
    NotPrefix("CP", rest, 0);
  }

  lemma OneDigit(n: nat)
    requires n <= 9
    ensures Print(n, 0) == [Digit(n)] && FromStrRadix16(Print(n, 0)) == Some(n) && '0' <= Digit(n) <= '9' && Value(Digit(n)) == n
    ensures TrimStartA(Print(n, 0)) == Print(n, 0)
  {
    var s := [Digit(n)];
    assert s[..0] == [] && Number([]) == 0;
    assert AllHex(s);
  }

  /** Adaptive timing and the response window are taken and change no setting kept here. */
  lemma TimingAnswer(d: Device, p: Personality, v: VehicleKind, c: string)
    requires c == "ATAT1" || "ATST" <= c
    ensures Answer(d, p, v, c, []) == (d, if Unsupported(p, c) then ["?"] else ["OK"])
  {
    hide Unsupported, ToggleReply;
    var rest := c[2..];
    assert "AT" + rest == c && "AT" <= c && ("ST" <= rest || "AT" <= rest);
    NotPrefix("ST", c, 0);
    if "ATST" <= c {
      NotPrefix("SH", rest, 1);
      NotPrefix("SP", rest, 1);
    } else {
      NotPrefix("SH", rest, 0);
      NotPrefix("SP", rest, 0);
    }
    NotPrefix("CP", rest, 0);
  }

  lemma ResetTaken(d: Device, p: Personality, v: VehicleKind, c: string)
    requires (c == "ATZ" || c == "ATWS") && !Unsupported(p, c)
    ensures Plain(c) && After(d, p, v, [c]) == POWER_ON.(secondaryBaud := d.secondaryBaud)
  {
    hide Answer, Unsupported, Normalize, Sendable, IsSwitch;
    ResetAnswer(d, p, v, c, []);
    assert Plain("ATZ") && Plain("ATWS");
    AfterOne(d, p, v, c);
  }

  lemma Turn(d: Device, p: Personality, v: VehicleKind, letter: char, digit: char)
    requires letter in "ELSH" && digit in "01"
    ensures var c := "AT" + [letter, digit];
            After(d, p, v, [c]) == if Unsupported(p, c) then d else Turned(d, letter, digit == '1')
  {
    hide Answer, Unsupported;
    TurnAnswer(d, p, v, letter, digit, []);
    AfterOne(d, p, v, "AT" + [letter, digit]);
  }

  // ---- The settings of a connection ----

  /** Resting but for what the device takes of echo off, line feeds off, these spaces and these headers. */
  function Printing(p: Personality, spaces: bool, headers: bool, baud: nat): Device {
    Device(Unsupported(p, "ATE0"), headers && !Unsupported(p, "ATH1"), spaces || Unsupported(p, "ATS0"), Unsupported(p, "ATL0"),
           None, 0, DEFAULT_HEADER, DEFAULT_PRIORITY, false, baud)
  }

  lemma RepliesSet(d: Device, p: Personality, v: VehicleKind, spaces: bool, headers: bool)
    requires d == POWER_ON.(secondaryBaud := d.secondaryBaud)
    ensures After(d, p, v, ReplySettings(spaces, headers)) == Printing(p, spaces, headers, d.secondaryBaud)
  {
    hide Unsupported, Turned, After, Printing;
    var three := ["ATE0", "ATL0", if spaces then "ATS1" else "ATS0"];
    Three(d, p, v, spaces);
    Stepped(d, p, spaces, headers);
    if headers {
      AfterAppend(d, p, v, three, ["ATH1"]);
      Turn(After(d, p, v, three), p, v, 'H', '1');
      assert "AT" + ['H', '1'] == "ATH1" && ReplySettings(spaces, headers) == three + ["ATH1"];
    } else {
      assert ReplySettings(spaces, headers) == three;
    }
  }

  /** One letter's setting, if the device takes it. */
  function Step(d: Device, p: Personality, letter: char, digit: char): Device {
    if Unsupported(p, "AT" + [letter, digit]) then d else Turned(d, letter, digit == '1')
  }

  lemma Stepped(d: Device, p: Personality, spaces: bool, headers: bool)
    requires d == POWER_ON.(secondaryBaud := d.secondaryBaud)
    ensures var three := Step(Step(Step(d, p, 'E', '0'), p, 'L', '0'), p, 'S', if spaces then '1' else '0');
            (if headers then Step(three, p, 'H', '1') else three) == Printing(p, spaces, headers, d.secondaryBaud)
  {
    hide Unsupported;
    assert "AT" + ['E', '0'] == "ATE0" && "AT" + ['L', '0'] == "ATL0" && "AT" + ['H', '1'] == "ATH1" && "AT" + ['S', '0'] == "ATS0";
  }

  lemma Three(d: Device, p: Personality, v: VehicleKind, spaces: bool)
    ensures After(d, p, v, ["ATE0", "ATL0", if spaces then "ATS1" else "ATS0"])
         == Step(Step(Step(d, p, 'E', '0'), p, 'L', '0'), p, 'S', if spaces then '1' else '0')
  {
    hide Unsupported, Turned, After;
    var digit, last := if spaces then '1' else '0', if spaces then "ATS1" else "ATS0";
    assert "AT" + ['E', '0'] == "ATE0" && "AT" + ['L', '0'] == "ATL0" && "AT" + ['S', digit] == last;
    assert ["ATE0", "ATL0", last] == ["ATE0"] + (["ATL0"] + [last]);
    AfterAppend(d, p, v, ["ATE0"], ["ATL0"] + [last]);
    Turn(d, p, v, 'E', '0');
    AfterAppend(Step(d, p, 'E', '0'), p, v, ["ATL0"], [last]);
    Turn(Step(d, p, 'E', '0'), p, v, 'L', '0');
    Turn(Step(Step(d, p, 'E', '0'), p, 'L', '0'), p, v, 'S', digit);
  }

  /** The protocol asked for, or zero. */
  function Choice(config: Config): nat {
    if config.forceProtocol.Some? && config.forceProtocol.value.ElmId().Some? then config.forceProtocol.value.ElmId().value else 0
  }

  /** With that protocol selected, if the device takes it. */
  function OnBus(d: Device, p: Personality, config: Config): Device {
    if Unsupported(p, "ATSP" + Print(Choice(config), 0)) then d else Selected(d, Choice(config))
  }

  /** From any state, a connection's commands leave echo and line feeds off, the spaces as configured,
      headers on and the configured protocol selected, but for what the device does not take: each such
      setting is then at rest. */
  lemma Configured(d: Device, p: Personality, v: VehicleKind, config: Config)
    requires !Unsupported(p, "ATZ")
    ensures After(d, p, v, ["ATZ", "ATE0"] + Configuring(config)) == OnBus(Printing(p, config.spaces, true, d.secondaryBaud), p, config)
  {
    hide Unsupported, After, Print;
    var rested := POWER_ON.(secondaryBaud := d.secondaryBaud);
    var printing := Printing(p, config.spaces, true, d.secondaryBaud);
    assert ["ATZ", "ATE0"] + Configuring(config) == ["ATZ"] + (ReplySettings(config.spaces, true) + BusSettings(config));
    AfterAppend(d, p, v, ["ATZ"], ReplySettings(config.spaces, true) + BusSettings(config));
    ResetTaken(d, p, v, "ATZ");
    AfterAppend(rested, p, v, ReplySettings(config.spaces, true), BusSettings(config));
    RepliesSet(rested, p, v, config.spaces, true);
    BusSet(printing, p, v, config);
  }

  lemma BusSet(d: Device, p: Personality, v: VehicleKind, config: Config)
    ensures After(d, p, v, BusSettings(config)) == OnBus(d, p, config)
  {
    hide Unsupported, After, Print, Answer;
    var n := Choice(config);
    var select := ["ATSP" + Print(n, 0)];
    SelectAnswer(d, p, v, n);
    AfterOne(d, p, v, "ATSP" + Print(n, 0));
    if config.adaptiveTiming {
      AfterAppend(d, p, v, ["ATAT1"], select);
      TimingAnswer(d, p, v, "ATAT1");
      assert Plain("ATAT1");
      AfterOne(d, p, v, "ATAT1");
      assert BusSettings(config) == ["ATAT1"] + select;
    } else {
      assert BusSettings(config) == select;
    }
  }

  /** From any state, a warm start and what is sent again after it leave echo and line feeds off and the
      spaces and headers as they are sent, but for what the device does not take; the protocol and the
      header are at rest. */
  lemma Restored(d: Device, p: Personality, v: VehicleKind, spaces: bool, headers: bool, windowMs: nat)
    requires !Unsupported(p, "ATWS")
    ensures After(d, p, v, ["ATWS"] + Restoring(spaces, headers, windowMs)) == Printing(p, spaces, headers, d.secondaryBaud)
  {
    hide Unsupported, After, WindowLine, Answer;
    var rested, window := POWER_ON.(secondaryBaud := d.secondaryBaud), WindowLine(windowMs);
    AfterAppend(d, p, v, ["ATWS"], Restoring(spaces, headers, windowMs));
    ResetTaken(d, p, v, "ATWS");
    AfterAppend(rested, p, v, ReplySettings(spaces, headers), [window]);
    RepliesSet(rested, p, v, spaces, headers);
    WindowPlain(windowMs);
    TimingAnswer(Printing(p, spaces, headers, d.secondaryBaud), p, v, window);
    AfterOne(Printing(p, spaces, headers, d.secondaryBaud), p, v, window);
  }

  lemma WindowPlain(windowMs: nat)
    ensures "ATST" <= WindowLine(windowMs) && Plain(WindowLine(windowMs))
  {
    hide Print, IsSwitch;
    WindowCommand(windowMs / 4);
  }

  // ---- What the adapter learns ----

  /** What the device calls its protocol: its number, after an A if it chose it itself. */
  function NumberLine(d: Device): string {
    if d.protocol.None? then "A0" else (if d.requestedProtocol == 0 then "A" else "") + Print(d.protocol.value, 0)
  }

  lemma NumberAnswer(d: Device, p: Personality, v: VehicleKind)
    requires !Unsupported(p, "ATDPN")
    ensures Answer(d, p, v, "ATDPN", []) == (d, [NumberLine(d)])
  {
    hide Unsupported, Print;
    assert "ATDPN"[2..] == "DPN" && "AT" + "DPN" == "ATDPN" && "AT" <= "ATDPN";
    NotPrefix("ST", "ATDPN", 0);
    NotPrefix("SH", "DPN", 0);
    NotPrefix("CP", "DPN", 0);
    NotPrefix("SP", "DPN", 0);
    NotPrefix("ST", "DPN", 0);
    NotPrefix("AT", "DPN", 0);
    NotPrefix("CAF", "DPN", 0);
    assert |"DPN"| == 3;
  }

  /** One digit, perhaps after an A. */
  lemma NumberClean(line: string, n: nat)
    requires n <= 9 && (line == [Digit(n)] || line == ['A', Digit(n)])
    ensures CleanLine(line) && !IsSearching(line) && Normalize(line) != "ATDPN" && ParseProtocolNumber(line) == FromElmId(n)
  {
    hide UpperAll, Unspaced;
    OneDigit(n);
    assert Plain(line);
    PlainIsNormal(line);
    TrimmedIsFixed(line);
    assert |"ATDPN"| == 5;
    OtherLetter(line, 0);
    if |line| == 2 {
      assert line[1..] == [Digit(n)];
    }
  }

  /** What the device says of its protocol is what the adapter learns, whether it chose it itself or was
      told; while it has none the adapter learns none. */
  lemma NumberLearned(d: Device, p: Personality, v: VehicleKind)
    requires !Unsupported(p, "ATDPN") && (d.protocol.Some? ==> 1 <= d.protocol.value <= 9)
    ensures NamedProtocol(Understood("ATDPN", Spoken(d, p, v, "ATDPN", []))) == if d.protocol.Some? then FromElmId(d.protocol.value) else Unknown
  {
    hide Unsupported, Answer, Understood, ReplyText, CleanLine, IsSearching, Normalize, ParseProtocolNumber, Print;
    var n := if d.protocol.Some? then d.protocol.value else 0;
    var line := NumberLine(d);
    OneDigit(n);
    assert "A" + [Digit(n)] == ['A', Digit(n)] && "" + [Digit(n)] == [Digit(n)] && Digit(0) == '0' && "A0" == ['A', '0'];
    NumberClean(line, n);
    NumberAnswer(d, p, v);
    NumberPlain();
    OneLineReads("ATDPN", d.echo, d.linefeeds, false, line);
    NoSearch(line);
  }

  lemma NumberPlain()
    ensures Normalize("ATDPN") == "ATDPN" && IsCommand("ATDPN")
  {
    hide UpperAll, Unspaced;
    assert Plain("ATDPN");
    PlainIsNormal("ATDPN");
  }

  /** The vehicle's own protocol. */
  function OwnProtocol(v: VehicleKind): ObdProtocol {
    if v.kLine then Iso9141_2 else if v.extended then Can29_500 else Can11_500
  }

  /** On the automatic choice the first answered request makes the device find the vehicle's own
      protocol, and that is what the adapter then learns. */
  lemma ProtocolFound(d: Device, p: Personality, v: VehicleKind, command: string, answers: seq<EcuReply>)
    requires d.protocol.None? && d.requestedProtocol == 0 && !Unsupported(p, "ATDPN") && answers != []
    requires Asks(d, v, command)
    ensures var after := Answer(d, p, v, command, answers).0;
            NamedProtocol(Understood("ATDPN", Spoken(after, p, v, "ATDPN", []))) == OwnProtocol(v)
  {
    hide Understood, Spoken, NamedProtocol, Unsupported, ObdReply, Answer, Asks;
    FoundBy(d, v, command, answers);
    IsRequest(d, p, v, command, answers);
    NumberLearned(Answer(d, p, v, command, answers).0, p, v);
  }

  lemma FoundBy(d: Device, v: VehicleKind, command: string, answers: seq<EcuReply>)
    requires d.protocol.None? && d.requestedProtocol == 0 && answers != [] && Asks(d, v, command)
    ensures ObdReply(d, v, command, answers).0 == d.(protocol := OwnProtocol(v).ElmId())
    ensures Printed(command) && |command| >= 2
  {
    hide FrameLines, Pairs;
  }

  /** A selected protocol reaches nothing if and only if it is of the other family than the vehicle's, or
      on CAN of the other width. */
  lemma WrongExactly(d: Device, v: VehicleKind)
    requires d.protocol.Some? && 1 <= d.protocol.value <= 9
    ensures var selected, own := FromElmId(d.protocol.value), OwnProtocol(v);
            WrongProtocol(d, v) <==> selected.IsCan() != own.IsCan() || (own.IsCan() && selected.Is29Bit() != own.Is29Bit())
  {
    assert FromElmId(d.protocol.value).ElmId() == d.protocol;
  }

  // ---- The second bus ----

  /** Better firmware is put on the second bus by `STP53` and told its rate by `STPBR`. */
  lemma SecondBusAnswer(d: Device, p: Personality, v: VehicleKind)
    requires p.stnFirmware.Some?
    ensures Answer(d, p, v, "STP53", []) == (d.(onSecondaryBus := true), ["OK"])
    ensures Answer(d, p, v, "STPBR500000", []) == (d.(secondaryBaud := 500000), ["OK"])
  {
    hide Decimal, AtReply;
    NotPrefix("STPBR", "STP53", 3);
    var rate := "STPBR500000";
    assert rate[5..] == "500000" && "ST" <= rate && "STPBR" <= rate;
    FiveHundredThousand();
  }

  lemma FiveHundredThousand()
    ensures Decimal("500000") == Some(500000)
  {
    assert "500000"[..5] == "50000" && "50000"[..4] == "5000" && "5000"[..3] == "500" && "500"[..2] == "50" && "50"[..1] == "5";
    assert Digits("5") == Some(5);
    assert Digits("50") == Some(50);
    assert Digits("500") == Some(500);
  }

  /** On the second bus a request of whole bytes is answered if and only if the bus is fitted and the rate
      is right, whatever protocol is selected; an unfitted bus is an error, a wrong rate is silence. */
  lemma SecondBusReached(d: Device, p: Personality, v: VehicleKind, command: string, answers: seq<EcuReply>)
    requires d.onSecondaryBus && !WrongProtocol(d, v) && Printed(command) && |command| >= 2 && |command| % 2 == 0
    ensures Answer(d, p, v, command, answers).1
         == if !v.secondaryFitted then ["CAN ERROR"]
            else if d.secondaryBaud == 500000 && answers != [] then FrameLines(d, v, answers)
            else if d.protocol.None? then ["UNABLE TO CONNECT"] else ["NO DATA"]
  {
    hide FrameLines, Pairs, WrongProtocol, ObdReply;
    IsRequest(d, p, v, command, answers);
    SecondBusReplies(d, v, command, answers);
  }

  lemma SecondBusReplies(d: Device, v: VehicleKind, command: string, answers: seq<EcuReply>)
    requires d.onSecondaryBus && !WrongProtocol(d, v) && Printed(command) && |command| >= 2 && |command| % 2 == 0
    ensures ObdReply(d, v, command, answers).1
         == if !v.secondaryFitted then ["CAN ERROR"]
            else if d.secondaryBaud == 500000 && answers != [] then FrameLines(d, v, answers)
            else if d.protocol.None? then ["UNABLE TO CONNECT"] else ["NO DATA"]
  {
    hide FrameLines, Pairs, WrongProtocol;
    PrintedIsHex(command);
    assert [] + FrameLines(d, v, answers) == FrameLines(d, v, answers) && [] + ["NO DATA"] == ["NO DATA"];
  }

  // ---- Broadcasts ----

  /** On CAN a protocol's own header broadcasts to every module: 7DF with eleven bits, DB33F1 under the
      standard priority with twenty-nine. */
  lemma BroadcastHeader(p: Personality, protocol: ObdProtocol)
    requires p.unsupported == [] && protocol.IsCan()
    ensures protocol.FunctionalHeader().Some?
    ensures HeaderValue(p, protocol.FunctionalHeader().value) == Some(if protocol.Is29Bit() then 0x18DB33F1 else 0x7DF)
  {
    hide Unspaced, UpperAll, FromStrRadix16;
    var h := protocol.FunctionalHeader().value;
    if protocol.Is29Bit() {
      assert h[..2] == "18" && h[2..] == "DB33F1";
      PlainIsNormal("18");
      PlainIsNormal("DB33F1");
      EighteenHex();
      SixDigits();
    } else {
      PlainIsNormal("7DF");
      ThreeDigits('7', 'D', 'F');
    }
  }

  lemma SixDigits()
    ensures FromStrRadix16("DB33F1") == Some(0xDB33F1)
  {
    ThreeDigits('D', 'B', '3');
    assert ['D', 'B', '3'] == "DB3";
    OneMore("DB3", '3');
    OneMore("DB33", 'F');
    OneMore("DB33F", '1');
    assert "DB3" + ['3'] == "DB33" && "DB33" + ['F'] == "DB33F" && "DB33F" + ['1'] == "DB33F1";
  }

  lemma OneMore(s: string, c: char)
    requires FromStrRadix16(s).Some? && s[0] != '+' && IsHexDigit(c)
    ensures s + [c] != [] && FromStrRadix16(s + [c]) == Some(16 * FromStrRadix16(s).value + Value(c))
  {
    assert (s + [c])[..|s|] == s;
  }
}
