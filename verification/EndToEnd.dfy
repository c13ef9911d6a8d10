/** One request all the way: the emulator handles the line and prints what the modules answer
    (simulator/src/elm.rs), the adapter reads the text and assembles it (core/adapter/src/elm327.rs). */
module EndToEnd {
  import opened Wrappers
  import opened Text
  import opened Hex
  import opened EcuReplies
  import opened Can
  import opened Response
  import opened FrameText
  import opened Assemble
  import opened Interleaving
  import opened WireRoundTrip
  import opened Conversation
  import opened Legacy
  import opened LegacyConversation
  import opened LegacyRoundTrip
  import opened Elm
  import opened Headers
  import opened Transports
  import opened Reactions
  import opened Adapter
  import opened Runs
  import opened Verdicts

  /** A request the emulator puts to the vehicle: whole bytes, on the primary bus, in the vehicle's own
      protocol or one still to be found, which only the legislated services start a search for. */
  predicate Asks(d: Device, v: VehicleKind, command: string) {
    && Printed(command) && |command| >= 2 && |command| % 2 == 0
    && d.headers && !d.onSecondaryBus && !WrongProtocol(d, v)
    && (d.protocol.None? ==> AllHex(command) && 0x01 <= Pairs(command)[0] <= 0x0A)
  }

  /** It is answered by whatever frames the modules' answers make. */
  lemma AnswerPrinted(d: Device, p: Personality, v: VehicleKind, command: string, answers: seq<EcuReply>)
    requires Asks(d, v, command) && answers != []
    ensures IsCommand(command) && Normalize(command) == command
    ensures var (after, lines) := Answer(d, p, v, command, answers);
            after.linefeeds == d.linefeeds && lines == Banner(d.protocol.None?) + FrameLines(d, v, answers)
  {
    hide FrameLines, WrongProtocol, StReply, AtReply, Unspaced, UpperAll;
    PrintedIsHex(command);
    PrintedIsPlain(command);
    PlainIsNormal(command);
    assert command[0] in command && command[1] in command;
    NotPrefix("ST", command, 0);
    NotPrefix("AT", command, 1);
    assert command[..|command|] == command;
  }

  /** What the adapter reads of the emulator's text. */
  method ReadAnswer(emulator: ElmEmulator, command: string, answers: seq<EcuReply>) returns (reply: AdapterResponse)
    requires emulator.faults == [] && Asks(emulator.State(), emulator.vehicle, command) && answers != []
    modifies emulator
    ensures var d := old(emulator.State());
            reply == ParseReply(command, ReplyText(command, d.echo, d.linefeeds, Banner(d.protocol.None?) + FrameLines(d, emulator.vehicle, answers)), true)
  {
    hide Answer, Asks, FrameLines, Normalize, Rows, Trim, ParseReply, ReplyText, Banner;
    ghost var d := emulator.State();
    EchoIsText(command, d.echo, d.linefeeds, Banner(d.protocol.None?) + FrameLines(d, emulator.vehicle, answers));
    AnswerPrinted(d, emulator.personality, emulator.vehicle, command, answers);
    var text := emulator.HandleLine(command, answers);
    reply := Parse(command, text, '>' in text);
  }

  lemma EchoIsText(command: string, echo: bool, linefeeds: bool, lines: seq<string>)
    ensures ReplyText(command, echo, linefeeds, lines) == (if echo then Trim(command) + "\r" else "") + Rows(lines, linefeeds)
    ensures '>' in ReplyText(command, echo, linefeeds, lines)
  {
    hide Rows, Trim;
    PromptEnds(command, echo, linefeeds, lines);
  }

  /** On CAN the messages assembled are the modules' answers, one for each, in address order. */
  method AskCan(emulator: ElmEmulator, command: string, answers: seq<EcuReply>, how: Reading, keepPartial: bool)
    returns (r: Result<seq<EcuMessage>, ErrorCode>, ghost all: map<string, EcuMessage>)
    requires emulator.faults == [] && Asks(emulator.State(), emulator.vehicle, command) && !emulator.vehicle.kLine
    requires answers != [] && Distinct(answers) && AllDeliverable(answers, how.protocol)
    requires NoLineIsCommand(command, AllLines(answers, true, emulator.spaces))
    modifies emulator
    ensures r.Success? && IsListing(r.value, all) && Carries(all, answers, old(emulator.spaces))
  {
    hide Asks, ParseReply, ReplyText, Banner, Distinct, AllLines, Carries, Assembled, IsListing, NoLineIsCommand,
         WrongProtocol;
    ghost var d := emulator.State();
    SomeCommand(d, emulator.vehicle, command);
    FullRoundTrip(command, d.echo, d.linefeeds, d.protocol.None?, answers, d.spaces, how, keepPartial);
    var reply := ReadAnswer(emulator, command, answers);
    r := AssembleCanWith(reply.lines, how.spaces, how.protocol, keepPartial);
    all := Assembly(reply.lines, how, keepPartial).value;
  }

  lemma SomeCommand(d: Device, v: VehicleKind, command: string)
    requires Asks(d, v, command)
    ensures IsCommand(command) && d.headers
  {
    PrintedIsPlain(command);
  }

  /** On the K-line they are the modules' answers in the form of that bus. */
  method AskKLine(emulator: ElmEmulator, command: string, answers: seq<EcuReply>) returns (out: seq<EcuMessage>)
    requires emulator.faults == [] && Asks(emulator.State(), emulator.vehicle, command) && emulator.vehicle.kLine
    requires answers != [] && Answered(Legacies(answers))
    requires NoLineIsCommand(command, AllLegacy(Legacies(answers), true, emulator.spaces))
    modifies emulator
    ensures forall k :: 0 <= k < |answers| ==> CameBack(out, Legacies(answers)[k], old(emulator.spaces))
    ensures forall i :: 0 <= i < |out| ==> Among(out[i].address, Legacies(answers))
  {
    hide Asks, ParseReply, ReplyText, Banner, AllLegacy, CameBack, Among, IsLegacyListing, NoLineIsCommand,
         WrongProtocol;
    ghost var d := emulator.State();
    SomeCommand(d, emulator.vehicle, command);
    LegacyReplyRoundTrip(command, d.echo, d.linefeeds, d.protocol.None?, Legacies(answers), d.spaces);
    var reply := ReadAnswer(emulator, command, answers);
    out := AssembleNonCan(reply.lines);
  }

  /** A connected adapter that has had every exchange answered in time and had `ATH1` taken: a request
      whose header is in place, put to modules that answer, comes back as exactly their answers, read the
      way the adapter believes the device prints. */
  method AskConnected(a: Elm327Adapter, pdu: seq<Byte>, target: RequestTarget, answers: seq<EcuReply>, keepPartial: bool)
    returns (r: Result<seq<EcuMessage>, ErrorCode>, ghost all: map<string, EcuMessage>)
    requires a.Session() && a.state.IsUsable() && a.link.unanswered == 0 && a.headersEnabled
    requires target.Physical? ==> StandardPriority(target.header)
    requires a.InPlace(a.currentHeader, a.protocol, target)
    requires a.link.DeliverNext() && a.link.script[0].answers == answers
    requires Reaches(a.link.emulator.State(), a.link.emulator.vehicle, pdu) && !a.link.emulator.vehicle.kLine
    requires answers != [] && Distinct(answers) && AllDeliverable(answers, a.protocol)
    requires NoLineIsCommand(Bytes(pdu), AllLines(answers, true, a.spacesEnabled))
    modifies a, a.link, a.link.emulator
    ensures a.Session() && r.Success? && IsListing(r.value, all) && Carries(all, answers, old(a.spacesEnabled))
  {
    hide Reaches, Distinct, AllLines, Carries, Assembled, IsListing, NoLineIsCommand, StandardPriority, Normalize,
         Agrees, StandingOf, Trusted, Walked, ReadableBanner, Understood, Spoken, FaultCount, OpenFailures,
         HeadersMistaken, SpacesMistaken, Foreign, Says, Hindered, Unheard, ParseReply, AllDeliverable, Bytes;
    ghost var d, p, v := a.link.emulator.State(), a.link.emulator.personality, a.link.emulator.vehicle;
    var spaces, protocol := a.spacesEnabled, a.protocol;
    PrintingExactly(a);
    PutToVehicle(d, v, pdu);
    HeardWhole(d, p, v, Bytes(pdu), answers, Reading(spaces, protocol), keepPartial);
    var reply := a.Request(pdu, target);
    r := AssembleCanWith(reply.value.lines, a.spacesEnabled, a.protocol, keepPartial);
    all := Assembly(reply.value.lines, Reading(spaces, protocol), keepPartial).value;
  }

  /** A request on the primary bus, in the vehicle's own protocol or one still to be found. */
  predicate Reaches(d: Device, v: VehicleKind, pdu: seq<Byte>) {
    pdu != [] && !d.onSecondaryBus && !WrongProtocol(d, v) && (d.protocol.None? ==> 0x01 <= pdu[0] <= 0x0A)
  }

  lemma PutToVehicle(d: Device, v: VehicleKind, pdu: seq<Byte>)
    requires Reaches(d, v, pdu) && d.headers
    ensures Asks(d, v, Bytes(pdu))
  {
    hide WrongProtocol;
    BytesPrinted(pdu);
    PairsOfBytes(pdu);
  }

  /** What the device says to a request is read as data, and assembles into the modules' answers. */
  lemma HeardWhole(d: Device, p: Personality, v: VehicleKind, command: string, answers: seq<EcuReply>, how: Reading, keepPartial: bool)
    requires Asks(d, v, command) && !v.kLine
    requires answers != [] && Distinct(answers) && AllDeliverable(answers, how.protocol)
    requires NoLineIsCommand(command, AllLines(answers, true, d.spaces))
    ensures var reply := Understood(command, Spoken(d, p, v, command, answers));
            && reply.classified == Data
            && Assembly(reply.lines, how, keepPartial).Success?
            && Carries(Assembly(reply.lines, how, keepPartial).value, answers, d.spaces)
  {
    hide Asks, ParseReply, ReplyText, Banner, Distinct, AllLines, Carries, Assembled, NoLineIsCommand, Normalize,
         Answer, AllDeliverable;
    SomeCommand(d, v, command);
    AnswerPrinted(d, p, v, command, answers);
    var lines := Banner(d.protocol.None?) + FrameLines(d, v, answers);
    PromptEnds(command, d.echo, d.linefeeds, lines);
    FullRoundTrip(command, d.echo, d.linefeeds, d.protocol.None?, answers, d.spaces, how, keepPartial);
  }

  /** The same on the K-line, in the form of that bus. */
  method AskConnectedKLine(a: Elm327Adapter, pdu: seq<Byte>, target: RequestTarget, answers: seq<EcuReply>) returns (out: seq<EcuMessage>)
    requires a.Session() && a.state.IsUsable() && a.link.unanswered == 0 && a.headersEnabled
    requires target.Physical? ==> StandardPriority(target.header)
    requires a.InPlace(a.currentHeader, a.protocol, target)
    requires a.link.DeliverNext() && a.link.script[0].answers == answers
    requires Reaches(a.link.emulator.State(), a.link.emulator.vehicle, pdu) && a.link.emulator.vehicle.kLine
    requires answers != [] && Answered(Legacies(answers))
    requires NoLineIsCommand(Bytes(pdu), AllLegacy(Legacies(answers), true, a.spacesEnabled))
    modifies a, a.link, a.link.emulator
    ensures a.Session()
    ensures forall k :: 0 <= k < |answers| ==> CameBack(out, Legacies(answers)[k], old(a.spacesEnabled))
    ensures forall i :: 0 <= i < |out| ==> Among(out[i].address, Legacies(answers))
  {
    hide Reaches, AllLegacy, CameBack, Among, IsLegacyListing, NoLineIsCommand, StandardPriority, Normalize, Agrees,
         StandingOf, Trusted, Walked, ReadableBanner, Understood, Spoken, FaultCount, OpenFailures, HeadersMistaken,
         SpacesMistaken, Foreign, Says, Hindered, Unheard, ParseReply, Bytes, Answered;
    ghost var d, p, v := a.link.emulator.State(), a.link.emulator.personality, a.link.emulator.vehicle;
    PrintingExactly(a);
    PutToVehicle(d, v, pdu);
    HeardKLine(d, p, v, Bytes(pdu), answers);
    var reply := a.Request(pdu, target);
    out := AssembleNonCan(reply.value.lines);
  }

  lemma HeardKLine(d: Device, p: Personality, v: VehicleKind, command: string, answers: seq<EcuReply>)
    requires Asks(d, v, command) && v.kLine && answers != [] && Answered(Legacies(answers))
    requires NoLineIsCommand(command, AllLegacy(Legacies(answers), true, d.spaces))
    ensures var reply := Understood(command, Spoken(d, p, v, command, answers));
            && reply.classified == Data
            && forall out: seq<EcuMessage> :: IsLegacyListing(out, reply.lines) ==>
                 && (forall k :: 0 <= k < |answers| ==> CameBack(out, Legacies(answers)[k], d.spaces))
                 && (forall i :: 0 <= i < |out| ==> Among(out[i].address, Legacies(answers)))
  {
    hide Asks, ParseReply, ReplyText, Banner, AllLegacy, CameBack, Among, IsLegacyListing, NoLineIsCommand,
         Normalize, Answer;
    SomeCommand(d, v, command);
    AnswerPrinted(d, p, v, command, answers);
    PromptEnds(command, d.echo, d.linefeeds, Banner(d.protocol.None?) + FrameLines(d, v, answers));
    LegacyReplyRoundTrip(command, d.echo, d.linefeeds, d.protocol.None?, Legacies(answers), d.spaces);
  }

  /** A request nobody answers, or one put in the wrong protocol, is read as silence, or while the
      protocol is still to be found as no connection. */
  lemma NobodyHeard(d: Device, p: Personality, v: VehicleKind, command: string, answers: seq<EcuReply>)
    requires Printed(command) && |command| >= 2 && |command| % 2 == 0 && !d.onSecondaryBus
    requires d.protocol.None? ==> AllHex(command) && 0x01 <= Pairs(command)[0] <= 0x0A
    requires answers == [] || WrongProtocol(d, v)
    ensures Understood(command, Spoken(d, p, v, command, answers)).classified == if d.protocol.None? then UnableToConnect else NoData
  {
    hide ParseReply, ReplyText, Normalize, Answer, Understood;
    PrintedIsPlain(command);
    NobodyAnswers(d, p, v, command, answers);
    SilenceReads(command, d.echo, d.linefeeds, false);
    NoSearch("NO DATA");
    NoSearch("UNABLE TO CONNECT");
    NotABanner(command);
  }

  lemma NotABanner(command: string)
    requires Printed(command)
    ensures command != "UNABLETOCONNECT"
  {
    assert "UNABLETOCONNECT"[0] == 'U';
  }

  lemma NobodyAnswers(d: Device, p: Personality, v: VehicleKind, command: string, answers: seq<EcuReply>)
    requires Printed(command) && |command| >= 2 && |command| % 2 == 0 && !d.onSecondaryBus
    requires d.protocol.None? ==> AllHex(command) && 0x01 <= Pairs(command)[0] <= 0x0A
    requires answers == [] || WrongProtocol(d, v)
    ensures IsCommand(command) && Normalize(command) == command
    ensures Answer(d, p, v, command, answers) == (d, [if d.protocol.None? then "UNABLE TO CONNECT" else "NO DATA"])
  {
    hide FrameLines, ObdReply, Normalize, WrongProtocol, Pairs;
    IsRequest(d, p, v, command, answers);
    NobodyReplies(d, v, command, answers);
  }

  /** Hexadecimal goes to the vehicle as it is. */
  lemma IsRequest(d: Device, p: Personality, v: VehicleKind, command: string, answers: seq<EcuReply>)
    requires Printed(command) && |command| >= 2
    ensures IsCommand(command) && Normalize(command) == command
    ensures Answer(d, p, v, command, answers) == ObdReply(d, v, command, answers)
  {
    hide ObdReply, StReply, AtReply, Unspaced, UpperAll;
    PrintedIsPlain(command);
    PlainIsNormal(command);
    assert command[0] in command && command[1] in command;
    NotPrefix("ST", command, 0);
    NotPrefix("AT", command, 1);
  }

  lemma NobodyReplies(d: Device, v: VehicleKind, command: string, answers: seq<EcuReply>)
    requires Printed(command) && |command| >= 2 && |command| % 2 == 0 && !d.onSecondaryBus
    requires d.protocol.None? ==> AllHex(command) && 0x01 <= Pairs(command)[0] <= 0x0A
    requires answers == [] || WrongProtocol(d, v)
    ensures ObdReply(d, v, command, answers) == (d, [if d.protocol.None? then "UNABLE TO CONNECT" else "NO DATA"])
  {
    hide FrameLines, Pairs;
    PrintedIsHex(command);
    NoSearch("NO DATA");
    assert [] + ["NO DATA"] == ["NO DATA"];
  }
}
