/** The emulated adapter: one command line in, one reply text out (simulator/src/elm.rs). */
module Elm {
  import opened Wrappers
  import opened Text
  import opened Hex
  import opened EcuReplies
  import opened IsoTp
  import opened Protocols
  import opened Legacy
  import opened WireRoundTrip
  import opened Conversation

  datatype InjectedFault = BufferFullFault | StoppedFault | Silence | NotUnderstoodFault | BusErrorFault

  datatype Personality = Personality(
    banner: string, description: Option<string>, voltage: string,
    unsupported: seq<string>, stnFirmware: Option<string>)

  /** What of the vehicle the emulator itself looks at; the rest is in the answers. */
  datatype VehicleKind = VehicleKind(kLine: bool, extended: bool, secondaryFitted: bool)

  const DEFAULT_HEADER := 0x7DF
  const DEFAULT_PRIORITY := 0x18

  /** The emulator's settings as one value. */
  datatype Device = Device(
    echo: bool, headers: bool, spaces: bool, linefeeds: bool,
    protocol: Option<nat>, requestedProtocol: nat, header: nat, priority: nat,
    onSecondaryBus: bool, secondaryBaud: nat)

  const POWER_ON := Device(true, false, true, true, None, 0, DEFAULT_HEADER, DEFAULT_PRIORITY, false, 0)

  function TrimStartA(s: string): (t: string)
    ensures |t| <= |s|
  {
    if s != [] && (s[0] == 'A' || s[0] == 'a') then TrimStartA(s[1..]) else s
  }

  /** What `ATSH` selects, by its number of digits: three for 11 bits, six or eight for 29. */
  function ParsedHeader(v: string, priority: nat): Option<nat> {
    if |v| != 3 && |v| != 6 && |v| != 8 then None
    else match FromStrRadix16(v)
      case None => None
      case Some(h) => Some(if |v| == 6 then priority * 0x100_0000 + h else h)
  }

  function SetHeaderReply(d: Device, v: string): (Device, seq<string>) {
    match ParsedHeader(v, d.priority)
    case Some(h) => (d.(header := h), ["OK"])
    case None => (d, ["?"])
  }

  function SetPriorityReply(d: Device, v: string): (Device, seq<string>) {
    if |v| == 2 && FromStrRadix16(v).Some? then (d.(priority := FromStrRadix16(v).value), ["OK"]) else (d, ["?"])
  }

  function SelectProtocolReply(d: Device, v: string): (Device, seq<string>) {
    match FromStrRadix16(TrimStartA(v))
    case Some(p) =>
      if p <= 9 then (d.(requestedProtocol := p, protocol := if p == 0 then None else Some(p), onSecondaryBus := false), ["OK"])
      else (d, ["?"])
    case None => (d, ["?"])
  }

  /** Settings and questions without a parameter. */
  function ToggleReply(d: Device, p: Personality, v: VehicleKind, rest: string): (Device, seq<string>) {
    if rest == "I" then (d, [p.banner])
    else if rest == "@1" then (d, [if p.description.Some? then p.description.value else "?"])
    else if rest == "E0" then (d.(echo := false), ["OK"])
    else if rest == "E1" then (d.(echo := true), ["OK"])
    else if rest == "L0" then (d.(linefeeds := false), ["OK"])
    else if rest == "L1" then (d.(linefeeds := true), ["OK"])
    else if rest == "S0" then (d.(spaces := false), ["OK"])
    else if rest == "S1" then (d.(spaces := true), ["OK"])
    else if rest == "H0" then (d.(headers := false), ["OK"])
    else if rest == "H1" then (d.(headers := true), ["OK"])
    else if rest == "RV" then (d, [p.voltage])
    else if rest == "DPN" then
      (d, [if d.protocol.None? then "A0" else (if d.requestedProtocol == 0 then "A" else "") + Print(d.protocol.value, 0)])
    else if rest == "DP" then (d, [if d.protocol.None? then "AUTO" else "AUTO, " + FromElmId(d.protocol.value).Label()])
    else if rest == "PC" then (d.(protocol := None), ["OK"])
    else if rest == "MA" then
      (d, if d.onSecondaryBus && d.secondaryBaud == 500000 && v.secondaryFitted
          then ["3B3 40 00 00 00 00 00 00 00", "42C 00 00 02 00 00 00 00 00"] else [])
    else (d, ["?"])
  }

  /** The bit rate survives a reset; everything else returns to its power-on value. */
  function ResetDevice(d: Device): Device {
    POWER_ON.(secondaryBaud := d.secondaryBaud)
  }

  predicate Unsupported(p: Personality, full: string) {
    exists i :: 0 <= i < |p.unsupported| && UpperAll(p.unsupported[i]) == UpperAll(full)
  }

  /** `handle_at` */
  function AtReply(d: Device, p: Personality, v: VehicleKind, rest: string): (Device, seq<string>) {
    if Unsupported(p, "AT" + rest) then (d, ["?"])
    else if "SH" <= rest then SetHeaderReply(d, rest[2..])
    else if "CP" <= rest then SetPriorityReply(d, rest[2..])
    else if "SP" <= rest then SelectProtocolReply(d, rest[2..])
    else if "ST" <= rest || "AT" <= rest || "CAF" <= rest then (d, ["OK"])
    else if rest == "Z" || rest == "WS" then (ResetDevice(d), [p.banner])
    else ToggleReply(d, p, v, rest)
  }

  /** A decimal number, as `parse::<u32>` takes it when it fits: one leading `+` is allowed. */
  function Decimal(s: string): Option<nat> {
    Digits(if |s| > 1 && s[0] == '+' then s[1..] else s)
  }

  function Digits(s: string): Option<nat> {
    if s == [] then None
    else if !('0' <= s[|s| - 1] <= '9') then None
    else
      var last := (s[|s| - 1] - '0') as nat;
      if |s| == 1 then Some(last)
      else match Digits(s[..|s| - 1])
        case None => None
        case Some(n) => Some(10 * n + last)
  }

  /** `handle_st` */
  function StReply(d: Device, p: Personality, command: string): (Device, seq<string>) {
    if p.stnFirmware.None? then (d, ["?"])
    else if command == "STI" then (d, [p.stnFirmware.value])
    else if command == "STDI" then (d, ["OBDLink MX+ r1.2"])
    else if command == "STP53" then (d.(onSecondaryBus := true), ["OK"])
    else if "STPBR" <= command then
      match Decimal(command[5..])
      case Some(baud) => if baud < 0x1_0000_0000 then (d.(secondaryBaud := baud), ["OK"]) else (d, ["?"])
      case None => (d, ["?"])
    else (d, ["OK"])
  }

  /** A protocol of the wrong family or width reaches nothing. */
  predicate WrongProtocol(d: Device, v: VehicleKind) {
    d.protocol.Some? &&
    var q := d.protocol.value;
    || (v.kLine && 6 <= q <= 9)
    || (!v.kLine && 1 <= q <= 5)
    || (!v.kLine && v.extended && (q == 6 || q == 8))
    || (!v.kLine && !v.extended && (q == 7 || q == 9))
  }

  function FrameLines(d: Device, v: VehicleKind, replies: seq<EcuReply>): seq<string> {
    if v.kLine then AllLegacy(Legacies(replies), d.headers, d.spaces) else AllLines(replies, d.headers, d.spaces)
  }

  /** On the K-line only the low byte of the identifier goes out, as the source. */
  function Legacies(replies: seq<EcuReply>): seq<LegacyReply> {
    seq(|replies|, i requires 0 <= i < |replies| => LegacyReply((replies[i].responseId % 0x100) as Byte, replies[i].payload))
  }

  /** `handle_obd`, given what the vehicle's modules answer. */
  function ObdReply(d: Device, v: VehicleKind, command: string, answers: seq<EcuReply>): (Device, seq<string>) {
    if !AllHex(command) then (d, ["?"])
    else
      var hex := if |command| % 2 == 1 then command[..|command| - 1] else command;
      if hex == [] then (d, ["?"])
      else
        var service := Pairs(hex)[0];
        var searching := d.protocol.None? && !d.onSecondaryBus;
        var lines := if searching then ["SEARCHING..."] else [];
        if searching && !(0x01 <= service <= 0x0A) then (d, [])
        else if WrongProtocol(d, v) then (d, lines + ["NO DATA"])
        else if d.onSecondaryBus && !v.secondaryFitted then (d, ["CAN ERROR"])
        else
          var replies := if d.onSecondaryBus && d.secondaryBaud != 500000 then [] else answers;
          if replies == [] then (d, if d.protocol.None? then ["UNABLE TO CONNECT"] else lines + ["NO DATA"])
          else
            var found := if v.kLine then 3 else if v.extended then 7 else 6;
            var now := if d.protocol.Some? then d
                       else d.(protocol := Some(if d.requestedProtocol == 0 then found else d.requestedProtocol));
            (now, lines + FrameLines(d, v, replies))
  }

  function FaultText(d: Device, raw: string, fault: InjectedFault): string {
    match fault
    case Silence => ""
    case BufferFullFault => ReplyText(raw, d.echo, d.linefeeds, ["BUFFER FULL"])
    case StoppedFault => ReplyText(raw, d.echo, d.linefeeds, ["STOPPED"])
    case NotUnderstoodFault => ReplyText(raw, d.echo, d.linefeeds, ["?"])
    case BusErrorFault => ReplyText(raw, d.echo, d.linefeeds, ["CAN ERROR"])
  }

  /** The settings after a command and the lines it is answered with. */
  function Answer(d: Device, p: Personality, v: VehicleKind, command: string, answers: seq<EcuReply>): (Device, seq<string>) {
    if command == "" then (d, [])
    else if "ST" <= command then StReply(d, p, command)
    else if "AT" <= command then AtReply(d, p, v, command[2..])
    else ObdReply(d, v, command, answers)
  }

  class ElmEmulator {
    const personality: Personality
    const vehicle: VehicleKind
    var echo: bool
    var headers: bool
    var spaces: bool
    var linefeeds: bool
    var protocol: Option<nat>
    var requestedProtocol: nat
    var header: nat
    var priority: nat
    var onSecondaryBus: bool
    var secondaryBaud: nat
    var faults: seq<InjectedFault>

    function State(): Device
      reads this
    {
      Device(echo, headers, spaces, linefeeds, protocol, requestedProtocol, header, priority, onSecondaryBus, secondaryBaud)
    }

    constructor (vehicle: VehicleKind, personality: Personality)
      ensures State() == POWER_ON && faults == [] && this.vehicle == vehicle && this.personality == personality
    {
      this.vehicle := vehicle;
      this.personality := personality;
      echo, headers, spaces, linefeeds := true, false, true, true;
      protocol, requestedProtocol := None, 0;
      header, priority := DEFAULT_HEADER, DEFAULT_PRIORITY;
      onSecondaryBus, secondaryBaud := false, 0;
      faults := [];
    }

    method Inject(fault: InjectedFault)
      modifies this`faults
      ensures faults == old(faults) + [fault]
    {
      faults := faults + [fault];
    }

    method Set(d: Device)
      modifies this`echo, this`headers, this`spaces, this`linefeeds, this`protocol, this`requestedProtocol,
               this`header, this`priority, this`onSecondaryBus, this`secondaryBaud
      ensures State() == d
    {
      echo, headers, spaces, linefeeds := d.echo, d.headers, d.spaces, d.linefeeds;
      protocol, requestedProtocol := d.protocol, d.requestedProtocol;
      header, priority := d.header, d.priority;
      onSecondaryBus, secondaryBaud := d.onSecondaryBus, d.secondaryBaud;
    }

    /** `handle_line`: an injected fault answers in the command's place, and the command is not carried out. */
    method HandleLine(line: string, answers: seq<EcuReply>) returns (text: string)
      modifies this
      ensures old(faults) != [] ==>
                && faults == old(faults)[1..] && State() == old(State())
                && text == FaultText(old(State()), line, old(faults)[0])
      ensures old(faults) == [] ==>
                && faults == []
                && var (after, lines) := Answer(old(State()), personality, vehicle, Normalize(line), answers);
                && State() == after
                && text == (if old(echo) then Trim(line) + "\r" else "") + Rows(lines, after.linefeeds)
    {
      hide Answer, Rows, Normalize, Trim;
      var out := if echo then Trim(line) + "\r" else "";
      if faults != [] {
        var fault := faults[0];
        faults := faults[1..];
        match fault {
          case Silence => text := "";
          case BufferFullFault => text := Finish(out, ["BUFFER FULL"], linefeeds);
          case StoppedFault => text := Finish(out, ["STOPPED"], linefeeds);
          case NotUnderstoodFault => text := Finish(out, ["?"], linefeeds);
          case BusErrorFault => text := Finish(out, ["CAN ERROR"], linefeeds);
        }
        return;
      }
      var (after, lines) := Answer(State(), personality, vehicle, Normalize(line), answers);
      Set(after);
      text := Finish(out, lines, linefeeds);
    }
  }
}
