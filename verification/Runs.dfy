/** Every run of the adapter against the emulator: any operations in any order, any injected faults,
    any script of link failures. */
module Runs {
  import opened Wrappers
  import opened Text
  import opened Hex
  import opened Protocols
  import opened Response
  import opened Elm
  import opened Headers
  import opened Transports
  import opened Reactions
  import opened Adapter

  datatype Operation =
    | Connect
    | Disconnect
    | Request(pdu: seq<Byte>, target: RequestTarget)
    | RequestPdu(pdu: seq<Byte>, target: RequestTarget, timeoutMs: nat)
    | ReadBatteryVoltage
    | PreferProtocol(candidate: Option<ObdProtocol>)
    | Inject(fault: InjectedFault)

  predicate Allowed(op: Operation) {
    (op.Request? || op.RequestPdu?) && op.target.Physical? ==> StandardPriority(op.target.header)
  }

  /** The cache a usable adapter holds is the header the device is on. */
  ghost predicate CacheRight(a: Elm327Adapter)
    reads a, a.link, a.link.emulator
  {
    a.state.IsUsable() && a.currentHeader.Some? ==> Held(a.link.emulator.State(), a.link.emulator.personality, a.currentHeader.value)
  }

  /** What a usable adapter takes to be printed is what the device prints. */
  ghost predicate PrintingRight(a: Elm327Adapter)
    reads a, a.link, a.link.emulator
  {
    a.state.IsUsable() ==> Shown(a.headersEnabled, a.spacesEnabled) == Shown(a.link.emulator.headers, a.link.emulator.spaces)
  }

  method Step(a: Elm327Adapter, op: Operation)
    requires a.Session() && Allowed(op)
    modifies a, a.link, a.link.emulator
    ensures a.Session() && (old(a.link.Faithful()) ==> a.link.Faithful())
  {
    hide StandardPriority, Foreign, StandingOf, Unheard, Astray, Agrees, Walked, ReadableBanner, Trusted, BroughtUp,
         Unbrought, Known, Hindered, AckedAt, Understood, Answers, Probes;
    match op
    case Connect =>
      var r;
      ghost var outset;
      r, outset := a.Connect();
    case Disconnect => a.Disconnect();
    case Request(pdu, target) => var r := a.Request(pdu, target);
    case RequestPdu(pdu, target, timeoutMs) => var r := a.RequestPdu(pdu, target, timeoutMs);
    case ReadBatteryVoltage => var r := a.ReadBatteryVoltage();
    case PreferProtocol(candidate) => a.PreferProtocol(candidate);
    case Inject(fault) => a.link.emulator.Inject(fault);
  }

  /** A usable adapter's cached header is the device's if and only if the device has not gone astray. */
  lemma CacheExactly(a: Elm327Adapter)
    requires a.Session() && a.state.IsUsable() && a.currentHeader.Some?
    ensures CacheRight(a) <==> !a.link.Stale()
  {
    hide HeaderValue, Told, Reached, Astray;
    AstrayExactly(a.link.moves, a.link.start);
  }

  /** Of two things exactly one holds: the device prints headers otherwise than it last told, or the last
      word on them was a warm start after which they were not put back. */
  ghost predicate HeadersMistaken(a: Elm327Adapter)
    reads a, a.link
  {
    (a.link.Now().shown.headers != a.link.Now().shownTold.headers) != (a.link.Now().warm.headers && a.headersEnabled)
  }

  /** The same of spaces, which a warm start turns on. */
  ghost predicate SpacesMistaken(a: Elm327Adapter)
    reads a, a.link
  {
    (a.link.Now().shown.spaces != a.link.Now().shownTold.spaces) != (a.link.Now().warm.spaces && !a.spacesEnabled)
  }

  /** What a usable adapter takes to be printed is what the device prints if and only if it is mistaken
      about neither; while every exchange has been answered in time it is not. */
  lemma PrintingExactly(a: Elm327Adapter)
    requires a.Session() && a.state.IsUsable()
    ensures a.headersEnabled == a.link.emulator.headers <==> !HeadersMistaken(a)
    ensures a.spacesEnabled == a.link.emulator.spaces <==> !SpacesMistaken(a)
    ensures a.link.unanswered == 0 ==> PrintingRight(a)
  {
    hide StandingOf, Agrees, Walked, ReadableBanner, Unsupported;
  }

  /** In every reachable usable state, through warm starts and reconnections, the cached header is the
      device's, so leaving out `ATSH` is the same as sending it, if and only if the last command that
      moved the header was not one whose reply was lost and that selected another header. Where the link
      loses no reply to a command carried out that is always so. What is printed is as the adapter takes
      it to be if and only if it is mistaken about neither headers nor spaces, and always if every
      exchange was answered in time. Every run of operations ends. */
  method EveryRun(a: Elm327Adapter, ops: seq<Operation>)
    requires a.Session() && forall i :: 0 <= i < |ops| ==> Allowed(ops[i])
    modifies a, a.link, a.link.emulator
    ensures a.Session()
    ensures a.state.IsUsable() && a.currentHeader.Some? ==> (CacheRight(a) <==> !a.link.Stale())
    ensures old(a.link.Faithful()) ==> CacheRight(a)
    ensures a.state.IsUsable() ==> (PrintingRight(a) <==> !HeadersMistaken(a) && !SpacesMistaken(a))
    ensures a.link.unanswered == 0 ==> PrintingRight(a)
  {
    hide Allowed, HeaderValue, StandingOf, Astray, Trusted, HeadersMistaken, SpacesMistaken;
    for i := 0 to |ops|
      invariant a.Session()
      invariant old(a.link.Faithful()) ==> a.link.Faithful()
    {
      Step(a, ops[i]);
    }
    if a.state.IsUsable() {
      PrintingExactly(a);
      if a.currentHeader.Some? {
        CacheExactly(a);
      }
    }
  }

  // ---- Where the cache goes wrong ----

  /** And it does go wrong. Any request of a usable adapter to another module whose `ATSH` the device
      carries out but answers too late: the request is refused, the adapter stays usable and keeps the
      header it had, and the device is on the other one. */
  method LateReplyStalesCache(a: Elm327Adapter, pdu: seq<Byte>, h: string)
    requires a.Session() && a.state.IsUsable() && a.currentHeader.Some? && CacheRight(a) && a.link.LateNext()
    requires StandardPriority(h) && |h| != 8 && HeaderValue(a.link.emulator.personality, h).Some?
    requires HeaderValue(a.link.emulator.personality, h) != Some(a.link.emulator.header)
    modifies a, a.link, a.link.emulator
    ensures a.Session() && a.state.IsUsable() && a.currentHeader == old(a.currentHeader)
    ensures a.link.Stale() && !CacheRight(a)
    ensures HeaderValue(a.link.emulator.personality, h) == Some(a.link.emulator.header)
  {
    hide HeaderValue, StandardPriority, Walked, Unheard, Says, ReadableBanner;
    ghost var p, moves := a.link.emulator.personality, a.link.moves;
    CacheExactly(a);
    AstrayExactly(moves, a.link.start);
    MovesThere(p, h);
    var r := a.Request(pdu, Physical(h));
    MovedUnheard(moves, a.link.start, HeaderValue(p, h).value);
    CacheExactly(a);
  }

  lemma MovesThere(p: Personality, h: string)
    requires StandardPriority(h) && |h| != 8 && HeaderValue(p, h).Some?
    ensures Unheard(p, "ATSH" + h) == [Move(HeaderValue(p, h).value, false)]
  {
    hide Normalize, ShortValue;
    PrefixIsNormal("ATSH", h);
    assert ("ATSH" + Normalize(h))[4..] == Normalize(h);
  }

  lemma MovedUnheard(moves: seq<Move>, start: nat, header: nat)
    requires header != Told(moves, start)
    ensures Astray(moves + [Move(header, false)], start) && Reached(moves + [Move(header, false)], start) == header
  {
    assert (moves + [Move(header, false)])[..|moves|] == moves;
  }

  /** A usable adapter on a fresh link to a device in this state. */
  method Prepared(config: Config, vehicle: VehicleKind, d: Device, script: seq<Outcome>) returns (a: Elm327Adapter)
    requires d.priority == DEFAULT_PRIORITY && d.spaces
    ensures fresh(a) && fresh(a.link) && fresh(a.link.emulator) && a.Session() && a.state == Ready && a.currentHeader == None
    ensures a.link.emulator.personality == Personality("OK", None, "12.6V", [], None)
    ensures a.link.isOpen && a.link.script == script && a.link.emulator.faults == [] && a.link.emulator.State() == d
    ensures a.link.moves == [] && a.link.start == d.header && a.headersEnabled == d.headers
  {
    hide ReadableBanner, FaultCount, OpenFailures, Agrees, Trusted;
    var personality := Personality("OK", None, "12.6V", [], None);
    PlainBanner();
    var emulator := new ElmEmulator(vehicle, personality);
    emulator.Set(d);
    var link := new Transport(emulator, script, []);
    var reached := link.Open();
    a := new Elm327Adapter(link, config, None);
    a.SetState(Ready);
    a.headersEnabled := d.headers;
    StartTrusted(personality, d.headers);
    NothingCached(personality, link.Now());
  }

  lemma StartTrusted(p: Personality, headers: bool)
    requires p.unsupported == []
    ensures Trusted(p, Shown(headers, true), Shown(false, false), headers, true)
  {
    hide Unsupported;
    SupportsAll(p, "ATH1");
  }

  /** Such an adapter: on 7E0, with one late answer to come, asked to go to 7E2. */
  method LateReplyExample(config: Config, vehicle: VehicleKind) returns (a: Elm327Adapter)
    ensures fresh(a) && a.Session() && a.state.IsUsable() && a.link.Stale() && !CacheRight(a)
    ensures a.currentHeader == Some("7E0") && a.link.emulator.header == 0x7E2
  {
    hide Says, Unheard, ReadableBanner, StandardPriority, HeaderValue, FaultCount, OpenFailures, Foreign, Trusted;
    a := Prepared(config, vehicle, POWER_ON.(header := 0x7E0), [Late]);
    Identifiers(a.link.emulator.personality);
    a.currentHeader := Some("7E0");
    LateReplyStalesCache(a, [0x3E], "7E2");
  }

  /** And what is printed is mistaken when a warm start was taken but what followed it never reached the
      device: the failures are ignored, no reply was lost, the adapter stays usable and takes the device
      for one that prints headers. */
  method FailedRestorationExample(config: Config, vehicle: VehicleKind) returns (a: Elm327Adapter)
    ensures fresh(a) && a.Session() && a.state.IsUsable() && a.link.Faithful()
    ensures a.headersEnabled && !a.link.emulator.headers && HeadersMistaken(a) && !PrintingRight(a)
  {
    hide Unheard, ReadableBanner, FaultCount, OpenFailures, Foreign, Answers, Probes, AckedAt, Agrees, Restoring,
         HeadersMistaken, Trusted, Walked;
    a := Prepared(config, vehicle, POWER_ON.(headers := true), [Deliver([]), DROP, DROP, DROP, DROP]);
    SupportsAll(a.link.emulator.personality, "ATWS");
    var recovered := a.RecoverAdapter("ATWS", PROBE);
    PrintingExactly(a);
  }

  lemma PlainBanner()
    ensures ReadableBanner("OK")
  {
    hide UpperAll, Unspaced, Trim, FailureOf;
    WordsClean("OK");
    OkIsNoFailure();
    PlainIsNormal("OK");
    UpperSame("OK");
    assert |"OK"| == 2;
  }

  lemma Identifiers(p: Personality)
    requires p.unsupported == []
    ensures HeaderValue(p, "7E0") == Some(0x7E0) && HeaderValue(p, "7E2") == Some(0x7E2) && StandardPriority("7E2")
  {
    hide Unspaced, UpperAll, FromStrRadix16;
    PlainIsNormal("7E0");
    PlainIsNormal("7E2");
    ThreeDigits('7', 'E', '0');
    ThreeDigits('7', 'E', '2');
  }

  lemma ThreeDigits(a: char, b: char, c: char)
    requires IsDigit(a) && IsDigit(b) && IsDigit(c)
    ensures FromStrRadix16([a, b, c]) == Some(0x100 * Value(a) + 0x10 * Value(b) + Value(c))
  {
    hide Value;
    var s := [a, b, c];
    assert [a][..0] == [] && Number([]) == 0;
    assert Number([a]) == Value(a);
    assert [a, b][..1] == [a];
    assert Number([a, b]) == 0x10 * Value(a) + Value(b);
    assert s[..2] == [a, b];
    assert AllHex(s);
  }

  lemma SupportsAll(p: Personality, full: string)
    requires p.unsupported == []
    ensures !Unsupported(p, full)
  {
  }

  /** A warm start between the priority and the rest of a 29-bit header puts the standard priority back:
      with any other priority the device ends on a header that was never asked for. */
  lemma WarmStartDropsPriority(p: Personality, v: VehicleKind, d: Device, rest: string)
    requires p.unsupported == [] && |rest| == 6 && Normalize(rest) == rest && FromStrRadix16(rest).Some?
    ensures Answer(ResetDevice(d), p, v, "ATSH" + rest, []).0.header == Answer(d, p, v, "ATSH" + rest, []).0.header
       <==> d.priority == DEFAULT_PRIORITY
  {
    hide Answer, FromStrRadix16, Unsupported, Normalize;
    HeaderAnswer(d, p, v, rest, []);
    HeaderAnswer(ResetDevice(d), p, v, rest, []);
    SupportsAll(p, "ATSH" + rest);
  }

  /** After a warm start the device is on its default header, whatever it was pointed at: the request
      sent again then does not go to its target unless the target is the default. */
  lemma WarmStartDropsTarget(p: Personality, v: VehicleKind, d: Device, h: string)
    requires p.unsupported == [] && Held(d, p, h)
    ensures Held(Answer(d, p, v, "ATWS", []).0, p, h) <==> d.header == DEFAULT_HEADER
  {
    hide HeaderValue, Answer, Unsupported;
    ResetAnswer(d, p, v, "ATWS", []);
    SupportsAll(p, "ATWS");
  }
}
