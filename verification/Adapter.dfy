/** The adapter object: header cache, learned response window and one-shot recovery over a link that
    can fail anywhere (`Elm327Adapter`, core/adapter/src/elm327.rs). */
module Adapter {
  import opened Wrappers
  import opened Text
  import opened Hex
  import opened Protocols
  import opened Response
  import opened Conversation
  import opened Elm
  import opened Headers
  import opened Transports
  import opened Commands
  import opened ResponseWindow
  import opened Reactions

  datatype ConnectionState =
    | Disconnected | Connecting | Initializing | Identifying
    | Ready | Degraded | Reconnecting(attempt: nat) | Failed
  {
    predicate IsUsable() {
      Ready? || Degraded?
    }
  }

  datatype Error = LinkFailed(cause: LinkError) | InitFailed | NotIdentified | RejectedCommand | NoActiveSession

  predicate LinkGone(e: Error) {
    e.LinkFailed? && IsLinkFault(e.cause)
  }

  datatype RequestTarget = Functional | Physical(header: string)

  /** Headers a caller may name: one line, and the standard priority if it is an eight-digit one. */
  predicate StandardPriority(h: string) {
    IsCommand(h) && (|h| == 8 ==> FromStrRadix16(Normalize(h[..2])) == None || FromStrRadix16(Normalize(h[..2])) == Some(DEFAULT_PRIORITY))
  }

  datatype Config = Config(
    atTimeoutMs: nat, requestTimeoutMs: nat, forceProtocol: Option<ObdProtocol>,
    spaces: bool, adaptiveTiming: bool, maxReconnectAttempts: nat, bluetooth: bool)

  /** What is sent again after a warm start. */
  function Restoring(spaces: bool, headers: bool, windowMs: nat): seq<string> {
    ReplySettings(spaces, headers) + [WindowLine(windowMs)]
  }

  function ReplySettings(spaces: bool, headers: bool): seq<string> {
    ["ATE0", "ATL0", if spaces then "ATS1" else "ATS0"] + if headers then ["ATH1"] else []
  }

  predicate Identified(before: seq<string>, after: seq<string>, stn: bool) {
    after == before + ["AT@1", "STI", "ATRV"] || (stn && after == before + ["AT@1", "STI", "STDI", "ATRV"])
  }

  // ---- Command lines ----

  const ELM_MAX_REQUEST_BYTES := 7
  const LONG_PROBE := "010020406080A0C0"
  const STPX := "STPX d:"

  /** What the adapter sends on its own account: commands to the device and probes. */
  predicate OwnLine(c: string) {
    "AT" <= c || c == PROBE || c == LONG_PROBE || c == STPX + LONG_PROBE
  }

  /** How many lines are not its own. */
  function Foreign(asked: seq<string>): nat {
    if asked == [] then 0 else Foreign(asked[..|asked| - 1]) + if OwnLine(asked[|asked| - 1]) then 0 else 1
  }

  lemma {:induction false} ForeignAppend(a: seq<string>, b: seq<string>)
    ensures Foreign(a + b) == Foreign(a) + Foreign(b)
  {
    hide OwnLine;
    if b == [] {
      assert a + b == a;
    } else {
      assert (a + b)[..|a + b| - 1] == a + b[..|b| - 1];
      ForeignAppend(a, b[..|b| - 1]);
    }
  }

  lemma ForeignOne(c: string)
    ensures Foreign([c]) == if OwnLine(c) then 0 else 1
  {
    hide OwnLine;
    assert [c][..0] == [];
  }

  /** The protocol selections among the lines. */
  function Selections(asked: seq<string>): seq<string> {
    if asked == [] then []
    else
      var c := asked[|asked| - 1];
      Selections(asked[..|asked| - 1]) + if "ATSP" <= c then [c] else []
  }

  lemma {:induction false} SelectionsAppend(a: seq<string>, b: seq<string>)
    ensures Selections(a + b) == Selections(a) + Selections(b)
  {
    if b == [] {
      assert a + b == a;
    } else {
      assert (a + b)[..|a + b| - 1] == a + b[..|b| - 1];
      SelectionsAppend(a, b[..|b| - 1]);
    }
  }

  lemma SelectionsNext(before: seq<string>, c: string)
    ensures Selections(before + [c]) == Selections(before) + if "ATSP" <= c then [c] else []
  {
    assert (before + [c])[..|before|] == before;
  }

  lemma SelectionsGrow(before: seq<string>, after: seq<string>)
    requires before <= after
    ensures Selections(before) <= Selections(after)
  {
    SelectionsAppend(before, after[|before|..]);
    assert after == before + after[|before|..];
  }

  /** What was asked after a point. */
  function Since(before: seq<string>, after: seq<string>): seq<string> {
    if |before| <= |after| then after[|before|..] else []
  }

  /** The lines of one command: without a link fault the command and what followed; with one, the lines
      of rebuilding the link, then nothing or the command again and what followed. */
  datatype Traffic = Traffic(rebuilt: bool, rebuilding: seq<string>, rest: seq<string>)

  predicate Tried(t: Traffic, command: string, window: string, restoring: seq<string>) {
    if t.rebuilt then
      Foreign(t.rebuilding) == 0 && (t.rest == [] || (t.rest[0] == command && Followed(t.rest[1..], command, window, restoring)))
    else t.rebuilding == [] && Followed(t.rest, command, window, restoring)
  }

  /** The history with one command's lines. */
  function Written(before: seq<string>, command: string, t: Traffic): seq<string> {
    before + [command] + t.rebuilding + t.rest
  }

  lemma WrittenWith(before: seq<string>, command: string, t: Traffic, since: seq<string>)
    ensures Written(before, command, t) + since == Written(before, command, t.(rest := t.rest + since))
  {
  }

  lemma NothingFollows(t: Traffic, command: string, window: string, restoring: seq<string>)
    requires if t.rebuilt then Foreign(t.rebuilding) == 0 && (t.rest == [] || t.rest == [command]) else t.rebuilding == [] && t.rest == []
    ensures Tried(t, command, window, restoring)
  {
    hide Foreign;
    assert [command][1..] == [];
  }

  lemma TriedWith(t: Traffic, since: seq<string>, command: string, window: string, restoring: seq<string>)
    requires if t.rebuilt then Foreign(t.rebuilding) == 0 && t.rest == [command] else t.rebuilding == [] && t.rest == []
    requires Followed(since, command, window, restoring)
    ensures Tried(t.(rest := t.rest + since), command, window, restoring)
  {
    hide Foreign, Followed;
    if t.rebuilt {
      assert (t.rest + since)[1..] == since;
    } else {
      assert t.rest + since == since;
    }
  }

  lemma WarmIsSince(before: seq<string>, command: string, t: Traffic)
    requires "ATWS" in t.rest && !t.rebuilt && t.rebuilding == []
    ensures "ATWS" in Since(before, Written(before, command, t))
  {
    var i :| 0 <= i < |t.rest| && t.rest[i] == "ATWS";
    assert Written(before, command, t)[|before|..][i + 1] == "ATWS";
  }

  /** A reply that is neither a glitch of the adapter nor, to a vehicle's command, silence or data. */
  predicate NeedsNothing(c: ResponseClass, at: bool) {
    c != Stopped && c != BufferFull && (at || (c != Data && c != NoData && c != Timeout && c != BusError))
  }

  /** What configures the device after a reset. */
  function Configuring(config: Config): seq<string> {
    ["ATL0", if config.spaces then "ATS1" else "ATS0", "ATH1"] + BusSettings(config)
  }

  function BusSettings(config: Config): seq<string> {
    var id := if config.forceProtocol.Some? then config.forceProtocol.value.ElmId() else None;
    (if config.adaptiveTiming then ["ATAT1"] else []) + ["ATSP" + Print(if id.Some? then id.value else 0, 0)]
  }

  const SOCKET_POWERED_VOLTS := 6.0

  /** A cached header is the one the adapter was last told the device is on. */
  predicate Agrees(p: Personality, s: Standing, cached: Option<string>) {
    cached.Some? ==> HeaderValue(p, cached.value) == Some(s.told)
  }

  /** An exchange that did not succeed in moving the header leaves the cache as right as it was. */
  lemma KeepsAgreement(p: Personality, command: string, before: Standing, after: Standing, success: bool, cached: Option<string>)
    requires Moved(p, command, before, after, success) && Agrees(p, before, cached) && !IsReset(command)
    requires success ==> !("ATSH" <= Normalize(command)) && Normalize(command) != "ATWS"
    ensures Agrees(p, after, cached)
  {
    hide Normalize, HeaderValue, ShortValue, PriorityAccepted;
  }

  /** How things stand after a command: a header that was accepted is the device's; otherwise the
      cache is as right as it was. */
  predicate Landed(p: Personality, s: Standing, cached: Option<string>, command: string, success: bool) {
    var c := Normalize(command);
    && ("ATSH" <= c && success ==> ShortValue(p, c[4..]) == Some(s.header) && s.told == s.header)
    && ("ATCP" <= c && success ==> PriorityAccepted(p, c[4..]))
    && (!("ATSH" <= c && success) ==> Agrees(p, s, cached))
  }

  lemma MovedLands(p: Personality, command: string, before: Standing, after: Standing, success: bool, cached: Option<string>)
    requires Moved(p, command, before, after, success) && Agrees(p, before, cached)
    requires !IsReset(command) && Normalize(command) != "ATWS"
    ensures Landed(p, after, cached, command, success)
  {
    hide Normalize, HeaderValue, ShortValue, PriorityAccepted;
    if !("ATSH" <= Normalize(command) && success) {
      KeepsAgreement(p, command, before, after, success, cached);
    }
  }

  lemma FailedLands(p: Personality, s: Standing, cached: Option<string>, command: string)
    ensures Landed(p, s, cached, command, false) <==> Agrees(p, s, cached)
  {
    hide Normalize, Agrees;
  }

  /** The states announced: each different from the one before, reconnections counted from one. */
  predicate Walked(states: seq<ConnectionState>, now: ConnectionState, maxAttempts: nat) {
    && (if states == [] then now == Disconnected else states[0] != Disconnected && states[|states| - 1] == now)
    && (forall i :: 0 < i < |states| ==> states[i] != states[i - 1])
    && (forall i :: 0 <= i < |states| && states[i].Reconnecting? ==> 1 <= states[i].attempt <= maxAttempts)
  }

  predicate Succeeded(r: Result<AdapterResponse, Error>) {
    r.Success? && r.value.classified.IsSuccess()
  }

  /** A command that can be sent again as it is: a request, or one that sets the header. */
  predicate Resendable(command: string) {
    Sendable(command) && !IsReset(command) && Normalize(command) != "ATWS" && !IsSwitch(Normalize(command))
  }

  // ---- What is printed ----

  /** What a switch does to where things stand, by what the adapter was told. */
  predicate Flipped(p: Personality, c: string, before: Standing, after: Standing, success: bool) {
    && after.header == before.header && after.told == before.told
    && (success ==>
          && !Unsupported(p, c) && after.shownTold == Switched(before.shownTold, c) && after.warm == WarmAfter(before.warm, c)
          && after.shown == Switched(before.shown, c))
    && (!success ==> after.shownTold == before.shownTold && after.warm == before.warm)
  }

  lemma MovedFlips(p: Personality, c: string, before: Standing, after: Standing, success: bool)
    requires IsSwitch(c) && Moved(p, c, before, after, success) && Normalize(c) == c
    ensures Flipped(p, c, before, after, success)
  {
    hide Normalize, Unsupported, Switched, WarmAfter;
  }

  lemma MovedPrints(p: Personality, command: string, before: Standing, after: Standing, success: bool)
    requires Moved(p, command, before, after, success) && Resendable(command)
    ensures SamePrinting(before, after)
  {
    hide Normalize, Sendable, ShortValue, PriorityAccepted;
  }

  /** What the adapter takes to be printed is what it was told, except that a warm start may have put
      back the resting value of a setting the device is known to take. */
  predicate Trusted(p: Personality, told: Shown, warm: Shown, headers: bool, spaces: bool) {
    && (headers == told.headers || (warm.headers && headers)) && (warm.headers ==> !told.headers)
    && (spaces == told.spaces || (warm.spaces && !spaces)) && (warm.spaces ==> told.spaces)
    && (headers ==> !Unsupported(p, "ATH1")) && (!spaces ==> !Unsupported(p, "ATS0"))
  }

  // ---- Bringing the device up ----

  /** Where an attempt to bring the device up began: what had been written and read by then, and how many
      link faults were still to come. */
  datatype Outset = Outset(asked: seq<string>, heard: seq<Heard>, faults: nat)

  /** What matters of it afterwards. */
  datatype Findings = Findings(asked: seq<string>, heard: seq<Heard>, faults: nat, protocol: ObdProtocol, unpowered: bool, preferred: Option<ObdProtocol>)

  /** The device was reset and configured first of all; a reply to the probe was then read that says
      whether the vehicle answers. Without a further link fault the protocol of one that answers is the
      one the device then named, and one is said to be silent only if no probe brought data and either
      the socket has no power or every protocol was tried and the choice left to the device. */
  ghost predicate BroughtUp(config: Config, from: Outset, to: Findings, answering: bool) {
    && from.asked + ["ATZ", "ATE0"] + Configuring(config) <= to.asked
    && from.heard <= to.heard && to.faults <= from.faults
    && Probed(to.heard, |from.heard|, answering)
    && (to.faults == from.faults ==>
          if answering then Learned(to.heard, |from.heard|, to.protocol)
          else Answers(to.heard) == Answers(from.heard) && (to.unpowered || Swept(config, from.asked, to.asked, to.preferred)))
  }

  /** Every protocol was selected in turn, and then the automatic choice. */
  predicate Swept(config: Config, before: seq<string>, after: seq<string>, preferred: Option<ObdProtocol>) {
    Selections(before + ["ATZ", "ATE0"] + Configuring(config)) + Selecting(SweepOrder(preferred)) + ["ATSP0"] <= Selections(after)
  }

  /** Somewhere among these lines the device was reset and configured. */
  predicate Reconfigured(lines: seq<string>, config: Config) {
    exists i: nat :: i <= |lines| && ["ATZ", "ATE0"] + Configuring(config) <= lines[i..]
  }

  /** The reset or the echo was not taken. */
  predicate Balked(heard: seq<Heard>, from: nat) {
    !AckedAt(heard, from, "ATZ") || !AckedAt(heard, from + 1, "ATE0")
  }

  /** The adapter did not take a header. */
  ghost predicate Hindered(e: Error, heard: seq<Heard>, from: nat) {
    e == RejectedCommand && exists h: string :: Refused(heard, from, h)
  }

  lemma HinderedStill(e: Error, heard: seq<Heard>, from: nat, earlier: nat)
    requires earlier <= from
    ensures Hindered(e, heard, from) ==> Hindered(e, heard, earlier)
  {
    hide Refused;
    if Hindered(e, heard, from) {
      var h: string :| Refused(heard, from, h);
      RefusedStill(heard, heard, from, earlier, h);
    }
  }

  /** A banner that names a device of this family. */
  predicate Recognises(banner: AdapterResponse) {
    && banner.classified.IsSuccess() && banner.lines != []
    && (Contains(UpperAll(Join(banner.lines)), "ELM327") || Contains(UpperAll(Join(banner.lines)), "OBDII"))
  }

  predicate Recognised(heard: seq<Heard>, n: nat) {
    n < |heard| && heard[n].command == "ATI" && Recognises(Understood("ATI", heard[n].text))
  }

  predicate Strange(heard: seq<Heard>, n: nat) {
    n < |heard| && heard[n].command == "ATI" && !Recognises(Understood("ATI", heard[n].text))
  }

  ghost predicate Known(heard: seq<Heard>, from: nat) {
    exists n: nat :: from <= n && Recognised(heard, n)
  }

  lemma RecognisedStill(before: seq<Heard>, after: seq<Heard>, n: nat)
    requires before <= after && n < |before|
    ensures Recognised(before, n) <==> Recognised(after, n)
  {
    hide Recognises, Understood;
    assert after[n] == before[n];
  }

  lemma KnownThere(before: seq<Heard>, heard: seq<Heard>, from: nat, n: nat)
    requires Recognised(before, n) && before <= heard && from <= n
    ensures Known(heard, from)
  {
    hide Recognised;
    RecognisedIn(before, n);
    RecognisedStill(before, heard, n);
  }

  lemma RecognisedIn(heard: seq<Heard>, n: nat)
    requires Recognised(heard, n)
    ensures n < |heard|
  {
  }

  /** Why the device could not be brought up, when every exchange was answered. */
  ghost predicate Unbrought(e: Error, heard: seq<Heard>, from: nat) {
    || (e == InitFailed && Balked(heard, from))
    || (e == NotIdentified && exists n: nat :: from <= n && Strange(heard, n))
    || Hindered(e, heard, from)
  }

  /** The reply to `STI` of better firmware. */
  predicate Firmware(heard: seq<Heard>, n: nat) {
    AckedAt(heard, n, "STI") && Understood("STI", heard[n].text).lines != []
  }

  /** A question mark in reply. */
  predicate Puzzled(heard: seq<Heard>, n: nat, command: string) {
    n < |heard| && heard[n].command == command && Understood(command, heard[n].text).classified == NotUnderstood
  }

  class Elm327Adapter {
    const config: Config
    const link: Transport
    /** What the adapter's own voltage measurement reads as. */
    const voltage: Option<real>
    var state: ConnectionState
    var announced: seq<ConnectionState>
    var headersEnabled: bool
    var spacesEnabled: bool
    var currentHeader: Option<string>
    var protocol: ObdProtocol
    var preferredProtocol: Option<ObdProtocol>
    var responseWindowMs: nat
    var provenWindowMs: Option<nat>
    var stnConfirmed: bool
    var longViaStpx: bool
    var supportsLongMessages: bool
    var batteryVoltage: Option<real>

    constructor (link: Transport, config: Config, voltage: Option<real>)
      requires link.Ready()
      ensures this.link == link && this.config == config && fresh(this)
      ensures Inv() && Coherent() && state == Disconnected && currentHeader == None
      ensures !headersEnabled && spacesEnabled
      ensures responseWindowMs == WINDOW_DEFAULT && provenWindowMs == None
    {
      this.link, this.config, this.voltage := link, config, voltage;
      state, announced := Disconnected, [];
      headersEnabled, spacesEnabled := false, true;
      currentHeader, protocol, preferredProtocol := None, Unknown, None;
      responseWindowMs, provenWindowMs := WINDOW_DEFAULT, None;
      stnConfirmed, longViaStpx, supportsLongMessages, batteryVoltage := false, false, false, None;
    }

    ghost predicate Inv()
      reads this, link, link.emulator
    {
      link.Ready() && WindowOk(responseWindowMs, provenWindowMs) && Walked(announced, state, config.maxReconnectAttempts)
    }

    /** Skipping a cached header is the same as sending it. */
    ghost predicate Coherent()
      reads this, link
    {
      Agrees(link.emulator.personality, link.Now(), currentHeader)
    }

    /** What the adapter takes to be printed is what it was told, unless a warm start came between, and
        certainly while every exchange has been answered in time. */
    ghost predicate Printing()
      reads this, link
    {
      && Trusted(link.emulator.personality, link.Now().shownTold, link.Now().warm, headersEnabled, spacesEnabled)
      && (link.unanswered == 0 ==> Shown(headersEnabled, spacesEnabled) == link.Now().shownTold)
    }

    ghost predicate Landing(command: string, success: bool)
      reads this, link
    {
      Landed(link.emulator.personality, link.Now(), currentHeader, command, success)
    }

    /** Link faults are only used up, a window once proven stays the proven one, and histories only grow;
        no more probes bring data than are sent. */
    twostate predicate Progressed()
      reads this, link
    {
      && link.FaultsLeft() <= old(link.FaultsLeft()) && link.Measure() <= old(link.Measure())
      && (old(provenWindowMs).Some? ==> provenWindowMs == old(provenWindowMs))
      && (old(link.Faithful()) ==> link.Faithful())
      && old(link.asked) <= link.asked && old(link.heard) <= link.heard && old(announced) <= announced
      && old(link.unanswered) <= link.unanswered && old(link.openings) <= link.openings
      && 0 <= Answers(link.heard) - old(Answers(link.heard)) <= Probes(link.asked) - old(Probes(link.asked))
    }

    /** Everything written was the adapter's own, and no voltage was measured nor preference changed. */
    twostate predicate Chatter()
      reads this, link
    {
      && Foreign(link.asked) == old(Foreign(link.asked))
      && batteryVoltage == old(batteryVoltage) && preferredProtocol == old(preferredProtocol)
    }

    /** No link fault was met. */
    twostate predicate Calm()
      reads link
    {
      old(link.isOpen) && link.FaultsLeft() == old(link.FaultsLeft())
    }

    /** Some exchange was not answered in time. */
    twostate predicate Cut()
      reads link
    {
      old(link.unanswered) < link.unanswered
    }

    /** One exchange: its reply is the next one read, or it was not answered. */
    twostate predicate Read(command: string, new r: Result<AdapterResponse, Error>)
      reads link
    {
      && |link.heard| == |old(link.heard)| + (if r.Success? then 1 else 0)
      && (r.Success? ==> ReadAt(link.heard, |old(link.heard)|, command, r.value))
      && (r.Failure? ==> r.error.LinkFailed? && Cut())
    }

    /** A link fault uses one up, if the port was open; otherwise the port is open and none was met. */
    twostate predicate Linked(new r: Result<AdapterResponse, Error>)
      reads link
    {
      if r.Failure? && LinkGone(r.error) then old(link.isOpen) ==> link.FaultsLeft() < old(link.FaultsLeft())
      else Calm() && link.isOpen
    }

    /** What a device that answers says to a command. */
    ghost function Reply(command: string): string
      requires link.DeliverNext()
      reads link, link.emulator
    {
      Spoken(link.emulator.State(), link.emulator.personality, link.emulator.vehicle, command, link.script[0].answers)
    }

    /** A device that answers is heard. */
    twostate predicate Delivered(command: string, new r: Result<AdapterResponse, Error>)
      reads link
    {
      old(link.DeliverNext()) ==>
        && r.Success? && link.heard == old(link.heard) + [Heard(command, old(Reply(command)))]
        && link.script == old(link.script)[1..] && link.unanswered == old(link.unanswered)
    }

    /** An exchange that fails before the device hears of it changes nothing there. */
    twostate predicate Dropped()
      reads link
    {
      old(link.DropsAhead(1)) ==> link.isOpen && link.Now() == old(link.Now()) && link.script == old(link.script)[1..]
    }

    /** A device that carries a command out too late moves on unheard. */
    twostate predicate Missed(command: string, new r: Result<AdapterResponse, Error>)
      reads link
    {
      old(link.LateNext()) ==>
        r.Success? && r.value.classified == Timeout && link.moves == old(link.moves) + Unheard(link.emulator.personality, command)
    }

    /** The same for a setting: whether it was taken. */
    twostate predicate Settled(command: string, new r: Result<bool, Error>)
      reads link
    {
      && |link.heard| == |old(link.heard)| + (if r.Success? then 1 else 0)
      && (r == Success(true) <==> AckedAt(link.heard, |old(link.heard)|, command))
    }

    method SetState(next: ConnectionState)
      requires Walked(announced, state, config.maxReconnectAttempts)
      requires next.Reconnecting? ==> 1 <= next.attempt <= config.maxReconnectAttempts
      modifies this`state, this`announced
      ensures state == next && Walked(announced, state, config.maxReconnectAttempts)
      ensures announced == if old(state) == next then old(announced) else old(announced) + [next]
    {
      if state != next {
        state := next;
        announced := announced + [next];
      }
    }

    // ---- One exchange ----

    /** Write a command and read its reply. A failing reply is an answer; only link faults are errors. */
    method SendRaw(command: string) returns (r: Result<AdapterResponse, Error>)
      requires link.Ready() && Sendable(command)
      modifies link, link.emulator
      ensures link.Ready() && link.asked == old(link.asked) + [command] && link.openings == old(link.openings)
      ensures Progressed() && (OwnLine(command) ==> Chatter()) && Linked(r)
      ensures Delivered(command, r) && Missed(command, r) && Dropped()
      ensures Moved(link.emulator.personality, command, old(link.Now()), link.Now(), Succeeded(r))
      ensures Resendable(command) ==> SamePrinting(old(link.Now()), link.Now())
      ensures old(link.emulator.faults) == [] || Succeeded(r) ==> link.emulator.faults == []
      ensures link.unanswered == old(link.unanswered) && old(link.emulator.faults) == [] && Toggling(link.emulator.personality, command).Some? ==>
                Succeeded(r)
      ensures old(Coherent()) && !IsReset(command) && (Succeeded(r) ==> !("ATSH" <= Normalize(command)) && Normalize(command) != "ATWS") ==>
                Coherent()
      ensures old(Coherent()) && !IsReset(command) && Normalize(command) != "ATWS" ==> Landing(command, Succeeded(r))
      ensures Read(command, r)
    {
      hide Agrees, Moved, Sendable, ReadableBanner, Normalize, ParseReply, IsReset, Landed, Recorded, Unheard,
           OwnLine, Foreign, PriorityAccepted, StandingOf, FaultCount, OpenFailures, Answers, Probes, Spoken,
           Toggling, RecordedToggle, Resendable, SamePrinting, IsAnswer, Understood;
      var text := link.Exchange(command);
      NothingRead(command);
      RecordedMoves(link.emulator.personality, command, old(link.moves), link.moves, link.start,
                    old(link.toggles), link.toggles, link.startShown,
                    text.Success? && Understood(command, text.value).classified.IsSuccess());
      if text.Failure? {
        r := Failure(LinkFailed(text.error));
        assert link.heard == old(link.heard);
      } else {
        var parsed := Parse(command, text.value, '>' in text.value);
        UnderstoodIs(command, text.value);
        r := Success(parsed);
        AnswersNext(old(link.heard), Heard(command, text.value));
      }
      ForeignAppend(old(link.asked), [command]);
      ForeignOne(command);
      ProbesNext(old(link.asked), command);
      AnswerProbes(command);
      Afterwards(link.emulator.personality, command, old(link.Now()), link.Now(), Succeeded(r), currentHeader);
    }

    /** A command that concerns neither the header nor what is printed. */
    method SendSetting(command: string) returns (r: Result<AdapterResponse, Error>)
      requires link.Ready() && Harmless(command) && Sendable(command)
      modifies link, link.emulator
      ensures link.Ready() && link.Now() == old(link.Now()) && link.asked == old(link.asked) + [command] && link.openings == old(link.openings)
      ensures Progressed()
      ensures OwnLine(command) ==> Chatter()
      ensures Linked(r)
      ensures old(link.emulator.faults) == [] || Succeeded(r) ==> link.emulator.faults == []
      ensures Dropped() && Read(command, r)
    {
      hide Agrees, Harmless, Sendable, ReadableBanner, Normalize, IsReset, OwnLine, Foreign, StandingOf, FaultCount,
           OpenFailures, Answers, Probes, Read, Toggling, Spoken, Resendable, SamePrinting;
      r := SendRaw(command);
    }

    /** A setting the device may refuse. */
    method Configure(command: string) returns (r: Result<bool, Error>)
      requires Inv() && (Setting(command) || IsSwitch(command))
      modifies link, link.emulator
      ensures Inv() && Progressed() && link.asked == old(link.asked) + [command] && link.openings == old(link.openings)
      ensures Setting(command) ==> link.Now() == old(link.Now())
      ensures IsSwitch(command) ==> Flipped(link.emulator.personality, command, old(link.Now()), link.Now(), r == Success(true))
      ensures OwnLine(command) ==> Chatter()
      ensures r.Success? ==> Calm() && link.isOpen
      ensures r.Failure? ==> r.error.LinkFailed? && Cut()
      ensures old(link.emulator.faults) == [] ==> link.emulator.faults == []
      ensures old(link.emulator.faults) == [] && link.unanswered == old(link.unanswered) ==>
                (IsSwitch(command) && !Unsupported(link.emulator.personality, command) ==> r == Success(true))
      ensures Dropped() && Settled(command, r)
    {
      hide Agrees, Harmless, Sendable, ReadableBanner, Setting, Walked, OwnLine, Foreign, StandingOf, FaultCount,
           OpenFailures, Answers, Probes, Moved, IsSwitch, Flipped, Unsupported, Normalize, Spoken, Understood,
           Resendable, SamePrinting, Landed, IsReset;
      var reply;
      if Setting(command) {
        SettingIsHarmless(command);
        SettingNoSwitch(command);
        reply := SendSetting(command);
      } else {
        SwitchSendable(command);
        reply := SendRaw(command);
        MovedFlips(link.emulator.personality, command, old(link.Now()), link.Now(), Succeeded(reply));
      }
      r := if reply.Failure? then Failure(reply.error) else Success(reply.value.classified.IsSuccess());
    }

    // ---- The response window ----

    /** Put the current window into effect on the device, in the counts of four milliseconds it takes. */
    method ApplyResponseWindow() returns (accepted: bool)
      requires Inv()
      modifies link, link.emulator
      ensures Inv() && link.Now() == old(link.Now()) && Progressed() && link.asked == old(link.asked) + [WindowLine(responseWindowMs)]
      ensures Chatter() && (accepted ==> Calm() && link.isOpen)
      ensures accepted <==> AckedAt(link.heard, |old(link.heard)|, WindowLine(responseWindowMs))
      ensures |link.heard| <= |old(link.heard)| + 1
    {
      hide Agrees, Harmless, Sendable, ReadableBanner, Setting, Walked, OwnLine, Foreign, StandingOf, FaultCount,
           OpenFailures, Answers, Probes, AckedAt, IsSwitch, Flipped;
      WindowIsOwn(responseWindowMs);
      var counts := responseWindowMs / ATST_RESOLUTION;
      var clamped := if counts < 1 then 1 else if counts > 255 then 255 else counts;
      assert clamped == counts;
      WindowCommand(clamped);
      assert WindowLine(responseWindowMs) == "ATST" + Print(clamped, 2);
      var r := Configure("ATST" + Print(clamped, 2));
      accepted := r == Success(true);
    }

    method WidenResponseWindow() returns (moved: bool)
      requires Inv()
      modifies this`responseWindowMs, link, link.emulator
      ensures Inv() && link.Now() == old(link.Now()) && Progressed() && Chatter()
      ensures responseWindowMs == Widened(old(responseWindowMs))
      ensures link.asked == old(link.asked) + if responseWindowMs == old(responseWindowMs) then [] else [WindowLine(responseWindowMs)]
      ensures moved ==> Calm() && link.isOpen
      ensures moved <==> responseWindowMs > old(responseWindowMs) && AckedAt(link.heard, |old(link.heard)|, WindowLine(responseWindowMs))
      ensures |link.heard| <= |old(link.heard)| + 1
    {
      hide Agrees, ReadableBanner, Walked, Foreign, StandingOf, FaultCount, OpenFailures, Answers, Probes, AckedAt,
           WindowLine;
      var next := Widened(responseWindowMs);
      if next == responseWindowMs {
        return false;
      }
      responseWindowMs := next;
      moved := ApplyResponseWindow();
    }

    method WidenToCeiling() returns (moved: bool)
      requires Inv()
      modifies this`responseWindowMs, link, link.emulator
      ensures Inv() && link.Now() == old(link.Now()) && Progressed() && Chatter()
      ensures responseWindowMs == WINDOW_MAX
      ensures link.asked == old(link.asked) + if old(responseWindowMs) == WINDOW_MAX then [] else [WindowLine(WINDOW_MAX)]
      ensures moved ==> Calm() && link.isOpen
      ensures moved <==> old(responseWindowMs) < WINDOW_MAX && AckedAt(link.heard, |old(link.heard)|, WindowLine(WINDOW_MAX))
    {
      hide Agrees, ReadableBanner, Walked, Foreign, StandingOf, FaultCount, OpenFailures, Answers, Probes, AckedAt,
           WindowLine;
      if responseWindowMs >= WINDOW_MAX {
        return false;
      }
      responseWindowMs := WINDOW_MAX;
      moved := ApplyResponseWindow();
    }

    /** The current window worked: it is proven if none was, and the window eases toward the proven one. */
    method RecordWindowSuccess()
      requires Inv()
      modifies this`responseWindowMs, this`provenWindowMs, link, link.emulator
      ensures Inv() && link.Now() == old(link.Now()) && Progressed() && Chatter()
      ensures provenWindowMs == Some(if old(provenWindowMs).Some? then old(provenWindowMs).value else old(responseWindowMs))
      ensures responseWindowMs - provenWindowMs.value == 3 * (old(responseWindowMs) - provenWindowMs.value) / 4
      ensures link.asked == old(link.asked) + if responseWindowMs == old(responseWindowMs) then [] else [WindowLine(responseWindowMs)]
      ensures responseWindowMs == old(responseWindowMs) ==> unchanged(link) && unchanged(link.emulator)
    {
      hide Agrees, ReadableBanner, Walked, Foreign, StandingOf, FaultCount, OpenFailures, Answers, Probes, AckedAt,
           WindowLine;
      var proven := if provenWindowMs.None? || responseWindowMs < provenWindowMs.value then responseWindowMs else provenWindowMs.value;
      provenWindowMs := Some(proven);
      if responseWindowMs > proven {
        var gap := responseWindowMs - proven;
        var next := responseWindowMs - (gap + 3) / 4;
        next := if next > proven then next else proven;
        EasingShrinks(responseWindowMs, proven);
        if next != responseWindowMs {
          responseWindowMs := next;
          var accepted := ApplyResponseWindow();
        }
      }
    }

    // ---- One-shot recovery ----

    /** Put back what a warm start clears. The header is forgotten; failures are ignored. */
    method RestoreWorkingConfiguration()
      requires Inv() && link.emulator.faults == []
      requires Trusted(link.emulator.personality, link.Now().shownTold, link.Now().warm, headersEnabled, spacesEnabled)
      requires link.Now().shownTold == RESTING
      modifies this`currentHeader, link, link.emulator
      ensures Inv() && currentHeader == None && Progressed() && Chatter() && Printing()
      ensures link.asked == old(link.asked) + Restoring(spacesEnabled, headersEnabled, responseWindowMs)
      ensures headersEnabled && old(link.DropsAhead(4)) ==> link.Now() == old(link.Now())
    {
      hide Agrees, ReadableBanner, Walked, Setting, WindowLine, Foreign, StandingOf, FaultCount, OpenFailures,
           Answers, Probes, AckedAt, Trusted;
      RestoreReplies();
      currentHeader := None;
      var accepted := ApplyResponseWindow();
      assert link.asked == old(link.asked) + ReplySettings(spacesEnabled, headersEnabled) + [WindowLine(responseWindowMs)];
    }

    /** The echo, the line feeds, the spaces and the headers. What is left of it unanswered shows. */
    method RestoreReplies()
      requires Inv() && link.emulator.faults == []
      requires Trusted(link.emulator.personality, link.Now().shownTold, link.Now().warm, headersEnabled, spacesEnabled)
      requires link.Now().shownTold == RESTING
      modifies link, link.emulator
      ensures Inv() && Progressed() && Chatter() && Printing()
      ensures link.asked == old(link.asked) + ReplySettings(spacesEnabled, headersEnabled)
      ensures headersEnabled && old(link.DropsAhead(4)) ==> link.isOpen && link.Now() == old(link.Now())
    {
      hide Agrees, ReadableBanner, Walked, Setting, OwnLine, Foreign, StandingOf, FaultCount, OpenFailures, Answers,
           Probes, Settled, IsSwitch, Unsupported;
      SwitchLiterals();
      var r := Configure("ATE0");
      r := Configure("ATL0");
      r := Configure(if spacesEnabled then "ATS1" else "ATS0");
      assert link.asked == old(link.asked) + ["ATE0", "ATL0", if spacesEnabled then "ATS1" else "ATS0"];
      if headersEnabled {
        r := Configure("ATH1");
      }
    }

    /** After the next exchange so many will fail unheard. */
    ghost predicate DropsAfter(n: nat)
      reads link
    {
      n + 1 <= |link.script| && forall i :: 1 <= i <= n ==> link.script[i] == DROP
    }

    /** `ATWS` or `ATPC`, as the failure asks; the result says whether to send the command once more. */
    method RecoverAdapter(command: string, failed: string) returns (recovered: bool)
      requires Inv() && Coherent() && Printing() && (command == "ATWS" || command == "ATPC")
      modifies this`currentHeader, link, link.emulator
      ensures Inv() && Coherent() && Progressed() && Chatter() && Printing()
      ensures currentHeader == if recovered && command == "ATWS" then None else old(currentHeader)
      ensures command == "ATPC" && IsAtCommand(failed) ==> !recovered && unchanged(link) && unchanged(link.emulator)
      ensures !(command == "ATPC" && IsAtCommand(failed)) ==>
                && (recovered <==> AckedAt(link.heard, |old(link.heard)|, command))
                && link.asked == old(link.asked) + [command]
                                 + if recovered && command == "ATWS" then Restoring(spacesEnabled, headersEnabled, responseWindowMs) else []
      ensures command == "ATWS" && !Unsupported(link.emulator.personality, "ATWS") && headersEnabled && old(link.DeliverNext()) && old(DropsAfter(4)) ==>
                link.Now().shown == RESTING
    {
      hide Agrees, ReadableBanner, Walked, Harmless, Sendable, Normalize, IsReset, Setting, IsAtCommand, OwnLine,
           Foreign, StandingOf, Unheard, Restoring, FaultCount, OpenFailures, Answers, Probes, Trusted, Understood,
           Landed, Spoken, SamePrinting, Toggling;
      if command == "ATPC" && IsAtCommand(failed) {
        return false;
      }
      RecoveryCommands(command);
      var r := SendRaw(command);
      if !Succeeded(r) {
        return false;
      }
      recovered := true;
      if command == "ATWS" {
        ghost var heard := link.heard;
        WarmTrusted(link.emulator.personality, old(link.Now().shownTold), old(link.Now().warm), headersEnabled, spacesEnabled);
        RestoreWorkingConfiguration();
        NothingCached(link.emulator.personality, link.Now());
        AckedStill(heard, link.heard, |old(link.heard)|, command);
      }
    }

    /** One retry of a silent request with the next wider window, if there is one and the device took it. */
    method RetryWider(command: string, reply: AdapterResponse) returns (r: Result<AdapterResponse, Error>, ghost since: seq<string>)
      requires Inv() && Resendable(command) && provenWindowMs.None?
      requires Landing(command, reply.classified.IsSuccess()) && Coherent() && Printing()
      modifies this`responseWindowMs, this`provenWindowMs, link, link.emulator
      ensures Inv() && Progressed() && Landing(command, Succeeded(r)) && (OwnLine(command) ==> Chatter()) && Printing()
      ensures responseWindowMs == Widened(old(responseWindowMs)) && link.asked == old(link.asked) + since
      ensures r.Failure? ==> r.error.LinkFailed? && Cut()
      ensures var called := if responseWindowMs == old(responseWindowMs) then Reaction([], false)
                            else Retried(command, WindowLine(responseWindowMs), AckedAt(link.heard, |old(link.heard)|, WindowLine(responseWindowMs)));
              && since == called.lines
              && (if called.again then Resent(link.heard, |old(link.heard)|, command, r) else r == Success(reply))
              && provenWindowMs == if called.again && r.Success? && r.value.classified == Data then Some(responseWindowMs) else None
    {
      hide Agrees, Landed, ReadableBanner, Walked, Sendable, Normalize, IsReset, IsAtCommand, WindowLine, OwnLine,
           Foreign, StandingOf, FaultCount, OpenFailures, Answers, Probes, AckedAt, Trusted, Resendable, ReadAt;
      r := Success(reply);
      var moved := WidenResponseWindow();
      since := if responseWindowMs == old(responseWindowMs) then [] else [WindowLine(responseWindowMs)];
      if !moved {
        return;
      }
      ghost var heard := link.heard;
      r := SendAndLearn(command);
      since := since + [command];
      AckedReached(heard, |old(link.heard)|, WindowLine(responseWindowMs));
      AckedStill(heard, link.heard, |old(link.heard)|, WindowLine(responseWindowMs));
    }

    /** Send once while no window is proven; data proves the one in effect. */
    method SendAndLearn(command: string) returns (r: Result<AdapterResponse, Error>)
      requires Inv() && Coherent() && Resendable(command) && provenWindowMs.None? && Printing()
      modifies this`responseWindowMs, this`provenWindowMs, link, link.emulator
      ensures Inv() && Progressed() && Landing(command, Succeeded(r)) && link.asked == old(link.asked) + [command]
      ensures responseWindowMs == old(responseWindowMs) && (OwnLine(command) ==> Chatter()) && Printing()
      ensures provenWindowMs == if r.Success? && r.value.classified == Data then Some(responseWindowMs) else None
      ensures Read(command, r)
    {
      hide Agrees, Landed, ReadableBanner, Walked, Sendable, Normalize, IsReset, IsAtCommand, WindowLine, OwnLine,
           Foreign, StandingOf, Moved, Unheard, FaultCount, OpenFailures, Answers, Probes, ReadAt, Trusted, Spoken,
           Toggling;
      r := SendRaw(command);
      if r.Success? && r.value.classified == Data {
        RecordWindowSuccess();
      }
    }

    /** How things are when a first reply has just been read. */
    ghost function Here(): Turn
      reads this, link
    {
      Turn(|link.heard|, responseWindowMs, provenWindowMs)
    }

    /** What one reply calls for: learning from it, one retry with a longer window, or one recovery
        and one resend. `since` is all that is written. */
    method FollowUp(command: string, timeoutMs: nat, reply: AdapterResponse) returns (r: Result<AdapterResponse, Error>, ghost since: seq<string>)
      requires Inv() && Resendable(command) && Printing()
      requires Landing(command, reply.classified.IsSuccess())
      modifies this`currentHeader, this`responseWindowMs, this`provenWindowMs, link, link.emulator
      ensures Inv() && Progressed() && Landing(command, Succeeded(r)) && (OwnLine(command) ==> Chatter()) && Printing()
      ensures link.asked == old(link.asked) + since
      ensures currentHeader == if "ATWS" in since && |since| > 1 then None else old(currentHeader)
      ensures r.Failure? ==> r.error.LinkFailed? && Cut()
      ensures Reacted(reply, command, timeoutMs, old(Here()), since, r, link.heard, responseWindowMs, provenWindowMs,
                      Restoring(spacesEnabled, headersEnabled, responseWindowMs))
      ensures NeedsNothing(reply.classified, IsAtCommand(command)) ==>
                r == Success(reply) && since == [] && unchanged(this) && unchanged(link) && unchanged(link.emulator)
    {
      hide Agrees, Landed, ReadableBanner, Walked, Resendable, Normalize, IsAtCommand, Restoring, WindowLine,
           OwnLine, Foreign, StandingOf, FaultCount, OpenFailures, Answers, Probes, ReadAt, Trusted, AckedAt,
           Resent;
      var vehicleTraffic := !IsAtCommand(command);
      r, since := Success(reply), [];
      NotWarm(responseWindowMs, command);
      if reply.classified == Data && vehicleTraffic {
        RecordWindowSuccess();
        since := if responseWindowMs == old(responseWindowMs) then [] else [WindowLine(responseWindowMs)];
        NotWarm(responseWindowMs, command);
        return;
      }
      FailedLands(link.emulator.personality, link.Now(), currentHeader, command);
      if (reply.classified == NoData || reply.classified == Timeout) && vehicleTraffic {
        // Only while the window is unproven, and only if the caller's own deadline can hold a wider one.
        if provenWindowMs.Some? || Widened(responseWindowMs) >= timeoutMs {
          return;
        }
        r, since := RetryWider(command, reply);
        NotWarm(responseWindowMs, command);
      } else if reply.classified == Stopped || reply.classified == BufferFull || reply.classified == BusError {
        r, since := Mend(command, timeoutMs, reply);
      }
    }

    /** The remedy for a glitch of the device. */
    method Mend(command: string, timeoutMs: nat, reply: AdapterResponse) returns (r: Result<AdapterResponse, Error>, ghost since: seq<string>)
      requires Inv() && Coherent() && Resendable(command) && Printing()
      requires reply.classified == Stopped || reply.classified == BufferFull || reply.classified == BusError
      modifies this`currentHeader, link, link.emulator
      ensures Inv() && Progressed() && Landing(command, Succeeded(r)) && (OwnLine(command) ==> Chatter()) && Printing()
      ensures link.asked == old(link.asked) + since
      ensures currentHeader == if "ATWS" in since && |since| > 1 then None else old(currentHeader)
      ensures r.Failure? ==> r.error.LinkFailed? && Cut()
      ensures Reacted(reply, command, timeoutMs, old(Here()), since, r, link.heard, responseWindowMs, provenWindowMs,
                      Restoring(spacesEnabled, headersEnabled, responseWindowMs))
      ensures reply.classified == BusError && IsAtCommand(command) ==>
                r == Success(reply) && since == [] && unchanged(this) && unchanged(link) && unchanged(link.emulator)
    {
      hide Agrees, Landed, ReadableBanner, Walked, Resendable, Normalize, IsAtCommand, Restoring, WindowLine,
           OwnLine, Foreign, StandingOf, FaultCount, OpenFailures, Answers, Probes, ReadAt, Trusted, AckedAt,
           Resent;
      NotWarm(responseWindowMs, command);
      if reply.classified == Stopped {
        r := SendAgain(command);
        since := [command];
      } else if reply.classified == BufferFull {
        r, since := RecoverAndResend("ATWS", command, reply);
      } else {
        r, since := RecoverAndResend("ATPC", command, reply);
      }
    }

    /** The command as it is, once more. */
    method SendAgain(command: string) returns (r: Result<AdapterResponse, Error>)
      requires Inv() && Coherent() && Resendable(command) && Printing()
      modifies link, link.emulator
      ensures Inv() && Progressed() && Landing(command, Succeeded(r)) && link.asked == old(link.asked) + [command]
      ensures (OwnLine(command) ==> Chatter()) && Printing() && Resent(link.heard, |old(link.heard)|, command, r)
      ensures r.Failure? ==> r.error.LinkFailed? && Cut()
    {
      hide Agrees, Landed, ReadableBanner, Walked, Sendable, Normalize, IsReset, OwnLine, Foreign, StandingOf,
           Moved, Unheard, FaultCount, OpenFailures, Answers, Probes, ReadAt, Trusted, Spoken, Toggling;
      r := SendRaw(command);
    }

    method RecoverAndResend(recovery: string, command: string, reply: AdapterResponse)
      returns (r: Result<AdapterResponse, Error>, ghost since: seq<string>)
      requires Inv() && Coherent() && Resendable(command) && Printing()
      requires (recovery == "ATWS" || recovery == "ATPC") && !reply.classified.IsSuccess()
      modifies this`currentHeader, link, link.emulator
      ensures Inv() && Progressed() && Landing(command, Succeeded(r)) && (OwnLine(command) ==> Chatter()) && Printing()
      ensures link.asked == old(link.asked) + since
      ensures r.Failure? ==> r.error.LinkFailed? && Cut()
      ensures recovery == "ATPC" && IsAtCommand(command) ==>
                r == Success(reply) && since == [] && unchanged(this) && unchanged(link) && unchanged(link.emulator)
      ensures !(recovery == "ATPC" && IsAtCommand(command)) ==>
                if AckedAt(link.heard, |old(link.heard)|, recovery) then
                  && since == [recovery] + (if recovery == "ATWS" then Restoring(spacesEnabled, headersEnabled, responseWindowMs) else []) + [command]
                  && Resent(link.heard, |old(link.heard)|, command, r)
                  && currentHeader == if recovery == "ATWS" then None else old(currentHeader)
                else since == [recovery] && r == Success(reply) && currentHeader == old(currentHeader)
    {
      hide Agrees, Landed, ReadableBanner, Walked, Resendable, Normalize, IsAtCommand, Restoring, OwnLine, Foreign,
           StandingOf, FaultCount, OpenFailures, Answers, Probes, ReadAt, Trusted, AckedAt;
      r := Success(reply);
      var recovered := RecoverAdapter(recovery, command);
      FailedLands(link.emulator.personality, link.Now(), currentHeader, command);
      since := if recovery == "ATPC" && IsAtCommand(command) then [] else
               [recovery] + if recovered && recovery == "ATWS" then Restoring(spacesEnabled, headersEnabled, responseWindowMs) else [];
      if recovered {
        ghost var heard := link.heard;
        r := SendAgain(command);
        since := since + [command];
        AckedReached(heard, |old(link.heard)|, recovery);
        AckedStill(heard, link.heard, |old(link.heard)|, recovery);
      }
    }

    /** No protocol was selected or learned, and no way to send long messages measured. */
    twostate predicate SelectionKept()
      reads this, link
    {
      && Selections(link.asked) == old(Selections(link.asked)) && protocol == old(protocol)
      && longViaStpx == old(longViaStpx) && supportsLongMessages == old(supportsLongMessages)
    }

    /** No probe brought data. */
    twostate predicate Unanswered()
      reads link
    {
      Answers(link.heard) == old(Answers(link.heard))
    }

    /** The cached header is still there, unless a warm start was asked for and it was forgotten. */
    twostate predicate HeaderKept()
      reads this, link
    {
      currentHeader == old(currentHeader) || (currentHeader.None? && "ATWS" in Since(old(link.asked), link.asked))
    }

    /** Send, and on a link fault rebuild the link once and send again. Nothing but what `Tried` lists is
        written: without a link fault a command of the vehicle's goes out at most twice, with one at most
        three times. What follows the first reply read, at `turn`, is exactly what it calls for; if none
        was read, an exchange was not answered. */
    method SendWithRecovery(command: string, timeoutMs: nat)
      returns (r: Result<AdapterResponse, Error>, ghost sent: Traffic, ghost turn: Option<Turn>)
      requires Inv() && Coherent() && Resendable(command) && Printing()
      modifies this, link, link.emulator
      ensures Inv() && Progressed() && Landing(command, Succeeded(r)) && (OwnLine(command) ==> Chatter())
      ensures Printing() || (r.Failure? && state == Failed)
      ensures link.asked == Written(old(link.asked), command, sent)
      ensures Tried(sent, command, WindowLine(responseWindowMs), Restoring(spacesEnabled, headersEnabled, responseWindowMs))
      ensures Calm() ==>
                && !sent.rebuilt && HeaderKept() && protocol == old(protocol)
                && longViaStpx == old(longViaStpx) && supportsLongMessages == old(supportsLongMessages)
      ensures sent.rebuilt && sent.rest != [] ==>
                && Reconfigured(sent.rebuilding, config) && (state == Ready || state == Degraded)
                && Probed(link.heard, |old(link.heard)|, state == Ready)
      ensures !sent.rebuilt ==>
                && state == old(state) && protocol == old(protocol)
                && spacesEnabled == old(spacesEnabled) && headersEnabled == old(headersEnabled)
      ensures r.Failure? ==> r.error.LinkFailed? && Cut()
      ensures r.Success? ==> turn.Some? && Says(link.heard, |old(link.heard)|, command, r.value)
      ensures turn.Some? ==>
                && |old(link.heard)| < turn.value.next <= |link.heard| && (sent.rebuilt ==> sent.rest != [])
                && link.heard[turn.value.next - 1].command == command
                && Reacted(Understood(command, link.heard[turn.value.next - 1].text), command, timeoutMs, turn.value,
                           if sent.rebuilt then sent.rest[1..] else sent.rest, r, link.heard, responseWindowMs, provenWindowMs,
                           Restoring(spacesEnabled, headersEnabled, responseWindowMs))
      ensures turn.Some? && !sent.rebuilt ==>
                turn.value == Turn(|old(link.heard)| + 1, old(responseWindowMs), old(provenWindowMs))
      ensures turn.None? && !sent.rebuilt ==> sent.rest == [] && link.heard == old(link.heard) && unchanged(this)
      ensures old(link.LateNext()) && IsAtCommand(command) ==>
                && r.Success? && r.value.classified == Timeout
                && unchanged(this) && link.moves == old(link.moves) + Unheard(link.emulator.personality, command)
      ensures old(link.DeliverNext()) ==>
                turn.Some? && !sent.rebuilt && link.heard[|old(link.heard)|].text == old(Reply(command))
      decreases link.Measure(), 1
    {
      hide Agrees, Landed, ReadableBanner, Walked, Resendable, Normalize, IsAtCommand, Restoring, WindowLine,
           OwnLine, Foreign, StandingOf, Says, Unheard, Followed, Since, Tried, Written, FaultCount, OpenFailures,
           Answers, Probes, Trusted, Reacted, Probed, Reconfigured, Spoken, Understood, ReadAt;
      var first;
      first, sent := SendOrRebuild(command);
      FailedLands(link.emulator.personality, link.Now(), currentHeader, command);
      if first.Failure? {
        NothingFollows(sent, command, WindowLine(responseWindowMs), Restoring(spacesEnabled, headersEnabled, responseWindowMs));
        return Failure(first.error), sent, None;
      }
      turn := Some(Here());
      ghost var heard, rebuilt := link.heard, sent.rebuilt;
      r, sent := React(command, timeoutMs, first.value, old(link.asked), sent, |old(link.heard)|);
      if rebuilt {
        ProbedStill(heard, link.heard, |old(link.heard)|, |old(link.heard)|, state == Ready);
      }
    }

    /** What one reply calls for, as lines of the command. */
    method React(command: string, timeoutMs: nat, first: AdapterResponse, ghost before: seq<string>, ghost outset: Traffic, ghost from: nat)
      returns (r: Result<AdapterResponse, Error>, ghost sent: Traffic)
      requires Inv() && Resendable(command) && Printing() && Landing(command, first.classified.IsSuccess())
      requires link.asked == Written(before, command, outset)
      requires from < |link.heard| && ReadAt(link.heard, |link.heard| - 1, command, first)
      requires if outset.rebuilt then Foreign(outset.rebuilding) == 0 && outset.rest == [command] else outset.rebuilding == [] && outset.rest == []
      modifies this`currentHeader, this`responseWindowMs, this`provenWindowMs, link, link.emulator
      ensures Inv() && Progressed() && Landing(command, Succeeded(r)) && (OwnLine(command) ==> Chatter()) && Printing()
      ensures sent.rebuilt == outset.rebuilt && sent.rebuilding == outset.rebuilding && (sent.rebuilt ==> sent.rest != [])
      ensures link.asked == Written(before, command, sent)
      ensures Tried(sent, command, WindowLine(responseWindowMs), Restoring(spacesEnabled, headersEnabled, responseWindowMs))
      ensures currentHeader == old(currentHeader) || (currentHeader.None? && (!sent.rebuilt ==> "ATWS" in Since(before, link.asked)))
      ensures r.Failure? ==> r.error.LinkFailed? && Cut()
      ensures r.Success? ==> Says(link.heard, from, command, r.value)
      ensures |old(link.heard)| <= |link.heard| && link.heard[|old(link.heard)| - 1] == old(link.heard[|link.heard| - 1])
      ensures link.heard[|old(link.heard)| - 1].command == command && first == Understood(command, link.heard[|old(link.heard)| - 1].text)
      ensures Reacted(first, command, timeoutMs, old(Here()), if sent.rebuilt then sent.rest[1..] else sent.rest, r, link.heard,
                      responseWindowMs, provenWindowMs, Restoring(spacesEnabled, headersEnabled, responseWindowMs))
      ensures NeedsNothing(first.classified, IsAtCommand(command)) ==>
                r == Success(first) && unchanged(this) && unchanged(link) && unchanged(link.emulator)
    {
      hide Agrees, Landed, ReadableBanner, Walked, Resendable, Normalize, IsAtCommand, Restoring, WindowLine,
           OwnLine, Foreign, StandingOf, Says, Unheard, Followed, Since, Tried, Written, FaultCount, OpenFailures,
           Answers, Probes, Trusted, Reacted, Understood, ReadAt, NeedsNothing;
      ghost var since;
      r, since := FollowUp(command, timeoutMs, first);
      sent := outset.(rest := outset.rest + since);
      FollowedUp(first, command, timeoutMs, old(Here()), since, r, link.heard, responseWindowMs, provenWindowMs,
                 spacesEnabled, headersEnabled, before, outset, old(link.heard), from);
      ReadText(link.heard, |old(link.heard)| - 1, command, first);
    }

    /** The command, and on a link fault the link built anew and the command once more. */
    method SendOrRebuild(command: string) returns (r: Result<AdapterResponse, Error>, ghost sent: Traffic)
      requires Inv() && Coherent() && Resendable(command) && Printing()
      modifies this, link, link.emulator
      ensures Inv() && Progressed() && Landing(command, Succeeded(r)) && (OwnLine(command) ==> Chatter())
      ensures Printing() || (r.Failure? && state == Failed)
      ensures link.asked == Written(old(link.asked), command, sent)
      ensures if sent.rebuilt then Foreign(sent.rebuilding) == 0 && (sent.rest == [] || sent.rest == [command])
              else sent.rebuilding == [] && sent.rest == []
      ensures r.Failure? ==> r.error.LinkFailed? && Cut()
      ensures r.Success? ==> |old(link.heard)| < |link.heard| && ReadAt(link.heard, |link.heard| - 1, command, r.value)
      ensures r.Success? && sent.rebuilt ==> sent.rest == [command]
      ensures sent.rebuilt ==> !Calm()
      ensures sent.rebuilt && sent.rest != [] ==>
                && Reconfigured(sent.rebuilding, config) && (state == Ready || state == Degraded)
                && Probed(link.heard, |old(link.heard)|, state == Ready)
      ensures !sent.rebuilt ==> unchanged(this) && Read(command, r)
      ensures old(link.LateNext()) ==>
                && r.Success? && r.value.classified == Timeout && !sent.rebuilt
                && link.moves == old(link.moves) + Unheard(link.emulator.personality, command)
      ensures old(link.DeliverNext()) ==>
                r.Success? && !sent.rebuilt && link.heard[|old(link.heard)|].text == old(Reply(command))
      decreases link.Measure(), 0
    {
      hide Agrees, Landed, ReadableBanner, Walked, Sendable, IsReset, IsSwitch, Normalize, OwnLine, Foreign,
           StandingOf, Moved, Unheard, FaultCount, OpenFailures, Answers, Probes, Trusted, Probed, Reconfigured,
           Spoken, Toggling, Understood;
      r := SendRaw(command);
      sent := Traffic(false, [], []);
      if r.Failure? && LinkGone(r.error) {
        FailedLands(link.emulator.personality, link.Now(), currentHeader, command);
        ghost var rebuilding, again, n := [], [], |link.heard|;
        r, rebuilding, again := Rebuild(command);
        sent := Traffic(true, rebuilding, again);
        if again != [] {
          ProbedStill(link.heard, link.heard, n, |old(link.heard)|, state == Ready);
        }
      }
    }

    /** The link built anew, and the command once more if that worked. */
    method Rebuild(command: string) returns (r: Result<AdapterResponse, Error>, ghost rebuilding: seq<string>, ghost again: seq<string>)
      requires Inv() && Coherent() && Resendable(command)
      modifies this, link, link.emulator
      ensures Inv() && Progressed() && Landing(command, Succeeded(r)) && (OwnLine(command) ==> Chatter())
      ensures Printing() || (r.Failure? && state == Failed)
      ensures link.asked == old(link.asked) + rebuilding + again && Foreign(rebuilding) == 0
      ensures again == [] || again == [command]
      ensures if again == [] then r.Failure? && state == Failed
              else Reconfigured(rebuilding, config) && (state == Ready || state == Degraded) && Probed(link.heard, |old(link.heard)|, state == Ready)
      ensures r.Failure? ==> r.error.LinkFailed?
      ensures r.Success? ==> again == [command] && |old(link.heard)| < |link.heard| && ReadAt(link.heard, |link.heard| - 1, command, r.value)
      decreases 2 * link.FaultsLeft(), 13
    {
      hide Agrees, Landed, ReadableBanner, Walked, Sendable, IsReset, IsSwitch, Normalize, OwnLine, Foreign,
           StandingOf, Moved, Unheard, Attempts, FaultCount, OpenFailures, Answers, Probes, Trusted, Probed,
           Reconfigured, BroughtUp, ReadAt, Spoken, Toggling;
      FailedLands(link.emulator.personality, link.Now(), currentHeader, command);
      var rebuilt;
      ghost var tries, outset;
      rebuilt, tries, outset := Reconnect();
      rebuilding, again := Since(old(link.asked), link.asked), [];
      ForeignAppend(old(link.asked), rebuilding);
      assert old(link.asked) + rebuilding == link.asked;
      FailedLands(link.emulator.personality, link.Now(), currentHeader, command);
      if rebuilt.Failure? {
        return Failure(rebuilt.error), rebuilding, again;
      }
      ghost var heard := link.heard;
      UpAgain(config, outset, Seen(), state == Ready, old(link.asked), old(link.heard));
      r := SendRaw(command);
      again := [command];
      ProbedStill(heard, link.heard, |old(link.heard)|, |old(link.heard)|, state == Ready);
    }

    // ---- Headers ----

    /** An eight-digit header goes out as a priority and the rest. */
    method SendHeader(header: string) returns (r: Result<bool, Error>)
      requires Inv() && Coherent() && StandardPriority(header) && Printing()
      modifies this, link, link.emulator
      ensures Inv() && Progressed() && Chatter() && (Calm() ==> HeaderKept() && SelectionKept() && Unanswered())
      ensures Printing() || (r.Failure? && state == Failed)
      ensures r == Success(true) ==>
                HeaderValue(link.emulator.personality, header) == Some(link.emulator.header) && link.Now().told == link.emulator.header
      ensures r == Success(false) ==> Refused(link.heard, |old(link.heard)|, header)
      ensures r.Failure? ==> r.error.LinkFailed? && Cut()
      ensures r != Success(true) ==> Coherent()
      ensures old(link.LateNext()) && |header| != 8 ==>
                r == Success(false) && unchanged(this) && link.moves == old(link.moves) + Unheard(link.emulator.personality, "ATSH" + header)
      decreases link.Measure(), 3
    {
      hide Agrees, ReadableBanner, Walked, Resendable, Normalize, ShortValue, PriorityAccepted, OwnLine, Foreign,
           StandingOf, Says, Unheard, IsAtCommand, Tried, Since, Restoring, WindowLine, Written, FaultCount,
           OpenFailures, Answers, Probes, Trusted, Reacted, Probed, Reconfigured, Spoken, Understood, Selections,
           Refused;
      if |header| == 8 {
        r := SendHeaderParts(header);
        return;
      }
      WholeHeader(header);
      ghost var sent, turn;
      var reply;
      reply, sent, turn := SendWithRecovery("ATSH" + header, config.atTimeoutMs);
      NoSelection(sent, "ATSH" + header, responseWindowMs, spacesEnabled, headersEnabled, old(link.asked), link.asked);
      if reply.Failure? {
        return Failure(reply.error);
      }
      if !Succeeded(reply) {
        SaysRefused(link.heard, |old(link.heard)|, |old(link.heard)|, header, "ATSH" + header, reply.value);
      }
      r := Success(Succeeded(reply));
    }

    method SendHeaderParts(header: string) returns (r: Result<bool, Error>)
      requires Inv() && Coherent() && StandardPriority(header) && |header| == 8 && Printing()
      modifies this, link, link.emulator
      ensures Inv() && Progressed() && Chatter() && (Calm() ==> HeaderKept() && SelectionKept() && Unanswered())
      ensures Printing() || (r.Failure? && state == Failed)
      ensures r == Success(true) ==>
                HeaderValue(link.emulator.personality, header) == Some(link.emulator.header) && link.Now().told == link.emulator.header
      ensures r == Success(false) ==> Refused(link.heard, |old(link.heard)|, header)
      ensures r.Failure? ==> r.error.LinkFailed? && Cut()
      ensures r != Success(true) ==> Coherent()
      decreases link.Measure(), 2
    {
      hide Agrees, ReadableBanner, Walked, Resendable, Normalize, ShortValue, PriorityAccepted, OwnLine, Foreign,
           StandingOf, Says, Unheard, IsAtCommand, Tried, Since, Restoring, WindowLine, Written, FaultCount,
           OpenFailures, Answers, Probes, Trusted, Reacted, Probed, Reconfigured, Spoken, Understood, Selections,
           Refused;
      var priority, rest := header[..2], header[2..];
      HeaderParts(header);
      ghost var sent, turn;
      var reply;
      reply, sent, turn := SendWithRecovery("ATCP" + priority, config.atTimeoutMs);
      NoSelection(sent, "ATCP" + priority, responseWindowMs, spacesEnabled, headersEnabled, old(link.asked), link.asked);
      if reply.Failure? {
        return Failure(reply.error);
      }
      if !Succeeded(reply) {
        SaysRefused(link.heard, |old(link.heard)|, |old(link.heard)|, header, "ATCP" + priority, reply.value);
        return Success(false);
      }
      ghost var between, heard := link.asked, link.heard;
      reply, sent, turn := SendWithRecovery("ATSH" + rest, config.atTimeoutMs);
      NoSelection(sent, "ATSH" + rest, responseWindowMs, spacesEnabled, headersEnabled, between, link.asked);
      WarmStays(old(link.asked), between, link.asked);
      if reply.Failure? {
        return Failure(reply.error);
      }
      if !Succeeded(reply) {
        SaysRefused(link.heard, |heard|, |old(link.heard)|, header, "ATSH" + rest, reply.value);
      }
      r := Success(Succeeded(reply));
    }

    /** Put a protocol's own broadcast header in place; if it is refused, forget the header. */
    method ApplyFunctionalHeader(candidate: ObdProtocol) returns (r: Result<(), Error>)
      requires Inv() && Coherent() && Printing()
      modifies this, link, link.emulator
      ensures Inv() && Coherent() && Progressed() && Chatter() && (Calm() ==> SelectionKept() && Unanswered())
      ensures candidate.FunctionalHeader().None? || old(currentHeader) == candidate.FunctionalHeader() ==>
                r.Success? && unchanged(this) && unchanged(link)
      ensures r.Success? ==> Printing()
      ensures r.Success? && candidate.FunctionalHeader().Some? && currentHeader != candidate.FunctionalHeader() ==>
                currentHeader.None? && Refused(link.heard, |old(link.heard)|, candidate.FunctionalHeader().value)
      ensures r.Failure? ==> r.error.LinkFailed? && Cut()
      ensures r.Failure? && Calm() ==> HeaderKept()
      decreases link.Measure(), 4
    {
      hide HeaderValue, ReadableBanner, Walked, StandardPriority, OwnLine, Foreign, StandingOf, Unheard, Since,
           Selections, FaultCount, OpenFailures, Answers, Probes, Trusted, Refused;
      var header := candidate.FunctionalHeader();
      if header.None? || currentHeader == header {
        return Success(());
      }
      FunctionalStandard(candidate);
      var sent := SendHeader(header.value);
      if sent.Failure? {
        return Failure(sent.error);
      }
      currentHeader := if sent.value then header else None;
      r := Success(());
    }

    /** Which header a target stands for; none when no protocol is known. */
    function Resolved(known: ObdProtocol, target: RequestTarget): Option<string> {
      match target case Functional => known.FunctionalHeader() case Physical(h) => Some(h)
    }

    /** Aim at everybody or at one module, sending nothing if already there. On success that
        header is cached, and the device is on it unless it has gone astray. It fails only if the device
        was heard to refuse the header or an exchange was not answered. On a refusal or an error
        without a link fault the header cached before stays, or is forgotten if a warm start was asked
        for; a reply that comes too late leaves it too, although the device has moved. */
    method SetHeader(target: RequestTarget) returns (r: Result<(), Error>)
      requires Inv() && Coherent() && (target.Physical? ==> StandardPriority(target.header)) && Printing()
      modifies this, link, link.emulator
      ensures Inv() && Coherent() && Progressed() && Chatter() && (Calm() ==> SelectionKept() && Unanswered())
      ensures Printing() || (r.Failure? && state == Failed)
      ensures r.Success? && Resolved(old(protocol), target).Some? ==>
                && currentHeader == Resolved(old(protocol), target)
                && (HeaderValue(link.emulator.personality, currentHeader.value) == Some(link.emulator.header) <==> !link.Stale())
      ensures r.Success? && (Resolved(old(protocol), target).None? || old(currentHeader) == Resolved(old(protocol), target)) ==>
                unchanged(this) && unchanged(link)
      ensures Resolved(old(protocol), target).None? || old(currentHeader) == Resolved(old(protocol), target) ==>
                r.Success? && unchanged(link.emulator)
      ensures r.Failure? ==>
                || (r.error == RejectedCommand && Resolved(old(protocol), target).Some?
                    && Refused(link.heard, |old(link.heard)|, Resolved(old(protocol), target).value))
                || (r.error.LinkFailed? && Cut())
      ensures r.Failure? && Calm() ==> HeaderKept()
      ensures old(link.LateNext()) && target.Physical? && |target.header| != 8 && old(currentHeader) != Some(target.header) ==>
                && r == Failure(RejectedCommand) && unchanged(this)
                && link.moves == old(link.moves) + Unheard(link.emulator.personality, "ATSH" + target.header)
      decreases link.Measure(), 4
    {
      hide HeaderValue, ReadableBanner, Walked, StandardPriority, OwnLine, Foreign, Told, Reached, Unheard, Since,
           Selections, Astray, FaultCount, OpenFailures, Answers, Probes, Trusted, Refused, PrintedBy, ToldShown,
           Warmed;
      var header := Resolved(protocol, target);
      AstrayExactly(link.moves, link.start);
      if header.None? || currentHeader == header {
        return Success(());
      }
      if target.Functional? {
        FunctionalStandard(protocol);
      }
      var sent := SendHeader(header.value);
      AstrayExactly(link.moves, link.start);
      if sent.Failure? {
        return Failure(sent.error);
      }
      if !sent.value {
        return Failure(RejectedCommand);
      }
      currentHeader := header;
      r := Success(());
    }

    // ---- Connecting ----

    /** Reset and configure. Afterwards nothing is cached and what is printed is what was told. It fails
        only if the reset or the echo was not taken or an exchange was not answered. */
    method Initialize() returns (r: Result<(), Error>)
      requires Inv()
      modifies this`currentHeader, this`spacesEnabled, this`headersEnabled, link, link.emulator
      ensures Inv() && Progressed() && Chatter() && link.openings == old(link.openings)
      ensures r.Success? ==> currentHeader == None && link.isOpen && Calm() && Printing()
      ensures r.Success? ==> link.asked == old(link.asked) + ["ATZ", "ATE0"] + Configuring(config)
      ensures r.Failure? ==> currentHeader == old(currentHeader)
      ensures r.Failure? ==> (r.error == InitFailed && Balked(link.heard, |old(link.heard)|)) || (r.error.LinkFailed? && Cut())
    {
      hide Agrees, ReadableBanner, Walked, Setting, Sendable, Moved, Normalize, OwnLine, Foreign, StandingOf,
           Unheard, FaultCount, OpenFailures, Answers, Probes, Trusted, Spoken, Toggling, AckedAt, IsSwitch,
           SamePrinting, Resendable, Understood, Landed, Flipped, Dropped;
      EchoLiteral();
      ResetSendable("ATZ");
      var reset := SendRaw("ATZ");
      if reset.Failure? {
        return Failure(reset.error);
      }
      ReadAcked(link.heard, |old(link.heard)|, "ATZ", reset.value);
      if !Succeeded(reset) {
        return Failure(InitFailed);
      }
      ResetMoved(link.emulator.personality, old(link.Now()), link.Now());
      var echo := Configure("ATE0");
      if echo.Failure? {
        return Failure(echo.error);
      }
      if !echo.value {
        return Failure(InitFailed);
      }
      assert link.asked == old(link.asked) + ["ATZ", "ATE0"];
      r := ConfigureReplies();
      if r.Success? {
        currentHeader := None;
      }
    }

    /** The settings a refusal of which is only recorded. */
    method ConfigureReplies() returns (r: Result<(), Error>)
      requires Inv() && link.Now().shownTold == RESTING && link.Now().warm == Shown(false, false)
      modifies this`spacesEnabled, this`headersEnabled, link, link.emulator
      ensures Inv() && Progressed() && Chatter() && (r.Success? ==> Calm() && link.isOpen && Printing())
      ensures link.openings == old(link.openings)
      ensures r.Success? ==> link.asked == old(link.asked) + Configuring(config)
      ensures r.Failure? ==> r.error.LinkFailed? && Cut()
    {
      hide Agrees, ReadableBanner, Walked, BusSettings, Foreign, StandingOf, FaultCount, OpenFailures, Answers,
           Probes, Trusted;
      r := ConfigurePrinting();
      if r.Success? {
        r := ConfigureBus();
      }
    }

    method ConfigurePrinting() returns (r: Result<(), Error>)
      requires Inv() && link.Now().shownTold == RESTING && link.Now().warm == Shown(false, false)
      modifies this`spacesEnabled, this`headersEnabled, link, link.emulator
      ensures Inv() && Progressed() && Chatter() && (r.Success? ==> Calm() && link.isOpen && Printing())
      ensures r.Success? ==> Shown(headersEnabled, spacesEnabled) == link.Now().shownTold
      ensures link.openings == old(link.openings)
      ensures r.Success? ==> link.asked == old(link.asked) + ["ATL0", if config.spaces then "ATS1" else "ATS0", "ATH1"]
      ensures r.Failure? ==> r.error.LinkFailed? && Cut()
    {
      hide Agrees, ReadableBanner, Walked, Setting, OwnLine, Foreign, StandingOf, FaultCount, OpenFailures, Answers,
           Probes, AckedAt, Unsupported, IsSwitch, Flipped, Trusted, Settled, Dropped;
      SwitchLiterals();
      var ok := Configure("ATL0");
      if ok.Failure? { return Failure(ok.error); }
      r := ConfigureShown();
    }

    /** The spaces and the headers, each as it was taken. */
    method ConfigureShown() returns (r: Result<(), Error>)
      requires Inv() && link.Now().shownTold == RESTING && link.Now().warm == Shown(false, false)
      modifies this`spacesEnabled, this`headersEnabled, link, link.emulator
      ensures Inv() && Progressed() && Chatter() && (r.Success? ==> Calm() && link.isOpen && Printing())
      ensures r.Success? ==> Shown(headersEnabled, spacesEnabled) == link.Now().shownTold
      ensures link.openings == old(link.openings)
      ensures r.Success? ==> link.asked == old(link.asked) + [if config.spaces then "ATS1" else "ATS0", "ATH1"]
      ensures r.Failure? ==> r.error.LinkFailed? && Cut()
    {
      hide Agrees, ReadableBanner, Walked, Setting, OwnLine, Foreign, StandingOf, FaultCount, OpenFailures, Answers,
           Probes, AckedAt, Unsupported, IsSwitch, Flipped, Trusted, Settled, Dropped;
      SwitchLiterals();
      ghost var first := link.Now();
      var ok := Configure(if config.spaces then "ATS1" else "ATS0");
      if ok.Failure? { return Failure(ok.error); }
      spacesEnabled := if ok.value then config.spaces else true;
      ghost var second, spaced := link.Now(), ok.value;
      ok := Configure("ATH1");
      if ok.Failure? { return Failure(ok.error); }
      headersEnabled := ok.value;
      PrintingSet(link.emulator.personality, config.spaces, first, second, link.Now(), spaced, ok.value);
      r := Success(());
    }

    method ConfigureBus() returns (r: Result<(), Error>)
      requires Inv()
      modifies link, link.emulator
      ensures Inv() && link.Now() == old(link.Now()) && Progressed() && Chatter() && (r.Success? ==> Calm() && link.isOpen)
      ensures link.openings == old(link.openings)
      ensures r.Success? ==> link.asked == old(link.asked) + BusSettings(config)
      ensures r.Failure? ==> r.error.LinkFailed? && Cut()
    {
      hide Agrees, ReadableBanner, Walked, Setting, Print, OwnLine, Foreign, StandingOf, Moved, Unheard, FaultCount,
           OpenFailures, Answers, Probes, AckedAt, IsSwitch, Flipped, Settled, Dropped;
      SwitchLiterals();
      if config.adaptiveTiming {
        var ok := Configure("ATAT1");
        if ok.Failure? { return Failure(ok.error); }
      }
      var id := if config.forceProtocol.Some? then config.forceProtocol.value.ElmId() else None;
      SelectCommand(if id.Some? then id.value else 0);
      var ok := Configure("ATSP" + Print(if id.Some? then id.value else 0, 0));
      if ok.Failure? { return Failure(ok.error); }
      r := Success(());
    }

    /** Whether a request longer than one frame leaves the adapter: it does if the plain form is not met
        with a question mark, or else, on the better firmware, the other form. Without a reply it stays
        unmeasured. */
    method MeasureLongMessageSupport()
      requires Inv()
      modifies this`supportsLongMessages, this`longViaStpx, link, link.emulator
      ensures Inv() && link.Now() == old(link.Now()) && Progressed() && Chatter() && link.openings == old(link.openings)
      ensures |old(link.heard)| <= |link.heard|
      ensures var n := |old(link.heard)|;
              if |link.heard| == n then link.asked == old(link.asked) + [LONG_PROBE] && unchanged(this)
              else if !Puzzled(link.heard, n, LONG_PROBE) then
                link.asked == old(link.asked) + [LONG_PROBE] && supportsLongMessages && longViaStpx == old(longViaStpx)
              else
                && link.asked == old(link.asked) + [LONG_PROBE] + (if stnConfirmed then [STPX + LONG_PROBE] else [])
                && if |link.heard| > n + 1 && !Puzzled(link.heard, n + 1, STPX + LONG_PROBE) then supportsLongMessages && longViaStpx
                   else !supportsLongMessages && longViaStpx == old(longViaStpx)
    {
      hide Agrees, ReadableBanner, Walked, Setting, Harmless, Sendable, OwnLine, Foreign, StandingOf, Moved,
           Unheard, FaultCount, OpenFailures, Answers, Probes, Understood, Dropped;
      LongProbes();
      var reply := SendSetting(LONG_PROBE);
      if reply.Failure? {
        return;
      }
      ghost var heard := link.heard;
      if reply.value.classified != NotUnderstood {
        supportsLongMessages := true;
        return;
      }
      if stnConfirmed {
        var stn := SendSetting(STPX + LONG_PROBE);
        assert link.heard[|heard| - 1] == heard[|heard| - 1];
        if stn.Success? && stn.value.classified != NotUnderstood {
          supportsLongMessages, longViaStpx := true, true;
          return;
        }
      }
      supportsLongMessages := false;
    }

    /** Try each protocol with its own header, the remembered one first, until one brings data; then leave
        the choice to the device. Without a link fault exactly those were selected, in that order. */
    method SweepProtocols() returns (r: Result<Option<AdapterResponse>, Error>, ghost tried: nat)
      requires Inv() && Coherent() && Printing()
      modifies this, link, link.emulator
      ensures Inv() && Coherent() && Progressed() && Chatter() && (r.Success? ==> Printing())
      ensures tried <= |SweepOrder(old(preferredProtocol))|
      ensures r.Success? && r.value.Some? ==>
                tried >= 1 && r.value.value.classified == Data && Says(link.heard, |old(link.heard)|, PROBE, r.value.value)
      ensures r == Success(None) ==> tried == |SweepOrder(old(preferredProtocol))| && (Calm() ==> Unanswered())
      ensures Calm() && r.Success? ==>
                Selections(link.asked) == old(Selections(link.asked)) + Selecting(SweepOrder(old(preferredProtocol))[..tried])
                                          + if r.value.Some? then [] else ["ATSP0"]
      ensures r.Failure? ==> r.error.LinkFailed? && Cut()
      decreases link.Measure(), 6
    {
      hide Agrees, ReadableBanner, Walked, Setting, Harmless, Sendable, OwnLine, Foreign, StandingOf, Says, Unheard,
           Selections, SweepOrder, Print, FaultCount, OpenFailures, Answers, Probes, Trusted, Understood, IsSwitch,
           AckedAt, Flipped, Settled, Dropped;
      var order := SweepOrder(preferredProtocol);
      tried := 0;
      for i := 0 to |order|
        invariant Inv() && Coherent() && Progressed() && Chatter() && Printing() && tried == i
        invariant Calm() ==> Selections(link.asked) == old(Selections(link.asked)) + Selecting(order[..i]) && Unanswered()
      {
        ghost var n := |link.heard|;
        var reply := TryProtocol(order[i]);
        tried := i + 1;
        if reply.Failure? { return Failure(reply.error), tried; }
        SelectingNext(old(Selections(link.asked)), order, i);
        if reply.value.classified == Data {
          SaysStill(link.heard, link.heard, n, |old(link.heard)|, PROBE, reply.value);
          return Success(Some(reply.value)), tried;
        }
      }
      assert order[..|order|] == order;
      ghost var before := link.asked;
      AutoLiteral();
      var restored := Configure("ATSP0");
      if restored.Failure? { return Failure(restored.error), tried; }
      SelectionsNext(before, "ATSP0");
      ProbesNext(before, "ATSP0");
      r := Success(None);
    }

    /** One protocol selected, its header put in place and the probe sent. */
    method TryProtocol(id: nat) returns (r: Result<AdapterResponse, Error>)
      requires Inv() && Coherent() && Printing()
      modifies this, link, link.emulator
      ensures Inv() && Coherent() && Progressed() && Chatter() && (r.Success? ==> Printing())
      ensures r.Success? ==> Says(link.heard, |old(link.heard)|, PROBE, r.value)
      ensures Calm() && r.Success? ==>
                && Selections(link.asked) == old(Selections(link.asked)) + Selecting([id])
                && (r.value.classified != Data ==> Unanswered())
      ensures r.Failure? ==> r.error.LinkFailed? && Cut()
      decreases link.Measure(), 5
    {
      hide Agrees, ReadableBanner, Walked, Setting, Harmless, Sendable, OwnLine, Foreign, StandingOf, Says, Unheard,
           Selections, Print, FaultCount, OpenFailures, Answers, Probes, Trusted, Understood, IsSwitch, AckedAt,
           Refused, Flipped, Settled, Dropped;
      SelectCommand(id);
      var selected := Configure("ATSP" + Print(id, 0));
      if selected.Failure? { return Failure(selected.error); }
      SelectionsNext(old(link.asked), "ATSP" + Print(id, 0));
      ProbesNext(old(link.asked), "ATSP" + Print(id, 0));
      var headed := ApplyFunctionalHeader(FromElmId(id));
      if headed.Failure? { return Failure(headed.error); }
      ghost var n := |link.heard|;
      r := Probe();
      if r.Success? {
        SaysStill(link.heard, link.heard, n, |old(link.heard)|, PROBE, r.value);
      }
    }

    /** The probe, which selects nothing. */
    method Probe() returns (r: Result<AdapterResponse, Error>)
      requires Inv()
      modifies link, link.emulator
      ensures Inv() && link.Now() == old(link.Now()) && Progressed() && Chatter() && SelectionKept() && link.openings == old(link.openings)
      ensures r.Success? ==> Calm() && link.isOpen && Says(link.heard, |old(link.heard)|, PROBE, r.value)
      ensures link.asked == old(link.asked) + [PROBE]
      ensures r.Failure? ==> r.error.LinkFailed? && Cut()
      ensures !(r.Success? && r.value.classified == Data) ==> Unanswered()
    {
      hide Agrees, ReadableBanner, Walked, Harmless, Sendable, OwnLine, Foreign, StandingOf, Moved, Unheard,
           Selections, FaultCount, OpenFailures, Answers, Probes, Understood, Dropped;
      LongProbes();
      r := SendSetting(PROBE);
      SelectionsNext(old(link.asked), PROBE);
      NotPrefix("ATSP", PROBE, 0);
      if r.Success? {
        assert ReadAt(link.heard, |old(link.heard)|, PROBE, r.value);
        assert link.heard == old(link.heard) + [link.heard[|old(link.heard)|]];
        AnswersNext(old(link.heard), link.heard[|old(link.heard)|]);
      } else {
        assert link.heard == old(link.heard);
      }
    }

    /** The adapter has measured that the socket has no power. */
    predicate Unpowered()
      reads this
    {
      batteryVoltage.Some? && batteryVoltage.value < SOCKET_POWERED_VOLTS
    }

    /** The first answer to the probe, by whatever means. Silence is reported only after a probe that
        failed; without a link fault no probe then brought data, and the socket has no power or every
        protocol was tried and the choice left to the device. */
    method FindAnswer() returns (r: Result<Option<AdapterResponse>, Error>)
      requires Inv() && Coherent() && Printing()
      modifies this, link, link.emulator
      ensures Inv() && Coherent() && Progressed() && Chatter() && (r.Success? ==> Printing())
      ensures r.Success? && r.value.Some? ==>
                r.value.value.classified.IsSuccess() && Says(link.heard, |old(link.heard)|, PROBE, r.value.value)
      ensures r.Success? ==> Probed(link.heard, |old(link.heard)|, r.value.Some?)
      ensures Calm() && r == Success(None) ==>
                && Unanswered()
                && if old(Unpowered()) then SelectionKept()
                   else old(Selections(link.asked)) + Selecting(SweepOrder(old(preferredProtocol))) + ["ATSP0"] <= Selections(link.asked)
      ensures r.Failure? ==> Cut() || Hindered(r.error, link.heard, |old(link.heard)|)
      decreases link.Measure(), 7
    {
      hide Agrees, ReadableBanner, Walked, Setting, Harmless, Sendable, OwnLine, Foreign, StandingOf, Says, Unheard,
           Selections, SweepOrder, Print, FaultCount, OpenFailures, Answers, Probes, Trusted, Understood, Probed,
           Refused, AckedAt;
      r := FirstProbe();
      if r.Failure? {
        return;
      }
      if r.value.Some? {
        SaysProbed(link.heard, |old(link.heard)|, r.value.value);
        return;
      }
      if Unpowered() {
        return Success(None);
      }
      ghost var first, tried := link.heard, 0;
      r, tried := SweepProtocols();
      ghost var swept, heard := link.asked, link.heard;
      assert SweepOrder(old(preferredProtocol))[..|SweepOrder(old(preferredProtocol))|] == SweepOrder(old(preferredProtocol));
      if r.Failure? {
        return;
      }
      if r.value.Some? {
        SaysStill(heard, link.heard, |first|, |old(link.heard)|, PROBE, r.value.value);
        SaysProbed(link.heard, |old(link.heard)|, r.value.value);
        return;
      }
      r := ProbeAtCeiling();
      SelectionsGrow(swept, link.asked);
      if r.Success? {
        ProbedStill(first, link.heard, |old(link.heard)|, |old(link.heard)|, false);
        if r.value.Some? {
          SaysStill(link.heard, link.heard, |heard|, |old(link.heard)|, PROBE, r.value.value);
          SaysProbed(link.heard, |old(link.heard)|, r.value.value);
        }
      }
    }

    method FirstProbe() returns (r: Result<Option<AdapterResponse>, Error>)
      requires Inv() && Coherent() && Printing()
      modifies this, link, link.emulator
      ensures Inv() && Coherent() && Progressed() && Chatter() && (Calm() ==> SelectionKept()) && (r.Success? ==> Printing())
      ensures r.Success? && r.value.Some? ==>
                r.value.value.classified.IsSuccess() && Says(link.heard, |old(link.heard)|, PROBE, r.value.value)
      ensures r == Success(None) ==> Probed(link.heard, |old(link.heard)|, false) && (Calm() ==> Unanswered())
      ensures r.Failure? ==> Cut() || Hindered(r.error, link.heard, |old(link.heard)|)
      decreases link.Measure(), 5
    {
      hide Agrees, ReadableBanner, Walked, Setting, Harmless, Sendable, OwnLine, Foreign, StandingOf, Says, Unheard,
           Selections, SweepOrder, Print, FaultCount, OpenFailures, Answers, Probes, Trusted, Understood, Probed,
           Refused;
      var headed := SetHeader(Functional);
      if headed.Failure? { return Failure(headed.error); }
      ghost var n := |link.heard|;
      var reply := Probe();
      if reply.Failure? { return Failure(reply.error); }
      SaysStill(link.heard, link.heard, n, |old(link.heard)|, PROBE, reply.value);
      if !reply.value.classified.IsSuccess() {
        SaysProbed(link.heard, |old(link.heard)|, reply.value);
        return Success(None);
      }
      r := Success(Some(reply.value));
    }

    /** The last means: the widest window, and the adapter left to choose the protocol. */
    method ProbeAtCeiling() returns (r: Result<Option<AdapterResponse>, Error>)
      requires Inv() && Coherent() && Printing()
      modifies this`responseWindowMs, this`provenWindowMs, link, link.emulator
      ensures Inv() && Coherent() && Progressed() && Chatter() && Printing()
      ensures r.Success? && r.value.Some? ==>
                r.value.value.classified == Data && provenWindowMs.Some? && Says(link.heard, |old(link.heard)|, PROBE, r.value.value)
      ensures r == Success(None) ==> Unanswered()
      ensures if old(responseWindowMs) == WINDOW_MAX then r == Success(None) && link.asked == old(link.asked)
              else old(link.asked) + [WindowLine(WINDOW_MAX)]
                   + (if AckedAt(link.heard, |old(link.heard)|, WindowLine(WINDOW_MAX)) then ["ATSP0"] else []) <= link.asked
      ensures r.Failure? ==> r.error.LinkFailed? && Cut()
    {
      hide Agrees, ReadableBanner, Walked, Setting, Harmless, Sendable, OwnLine, Foreign, StandingOf, Says, Moved,
           Unheard, WindowLine, FaultCount, OpenFailures, Answers, Probes, Trusted, Understood, AckedAt;
      var widened := WidenToCeiling();
      WindowNoProbe(old(link.asked), WINDOW_MAX);
      if !widened {
        assert old(link.asked) + [] == old(link.asked);
        return Success(None);
      }
      ghost var heard := link.heard;
      r := ProbeAgain();
      AckedReached(heard, |old(link.heard)|, WindowLine(WINDOW_MAX));
      AckedStill(heard, link.heard, |old(link.heard)|, WindowLine(WINDOW_MAX));
      if r.Success? && r.value.Some? {
        SaysStill(link.heard, link.heard, |heard|, |old(link.heard)|, PROBE, r.value.value);
      }
    }

    method ProbeAgain() returns (r: Result<Option<AdapterResponse>, Error>)
      requires Inv()
      modifies this`responseWindowMs, this`provenWindowMs, link, link.emulator
      ensures Inv() && link.Now() == old(link.Now()) && Progressed() && Chatter()
      ensures r.Success? && r.value.Some? ==>
                r.value.value.classified == Data && provenWindowMs.Some? && Says(link.heard, |old(link.heard)|, PROBE, r.value.value)
      ensures r == Success(None) ==> Unanswered()
      ensures old(link.asked) + ["ATSP0"] + (if r.Success? then [PROBE] else []) <= link.asked
      ensures r.Failure? ==> r.error.LinkFailed? && Cut()
    {
      hide Agrees, ReadableBanner, Walked, Setting, Harmless, Sendable, OwnLine, Foreign, StandingOf, Says, Moved,
           Unheard, FaultCount, OpenFailures, Answers, Probes, Understood, AckedAt, IsSwitch, Flipped, Settled,
           Dropped;
      AutoLiteral();
      var auto := Configure("ATSP0");
      if auto.Failure? { return Failure(auto.error); }
      ProbesNext(old(link.asked), "ATSP0");
      ghost var n := |link.heard|;
      var reply := Probe();
      if reply.Failure? { return Failure(reply.error); }
      if reply.value.classified != Data {
        return Success(None);
      }
      ghost var heard := link.heard;
      RecordWindowSuccess();
      SaysStill(heard, link.heard, n, |old(link.heard)|, PROBE, reply.value);
      r := Success(Some(reply.value));
    }

    /** Ask a question that finds the protocol on its own; finding none is no failure. The vehicle is said
        to answer only if a reply to the probe says so, and to be silent only if one does. An answer
        proves the window, and without a link fault the protocol is the one the device then named. */
    method NegotiateProtocol() returns (r: Result<bool, Error>)
      requires Inv() && Coherent() && Printing()
      modifies this, link, link.emulator
      ensures Inv() && Coherent() && Progressed() && Chatter() && (r.Success? ==> Printing())
      ensures r.Success? ==> Probed(link.heard, |old(link.heard)|, r.value)
      ensures r == Success(true) ==> provenWindowMs.Some? && LONG_PROBE in Since(old(link.asked), link.asked)
      ensures r == Success(true) && Calm() ==> Learned(link.heard, |old(link.heard)|, protocol)
      ensures r == Success(false) && Calm() ==>
                && Unanswered()
                && (Unpowered() || old(Selections(link.asked)) + Selecting(SweepOrder(preferredProtocol)) + ["ATSP0"] <= Selections(link.asked))
      ensures r.Failure? ==> Cut() || Hindered(r.error, link.heard, |old(link.heard)|)
      decreases link.Measure(), 8
    {
      hide Agrees, ReadableBanner, Walked, Setting, Harmless, Sendable, OwnLine, Foreign, StandingOf, Says, Moved,
           Unheard, Selections, SweepOrder, Print, Learned, FaultCount, OpenFailures, Answers, Probes, Trusted,
           Probed, Refused, Since;
      var answer := FindAnswer();
      if answer.Failure? { return Failure(answer.error); }
      if answer.value.None? {
        return Success(false);
      }
      ghost var heard, asked := link.heard, link.asked;
      var adopted := AdoptProtocol();
      if adopted.Failure? { return Failure(adopted.error); }
      SinceEarlier(old(link.asked), asked, link.asked, LONG_PROBE);
      LearnedStill(link.heard, link.heard, |heard|, |old(link.heard)|, protocol);
      ProbedStill(heard, link.heard, |old(link.heard)|, |old(link.heard)|, true);
      r := Success(true);
    }

    /** After an answer: the window is proven, long messages are measured, the protocol is learned and its
        broadcast header put in place. */
    method AdoptProtocol() returns (r: Result<(), Error>)
      requires Inv() && Coherent() && Printing()
      modifies this, link, link.emulator
      ensures Inv() && Coherent() && Progressed() && Chatter() && (r.Success? ==> Printing())
      ensures r.Success? ==> provenWindowMs.Some? && LONG_PROBE in Since(old(link.asked), link.asked)
      ensures r.Success? && Calm() ==> Learned(link.heard, |old(link.heard)|, protocol) && InPlaceOrRefused(|old(link.heard)|)
      ensures r.Failure? ==> r.error.LinkFailed? && Cut()
      decreases link.Measure(), 6
    {
      hide Agrees, ReadableBanner, Walked, OwnLine, Foreign, StandingOf, Learned, FaultCount, OpenFailures, Answers,
           Probes, Trusted, Puzzled, Since, InPlaceOrRefused, WindowLine;
      RecordWindowSuccess();
      ghost var before := link.asked;
      MeasureLongMessageSupport();
      ghost var n, measured := |link.heard|, link.asked;
      SinceThen(old(link.asked), before, LONG_PROBE, measured);
      r := LearnAndPoint();
      SinceGrows(old(link.asked), measured, link.asked, LONG_PROBE);
      LearnedStill(link.heard, link.heard, n, |old(link.heard)|, protocol);
      PlacedEarlier(n, |old(link.heard)|);
    }

    /** The protocol's broadcast header is cached, or was refused from a point on and none is. */
    ghost predicate InPlaceOrRefused(from: nat)
      reads this, link
    {
      protocol.FunctionalHeader().Some? ==>
        || currentHeader == protocol.FunctionalHeader()
        || (currentHeader.None? && Refused(link.heard, from, protocol.FunctionalHeader().value))
    }

    lemma PlacedEarlier(from: nat, earlier: nat)
      requires earlier <= from
      ensures InPlaceOrRefused(from) ==> InPlaceOrRefused(earlier)
    {
      hide Refused;
      if InPlaceOrRefused(from) && protocol.FunctionalHeader().Some? && currentHeader != protocol.FunctionalHeader() {
        RefusedStill(link.heard, link.heard, from, earlier, protocol.FunctionalHeader().value);
      }
    }

    method LearnAndPoint() returns (r: Result<(), Error>)
      requires Inv() && Coherent() && Printing()
      modifies this, link, link.emulator
      ensures Inv() && Coherent() && Progressed() && Chatter() && (r.Success? ==> Printing())
      ensures r.Success? && Calm() ==> Learned(link.heard, |old(link.heard)|, protocol) && InPlaceOrRefused(|old(link.heard)|)
      ensures r.Failure? ==> r.error.LinkFailed? && Cut()
      decreases link.Measure(), 5
    {
      hide Agrees, ReadableBanner, Walked, OwnLine, Foreign, StandingOf, Selections, Learned, FaultCount,
           OpenFailures, Answers, Probes, Trusted, Refused;
      r := LearnProtocol();
      if r.Failure? {
        return;
      }
      ghost var heard := link.heard;
      r := ApplyFunctionalHeader(protocol);
      LearnedStill(heard, link.heard, |old(link.heard)|, |old(link.heard)|, protocol);
      if r.Success? && protocol.FunctionalHeader().Some? && Refused(link.heard, |heard|, protocol.FunctionalHeader().value) {
        RefusedStill(link.heard, link.heard, |heard|, |old(link.heard)|, protocol.FunctionalHeader().value);
      }
    }

    /** What the device says the protocol is. */
    method LearnProtocol() returns (r: Result<(), Error>)
      requires Inv()
      modifies this`protocol, link, link.emulator
      ensures Inv() && link.Now() == old(link.Now()) && Progressed() && Chatter() && link.openings == old(link.openings)
      ensures r.Success? ==> Learned(link.heard, |old(link.heard)|, protocol) && Calm()
      ensures r.Failure? ==> r.error.LinkFailed? && Cut() && protocol == old(protocol)
    {
      hide Agrees, ReadableBanner, Walked, Setting, Harmless, Sendable, OwnLine, Foreign, StandingOf, Moved,
           Unheard, Understood, ParseProtocolNumber, FaultCount, OpenFailures, Answers, Probes, Dropped;
      NumberLiteral();
      SettingIsHarmless("ATDPN");
      var dpn := SendSetting("ATDPN");
      if dpn.Failure? { return Failure(dpn.error); }
      protocol := NamedProtocol(dpn.value);
      r := Success(());
    }

    /** What a bringing up is judged by. */
    ghost function Seen(): Findings
      reads this, link
    {
      Findings(link.asked, link.heard, link.FaultsLeft(), protocol, Unpowered(), preferredProtocol)
    }

    ghost function Begun(): Outset
      reads link
    {
      Outset(link.asked, link.heard, link.FaultsLeft())
    }

    /** Rebuild the link: attempts one, two, and so on up to the limit, announced in this order and each
        opening the port, ending ready, degraded or failed: ready only if the vehicle answered the last
        attempt, degraded only if it was silent in it. Negotiation can meet a link fault itself and come
        back here; every such round uses one up. */
    method Reconnect() returns (r: Result<(), Error>, ghost tries: nat, ghost outset: Outset)
      requires Inv() && Coherent()
      modifies this, link, link.emulator
      ensures Inv() && Coherent() && Progressed() && Chatter() && (r.Success? ==> Printing())
      ensures r.Success? ==> (state == Ready || state == Degraded) && 1 <= tries <= config.maxReconnectAttempts
      ensures r.Success? ==>
                && BroughtUp(config, outset, Seen(), state == Ready)
                && old(link.asked) <= outset.asked && old(link.heard) <= outset.heard && outset.faults <= old(link.FaultsLeft())
      ensures r.Failure? ==> r.error.LinkFailed? && state == Failed && tries == config.maxReconnectAttempts
      ensures Attempts(Latest(old(announced), announced), tries) && old(link.openings) + tries <= link.openings
      decreases 2 * link.FaultsLeft(), 12
    {
      hide Agrees, ReadableBanner, Walked, Attempts, Latest, OwnLine, Foreign, StandingOf, FaultCount, OpenFailures,
           Answers, Probes, Trusted, BroughtUp;
      NoAttempts(Latest(announced, announced));
      tries, outset := 0, Begun();
      for attempt := 1 to config.maxReconnectAttempts + 1
        invariant Inv() && Coherent() && Progressed() && Chatter() && tries == attempt - 1
        invariant Attempts(Latest(old(announced), announced), tries) && old(link.openings) + tries <= link.openings
      {
        ghost var before, said := announced, [];
        var answering;
        answering, said, outset := Attempt(attempt);
        AttemptsNext(old(announced), before, said, announced, tries);
        tries := tries + 1;
        if answering.Success? {
          before := announced;
          SetState(if answering.value then Ready else Degraded);
          AttemptsStay(old(announced), before, announced, tries);
          return Success(()), tries, outset;
        }
      }
      ghost var before := announced;
      SetState(Failed);
      AttemptsStay(old(announced), before, announced, tries);
      r := Failure(LinkFailed(TransportDisconnected));
    }

    /** One attempt, announced before anything else. */
    method Attempt(attempt: nat) returns (r: Result<bool, Error>, ghost said: seq<ConnectionState>, ghost outset: Outset)
      requires Inv() && Coherent() && 1 <= attempt <= config.maxReconnectAttempts
      modifies this, link, link.emulator
      ensures Inv() && Coherent() && Progressed() && Chatter() && (r.Success? ==> Printing())
      ensures old(announced) <= said <= announced && said != [] && said[|said| - 1] == Reconnecting(attempt)
      ensures old(link.openings) < link.openings
      ensures r.Success? ==>
                && BroughtUp(config, outset, Seen(), r.value)
                && old(link.asked) == outset.asked && old(link.heard) == outset.heard && outset.faults <= old(link.FaultsLeft())
      decreases 2 * link.FaultsLeft(), 11
    {
      hide Agrees, ReadableBanner, OwnLine, Foreign, StandingOf, FaultCount, OpenFailures, Answers, Probes, Trusted,
           BroughtUp;
      SetState(Reconnecting(attempt));
      said := announced;
      r, outset := Reopen();
    }

    /** Close, open, configure, negotiate. It fails only if the port did not open, the device did not take
        the reset or a header, or an exchange was not answered. */
    method Reopen() returns (r: Result<bool, Error>, ghost outset: Outset)
      requires Inv() && Coherent()
      modifies this, link, link.emulator
      ensures Inv() && Coherent() && Progressed() && Chatter() && (r.Success? ==> Printing())
      ensures old(link.openings) < link.openings
      ensures r.Success? ==>
                && BroughtUp(config, outset, Seen(), r.value)
                && old(link.asked) == outset.asked && old(link.heard) == outset.heard && outset.faults <= old(link.FaultsLeft())
      ensures r.Failure? ==>
                || link.FaultsLeft() < old(link.FaultsLeft()) || Cut()
                || (r.error == InitFailed && Balked(link.heard, |old(link.heard)|)) || Hindered(r.error, link.heard, |old(link.heard)|)
      decreases 2 * link.FaultsLeft(), 10
    {
      hide Agrees, ReadableBanner, Walked, OwnLine, Foreign, StandingOf, FaultCount, OpenFailures, Answers, Probes,
           Trusted, Probed, Learned, Selections, SweepOrder, BroughtUp, Refused, AckedAt, Configuring;
      link.Close();
      var reopened := link.Open();
      outset := Begun();
      if !reopened {
        return Failure(LinkFailed(TransportOpenFailed)), outset;
      }
      currentHeader := None;
      r := Restart();
    }

    /** Reset, configure, negotiate. */
    method Restart() returns (r: Result<bool, Error>)
      requires Inv() && currentHeader == None
      modifies this, link, link.emulator
      ensures Inv() && Coherent() && Progressed() && Chatter() && (r.Success? ==> Printing())
      ensures r.Success? ==> BroughtUp(config, old(Begun()), Seen(), r.value)
      ensures r.Failure? ==>
                Cut() || (r.error == InitFailed && Balked(link.heard, |old(link.heard)|)) || Hindered(r.error, link.heard, |old(link.heard)|)
      decreases 2 * link.FaultsLeft(), 9
    {
      hide Agrees, ReadableBanner, Walked, OwnLine, Foreign, StandingOf, FaultCount, OpenFailures, Answers, Probes,
           Trusted, Probed, Learned, Selections, SweepOrder, BroughtUp, Refused, AckedAt, Configuring, Balked,
           WindowOk, Hindered;
      ghost var outset := Begun();
      var initialized := Initialize();
      NothingCached(link.emulator.personality, link.Now());
      if initialized.Failure? {
        return Failure(initialized.error);
      }
      ghost var between := Begun();
      SettledProbes(outset.asked, config);
      r := NegotiateProtocol();
      if r.Success? {
        Brought(config, outset, between, Seen(), r.value);
      } else {
        HinderedStill(r.error, link.heard, |between.heard|, |outset.heard|);
      }
    }

    // ---- What callers use ----

    /** Between calls: whenever the adapter takes requests, its header cache is right and what it takes to
        be printed can be trusted. */
    ghost predicate Session()
      reads this, link, link.emulator
    {
      Inv() && (state.IsUsable() ==> Coherent() && Printing())
    }

    /** A Bluetooth port that fails to open is tried once more. */
    method OpenTransport() returns (ok: bool)
      modifies link`isOpen, link`opens, link`openings
      ensures ok == link.isOpen
      ensures (old(link.Faithful()) ==> link.Faithful()) && link.FaultsLeft() <= old(link.FaultsLeft())
      ensures if old(link.isOpen) then unchanged(link)
              else link.openings == old(link.openings) + if !(old(link.opens) == [] || old(link.opens)[0]) && config.bluetooth then 2 else 1
      ensures !ok ==> !old(link.isOpen) && link.FaultsLeft() == old(link.FaultsLeft()) - if config.bluetooth then 2 else 1
    {
      if link.isOpen {
        return true;
      }
      ok := link.Open();
      if !ok && config.bluetooth {
        ok := link.Open();
      }
    }

    /** Work out what the device is; it is one the adapter can use if and only if it says so in reply to
        `ATI`. Its own voltage reading is kept when it can be read. */
    method Identify() returns (r: Result<(), Error>)
      requires Inv()
      modifies this`stnConfirmed, this`batteryVoltage, link, link.emulator
      ensures Inv() && link.Now() == old(link.Now()) && Progressed() && SelectionKept() && Unanswered() && link.openings == old(link.openings)
      ensures r.Success? ==> Identified(old(link.asked) + ["ATI"], link.asked, stnConfirmed)
      ensures r.Success? ==> Recognised(link.heard, |old(link.heard)|)
      ensures r.Failure? ==>
                || (r.error == NotIdentified && Strange(link.heard, |old(link.heard)|))
                || (r.error.LinkFailed? && Cut())
      ensures batteryVoltage == old(batteryVoltage) || batteryVoltage == voltage
      ensures Calm() ==> link.isOpen
    {
      hide Agrees, ReadableBanner, Walked, Setting, Harmless, Sendable, Identified, OwnLine, Foreign, StandingOf,
           Unheard, FaultCount, OpenFailures, Answers, Probes, Understood, Selections, UpperAll, Contains, Join,
           Dropped;
      IdentifyCommands();
      var banner := SendSetting("ATI");
      NothingSelected(old(link.asked), "ATI");
      if banner.Failure? { return Failure(banner.error); }
      if !Succeeded(banner) || banner.value.lines == [] {
        return Failure(NotIdentified);
      }
      var upper := UpperAll(Join(banner.value.lines));
      if !Contains(upper, "ELM327") && !Contains(upper, "OBDII") {
        return Failure(NotIdentified);
      }
      ghost var heard := link.heard;
      r := Describe();
      RecognisedStill(heard, link.heard, |old(link.heard)|);
    }

    /** The rest of identification: the description, what firmware it is, the voltage. */
    method Describe() returns (r: Result<(), Error>)
      requires Inv()
      modifies this`stnConfirmed, this`batteryVoltage, link, link.emulator
      ensures Inv() && link.Now() == old(link.Now()) && Progressed() && SelectionKept() && Unanswered() && link.openings == old(link.openings)
      ensures r.Success? ==> Identified(old(link.asked), link.asked, stnConfirmed)
      ensures r.Failure? ==> r.error.LinkFailed? && Cut()
      ensures r.Success? ==>
                batteryVoltage == if voltage.Some? && link.heard != [] && AckedAt(link.heard, |link.heard| - 1, "ATRV") then voltage
                                  else old(batteryVoltage)
      ensures batteryVoltage == old(batteryVoltage) || batteryVoltage == voltage
      ensures Calm() ==> link.isOpen
    {
      hide Agrees, ReadableBanner, Walked, Setting, Harmless, Sendable, OwnLine, Foreign, StandingOf, Moved,
           Unheard, FaultCount, OpenFailures, Answers, Probes, Understood, Selections, Firmware, Dropped;
      IdentifyCommands();
      var description := SendSetting("AT@1");
      NothingSelected(old(link.asked), "AT@1");
      if description.Failure? { return Failure(description.error); }
      r := AskFirmware();
      if r.Failure? {
        return;
      }
      ghost var asked := link.asked;
      var rv := SendSetting("ATRV");
      NothingSelected(asked, "ATRV");
      if Succeeded(rv) && voltage.Some? {
        batteryVoltage := voltage;
      }
    }

    /** Better firmware is known by its reply to `STI`, and then asked for its product name. */
    method AskFirmware() returns (r: Result<(), Error>)
      requires Inv()
      modifies this`stnConfirmed, link, link.emulator
      ensures Inv() && link.Now() == old(link.Now()) && Progressed() && SelectionKept() && Unanswered() && link.openings == old(link.openings)
      ensures r.Success? ==>
                if Firmware(link.heard, |old(link.heard)|) then link.asked == old(link.asked) + ["STI", "STDI"] && stnConfirmed
                else link.asked == old(link.asked) + ["STI"] && stnConfirmed == old(stnConfirmed)
      ensures r.Success? ==> link.heard != [] && (link.heard[|link.heard| - 1].command == "STI" || link.heard[|link.heard| - 1].command == "STDI")
      ensures r.Failure? ==> r.error.LinkFailed? && Cut()
      ensures Calm() ==> link.isOpen
    {
      hide Agrees, ReadableBanner, Walked, Setting, Harmless, Sendable, OwnLine, Foreign, StandingOf, Moved,
           Unheard, FaultCount, OpenFailures, Answers, Probes, Understood, Selections, Dropped;
      IdentifyCommands();
      var sti := SendSetting("STI");
      NothingSelected(old(link.asked), "STI");
      if sti.Failure? { return Failure(sti.error); }
      if Succeeded(sti) && sti.value.lines != [] {
        stnConfirmed := true;
        ghost var heard, asked := link.heard, link.asked;
        var stdi := SendSetting("STDI");
        NothingSelected(asked, "STDI");
        assert link.heard[|heard| - 1] == heard[|heard| - 1];
      }
      r := Success(());
    }

    /** Open, reset, identify, negotiate: whether the vehicle answered. */
    method BringUp() returns (r: Result<bool, Error>, ghost outset: Outset)
      requires Inv()
      modifies this, link, link.emulator
      ensures Inv() && (old(link.Faithful()) ==> link.Faithful()) && (r.Success? ==> Coherent() && Printing())
      ensures old(link.asked) == outset.asked && old(link.heard) == outset.heard && outset.faults <= old(link.FaultsLeft())
      ensures old(link.isOpen) || old(link.openings) < link.openings
      ensures r.Success? ==> BroughtUp(config, outset, Seen(), r.value) && Known(link.heard, |outset.heard|)
      ensures r.Success? ==> outset.asked + ["ATZ", "ATE0"] + Configuring(config) + ["ATI"] <= link.asked
      ensures r == Success(true) ==> provenWindowMs.Some?
      ensures r.Failure? ==> Unbrought(r.error, link.heard, |outset.heard|) || Cut() || (!link.isOpen && !old(link.isOpen))
    {
      hide Agrees, ReadableBanner, Walked, OwnLine, Foreign, StandingOf, FaultCount, OpenFailures, Answers, Probes,
           Trusted, Probed, Learned, Selections, SweepOrder, BroughtUp, Refused, AckedAt, Configuring, Identified,
           WindowOk, Balked, Hindered, Known;
      var reached := OpenTransport();
      outset := Begun();
      if !reached {
        return Failure(LinkFailed(TransportOpenFailed)), outset;
      }
      SetState(Initializing);
      var initialized := Initialize();
      if initialized.Failure? {
        return Failure(initialized.error), outset;
      }
      NothingCached(link.emulator.personality, link.Now());
      SettledProbes(outset.asked, config);
      SetState(Identifying);
      r := IdentifyAndNegotiate(outset);
    }

    /** The device has been configured: what is it, and does the vehicle answer? */
    method IdentifyAndNegotiate(ghost outset: Outset) returns (r: Result<bool, Error>)
      requires Inv() && Coherent() && Printing() && outset.heard <= link.heard && link.FaultsLeft() == outset.faults && link.isOpen
      requires link.asked == outset.asked + ["ATZ", "ATE0"] + Configuring(config) && Answers(link.heard) == Answers(outset.heard)
      modifies this, link, link.emulator
      ensures Inv() && Coherent() && Progressed() && (r.Success? ==> Printing())
      ensures r.Success? ==> BroughtUp(config, outset, Seen(), r.value) && Known(link.heard, |outset.heard|)
      ensures r.Success? ==> outset.asked + ["ATZ", "ATE0"] + Configuring(config) + ["ATI"] <= link.asked
      ensures r == Success(true) ==> provenWindowMs.Some?
      ensures r.Failure? ==> Unbrought(r.error, link.heard, |outset.heard|) || Cut()
    {
      hide Agrees, ReadableBanner, Walked, OwnLine, Foreign, StandingOf, FaultCount, OpenFailures, Answers, Probes,
           Trusted, Probed, Learned, Selections, SweepOrder, BroughtUp, Refused, AckedAt, Configuring, WindowOk,
           Balked, Hindered, Known, Recognised, Strange, Transport.Ready;
      ghost var configured := link.heard;
      var identified := Identify();
      if identified.Failure? {
        assert Unbrought(identified.error, link.heard, |outset.heard|) || Cut();
        return Failure(identified.error);
      }
      ghost var between := Begun();
      r := NegotiateProtocol();
      if r.Success? {
        Brought(config, outset, between, Seen(), r.value);
        KnownThere(between.heard, link.heard, |outset.heard|, |configured|);
      } else {
        HinderedStill(r.error, link.heard, |between.heard|, |outset.heard|);
      }
    }

    /** Usable if and only if it worked: ready if the vehicle answered, degraded if it was silent. */
    method Connect() returns (r: Result<(), Error>, ghost outset: Outset)
      requires Session()
      modifies this, link, link.emulator
      ensures Session() && (old(link.Faithful()) ==> link.Faithful())
      ensures r.Success? <==> state.IsUsable()
      ensures r.Success? ==> (state == Ready || state == Degraded) && (state == Ready ==> provenWindowMs.Some?)
      ensures old(link.asked) == outset.asked && old(link.heard) == outset.heard && outset.faults <= old(link.FaultsLeft())
      ensures r.Success? ==> BroughtUp(config, outset, Seen(), state == Ready) && Known(link.heard, |outset.heard|)
      ensures r.Success? ==> outset.asked + ["ATZ", "ATE0"] + Configuring(config) + ["ATI"] <= link.asked
      ensures old(link.isOpen) || old(link.openings) < link.openings
      ensures r.Failure? ==> state == Failed
      ensures r.Failure? ==> Unbrought(r.error, link.heard, |outset.heard|) || Cut() || (!link.isOpen && !old(link.isOpen))
    {
      hide Agrees, ReadableBanner, Walked, OwnLine, Foreign, StandingOf, FaultCount, OpenFailures, Answers, Probes,
           Trusted, BroughtUp, Configuring, Known, Unbrought;
      SetState(Connecting);
      supportsLongMessages := false;
      var answering;
      answering, outset := BringUp();
      if answering.Failure? {
        SetState(Failed);
        return Failure(answering.error), outset;
      }
      SetState(if answering.value then Ready else Degraded);
      r := Success(());
    }

    /** Close the protocol, reset the device for whoever opens it next, close the link. */
    method Disconnect()
      requires Session()
      modifies this, link, link.emulator
      ensures Session() && (old(link.Faithful()) ==> link.Faithful())
      ensures state == Disconnected && currentHeader == None && protocol == Unknown && !link.isOpen
      ensures link.asked == old(link.asked) + if old(link.isOpen) then ["ATPC", "ATZ"] else []
    {
      hide Agrees, ReadableBanner, Walked, Setting, Harmless, Sendable, Moved, Normalize, OwnLine, Foreign,
           StandingOf, Unheard, FaultCount, OpenFailures, Answers, Probes, Understood, Trusted, Spoken, Toggling,
           SamePrinting, Resendable, Dropped;
      if link.isOpen {
        ClosingLiteral();
        SettingIsHarmless("ATPC");
        var closed := SendSetting("ATPC");
        ResetSendable("ATZ");
        var reset := SendRaw("ATZ");
      }
      link.Close();
      currentHeader := None;
      protocol := Unknown;
      SetState(Disconnected);
    }

    /** The device's own measurement, if it took the question and its reply can be read. */
    method ReadBatteryVoltage() returns (r: Result<real, Error>)
      requires Session()
      modifies this, link, link.emulator
      ensures Session() && (old(link.Faithful()) ==> link.Faithful())
      ensures !old(state).IsUsable() ==> r == Failure(NoActiveSession) && unchanged(this) && unchanged(link)
      ensures r.Success? ==> voltage == Some(r.value) && batteryVoltage == voltage && AckedAt(link.heard, |old(link.heard)|, "ATRV")
      ensures old(state).IsUsable() ==> link.asked == old(link.asked) + ["ATRV"]
      ensures old(state).IsUsable() && r.Failure? ==>
                || (r.error.LinkFailed? && Cut())
                || (r.error == RejectedCommand && !(voltage.Some? && AckedAt(link.heard, |old(link.heard)|, "ATRV")))
    {
      hide ReadableBanner, Walked, Setting, Harmless, Sendable, OwnLine, Foreign, StandingOf, Moved, Unheard,
           FaultCount, OpenFailures, Answers, Probes, Understood, Trusted, Agrees, Dropped;
      if !state.IsUsable() {
        return Failure(NoActiveSession);
      }
      VoltageLiteral();
      SettingIsHarmless("ATRV");
      var rv := SendSetting("ATRV");
      if rv.Failure? { return Failure(rv.error); }
      if !Succeeded(rv) || voltage.None? {
        return Failure(RejectedCommand);
      }
      batteryVoltage := voltage;
      r := Success(voltage.value);
    }

    /** How a request goes on the wire; one too long for a frame only if a way to send it was measured. */
    function RequestLine(pdu: seq<Byte>): Result<string, Error>
      reads this
    {
      if |pdu| <= ELM_MAX_REQUEST_BYTES then Success(Bytes(pdu))
      else if !longViaStpx && !supportsLongMessages then Failure(RejectedCommand)
      else Success(if longViaStpx then STPX + Bytes(pdu) else Bytes(pdu))
    }

    /** Ask a target, however long the request. The header is put in place first, or known to be. What is
        returned was read in answer to the request; the request is written at most twice without a link
        fault and at most three times with one, beside the adapter's own lines. Without a link fault one of
        more than seven bytes goes out, in the form measured, only if a form was. */
    method RequestPdu(pdu: seq<Byte>, target: RequestTarget, timeoutMs: nat) returns (r: Result<AdapterResponse, Error>)
      requires Session() && (target.Physical? ==> StandardPriority(target.header))
      modifies this, link, link.emulator
      ensures Session() && (old(link.Faithful()) ==> link.Faithful())
      ensures !old(state).IsUsable() ==> r == Failure(NoActiveSession) && unchanged(this) && unchanged(link)
      ensures r.Success? ==>
                || Says(link.heard, |old(link.heard)|, Bytes(pdu), r.value)
                || (|pdu| > 7 && Says(link.heard, |old(link.heard)|, STPX + Bytes(pdu), r.value))
      ensures r.Success? && |pdu| > 7 && Calm() ==>
                if old(longViaStpx) then Says(link.heard, |old(link.heard)|, STPX + Bytes(pdu), r.value)
                else old(supportsLongMessages) && Says(link.heard, |old(link.heard)|, Bytes(pdu), r.value)
      ensures |pdu| > 7 && !old(longViaStpx) && !old(supportsLongMessages) && Calm() ==>
                r.Failure? && Foreign(link.asked) == old(Foreign(link.asked))
      ensures Foreign(link.asked) <= old(Foreign(link.asked)) + if Calm() then 2 else 3
      ensures old(state).IsUsable() && r.Failure? ==>
                || (r.error.LinkFailed? && Cut()) || Hindered(r.error, link.heard, |old(link.heard)|)
                || (r.error == RejectedCommand && |pdu| > 7 && !longViaStpx && !supportsLongMessages)
    {
      hide Agrees, ReadableBanner, Walked, Harmless, Sendable, StandardPriority, Normalize, Bytes, OwnLine, Foreign,
           StandingOf, Says, Unheard, Selections, Since, Astray, FaultCount, OpenFailures, Answers, Probes, Trusted,
           Refused, Spoken, Understood, Resendable;
      if !state.IsUsable() {
        return Failure(NoActiveSession);
      }
      var pointed := SetHeader(target);
      if pointed.Failure? { return Failure(pointed.error); }
      var line := RequestLine(pdu);
      if line.Failure? { return Failure(line.error); }
      RequestHarmless(pdu);
      ghost var n := |link.heard|;
      r := Ask(line.value, timeoutMs);
      if r.Success? {
        SaysStill(link.heard, link.heard, n, |old(link.heard)|, line.value, r.value);
      }
    }

    /** The same for a short request. One whose header is in place, put to a device that answers, gets what
        the device says, if that needs no remedy. */
    method Request(pdu: seq<Byte>, target: RequestTarget) returns (r: Result<AdapterResponse, Error>)
      requires Session() && (target.Physical? ==> StandardPriority(target.header))
      modifies this, link, link.emulator
      ensures Session() && (old(link.Faithful()) ==> link.Faithful())
      ensures !old(state).IsUsable() ==> r == Failure(NoActiveSession) && unchanged(this) && unchanged(link)
      ensures r.Success? ==> Says(link.heard, |old(link.heard)|, Bytes(pdu), r.value)
      ensures Foreign(link.asked) <= old(Foreign(link.asked)) + if Calm() then 2 else 3
      ensures old(state).IsUsable() && r.Failure? ==>
                (r.error.LinkFailed? && Cut()) || Hindered(r.error, link.heard, |old(link.heard)|)
      ensures old(state).IsUsable() && old(link.LateNext()) && target.Physical? && |target.header| != 8 && old(currentHeader) != Some(target.header) ==>
                && r == Failure(RejectedCommand) && unchanged(this)
                && link.moves == old(link.moves) + Unheard(link.emulator.personality, "ATSH" + target.header)
      ensures old(state).IsUsable() && old(link.DeliverNext()) && InPlace(old(currentHeader), old(protocol), target) ==>
                var reply := Understood(Bytes(pdu), old(Reply(Bytes(pdu))));
                && protocol == old(protocol) && spacesEnabled == old(spacesEnabled) && headersEnabled == old(headersEnabled)
                && (reply.classified == Data || NeedsNothing(reply.classified, false) ==> r == Success(reply))
    {
      hide Agrees, ReadableBanner, Walked, Harmless, Sendable, StandardPriority, Normalize, Bytes, OwnLine, Foreign,
           StandingOf, Says, Unheard, Selections, Since, Astray, FaultCount, OpenFailures, Answers, Probes, Trusted,
           Refused, Spoken, Understood, Resendable;
      if !state.IsUsable() {
        return Failure(NoActiveSession);
      }
      var pointed := SetHeader(target);
      if pointed.Failure? { return Failure(pointed.error); }
      RequestHarmless(pdu);
      ghost var n := |link.heard|;
      r := Ask(Bytes(pdu), config.requestTimeoutMs);
      if r.Success? {
        SaysStill(link.heard, link.heard, n, |old(link.heard)|, Bytes(pdu), r.value);
      }
    }

    /** Nothing has to be sent to point the adapter there. */
    predicate InPlace(cached: Option<string>, known: ObdProtocol, target: RequestTarget) {
      Resolved(known, target).None? || cached == Resolved(known, target)
    }

    /** A vehicle's command sent, and what follows from it. */
    method Ask(line: string, timeoutMs: nat) returns (r: Result<AdapterResponse, Error>)
      requires Inv() && Coherent() && Printing() && Harmless(line) && Resendable(line)
      modifies this, link, link.emulator
      ensures Inv() && Coherent() && Progressed() && (Printing() || (r.Failure? && state == Failed))
      ensures r.Success? ==> Says(link.heard, |old(link.heard)|, line, r.value)
      ensures r.Failure? ==> r.error.LinkFailed? && Cut()
      ensures Foreign(link.asked) <= old(Foreign(link.asked)) + if Calm() then 2 else 3
      ensures old(link.DeliverNext()) ==>
                var reply := Understood(line, old(Reply(line)));
                && protocol == old(protocol) && spacesEnabled == old(spacesEnabled) && headersEnabled == old(headersEnabled)
                && (reply.classified == Data || NeedsNothing(reply.classified, IsAtCommand(line)) ==> r == Success(reply))
    {
      hide Agrees, ReadableBanner, Walked, Harmless, Resendable, Normalize, OwnLine, Foreign, StandingOf, Says,
           Unheard, Written, Tried, Restoring, WindowLine, Since, FaultCount, OpenFailures, Answers, Probes,
           Trusted, Reacted, Probed, Reconfigured, Spoken, Understood, IsAtCommand;
      ghost var sent, turn;
      r, sent, turn := SendWithRecovery(line, timeoutMs);
      ForeignWritten(old(link.asked), line, sent, responseWindowMs, spacesEnabled, headersEnabled);
      VehicleLands(link.emulator.personality, link.Now(), currentHeader, line, Succeeded(r));
      if old(link.DeliverNext()) {
        Untroubled(Understood(line, link.heard[turn.value.next - 1].text), line, timeoutMs, turn.value, sent.rest, r, link.heard,
                   responseWindowMs, provenWindowMs, Restoring(spacesEnabled, headersEnabled, responseWindowMs));
      }
    }

    /** Only a protocol the device can be told to try first is remembered. */
    method PreferProtocol(candidate: Option<ObdProtocol>)
      requires Session()
      modifies this`preferredProtocol
      ensures Session()
      ensures preferredProtocol == if candidate.Some? && candidate.value.ElmId().Some? then candidate else None
    {
      preferredProtocol := if candidate.Some? && candidate.value.ElmId().Some? then candidate else None;
    }
  }

  /** What was announced from a point on, the state at that point included. */
  ghost function Latest(before: seq<ConnectionState>, after: seq<ConnectionState>): seq<ConnectionState> {
    if before == [] || |after| < |before| then after else after[|before| - 1..]
  }

  lemma LatestGrows(before: seq<ConnectionState>, between: seq<ConnectionState>, after: seq<ConnectionState>)
    requires before <= between <= after
    ensures Latest(before, between) <= Latest(before, after)
    ensures between != [] ==> Latest(before, between) != [] && Latest(before, between)[|Latest(before, between)| - 1] == between[|between| - 1]
  {
  }

  /** Attempts one to `tries` were announced, each after the one before it. */
  ghost predicate Attempts(said: seq<ConnectionState>, tries: nat)
    decreases tries
  {
    tries == 0 || exists p :: 0 <= p < |said| && said[p] == Reconnecting(tries) && Attempts(said[..p], tries - 1)
  }

  lemma NoAttempts(said: seq<ConnectionState>)
    ensures Attempts(said, 0)
  {
  }

  lemma AttemptsGrow(said: seq<ConnectionState>, more: seq<ConnectionState>, tries: nat)
    requires said <= more && Attempts(said, tries)
    ensures Attempts(more, tries)
  {
    if tries > 0 {
      var p :| 0 <= p < |said| && said[p] == Reconnecting(tries) && Attempts(said[..p], tries - 1);
      assert more[..p] == said[..p] && more[p] == said[p];
    }
  }

  lemma AttemptsStay(before: seq<ConnectionState>, between: seq<ConnectionState>, after: seq<ConnectionState>, tries: nat)
    requires before <= between <= after && Attempts(Latest(before, between), tries)
    ensures Attempts(Latest(before, after), tries)
  {
    hide Attempts, Latest;
    LatestGrows(before, between, after);
    AttemptsGrow(Latest(before, between), Latest(before, after), tries);
  }

  /** The next attempt is the last thing said, and nothing said before was it. */
  lemma AttemptsLast(said: seq<ConnectionState>, tries: nat)
    requires said != [] && said[|said| - 1] == Reconnecting(tries + 1) && Attempts(said, tries)
    ensures Attempts(said, tries + 1)
  {
    var n := |said| - 1;
    if tries > 0 {
      var p :| 0 <= p < |said| && said[p] == Reconnecting(tries) && Attempts(said[..p], tries - 1);
      assert p < n;
      assert said[..n][..p] == said[..p] && said[..n][p] == said[p];
    }
    assert Attempts(said[..n], tries);
  }

  lemma AttemptsNext(before: seq<ConnectionState>, between: seq<ConnectionState>, said: seq<ConnectionState>, after: seq<ConnectionState>, tries: nat)
    requires before <= between <= said <= after && Attempts(Latest(before, between), tries)
    requires said != [] && said[|said| - 1] == Reconnecting(tries + 1)
    ensures Attempts(Latest(before, after), tries + 1)
  {
    hide Attempts, Latest;
    AttemptsStay(before, between, said, tries);
    LatestGrows(before, said, said);
    AttemptsLast(Latest(before, said), tries);
    AttemptsStay(before, said, after, tries + 1);
  }

  /** Of one command's lines at most two are not the adapter's own, or three when the link was rebuilt. */
  lemma ForeignWritten(before: seq<string>, command: string, t: Traffic, windowMs: nat, spaces: bool, headers: bool)
    requires Tried(t, command, WindowLine(windowMs), Restoring(spaces, headers, windowMs))
    ensures Foreign(Written(before, command, t)) <= Foreign(before) + if t.rebuilt then 3 else 2
  {
    hide Foreign, Followed, Restoring, WindowLine, OwnLine;
    ForeignAppend(before, [command]);
    ForeignAppend(before + [command], t.rebuilding);
    ForeignAppend(before + [command] + t.rebuilding, t.rest);
    ForeignOne(command);
    assert Foreign([]) == 0 by { NoneForeign([]); }
    if t.rebuilt && t.rest != [] {
      ForeignFollowed(t.rest[1..], command, windowMs, spaces, headers);
      ForeignAppend([command], t.rest[1..]);
      assert t.rest == [command] + t.rest[1..];
    } else if !t.rebuilt {
      ForeignFollowed(t.rest, command, windowMs, spaces, headers);
    }
  }

  lemma {:induction false} NoneForeign(lines: seq<string>)
    requires forall i :: 0 <= i < |lines| ==> OwnLine(lines[i])
    ensures Foreign(lines) == 0
  {
    hide OwnLine;
    if lines != [] {
      NoneForeign(lines[..|lines| - 1]);
    }
  }

  lemma ForeignFollowed(since: seq<string>, command: string, windowMs: nat, spaces: bool, headers: bool)
    requires Followed(since, command, WindowLine(windowMs), Restoring(spaces, headers, windowMs))
    ensures Foreign(since) <= 1
  {
    hide Foreign;
    WindowIsOwn(windowMs);
    SwitchLiterals();
    if |since| >= 1 && since[|since| - 1] == command {
      var rest := since[..|since| - 1];
      assert since == rest + [command];
      ForeignAppend(rest, [command]);
      ForeignOne(command);
      NoneForeign(rest);
    } else {
      NoneForeign(since);
    }
  }

  lemma IdentifyCommands()
    ensures Harmless("ATI") && Sendable("ATI") && Harmless("AT@1") && Sendable("AT@1") && Harmless("ATRV") && Sendable("ATRV")
    ensures Harmless("STI") && Sendable("STI") && Harmless("STDI") && Sendable("STDI")
  {
    hide Harmless, Sendable;
    SettingLiterals();
    StnLiterals();
    SettingIsHarmless("ATI");
    SettingIsHarmless("AT@1");
    SettingIsHarmless("ATRV");
    SettingIsHarmless("STI");
    SettingIsHarmless("STDI");
  }

  lemma StnLiterals()
    ensures Setting("STI") && Setting("STDI")
  {
  }

  lemma RequestHarmless(pdu: seq<Byte>)
    ensures Harmless(Bytes(pdu)) && Resendable(Bytes(pdu)) && !IsAtCommand(Bytes(pdu))
    ensures Harmless(STPX + Bytes(pdu)) && Resendable(STPX + Bytes(pdu)) && !IsAtCommand(STPX + Bytes(pdu))
  {
    hide Normalize, Sendable, Setting;
    BytesPrinted(pdu);
    HexSetting(Bytes(pdu));
    SettingIsHarmless(Bytes(pdu));
    StpxHarmless(Bytes(pdu));
    PrintedIsVehicle(Bytes(pdu));
    StpxIsVehicle(Bytes(pdu));
  }

  lemma StpxIsVehicle(hex: string)
    ensures !IsAtCommand(STPX + hex)
  {
    var c := STPX + hex;
    assert c[0] == 'S' && TrimStart(c) == c;
    assert c[..4] == "STPX";
    UpperSame("STPX");
  }

  lemma PrintedIsVehicle(hex: string)
    requires Printed(hex)
    ensures !IsAtCommand(hex)
  {
    hide UpperAll, Trim;
    PrintedIsPlain(hex);
    if hex != [] {
      assert !IsWhitespace(hex[0]);
    }
    assert TrimStart(hex) == hex;
    if |hex| >= 2 {
      assert IsHexDigit(hex[0]) && IsHexDigit(hex[1]) && hex[1] in hex;
      UpperSame(hex[..2]);
    }
  }

  /** After vehicle traffic the cache is as right as before. */
  lemma VehicleLands(p: Personality, s: Standing, cached: Option<string>, command: string, success: bool)
    requires Landed(p, s, cached, command, success) && Harmless(command)
    ensures Agrees(p, s, cached)
  {
    hide Normalize, Agrees;
  }

  const SWEEP_ORDER: seq<nat> := [6, 7, 8, 9, 3, 5, 1, 2, 4]

  function Without(order: seq<nat>, id: nat): seq<nat> {
    if order == [] then [] else (if order[0] == id then [] else [order[0]]) + Without(order[1..], id)
  }

  function SweepOrder(preferred: Option<ObdProtocol>): seq<nat> {
    if preferred.None? || preferred.value.ElmId().None? then SWEEP_ORDER
    else [preferred.value.ElmId().value] + Without(SWEEP_ORDER, preferred.value.ElmId().value)
  }

  lemma {:induction false} WithoutOne(order: seq<nat>, k: nat)
    requires k < |order| && forall i :: 0 <= i < |order| && i != k ==> order[i] != order[k]
    ensures Without(order, order[k]) == order[..k] + order[k + 1..]
  {
    if k == 0 {
      WithoutNone(order[1..], order[0]);
    } else {
      WithoutOne(order[1..], k - 1);
      assert order[..k] == [order[0]] + order[1..][..k - 1] && order[1..][k..] == order[k + 1..];
    }
  }

  lemma {:induction false} WithoutNone(order: seq<nat>, id: nat)
    requires id !in order
    ensures Without(order, id) == order
  {
    if order != [] {
      WithoutNone(order[1..], id);
    }
  }

  /** Every protocol is tried once: the remembered one first, the others in the standing order. */
  lemma SweepExactly(preferred: Option<ObdProtocol>)
    ensures |SWEEP_ORDER| == 9 && forall id :: 1 <= id <= 9 ==> id in SWEEP_ORDER
    ensures if preferred.Some? && preferred.value != Unknown then exists k: nat :: k < 9 && BroughtForward(SweepOrder(preferred), preferred.value, k)
            else SweepOrder(preferred) == SWEEP_ORDER
  {
    hide Without, BroughtForward, FromElmId;
    if preferred.Some? && preferred.value != Unknown {
      var k := SweepPlace(preferred.value.ElmId().value);
      Forward(preferred.value, k);
    }
  }

  /** The standing order with the one at `k`, this protocol, at its head. */
  predicate BroughtForward(order: seq<nat>, protocol: ObdProtocol, k: nat)
    requires k < 9
  {
    FromElmId(SWEEP_ORDER[k]) == protocol && order == [SWEEP_ORDER[k]] + (SWEEP_ORDER[..k] + SWEEP_ORDER[k + 1..])
  }

  lemma Forward(protocol: ObdProtocol, k: nat)
    requires protocol != Unknown && k < 9 && SWEEP_ORDER[k] == protocol.ElmId().value
    requires forall i :: 0 <= i < 9 && i != k ==> SWEEP_ORDER[i] != SWEEP_ORDER[k]
    ensures BroughtForward(SweepOrder(Some(protocol)), protocol, k)
  {
    hide Without;
    WithoutOne(SWEEP_ORDER, k);
  }

  lemma SweepPlace(id: nat) returns (k: nat)
    requires 1 <= id <= 9
    ensures k < 9 && SWEEP_ORDER[k] == id && forall i :: 0 <= i < 9 && i != k ==> SWEEP_ORDER[i] != id
  {
    k := [6, 7, 4, 8, 5, 0, 1, 2, 3][id - 1];
  }

  function Selecting(order: seq<nat>): seq<string> {
    seq(|order|, i requires 0 <= i < |order| => "ATSP" + Print(order[i], 0))
  }

  lemma SelectingNext(before: seq<string>, order: seq<nat>, i: nat)
    requires i < |order|
    ensures before + Selecting(order[..i]) + Selecting([order[i]]) == before + Selecting(order[..i + 1])
  {
    hide Print;
  }

  lemma SelectCommand(id: nat)
    ensures Setting("ATSP" + Print(id, 0)) && OwnLine("ATSP" + Print(id, 0)) && "ATSP" + Print(id, 0) != PROBE
  {
    hide Print;
    PrintPrinted(id, 0);
    DigitsSetting("ATSP", Print(id, 0));
    assert ("ATSP" + Print(id, 0))[0] == 'A' && PROBE[0] == '0';
  }

  lemma LongProbes()
    ensures OwnLine(PROBE) && OwnLine(LONG_PROBE) && OwnLine(STPX + LONG_PROBE)
    ensures Harmless(PROBE) && Sendable(PROBE)
    ensures Harmless(LONG_PROBE) && Sendable(LONG_PROBE)
    ensures Harmless(STPX + LONG_PROBE) && Sendable(STPX + LONG_PROBE)
  {
    hide Harmless, Sendable, Setting;
    HexSetting(PROBE);
    HexSetting(LONG_PROBE);
    SettingIsHarmless(PROBE);
    SettingIsHarmless(LONG_PROBE);
    StpxHarmless(LONG_PROBE);
  }

  lemma StpxHarmless(hex: string)
    requires Printed(hex)
    ensures Harmless(STPX + hex) && Sendable(STPX + hex)
  {
    hide Normalize, FromStrRadix16, IsCommand;
    var rest := " d:" + hex;
    assert STPX + hex == "STPX" + rest;
    PrefixIsNormal("STPX", rest);
    var c := "STPX" + Normalize(rest);
    NotPrefix("ATSH", c, 0);
    NotPrefix("ATCP", c, 0);
    assert c[0] == 'S' && "ATZ"[0] == 'A' && "ATWS"[0] == 'A';
    StpxLine(hex);
  }

  lemma StpxLine(hex: string)
    requires Printed(hex)
    ensures IsCommand(STPX + hex)
  {
    PrintedIsPlain(hex);
    assert forall i :: 0 <= i < |STPX| ==> STPX[i] != '\r' && STPX[i] != '\n' && STPX[i] != '>';
  }

  lemma HeaderParts(h: string)
    requires StandardPriority(h) && |h| == 8
    ensures OwnLine("ATCP" + h[..2]) && OwnLine("ATSH" + h[2..]) && !("ATSP" <= "ATCP" + h[..2]) && !("ATSP" <= "ATSH" + h[2..])
    ensures Sendable("ATCP" + h[..2]) && "ATCP" <= Normalize("ATCP" + h[..2]) && Normalize("ATCP" + h[..2])[4..] == Normalize(h[..2])
    ensures Resendable("ATCP" + h[..2]) && !("ATSH" <= Normalize("ATCP" + h[..2])) && "ATCP" + h[..2] != PROBE
    ensures Resendable("ATSH" + h[2..]) && "ATSH" + h[2..] != PROBE
    ensures Sendable("ATSH" + h[2..]) && "ATSH" <= Normalize("ATSH" + h[2..]) && Normalize("ATSH" + h[2..])[4..] == Normalize(h[2..])
  {
    hide Normalize, Sendable, FromStrRadix16;
    PartsAreLines(h);
    NotPrefix("ATSP", "ATCP" + h[..2], 2);
    NotPrefix("ATSP", "ATSH" + h[2..], 3);
    PrioritySendable(h[..2]);
    HeaderSendable(h[2..]);
    Kinds(Normalize("ATCP" + h[..2]));
    Kinds(Normalize("ATSH" + h[2..]));
    assert ("ATCP" + h[..2])[0] == 'A' && ("ATSH" + h[2..])[0] == 'A' && PROBE[0] == '0';
  }

  lemma PartsAreLines(h: string)
    requires IsCommand(h) && |h| == 8
    ensures IsCommand(h[..2]) && IsCommand(h[2..])
  {
  }

  lemma WholeHeader(h: string)
    requires StandardPriority(h) && |h| != 8
    ensures OwnLine("ATSH" + h) && IsAtCommand("ATSH" + h) && !("ATSP" <= "ATSH" + h)
    ensures Sendable("ATSH" + h) && "ATSH" <= Normalize("ATSH" + h) && Normalize("ATSH" + h)[4..] == Normalize(h)
    ensures Resendable("ATSH" + h) && "ATSH" + h != PROBE
  {
    hide Normalize, Sendable, FromStrRadix16;
    HeaderIsAt(h);
    NotPrefix("ATSP", "ATSH" + h, 3);
    HeaderSendable(h);
    Kinds(Normalize("ATSH" + h));
    assert ("ATSH" + h)[0] == 'A' && PROBE[0] == '0';
  }

  lemma HeaderIsAt(h: string)
    ensures IsAtCommand("ATSH" + h)
  {
    var c := "ATSH" + h;
    assert c[0] == 'A' && TrimStart(c) == c;
    assert c[..4] == "ATSH" && c[..2] == "AT";
    UpperSame("ATSH");
    UpperSame("AT");
  }

  lemma FunctionalStandard(p: ObdProtocol)
    requires p.FunctionalHeader().Some?
    ensures StandardPriority(p.FunctionalHeader().value)
  {
    hide Unspaced, UpperAll, FromStrRadix16;
    var h := p.FunctionalHeader().value;
    if |h| == 8 {
      assert h == "18DB33F1" && h[..2] == "18";
      PlainIsNormal("18");
      EighteenHex();
    }
  }

  lemma EighteenHex()
    ensures FromStrRadix16("18") == Some(DEFAULT_PRIORITY)
  {
    assert AllHex("18");
    assert "18"[..1] == "1" && "1"[..0] == "";
    assert Number("1") == 1;
  }

  lemma NothingCached(p: Personality, s: Standing)
    ensures Agrees(p, s, None)
  {
  }

  lemma WindowCommand(counts: nat)
    ensures Setting("ATST" + Print(counts, 2))
  {
    hide Print;
    PrintPrinted(counts, 2);
    DigitsSetting("ATST", Print(counts, 2));
  }

  lemma SettingLiterals()
    ensures Setting("ATE0") && Setting("ATL0") && Setting("ATAT1")
    ensures Setting("ATPC") && Setting("ATSP0") && Setting("ATDPN") && Setting("ATRV") && Setting("ATI") && Setting("AT@1")
  {
    SwitchLiterals();
    QueryLiterals();
  }

  lemma SwitchLiterals()
    ensures Setting("ATE0") && Setting("ATL0") && Setting("ATAT1")
    ensures IsSwitch("ATS0") && IsSwitch("ATS1") && IsSwitch("ATH1") && !IsSwitch("ATE0") && !IsSwitch("ATL0") && !IsSwitch("ATAT1")
    ensures !Setting("ATS0") && !Setting("ATS1") && !Setting("ATH1")
    ensures OwnLine("ATE0") && OwnLine("ATL0") && OwnLine("ATS0") && OwnLine("ATS1") && OwnLine("ATH1") && OwnLine("ATAT1")
  {
  }

  lemma ClosingLiteral()
    ensures Setting("ATPC") && OwnLine("ATPC")
  {
  }

  lemma NumberLiteral()
    ensures Setting("ATDPN") && OwnLine("ATDPN")
  {
  }

  lemma EchoLiteral()
    ensures Setting("ATE0") && OwnLine("ATE0") && OwnLine("ATZ")
  {
  }

  lemma VoltageLiteral()
    ensures Setting("ATRV")
  {
  }

  lemma AutoLiteral()
    ensures Setting("ATSP0") && OwnLine("ATSP0")
  {
  }

  lemma QueryLiterals()
    ensures Setting("ATPC") && Setting("ATSP0") && Setting("ATDPN") && Setting("ATRV") && Setting("ATI") && Setting("AT@1")
  {
  }

  /** Without a link fault no command but a selection selects a protocol, and none but the probe probes. */
  lemma NoSelection(t: Traffic, command: string, windowMs: nat, spaces: bool, headers: bool, before: seq<string>, after: seq<string>)
    requires Tried(t, command, WindowLine(windowMs), Restoring(spaces, headers, windowMs)) && !("ATSP" <= command)
    requires after == Written(before, command, t) && command != PROBE
    ensures !t.rebuilt ==> Selections(after) == Selections(before) && Probes(after) == Probes(before)
  {
    hide Foreign, Selections, Probes, Followed, Restoring, WindowLine;
    if !t.rebuilt {
      assert after == before + ([command] + t.rest);
      SelectionsAppend(before, [command] + t.rest);
      SelectionsAppend([command], t.rest);
      NoneSelects(t.rest, command, windowMs, spaces, headers);
      NotSelecting([command]);
      ProbesAppend(before, [command] + t.rest);
      ProbesAppend([command], t.rest);
      NotProbing([command]);
    }
  }

  lemma {:induction false} NotSelecting(lines: seq<string>)
    requires forall i :: 0 <= i < |lines| ==> !("ATSP" <= lines[i])
    ensures Selections(lines) == []
  {
    if lines != [] {
      NotSelecting(lines[..|lines| - 1]);
    }
  }

  lemma NoneSelects(since: seq<string>, command: string, windowMs: nat, spaces: bool, headers: bool)
    requires Followed(since, command, WindowLine(windowMs), Restoring(spaces, headers, windowMs)) && !("ATSP" <= command)
    requires command != PROBE
    ensures Selections(since) == [] && Probes(since) == 0
  {
    hide Selections, Probes;
    assert WindowLine(windowMs)[3] == 'T' && "ATSP"[3] == 'P' && "ATSP"[2] == 'S';
    NotSelecting(since);
    assert forall i :: 0 <= i < |since| ==> since[i] == command || since[i][0] == 'A';
    assert PROBE[0] == '0';
    NotProbing(since);
  }

  lemma WarmStays(before: seq<string>, between: seq<string>, after: seq<string>)
    requires before <= between <= after
    ensures "ATWS" in Since(before, between) ==> "ATWS" in Since(before, after)
    ensures "ATWS" in Since(between, after) ==> "ATWS" in Since(before, after)
  {
    hide Since;
    SinceGrows(before, between, after, "ATWS");
    SinceEarlier(before, between, after, "ATWS");
  }

  lemma NotWarm(windowMs: nat, command: string)
    requires Resendable(command)
    ensures "ATWS" !in [WindowLine(windowMs)] && "ATWS" !in [WindowLine(windowMs), command]
    ensures "ATWS" !in [command] && "ATWS" !in ["ATPC"] && "ATWS" !in ["ATPC", command]
  {
    assert WindowLine(windowMs)[2] == 'S' && "ATPC"[2] == 'P';
    ResetSendable("ATWS");
  }

  lemma WindowIsOwn(windowMs: nat)
    ensures OwnLine(WindowLine(windowMs))
  {
  }

  lemma RecoveryCommands(command: string)
    requires command == "ATWS" || command == "ATPC"
    ensures OwnLine(command) && Sendable(command) && !IsReset(command)
    ensures command == "ATWS" ==> Normalize(command) == "ATWS" && !("ATSH" <= Normalize(command))
    ensures command == "ATWS" ==> forall p :: !Unsupported(p, command) ==> Toggling(p, command).Some?
    ensures command == "ATPC" ==> Harmless(command) && Resendable(command) && !("ATSH" <= Normalize(command)) && Normalize(command) != "ATWS"
  {
    hide Sendable;
    if command == "ATWS" {
      ResetSendable(command);
      NotPrefix("ATSH", command, 2);
      assert "ATZ" != "ATWS";
    } else {
      SettingLiterals();
      SettingIsHarmless(command);
    }
  }

  lemma AckedReached(heard: seq<Heard>, n: nat, command: string)
    requires AckedAt(heard, n, command)
    ensures n < |heard|
  {
  }

  lemma ReadAcked(heard: seq<Heard>, n: nat, command: string, reply: AdapterResponse)
    requires ReadAt(heard, n, command, reply)
    ensures AckedAt(heard, n, command) <==> reply.classified.IsSuccess()
  {
  }

  lemma SettingNoSwitch(c: string)
    requires Setting(c)
    ensures !IsSwitch(c)
  {
  }

  lemma SwitchSendable(c: string)
    requires IsSwitch(c)
    ensures Sendable(c) && Normalize(c) == c
    ensures forall p :: Toggling(p, c) == if Unsupported(p, c) then None else Some(c)
  {
    hide UpperAll, Unspaced, FromStrRadix16, Unsupported;
    PlainIsNormal(c);
    Kinds(c);
  }

  /** After a warm start what is trusted is that the settings put back are known. */
  lemma WarmTrusted(p: Personality, told: Shown, warm: Shown, headers: bool, spaces: bool)
    requires Trusted(p, told, warm, headers, spaces)
    ensures Trusted(p, RESTING, Shown(true, true), headers, spaces)
  {
    hide Unsupported;
  }

  lemma FollowedUp(first: AdapterResponse, command: string, timeoutMs: nat, turn: Turn, since: seq<string>,
                   r: Result<AdapterResponse, Error>, heard: seq<Heard>, windowMs: nat, proven: Option<nat>,
                   spaces: bool, headers: bool, before: seq<string>, t: Traffic, was: seq<Heard>, from: nat)
    requires Reacted(first, command, timeoutMs, turn, since, r, heard, windowMs, proven, Restoring(spaces, headers, windowMs))
    requires from < turn.next == |was| && was <= heard && ReadAt(was, |was| - 1, command, first)
    requires if t.rebuilt then Foreign(t.rebuilding) == 0 && t.rest == [command] else t.rebuilding == [] && t.rest == []
    ensures var sent := t.(rest := t.rest + since);
            && Tried(sent, command, WindowLine(windowMs), Restoring(spaces, headers, windowMs))
            && Written(before, command, t) + since == Written(before, command, sent)
            && since == (if t.rebuilt then sent.rest[1..] else sent.rest)
            && ("ATWS" in since && !t.rebuilt ==> "ATWS" in Since(before, Written(before, command, sent)))
    ensures heard[turn.next - 1] == was[turn.next - 1] && ReadAt(heard, turn.next - 1, command, first)
    ensures r.Success? ==> Says(heard, from, command, r.value)
  {
    hide Reacted, Restoring, WindowLine, Foreign, Written, Tried, Since, Says, ReadAt, Followed;
    var sent, restoring := t.(rest := t.rest + since), Restoring(spaces, headers, windowMs);
    ReactedFollows(first, command, timeoutMs, turn, since, r, heard, windowMs, proven, restoring);
    TriedWith(t, since, command, WindowLine(windowMs), restoring);
    WrittenWith(before, command, t, since);
    if "ATWS" in since && !t.rebuilt {
      assert sent.rest == since;
      WarmIsSince(before, command, sent);
    }
    ReadStill(was, heard, |was| - 1, command, first);
    if r.Success? {
      ReactedSays(first, command, timeoutMs, turn, since, r, heard, windowMs, proven, restoring);
      SaysStill(heard, heard, turn.next - 1, from, command, r.value);
    }
  }

  /** Data and replies that need no remedy are returned as they are. */
  lemma Untroubled(first: AdapterResponse, command: string, timeoutMs: nat, turn: Turn, since: seq<string>,
                   r: Result<AdapterResponse, Error>, heard: seq<Heard>, windowMs: nat, proven: Option<nat>, restoring: seq<string>)
    requires Reacted(first, command, timeoutMs, turn, since, r, heard, windowMs, proven, restoring)
    ensures first.classified == Data || NeedsNothing(first.classified, IsAtCommand(command)) ==> r == Success(first)
  {
    hide AckedAt, Taught, Resent, IsAtCommand, WindowLine;
  }

  lemma UpAgain(config: Config, from: Outset, to: Findings, answering: bool, before: seq<string>, heard: seq<Heard>)
    requires BroughtUp(config, from, to, answering) && before <= from.asked && heard <= from.heard
    ensures Reconfigured(Since(before, to.asked), config) && Probed(to.heard, |heard|, answering)
  {
    hide Configuring, Probed, Learned, Answers, Swept;
    var lines, i := Since(before, to.asked), |from.asked| - |before|;
    var settled := ["ATZ", "ATE0"] + Configuring(config);
    assert from.asked + ["ATZ", "ATE0"] + Configuring(config) == from.asked + settled;
    assert to.asked[|from.asked|..|from.asked| + |settled|] == settled;
    assert lines[i..] == to.asked[|from.asked|..];
    ProbedStill(to.heard, to.heard, |from.heard|, |heard|, answering);
  }

  lemma ResetMoved(p: Personality, before: Standing, after: Standing)
    requires Moved(p, "ATZ", before, after, true)
    ensures after.shownTold == RESTING && after.warm == Shown(false, false)
  {
    hide ShortValue, PriorityAccepted, Unsupported;
    ResetSendable("ATZ");
    assert "ATZ" != "ATWS";
  }

  lemma WindowNoProbe(before: seq<string>, windowMs: nat)
    ensures Probes(before + [WindowLine(windowMs)]) == Probes(before)
  {
    hide Probes;
    ProbesNext(before, WindowLine(windowMs));
    assert WindowLine(windowMs)[0] == 'A' && PROBE[0] == '0';
  }

  /** Questions about the device select nothing and are no probes. */
  lemma NothingSelected(before: seq<string>, c: string)
    requires |c| >= 3 && c[0] in ['A', 'S'] && (c[2] != 'S' || c[0] != 'A')
    ensures Selections(before + [c]) == Selections(before) && Probes(before + [c]) == Probes(before)
  {
    hide Selections, Probes;
    SelectionsNext(before, c);
    ProbesNext(before, c);
    assert PROBE[0] == '0' && "ATSP"[0] == 'A' && "ATSP"[2] == 'S';
  }

  lemma SettledProbes(before: seq<string>, config: Config)
    ensures Probes(before + ["ATZ", "ATE0"] + Configuring(config)) == Probes(before)
  {
    hide Probes, Print;
    var settled := ["ATZ", "ATE0"] + Configuring(config);
    assert before + ["ATZ", "ATE0"] + Configuring(config) == before + settled;
    ProbesAppend(before, settled);
    assert forall i :: 0 <= i < |settled| ==> settled[i][0] == 'A';
    assert PROBE[0] == '0';
    NotProbing(settled);
  }

  /** Negotiation after the settings, and perhaps more questions that select and probe nothing. */
  lemma Brought(config: Config, from: Outset, between: Outset, to: Findings, answering: bool)
    requires from.asked + ["ATZ", "ATE0"] + Configuring(config) <= between.asked <= to.asked
    requires Selections(between.asked) == Selections(from.asked + ["ATZ", "ATE0"] + Configuring(config))
    requires from.heard <= between.heard <= to.heard && to.faults <= between.faults <= from.faults
    requires Answers(between.heard) == Answers(from.heard) && Probed(to.heard, |between.heard|, answering)
    requires to.faults == from.faults ==>
               if answering then Learned(to.heard, |between.heard|, to.protocol)
               else
                 && Answers(to.heard) == Answers(between.heard)
                 && (to.unpowered || Selections(between.asked) + Selecting(SweepOrder(to.preferred)) + ["ATSP0"] <= Selections(to.asked))
    ensures BroughtUp(config, from, to, answering)
  {
    hide Configuring, Probed, Learned, Answers, Selections, SweepOrder;
    ProbedStill(to.heard, to.heard, |between.heard|, |from.heard|, answering);
    LearnedStill(to.heard, to.heard, |between.heard|, |from.heard|, to.protocol);
  }

  lemma AnswerProbes(command: string)
    ensures command != PROBE ==> forall text :: !IsAnswer(Heard(command, text))
  {
    hide Understood;
  }

  lemma UnderstoodIs(command: string, text: string)
    ensures Understood(command, text) == ParseReply(command, text, '>' in text)
  {
    hide ParseReply;
  }

  lemma Afterwards(p: Personality, command: string, before: Standing, after: Standing, success: bool, cached: Option<string>)
    requires Moved(p, command, before, after, success)
    ensures Resendable(command) ==> SamePrinting(before, after)
    ensures Agrees(p, before, cached) && !IsReset(command) && (success ==> !("ATSH" <= Normalize(command)) && Normalize(command) != "ATWS") ==>
              Agrees(p, after, cached)
    ensures Agrees(p, before, cached) && !IsReset(command) && Normalize(command) != "ATWS" ==> Landed(p, after, cached, command, success)
  {
    hide Moved, Agrees, Landed, Normalize, Resendable, IsReset, SamePrinting;
    if Resendable(command) {
      MovedPrints(p, command, before, after, success);
    }
    if Agrees(p, before, cached) && !IsReset(command) && (success ==> !("ATSH" <= Normalize(command)) && Normalize(command) != "ATWS") {
      KeepsAgreement(p, command, before, after, success, cached);
    }
    if Agrees(p, before, cached) && !IsReset(command) && Normalize(command) != "ATWS" {
      MovedLands(p, command, before, after, success, cached);
    }
  }

  lemma ReadStill(before: seq<Heard>, after: seq<Heard>, n: nat, command: string, reply: AdapterResponse)
    requires before <= after && ReadAt(before, n, command, reply)
    ensures n < |before| && after[n] == before[n] && ReadAt(after, n, command, reply)
  {
    hide Understood;
  }

  lemma ReadText(heard: seq<Heard>, n: nat, command: string, reply: AdapterResponse)
    requires ReadAt(heard, n, command, reply)
    ensures n < |heard| && heard[n].command == command && reply == Understood(command, heard[n].text)
  {
    hide Understood;
  }

  /** From the resting settings, both switches asked for, each taken or not. */
  lemma PrintingSet(p: Personality, spaces: bool, first: Standing, second: Standing, third: Standing, spaced: bool, headed: bool)
    requires first.shownTold == RESTING && first.warm == Shown(false, false)
    requires Flipped(p, if spaces then "ATS1" else "ATS0", first, second, spaced) && Flipped(p, "ATH1", second, third, headed)
    ensures third.shownTold == Shown(headed, !spaced || spaces)
    ensures Trusted(p, third.shownTold, third.warm, headed, !spaced || spaces)
  {
    hide Unsupported;
    assert "ATS1" != "ATH1" && "ATS0" != "ATH1" && "ATS0" != "ATS1" && "ATS1" != "ATH0" && "ATS0" != "ATH0" && "ATH1" != "ATH0";
    assert "ATS1" != "ATWS" && "ATS0" != "ATWS" && "ATH1" != "ATWS" && |"ATZ"| == 3;
  }

  lemma SinceThen(before: seq<string>, between: seq<string>, c: string, after: seq<string>)
    requires before <= between && between + [c] <= after
    ensures c in Since(before, after)
  {
    assert after[|before|..][|between| - |before|] == c;
  }

  lemma SinceGrows(before: seq<string>, between: seq<string>, after: seq<string>, c: string)
    requires before <= between <= after
    ensures c in Since(before, between) ==> c in Since(before, after)
  {
    assert Since(before, after) == Since(before, between) + Since(between, after);
  }

  lemma SinceEarlier(before: seq<string>, between: seq<string>, after: seq<string>, c: string)
    requires before <= between <= after
    ensures c in Since(between, after) ==> c in Since(before, after)
  {
    assert Since(before, after) == Since(before, between) + Since(between, after);
  }
}
