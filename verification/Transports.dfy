/** The link between the adapter object and the emulated device: a script says which exchanges fail. */
module Transports {
  import opened Wrappers
  import opened Text
  import opened Hex
  import opened EcuReplies
  import opened Response
  import opened Conversation
  import opened Elm
  import opened Headers

  datatype LinkError = TransportDisconnected | TransportIo | TransportOpenFailed | Internal

  /** Errors after which only opening the link again can help. */
  predicate IsLinkFault(e: LinkError) {
    !e.Internal?
  }

  /** How one exchange goes: answered; failed, before or after the device carried the command out;
      or carried out and answered after the deadline. A link fault may leave the port closed. */
  datatype Outcome =
    | Deliver(answers: seq<EcuReply>)
    | Fails(error: LinkError, executed: bool, closes: bool)
    | Late

  predicate IsFault(o: Outcome) {
    o.Fails? && IsLinkFault(o.error)
  }

  /** An exchange that fails before the device hears of it, with the port left open. */
  const DROP := Fails(Internal, false, false)

  function FaultCount(script: seq<Outcome>): nat {
    if script == [] then 0 else (if IsFault(script[0]) then 1 else 0) + FaultCount(script[1..])
  }

  function OpenFailures(opens: seq<bool>): nat {
    if opens == [] then 0 else (if opens[0] then 0 else 1) + OpenFailures(opens[1..])
  }

  /** Commands that can move the device's request header. */
  predicate MovesHeader(command: string) {
    var c := Normalize(command);
    "ATSH" <= c || c == "ATZ" || c == "ATWS"
  }

  predicate IsReset(command: string) {
    Normalize(command) == "ATZ"
  }

  /** Commands the adapter sends: one line, and no priority but the standard one. */
  predicate Sendable(command: string) {
    var c := Normalize(command);
    IsCommand(command) && ("ATCP" <= c ==> FromStrRadix16(c[4..]) == None || FromStrRadix16(c[4..]) == Some(DEFAULT_PRIORITY))
  }

  // ---- The history of the header ----

  /** A command that moved the header: where to, and whether the adapter was told so. */
  datatype Move = Move(header: nat, confirmed: bool)

  /** Where a command, carried out, puts the request header, if anywhere. */
  function Target(p: Personality, command: string): Option<nat> {
    var c := Normalize(command);
    if "ATSH" <= c then ShortValue(p, c[4..])
    else if (c == "ATZ" || c == "ATWS") && !Unsupported(p, c) then Some(DEFAULT_HEADER)
    else None
  }

  /** Where the moves have put the header. */
  function Reached(moves: seq<Move>, start: nat): nat {
    if moves == [] then start else moves[|moves| - 1].header
  }

  /** Where the adapter was last told the header is. */
  function Told(moves: seq<Move>, start: nat): nat {
    if moves == [] then start
    else if moves[|moves| - 1].confirmed then moves[|moves| - 1].header
    else Told(moves[..|moves| - 1], start)
  }

  /** The last command that moved the header went unconfirmed and put it somewhere else. */
  predicate Astray(moves: seq<Move>, start: nat) {
    moves != [] && !moves[|moves| - 1].confirmed && moves[|moves| - 1].header != Told(moves, start)
  }

  lemma AstrayExactly(moves: seq<Move>, start: nat)
    ensures Astray(moves, start) <==> Reached(moves, start) != Told(moves, start)
  {
  }

  /** What one command adds to the history, by whether its reply was read as success. */
  predicate Recorded(p: Personality, command: string, before: seq<Move>, after: seq<Move>, success: bool) {
    match Target(p, command)
    case None => after == before && (success ==> !MovesHeader(command))
    case Some(h) => if success then after == before + [Move(h, true)] else after == before || after == before + [Move(h, false)]
  }

  /** What a command carried out adds. */
  function Made(p: Personality, command: string, confirmed: bool): seq<Move> {
    match Target(p, command) case None => [] case Some(h) => [Move(h, confirmed)]
  }

  /** The same without a reply. */
  function Unheard(p: Personality, command: string): seq<Move> {
    Made(p, command, false)
  }

  // ---- The history of what is printed ----

  /** Whether the device prints headers and spaces. */
  datatype Shown = Shown(headers: bool, spaces: bool)

  /** A switch or reset the device carried out, and whether the adapter was told so. */
  datatype Toggle = Toggle(command: string, confirmed: bool)

  /** The reset defaults: no headers, but spaces. */
  const RESTING := Shown(false, true)

  function Switched(s: Shown, c: string): Shown {
    if c == "ATH1" then s.(headers := true)
    else if c == "ATH0" then s.(headers := false)
    else if c == "ATS1" then s.(spaces := true)
    else if c == "ATS0" then s.(spaces := false)
    else RESTING
  }

  /** A command of this history the device would carry out. */
  function Toggling(p: Personality, command: string): Option<string> {
    var c := Normalize(command);
    if (IsSwitch(c) || c == "ATZ" || c == "ATWS") && !Unsupported(p, c) then Some(c) else None
  }

  /** What is printed now. */
  function PrintedBy(toggles: seq<Toggle>, start: Shown): Shown {
    if toggles == [] then start else Switched(PrintedBy(toggles[..|toggles| - 1], start), toggles[|toggles| - 1].command)
  }

  /** What the adapter was told is printed. */
  function ToldShown(toggles: seq<Toggle>, start: Shown): Shown {
    if toggles == [] then start
    else
      var before, last := ToldShown(toggles[..|toggles| - 1], start), toggles[|toggles| - 1];
      if last.confirmed then Switched(before, last.command) else before
  }

  /** Which of the two the adapter was last told by a warm start, and not set since. */
  function Warmed(toggles: seq<Toggle>): Shown {
    if toggles == [] then Shown(false, false)
    else
      var before, last := Warmed(toggles[..|toggles| - 1]), toggles[|toggles| - 1];
      if last.confirmed then WarmAfter(before, last.command) else before
  }

  function WarmAfter(before: Shown, c: string): Shown {
    if c == "ATWS" then Shown(true, true)
    else if c == "ATZ" then Shown(false, false)
    else if c == "ATH0" || c == "ATH1" then before.(headers := false)
    else before.(spaces := false)
  }

  predicate RecordedToggle(p: Personality, command: string, before: seq<Toggle>, after: seq<Toggle>, success: bool) {
    match Toggling(p, command)
    case None => after == before && (success ==> !IsSwitch(Normalize(command)) && Normalize(command) != "ATZ" && Normalize(command) != "ATWS")
    case Some(c) => if success then after == before + [Toggle(c, true)] else after == before || after == before + [Toggle(c, false)]
  }

  // ---- Where the adapter stands ----

  function Toggled(p: Personality, command: string, confirmed: bool): seq<Toggle> {
    match Toggling(p, command) case None => [] case Some(c) => [Toggle(c, confirmed)]
  }

  /** A command whose reply was not read leaves the histories as they are or adds itself unconfirmed. */
  lemma UnheardRecorded(p: Personality, command: string, moves: seq<Move>, toggles: seq<Toggle>)
    ensures Recorded(p, command, moves, moves, false) && Recorded(p, command, moves, moves + Unheard(p, command), false)
    ensures RecordedToggle(p, command, toggles, toggles, false)
    ensures RecordedToggle(p, command, toggles, toggles + Toggled(p, command, false), false)
  {
    hide Target, Toggling;
    assert moves + [] == moves && toggles + [] == toggles;
  }

  /** The device's request header and what it prints, and what the adapter was told of both. */
  datatype Standing = Standing(header: nat, told: nat, shown: Shown, shownTold: Shown, warm: Shown)

  function StandingOf(moves: seq<Move>, start: nat, toggles: seq<Toggle>, startShown: Shown): Standing {
    Standing(Reached(moves, start), Told(moves, start), PrintedBy(toggles, startShown), ToldShown(toggles, startShown), Warmed(toggles))
  }

  predicate SamePrinting(s: Standing, t: Standing) {
    s.shown == t.shown && s.shownTold == t.shownTold && s.warm == t.warm
  }

  /** A command carried out stands at the end of the histories. */
  lemma StandingNext(moves: seq<Move>, start: nat, toggles: seq<Toggle>, startShown: Shown, p: Personality, command: string, confirmed: bool)
    ensures var before, after := StandingOf(moves, start, toggles, startShown),
                StandingOf(moves + Made(p, command, confirmed), start, toggles + Toggled(p, command, confirmed), startShown);
            && after.header == (match Target(p, command) case None => before.header case Some(h) => h)
            && after.shown == (match Toggling(p, command) case None => before.shown case Some(c) => Switched(before.shown, c))
            && (confirmed && before.header == before.told ==> after.header == after.told)
            && (confirmed && before.shown == before.shownTold ==> after.shown == after.shownTold)
    ensures Made(p, command, confirmed) == [] ==> moves + Made(p, command, confirmed) == moves
    ensures Astray(moves + Made(p, command, true), start) ==> Astray(moves, start)
  {
    hide Target, Toggling, Switched;
    var m, t := moves + Made(p, command, confirmed), toggles + Toggled(p, command, confirmed);
    if Target(p, command).None? {
      assert m == moves;
      assert moves + Made(p, command, true) == moves;
    } else {
      assert m[..|m| - 1] == moves;
    }
    if Toggling(p, command).None? {
      assert t == toggles;
    } else {
      assert t[..|t| - 1] == toggles;
    }
  }

  /** What an exchange does to all of it, by what it returned. */
  predicate Moved(p: Personality, command: string, before: Standing, after: Standing, success: bool) {
    var c := Normalize(command);
    && (Harmless(command) ==> after == before)
    && ("ATSH" <= c ==> SamePrinting(before, after))
    && ("ATSH" <= c && success ==> ShortValue(p, c[4..]) == Some(after.header) && after.told == after.header)
    && ("ATCP" <= c ==> after == before && (success ==> PriorityAccepted(p, c[4..])))
    && (c == "ATWS" || c == "ATZ" ==> success ==>
          after == Standing(DEFAULT_HEADER, DEFAULT_HEADER, RESTING, RESTING, Shown(c == "ATWS", c == "ATWS")))
    && (IsSwitch(c) ==> after.header == before.header && after.told == before.told)
    && (IsSwitch(c) && success ==>
          && !Unsupported(p, c) && after.shown == Switched(before.shown, c) && after.shownTold == Switched(before.shownTold, c)
          && after.warm == WarmAfter(before.warm, c))
    && (!success ==> after.told == before.told && after.shownTold == before.shownTold && after.warm == before.warm)
  }

  lemma RecordedMoves(p: Personality, command: string, before: seq<Move>, after: seq<Move>, start: nat,
                      was: seq<Toggle>, toggles: seq<Toggle>, startShown: Shown, success: bool)
    requires Recorded(p, command, before, after, success) && RecordedToggle(p, command, was, toggles, success)
    requires "ATCP" <= Normalize(command) && success ==> PriorityAccepted(p, Normalize(command)[4..])
    ensures Moved(p, command, StandingOf(before, start, was, startShown), StandingOf(after, start, toggles, startShown), success)
  {
    hide Normalize, ShortValue, PriorityAccepted, Unsupported;
    Kinds(Normalize(command));
    if after != before {
      assert after[..|after| - 1] == before;
    }
    if toggles != was {
      assert toggles[..|toggles| - 1] == was;
    }
  }

  datatype Heard = Heard(command: string, text: string)

  /** What the device says to a command when its modules answer so. */
  function Spoken(d: Device, p: Personality, v: VehicleKind, command: string, answers: seq<EcuReply>): string {
    var (after, lines) := Answer(d, p, v, Normalize(command), answers);
    ReplyText(command, d.echo, after.linefeeds, lines)
  }

  class Transport {
    const emulator: ElmEmulator
    var isOpen: bool
    var script: seq<Outcome>
    var opens: seq<bool>
    /** Where the header was at first, and every command since that moved it. */
    ghost const start: nat
    ghost var moves: seq<Move>
    /** What was printed at first, and every switch and reset since. */
    ghost const startShown: Shown
    ghost var toggles: seq<Toggle>
    /** How many exchanges were not answered in time. */
    ghost var unanswered: nat
    /** How many times it was opened, or an opening was tried. */
    ghost var openings: nat
    /** Every command line written so far, and every reply read. */
    ghost var asked: seq<string>
    ghost var heard: seq<Heard>

    constructor (emulator: ElmEmulator, script: seq<Outcome>, opens: seq<bool>)
      ensures this.emulator == emulator && this.script == script && this.opens == opens && !isOpen
      ensures start == emulator.header && moves == [] && asked == [] && heard == []
      ensures startShown == Shown(emulator.headers, emulator.spaces) && toggles == [] && unanswered == 0 && openings == 0
    {
      this.emulator, this.script, this.opens, isOpen := emulator, script, opens, false;
      start, moves, asked, heard := emulator.header, [], [], [];
      startShown, toggles, unanswered, openings := Shown(emulator.headers, emulator.spaces), [], 0, 0;
    }

    /** Link faults still to come. */
    ghost function FaultsLeft(): nat
      reads this
    {
      FaultCount(script) + OpenFailures(opens)
    }

    ghost function Measure(): nat
      reads this
    {
      2 * FaultsLeft() + if isOpen then 0 else 1
    }

    ghost function Now(): Standing
      reads this
    {
      StandingOf(moves, start, toggles, startShown)
    }

    ghost predicate Ready()
      reads this, emulator
    {
      && emulator.priority == DEFAULT_PRIORITY && ReadableBanner(emulator.personality.banner)
      && emulator.header == Now().header && Shown(emulator.headers, emulator.spaces) == Now().shown
      && (unanswered == 0 ==> Now().header == Now().told && Now().shown == Now().shownTold)
    }

    /** The device is not where the adapter was last told it is. */
    ghost predicate Stale()
      reads this
    {
      Astray(moves, start)
    }

    /** Not astray, and no exchange to come loses the reply to a command carried out. */
    ghost predicate Faithful()
      reads this
    {
      !Stale() && forall i :: 0 <= i < |script| ==> !script[i].Late? && !(script[i].Fails? && script[i].executed)
    }

    /** The next exchange will be carried out and answered too late. */
    ghost predicate LateNext()
      reads this, emulator
    {
      isOpen && script != [] && script[0].Late? && emulator.faults == []
    }

    /** The next exchange will be answered. */
    ghost predicate DeliverNext()
      reads this, emulator
    {
      isOpen && script != [] && script[0].Deliver? && emulator.faults == []
    }

    /** The next exchanges, this many, will fail unheard. */
    ghost predicate DropsAhead(n: nat)
      reads this
    {
      isOpen && n <= |script| && forall i :: 0 <= i < n ==> script[i] == DROP
    }

    method Close()
      modifies this`isOpen
      ensures !isOpen
    {
      isOpen := false;
    }

    method Open() returns (ok: bool)
      requires !isOpen
      modifies this`isOpen, this`opens, this`openings
      ensures openings == old(openings) + 1
      ensures ok == isOpen == (old(opens) == [] || old(opens)[0])
      ensures ok ==> FaultsLeft() == old(FaultsLeft())
      ensures !ok ==> FaultsLeft() == old(FaultsLeft()) - 1
    {
      ok := opens == [] || opens[0];
      opens := if opens == [] then [] else opens[1..];
      openings := openings + 1;
      isOpen := ok;
    }

    /** Write a command, read to the prompt or the deadline. */
    method Exchange(command: string) returns (r: Result<string, LinkError>)
      requires Ready() && Sendable(command)
      modifies this, emulator
      ensures Ready() && asked == old(asked) + [command] && openings == old(openings)
      ensures heard == old(heard) + if r.Success? then [Heard(command, r.value)] else []
      ensures FaultsLeft() <= old(FaultsLeft()) && Measure() <= old(Measure())
      ensures old(Faithful()) ==> Faithful()
      ensures !old(isOpen) ==> r == Failure(TransportDisconnected) && moves == old(moves) && FaultsLeft() == old(FaultsLeft()) && !isOpen
      ensures old(unanswered) <= unanswered && (unanswered == old(unanswered) ==> r.Success?)
      ensures old(isOpen) && r.Failure? && IsLinkFault(r.error) ==> FaultsLeft() < old(FaultsLeft())
      ensures old(isOpen) && (r.Success? || !IsLinkFault(r.error)) ==> isOpen && FaultsLeft() == old(FaultsLeft())
      ensures old(LateNext()) ==> r == Success("") && moves == old(moves) + Unheard(emulator.personality, command)
      ensures old(emulator.faults) == [] ==> emulator.faults == []
      ensures old(isOpen) && old(script) != [] ==> script == old(script)[1..]
      ensures old(DropsAhead(1)) ==> r.Failure? && isOpen && moves == old(moves) && toggles == old(toggles)
      ensures old(DeliverNext()) ==> unanswered == old(unanswered)
      ensures old(DeliverNext()) ==>
                r == Success(Spoken(old(emulator.State()), emulator.personality, emulator.vehicle, command, old(script[0].answers)))
      ensures var success := r.Success? && Understood(command, r.value).classified.IsSuccess();
              && Recorded(emulator.personality, command, old(moves), moves, success)
              && RecordedToggle(emulator.personality, command, old(toggles), toggles, success)
              && ("ATCP" <= Normalize(command) && success ==> PriorityAccepted(emulator.personality, Normalize(command)[4..]))
              && (success ==> emulator.faults == [])
              && (unanswered == old(unanswered) && old(emulator.faults) == [] && Toggling(emulator.personality, command).Some? ==> success)
    {
      hide Understood, PriorityAccepted, Sendable, ReadableBanner, Target, Normalize, StandingOf, MovesHeader,
           Toggling, IsSwitch, Told, Recorded, RecordedToggle, Unheard, Toggled, Astray, OpenFailures, Spoken;
      UnheardRecorded(emulator.personality, command, moves, toggles);
      asked := asked + [command];
      if !isOpen {
        unanswered := unanswered + 1;
        return Failure(TransportDisconnected);
      }
      var outcome := if script == [] then Deliver([]) else script[0];
      script := if script == [] then [] else script[1..];
      match outcome
      case Deliver(answers) =>
        var text := Carry(command, answers);
        heard := heard + [Heard(command, text)];
        r := Success(text);
      case Fails(error, executed, closes) =>
        unanswered := unanswered + 1;
        if executed {
          Lose(command);
        }
        if closes && IsLinkFault(error) {
          isOpen := false;
        }
        r := Failure(error);
      case Late =>
        unanswered := unanswered + 1;
        Lose(command);
        NothingRead(command);
        heard := heard + [Heard(command, "")];
        r := Success("");
    }

    /** The device handles the command and its text arrives. */
    method Carry(command: string, answers: seq<EcuReply>) returns (text: string)
      requires Ready() && Sendable(command)
      modifies this`moves, this`toggles, emulator
      ensures Ready() && (Stale() ==> old(Stale())) && (old(emulator.faults) == [] ==> emulator.faults == [])
      ensures old(emulator.faults) == [] ==> text == Spoken(old(emulator.State()), emulator.personality, emulator.vehicle, command, answers)
      ensures var success := Understood(command, text).classified.IsSuccess();
              && Recorded(emulator.personality, command, old(moves), moves, success)
              && RecordedToggle(emulator.personality, command, old(toggles), toggles, success)
              && ("ATCP" <= Normalize(command) && success ==> PriorityAccepted(emulator.personality, Normalize(command)[4..]))
              && (success ==> emulator.faults == [])
              && (old(emulator.faults) == [] && Toggling(emulator.personality, command).Some? ==> success)
    {
      hide Understood, PriorityAccepted, ReadableBanner, Target, Normalize, Answer, Rows, FaultText, Trim,
           MovesHeader, Sendable, Toggling, IsSwitch, StandingOf, Switched, Told;
      ghost var d := emulator.State();
      ghost var faults := emulator.faults;
      text := emulator.HandleLine(command, answers);
      if faults != [] {
        SendableIsCommand(command);
        FaultIsFailure(d, command, faults[0]);
      } else {
        CarriedOut(d, emulator.personality, emulator.vehicle, command, answers);
        EchoedText(command, d.echo, emulator.linefeeds, Answer(d, emulator.personality, emulator.vehicle, Normalize(command), answers).1);
        StandingNext(moves, start, toggles, startShown, emulator.personality, command, true);
        moves := moves + Made(emulator.personality, command, true);
        toggles := toggles + Toggled(emulator.personality, command, true);
      }
    }

    /** The device handles the command and nothing of its reply arrives. */
    method Lose(command: string)
      requires Ready() && Sendable(command) && unanswered > 0
      modifies this`moves, this`toggles, emulator
      ensures Ready() && (old(emulator.faults) == [] ==> emulator.faults == [])
      ensures moves == if old(emulator.faults) == [] then old(moves) + Unheard(emulator.personality, command) else old(moves)
      ensures toggles == if old(emulator.faults) == [] then old(toggles) + Toggled(emulator.personality, command, false) else old(toggles)
    {
      hide Understood, ReadableBanner, Target, Normalize, Answer, Rows, FaultText, Trim, Sendable, Toggling,
           IsSwitch, StandingOf, Switched, Made, Toggled;
      ghost var d := emulator.State();
      ghost var faults := emulator.faults;
      var text := emulator.HandleLine(command, []);
      if faults == [] {
        CarriedOut(d, emulator.personality, emulator.vehicle, command, []);
        StandingNext(moves, start, toggles, startShown, emulator.personality, command, false);
        moves := moves + Unheard(emulator.personality, command);
        toggles := toggles + Toggled(emulator.personality, command, false);
      }
    }
  }

  lemma SendableIsCommand(command: string)
    requires Sendable(command)
    ensures IsCommand(command)
  {
  }

  /** A command is at most one of these. */
  lemma Kinds(c: string)
    ensures "ATSH" <= c ==> !("ATCP" <= c) && c != "ATZ" && c != "ATWS"
    ensures "ATCP" <= c ==> c != "ATZ" && c != "ATWS"
    ensures c == "ATZ" || c == "ATWS" ==> !("ATSH" <= c) && !("ATCP" <= c)
    ensures IsSwitch(c) ==> !("ATSH" <= c) && !("ATCP" <= c) && c != "ATZ" && c != "ATWS"
    ensures "ATZ" != "ATWS"
  {
    if "ATSH" <= c {
      assert c[2] == 'S' && c[3] == 'H';
    }
    if "ATCP" <= c {
      assert c[2] == 'C';
    }
    assert |"ATZ"| == 3 && |"ATWS"| == 4 && "ATWS"[2] == 'W';
  }

  lemma NothingRead(command: string)
    ensures Understood(command, "").classified == Timeout
  {
    hide Kept, SplitLines, ProgressCount, FirstFailure;
  }

  lemma EchoedText(command: string, echo: bool, linefeeds: bool, lines: seq<string>)
    ensures ReplyText(command, echo, linefeeds, lines) == (if echo then Trim(command) + "\r" else "") + Rows(lines, linefeeds)
  {
  }

  /** A command carried out puts the header where it says and switches what it says, and the reply is
      read as success exactly when it did, for the commands that can. */
  lemma CarriedOut(d: Device, p: Personality, v: VehicleKind, command: string, answers: seq<EcuReply>)
    requires d.priority == DEFAULT_PRIORITY && ReadableBanner(p.banner) && Sendable(command)
    ensures var (after, lines) := Answer(d, p, v, Normalize(command), answers);
            var success := Understood(command, ReplyText(command, d.echo, after.linefeeds, lines)).classified.IsSuccess();
            && after.priority == DEFAULT_PRIORITY
            && after.header == (match Target(p, command) case None => d.header case Some(h) => h)
            && Shown(after.headers, after.spaces)
               == (match Toggling(p, command) case None => Shown(d.headers, d.spaces) case Some(c) => Switched(Shown(d.headers, d.spaces), c))
            && (MovesHeader(command) ==> (success <==> Target(p, command).Some?))
            && (Target(p, command).Some? ==> MovesHeader(command))
            && (IsSwitch(Normalize(command)) || Normalize(command) == "ATZ" || Normalize(command) == "ATWS" ==>
                 (success <==> Toggling(p, command).Some?))
            && (Toggling(p, command).Some? ==>
                 IsSwitch(Normalize(command)) || Normalize(command) == "ATZ" || Normalize(command) == "ATWS")
            && ("ATCP" <= Normalize(command) && success ==> PriorityAccepted(p, Normalize(command)[4..]))
  {
    hide Understood, ReplyText, Answer, Normalize, ReadableBanner, Unsupported, FromStrRadix16;
    var c := Normalize(command);
    Kinds(c);
    if Harmless(command) {
      HarmlessKeepsHeader(d, p, v, c, answers);
    } else if "ATSH" <= c {
      HeaderAnswer(d, p, v, c[4..], answers);
      assert c == "ATSH" + c[4..];
      RefusalIsFailure(command, d.echo, d.linefeeds);
      OkIsSuccess(command, d.echo, d.linefeeds);
    } else if "ATCP" <= c {
      PriorityAnswer(d, p, v, c[4..], answers);
      assert c == "ATCP" + c[4..];
      RefusalIsFailure(command, d.echo, d.linefeeds);
    } else if IsSwitch(c) {
      SwitchMoves(d, p, v, command, answers);
    } else {
      ResetMoves(d, p, v, command, answers);
    }
  }

  lemma SwitchMoves(d: Device, p: Personality, v: VehicleKind, command: string, answers: seq<EcuReply>)
    requires IsCommand(command) && IsSwitch(Normalize(command))
    ensures var (after, lines) := Answer(d, p, v, Normalize(command), answers);
            && after.priority == d.priority && after.header == d.header
            && Shown(after.headers, after.spaces)
               == (if Unsupported(p, Normalize(command)) then Shown(d.headers, d.spaces) else Switched(Shown(d.headers, d.spaces), Normalize(command)))
            && (Understood(command, ReplyText(command, d.echo, after.linefeeds, lines)).classified.IsSuccess()
                <==> !Unsupported(p, Normalize(command)))
  {
    hide Understood, ReplyText, Answer, Normalize, Unsupported;
    SwitchAnswer(d, p, v, Normalize(command), answers);
    RefusalIsFailure(command, d.echo, d.linefeeds);
    OkIsSuccess(command, d.echo, d.linefeeds);
  }

  lemma ResetMoves(d: Device, p: Personality, v: VehicleKind, command: string, answers: seq<EcuReply>)
    requires d.priority == DEFAULT_PRIORITY && ReadableBanner(p.banner) && IsCommand(command)
    requires Normalize(command) == "ATZ" || Normalize(command) == "ATWS"
    ensures var (after, lines) := Answer(d, p, v, Normalize(command), answers);
            && after.priority == DEFAULT_PRIORITY
            && after.header == (if Unsupported(p, Normalize(command)) then d.header else DEFAULT_HEADER)
            && Shown(after.headers, after.spaces) == (if Unsupported(p, Normalize(command)) then Shown(d.headers, d.spaces) else RESTING)
            && (Understood(command, ReplyText(command, d.echo, after.linefeeds, lines)).classified.IsSuccess()
                <==> !Unsupported(p, Normalize(command)))
  {
    hide Understood, ReplyText, Answer, Normalize, CleanLine, FailureOf, IsSearching, Unsupported;
    var c := Normalize(command);
    ResetAnswer(d, p, v, c, answers);
    if Unsupported(p, c) {
      RefusalIsFailure(command, d.echo, d.linefeeds);
    } else {
      BannerContent(p.banner, c);
      LineIsSuccess(command, d.echo, true, p.banner);
    }
  }

  lemma BannerContent(banner: string, c: string)
    requires ReadableBanner(banner) && (c == "ATZ" || c == "ATWS")
    ensures IsContent(banner, c) && CleanLine(banner) && FailureOf(banner).None?
  {
    hide Cleaned, OneLine, FailureOf, IsSearching, Normalize;
  }
}
