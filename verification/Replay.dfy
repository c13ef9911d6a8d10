/** Answering from a recorded conversation (`ReplayTransport`, simulator/src/replay.rs). */
module Replay {
  import opened Wrappers
  import opened Text
  import opened Transcripts

  /** Which module a command is addressed to, and on which bus at which rate. */
  datatype Context = Context(header: Option<string>, secondary: bool, rate: Option<string>)
  {
    function Bus(): (bool, Option<string>) {
      (secondary, rate)
    }
  }

  const DEFAULT := Context(None, false, None)

  /** The context after this command: header, bus and rate are what later ones are sent under. */
  function Follow(c: Context, command: string): Context {
    if "ATSH" <= command then c.(header := Some(command[4..]))
    else if command == "ATZ" || command == "ATD" then DEFAULT
    else if "ATSP" <= command || "ATTP" <= command then c.(secondary := false, rate := None)
    else if "STPBR" <= command then c.(rate := Some(command[5..]))
    else if "STP" <= command && |command| > 3 && '0' <= command[3] <= '9' then c.(secondary := command[3] == '5')
    else c
  }

  /** Answered by the adapter itself; `STPX` carries a request to the vehicle. */
  predicate IsAdapterCommand(normalized: string) {
    "AT" <= normalized || ("ST" <= normalized && !("STPX" <= normalized))
  }

  datatype ReplayMode = Strict | Lookup

  datatype Recording = Recording(exchanges: seq<Exchange>, mode: ReplayMode)
  {
    function Wanted(i: nat): string
      requires i < |exchanges|
    {
      Normalize(exchanges[i].command)
    }

    /** The context after the first `n` recorded commands. */
    function ContextAt(n: nat): Context
      requires n <= |exchanges|
    {
      if n == 0 then DEFAULT else Follow(ContextAt(n - 1), Wanted(n - 1))
    }

    /** The context an exchange was recorded under: its own command included. */
    function Recorded(i: nat): Context
      requires i < |exchanges|
    {
      ContextAt(i + 1)
    }

    predicate OnBus(i: nat, wanted: string, live: Context)
      requires i < |exchanges|
    {
      Wanted(i) == wanted && Recorded(i).Bus() == live.Bus()
    }

    predicate InContext(i: nat, wanted: string, live: Context)
      requires i < |exchanges|
    {
      Wanted(i) == wanted && Recorded(i) == live
    }

    function FirstOnBus(from: nat, wanted: string, live: Context): (r: Option<nat>)
      requires from <= |exchanges|
      ensures r.Some? ==> from <= r.value < |exchanges| && OnBus(r.value, wanted, live)
      ensures forall i :: from <= i < (if r.Some? then r.value else |exchanges|) ==> !OnBus(i, wanted, live)
      decreases |exchanges| - from
    {
      if from == |exchanges| then None else if OnBus(from, wanted, live) then Some(from) else FirstOnBus(from + 1, wanted, live)
    }

    function FirstAnywhere(from: nat, wanted: string): (r: Option<nat>)
      requires from <= |exchanges|
      ensures r.Some? ==> from <= r.value < |exchanges| && Wanted(r.value) == wanted
      ensures forall i :: from <= i < (if r.Some? then r.value else |exchanges|) ==> Wanted(i) != wanted
      decreases |exchanges| - from
    {
      if from == |exchanges| then None else if Wanted(from) == wanted then Some(from) else FirstAnywhere(from + 1, wanted)
    }

    function FirstInContext(from: nat, wanted: string, live: Context): (r: Option<nat>)
      requires from <= |exchanges|
      ensures r.Some? ==> from <= r.value < |exchanges| && InContext(r.value, wanted, live)
      ensures forall i :: from <= i < (if r.Some? then r.value else |exchanges|) ==> !InContext(i, wanted, live)
      decreases |exchanges| - from
    {
      if from == |exchanges| then None else if InContext(from, wanted, live) then Some(from) else FirstInContext(from + 1, wanted, live)
    }

    /** The exchange a command is answered from in lookup mode. */
    function Found(wanted: string, live: Context): Option<nat> {
      if IsAdapterCommand(wanted) then
        if FirstOnBus(0, wanted, live).Some? then FirstOnBus(0, wanted, live) else FirstAnywhere(0, wanted)
      else FirstInContext(0, wanted, live)
    }
  }

  /** The transport's changing part. */
  datatype Playing = Playing(position: nat, pending: string, line: string, misses: seq<string>, live: Context)

  const FRESH := Playing(0, "", "", [], DEFAULT)

  function ReplyRows(lines: seq<string>): string {
    if lines == [] then "" else lines[0] + "\r" + ReplyRows(lines[1..])
  }

  /** A reply as it is queued for reading. */
  function Queued(lines: seq<string>): string {
    ReplyRows(lines) + "\r>"
  }

  /** `answer`: the lines, or none when a strict replay has gone off the recording. */
  function Answered(rec: Recording, st: Playing, command: string): (Playing, Option<seq<string>>) {
    var wanted := Normalize(command);
    if rec.mode == Strict then
      if st.position >= |rec.exchanges| || rec.Wanted(st.position) != wanted then
        (st.(misses := st.misses + [command]), None)
      else (st.(position := st.position + 1), Some(rec.exchanges[st.position].lines))
    else
      match rec.Found(wanted, st.live)
      case Some(i) => (st, Some(rec.exchanges[i].lines))
      case None => (st.(misses := st.misses + [command]), Some(["NO DATA"]))
  }

  function Typed(rec: Recording, st: Playing): (Playing, bool) {
    var command := st.line;
    var (next, lines) := Answered(rec, st.(line := "", live := Follow(st.live, Normalize(command))), command);
    if lines.None? then (next, false) else (next.(pending := next.pending + Queued(lines.value)), true)
  }

  /** Characters written to the transport; a break ends a command, an error ends the write. */
  function Written(rec: Recording, st: Playing, data: string): (Playing, bool)
    decreases |data|
  {
    if data == "" then (st, true)
    else if data[0] == '\r' || data[0] == '\n' then
      var (next, ok) := Typed(rec, st);
      if ok then Written(rec, next, data[1..]) else (next, false)
    else Written(rec, st.(line := st.line + [data[0]]), data[1..])
  }

  class ReplayTransport {
    const transcript: Transcript
    const mode: ReplayMode
    var isOpen: bool
    var position: nat
    var pending: string
    var line: string
    var misses: seq<string>
    var recordedHeaders: seq<Context>
    var currentHeader: Context

    function Recorded(): Recording
      reads this
    {
      Recording(transcript.exchanges, mode)
    }

    function State(): Playing
      reads this
    {
      Playing(position, pending, line, misses, currentHeader)
    }

    ghost predicate Valid()
      reads this
    {
      |recordedHeaders| == |transcript.exchanges| && forall i :: 0 <= i < |recordedHeaders| ==> recordedHeaders[i] == Recorded().Recorded(i)
    }

    constructor (transcript: Transcript, mode: ReplayMode)
      ensures Valid() && State() == FRESH && !isOpen
      ensures this.transcript == transcript && this.mode == mode
    {
      var contexts := Contexts(Recording(transcript.exchanges, mode));
      this.transcript, this.mode, isOpen := transcript, mode, false;
      position, pending, line, misses := 0, "", "", [];
      recordedHeaders, currentHeader := contexts, DEFAULT;
    }

    static method Contexts(rec: Recording) returns (headers: seq<Context>)
      ensures |headers| == |rec.exchanges| && forall i :: 0 <= i < |headers| ==> headers[i] == rec.Recorded(i)
    {
      hide Normalize, Follow;
      headers := [];
      var context := DEFAULT;
      for i := 0 to |rec.exchanges|
        invariant context == rec.ContextAt(i) && |headers| == i
        invariant forall k :: 0 <= k < i ==> headers[k] == rec.Recorded(k)
      {
        context := Follow(context, Normalize(rec.exchanges[i].command));
        headers := headers + [context];
      }
    }

    method Open()
      requires Valid()
      modifies this
      ensures Valid() && isOpen && misses == old(misses) && currentHeader == old(currentHeader)
      ensures if old(isOpen) then State() == old(State()) else position == 0 && pending == "" && line == ""
    {
      if !isOpen {
        isOpen := true;
        position, pending, line := 0, "", "";
      }
    }

    /** The exchange a lookup answers from, by the contexts kept since construction. */
    method Find(wanted: string) returns (found: Option<nat>)
      requires Valid()
      ensures found == Recorded().Found(wanted, currentHeader)
    {
      hide Normalize, Follow, IsAdapterCommand, Recording.ContextAt;
      var isSetting := IsAdapterCommand(wanted);
      var anywhere: Option<nat> := None;
      for i := 0 to |transcript.exchanges|
        invariant anywhere == None ==> Recorded().FirstAnywhere(0, wanted) == Recorded().FirstAnywhere(i, wanted)
        invariant anywhere != None ==> Recorded().FirstAnywhere(0, wanted) == anywhere
        invariant isSetting ==> Recorded().FirstOnBus(0, wanted, currentHeader) == Recorded().FirstOnBus(i, wanted, currentHeader)
        invariant !isSetting ==> Recorded().FirstInContext(0, wanted, currentHeader) == Recorded().FirstInContext(i, wanted, currentHeader)
      {
        if Normalize(transcript.exchanges[i].command) == wanted {
          if isSetting && recordedHeaders[i].Bus() == currentHeader.Bus() {
            return Some(i);
          }
          if !isSetting && recordedHeaders[i] == currentHeader {
            return Some(i);
          }
          if anywhere == None {
            anywhere := Some(i);
          }
        }
      }
      found := if isSetting then anywhere else None;
    }

    method Answer(command: string) returns (lines: Option<seq<string>>)
      requires Valid()
      modifies this`position, this`misses
      ensures Valid() && (State(), lines) == Answered(Recorded(), old(State()), command)
    {
      hide Normalize, Follow;
      var wanted := Normalize(command);
      if mode == Strict {
        if position >= |transcript.exchanges| {
          misses := misses + [command];
          return None;
        }
        if Normalize(transcript.exchanges[position].command) != wanted {
          misses := misses + [command];
          return None;
        }
        lines := Some(transcript.exchanges[position].lines);
        position := position + 1;
      } else {
        var found := Find(wanted);
        if found.Some? {
          lines := Some(transcript.exchanges[found.value].lines);
        } else {
          misses := misses + [command];
          lines := Some(["NO DATA"]);
        }
      }
    }

    method WriteAll(data: string) returns (ok: bool)
      requires Valid()
      modifies this
      ensures Valid() && isOpen == old(isOpen)
      ensures old(isOpen) ==> (State(), ok) == Written(Recorded(), old(State()), data)
      ensures !old(isOpen) ==> !ok && State() == old(State())
    {
      hide Normalize, Follow, Answered;
      if !isOpen {
        return false;
      }
      for i := 0 to |data|
        invariant Valid() && isOpen
        invariant Written(Recorded(), State(), data[i..]) == Written(Recorded(), old(State()), data)
      {
        assert data[i..][0] == data[i] && data[i..][1..] == data[i + 1..];
        if data[i] == '\r' || data[i] == '\n' {
          var command := line;
          line := "";
          currentHeader := Follow(currentHeader, Normalize(command));
          var lines := Answer(command);
          if lines.None? {
            return false;
          }
          var reply := Render(lines.value);
          pending := pending + reply;
        } else {
          line := line + [data[i]];
        }
      }
      assert data[|data|..] == "";
      ok := true;
    }

    method Render(lines: seq<string>) returns (reply: string)
      ensures reply == Queued(lines)
    {
      reply := "";
      for i := 0 to |lines|
        invariant reply + ReplyRows(lines[i..]) == ReplyRows(lines)
      {
        assert lines[i..][0] == lines[i] && lines[i..][1..] == lines[i + 1..];
        assert reply + (lines[i] + "\r" + ReplyRows(lines[i + 1..])) == reply + lines[i] + "\r" + ReplyRows(lines[i + 1..]);
        reply := reply + lines[i];
        reply := reply + "\r";
      }
      assert lines[|lines|..] == [];
      assert reply + "" == reply;
      reply := reply + "\r";
      reply := reply + ">";
    }
  }

  // ---- Replaying what was recorded ----

  /** The first `n` recorded commands, each with its carriage return. */
  function Keystrokes(rec: Recording, n: nat): string
    requires n <= |rec.exchanges|
  {
    if n == 0 then "" else Keystrokes(rec, n - 1) + rec.exchanges[n - 1].command + ['\r']
  }

  /** The recorded replies to them. */
  function Replies(rec: Recording, n: nat): string
    requires n <= |rec.exchanges|
  {
    if n == 0 then "" else Replies(rec, n - 1) + Queued(rec.exchanges[n - 1].lines)
  }

  predicate OneLineCommands(rec: Recording) {
    forall i :: 0 <= i < |rec.exchanges| ==> OneLine(rec.exchanges[i].command)
  }

  lemma {:induction false} WrittenAppend(rec: Recording, st: Playing, a: string, b: string)
    requires Written(rec, st, a).1
    ensures Written(rec, st, a + b) == Written(rec, Written(rec, st, a).0, b)
    decreases |a|
  {
    hide Typed;
    if a == "" {
      assert a + b == b;
    } else {
      assert (a + b)[1..] == a[1..] + b && (a + b)[0] == a[0];
      WrittenAppend(rec, if a[0] == '\r' || a[0] == '\n' then Typed(rec, st).0 else st.(line := st.line + [a[0]]), a[1..], b);
    }
  }

  lemma {:induction false} WrittenLine(rec: Recording, st: Playing, s: string)
    requires OneLine(s)
    ensures Written(rec, st, s) == (st.(line := st.line + s), true)
    decreases |s|
  {
    hide Typed;
    if s == "" {
      assert st.line + s == st.line;
    } else {
      WrittenLine(rec, st.(line := st.line + [s[0]]), s[1..]);
      assert st.line + [s[0]] + s[1..] == st.line + s;
    }
  }

  /** One command line written to a transport with nothing typed yet. */
  lemma WrittenCommand(rec: Recording, st: Playing, command: string)
    requires OneLine(command) && st.line == ""
    ensures Written(rec, st, command + ['\r']) == Typed(rec, st.(line := command))
  {
    hide Typed;
    WrittenLine(rec, st, command);
    assert st.line + command == command;
    WrittenAppend(rec, st, command, ['\r']);
    WrittenReturn(rec, st.(line := command));
  }

  lemma WrittenReturn(rec: Recording, st: Playing)
    ensures Written(rec, st, ['\r']) == Typed(rec, st)
  {
    hide Typed;
    var (next, ok) := Typed(rec, st);
    assert ['\r'][1..] == "";
    assert Written(rec, next, "") == (next, true);
  }

  /** A strict replay of the recording: every recorded line comes back, in order, nothing is missed
      and nothing is left. */
  lemma {:induction false} StrictFidelity(rec: Recording, n: nat)
    requires rec.mode == Strict && OneLineCommands(rec) && n <= |rec.exchanges|
    ensures Written(rec, FRESH, Keystrokes(rec, n)) == (Playing(n, Replies(rec, n), "", [], rec.ContextAt(n)), true)
  {
    hide Normalize, Follow, Queued;
    if n > 0 {
      StrictFidelity(rec, n - 1);
      var st := Playing(n - 1, Replies(rec, n - 1), "", [], rec.ContextAt(n - 1));
      var command := rec.exchanges[n - 1].command;
      assert Keystrokes(rec, n) == Keystrokes(rec, n - 1) + (command + ['\r']);
      WrittenAppend(rec, FRESH, Keystrokes(rec, n - 1), command + ['\r']);
      WrittenCommand(rec, st, command);
    }
  }

  /** Which recorded exchange answers the `i`th command of the recording in lookup mode. */
  function Source(rec: Recording, i: nat): (j: nat)
    requires i < |rec.exchanges|
    ensures j <= i && rec.Wanted(j) == rec.Wanted(i)
    ensures if IsAdapterCommand(rec.Wanted(i)) then rec.Recorded(j).Bus() == rec.Recorded(i).Bus() else rec.Recorded(j) == rec.Recorded(i)
    ensures rec.Found(rec.Wanted(i), rec.Recorded(i)) == Some(j)
  {
    assert rec.OnBus(i, rec.Wanted(i), rec.Recorded(i)) && rec.InContext(i, rec.Wanted(i), rec.Recorded(i));
    rec.Found(rec.Wanted(i), rec.Recorded(i)).value
  }

  function LookupReplies(rec: Recording, n: nat): string
    requires n <= |rec.exchanges|
  {
    if n == 0 then "" else LookupReplies(rec, n - 1) + Queued(rec.exchanges[Source(rec, n - 1)].lines)
  }

  /** A lookup replay of the recording, on a fresh transport or, when the recording starts with a reset,
      on any with nothing half typed: the live context is the recorded one after every command, so
      nothing is missed, and each command is answered by the first exchange with the same command in the
      same context (the same bus and rate, for a command to the adapter). */
  lemma {:induction false} LookupFidelity(rec: Recording, st: Playing, n: nat)
    requires rec.mode == Lookup && OneLineCommands(rec) && n <= |rec.exchanges| && st.line == ""
    requires st.live == DEFAULT || (n > 0 && Resets(rec.Wanted(0)))
    ensures Written(rec, st, Keystrokes(rec, n)) == (st.(pending := st.pending + LookupReplies(rec, n), live := rec.ContextAt(n)), true)
  {
    hide Normalize, Queued, IsAdapterCommand, Typed, Follow;
    if n == 0 {
      assert st.pending + "" == st.pending;
    } else {
      var before := if n == 1 then st else st.(pending := st.pending + LookupReplies(rec, n - 1), live := rec.ContextAt(n - 1));
      var command := rec.exchanges[n - 1].command;
      if n > 1 {
        LookupFidelity(rec, st, n - 1);
        assert Keystrokes(rec, n) == Keystrokes(rec, n - 1) + (command + ['\r']);
        WrittenAppend(rec, st, Keystrokes(rec, n - 1), command + ['\r']);
      } else {
        assert Keystrokes(rec, 0) == "" && Keystrokes(rec, 1) == command + ['\r'];
      }
      WrittenCommand(rec, before, command);
      LookupStep(rec, before, n - 1);
      assert st.pending + LookupReplies(rec, n) == before.pending + Queued(rec.exchanges[Source(rec, n - 1)].lines) by {
        assert st.pending + "" == st.pending;
        assert st.pending + (LookupReplies(rec, n - 1) + Queued(rec.exchanges[Source(rec, n - 1)].lines))
            == st.pending + LookupReplies(rec, n - 1) + Queued(rec.exchanges[Source(rec, n - 1)].lines);
      }
    }
  }

  /** One recorded command, in the context it was recorded in. */
  lemma LookupStep(rec: Recording, st: Playing, i: nat)
    requires rec.mode == Lookup && i < |rec.exchanges| && st.line == ""
    requires st.live == rec.ContextAt(i) || Resets(rec.Wanted(i))
    ensures Typed(rec, st.(line := rec.exchanges[i].command))
         == (st.(pending := st.pending + Queued(rec.exchanges[Source(rec, i)].lines), live := rec.ContextAt(i + 1)), true)
  {
    hide Normalize, Queued, IsAdapterCommand, Recording.Found;
    assert Follow(st.live, rec.Wanted(i)) == rec.ContextAt(i + 1);
    var j := Source(rec, i);
  }

  lemma MissedExactly(rec: Recording, st: Playing, command: string)
    requires rec.mode == Lookup && !IsAdapterCommand(Normalize(command))
    ensures (Typed(rec, st.(line := command)).0.misses == st.misses)
       <==> (exists i :: 0 <= i < |rec.exchanges| && rec.InContext(i, Normalize(command), Follow(st.live, Normalize(command))))
  {
    hide Normalize, Queued, IsAdapterCommand, Follow;
    assert |st.misses + [command]| != |st.misses|;
  }

  // ---- What is in effect after any commands ----

  predicate Resets(command: string) {
    command == "ATZ" || command == "ATD"
  }

  predicate PicksProtocol(command: string) {
    "ATSP" <= command || "ATTP" <= command
  }

  /** A protocol selected by number, the fives being on the secondary bus. */
  predicate PicksBus(command: string) {
    "STP" <= command && |command| > 3 && '0' <= command[3] <= '9'
  }

  predicate TouchesHeader(command: string) {
    "ATSH" <= command || Resets(command)
  }

  predicate TouchesBus(command: string) {
    PicksBus(command) || PicksProtocol(command) || Resets(command)
  }

  predicate TouchesRate(command: string) {
    "STPBR" <= command || PicksProtocol(command) || Resets(command)
  }

  /** Some command sets this header, and no later one sets another or resets. */
  ghost predicate HeaderIs(commands: seq<string>, h: string) {
    exists i :: 0 <= i < |commands| && Normalize(commands[i]) == "ATSH" + h
      && forall j :: i < j < |commands| ==> !TouchesHeader(Normalize(commands[j]))
  }

  ghost predicate OnSecondary(commands: seq<string>) {
    exists i :: 0 <= i < |commands| && "STP5" <= Normalize(commands[i])
      && forall j :: i < j < |commands| ==> !TouchesBus(Normalize(commands[j]))
  }

  ghost predicate RateIs(commands: seq<string>, rate: string) {
    exists i :: 0 <= i < |commands| && Normalize(commands[i]) == "STPBR" + rate
      && forall j :: i < j < |commands| ==> !TouchesRate(Normalize(commands[j]))
  }

  /** The header, bus and rate in effect, each from the last command that sets or clears it. */
  ghost predicate InEffect(commands: seq<string>, c: Context) {
    && (forall h :: c.header == Some(h) <==> HeaderIs(commands, h))
    && (c.secondary <==> OnSecondary(commands))
    && (forall r :: c.rate == Some(r) <==> RateIs(commands, r))
  }

  lemma HeaderStep(init: seq<string>, last: string, h: string)
    ensures HeaderIs(init + [last], h) <==>
              if TouchesHeader(Normalize(last)) then Normalize(last) == "ATSH" + h else HeaderIs(init, h)
  {
    hide Normalize;
    var all := init + [last];
    if TouchesHeader(Normalize(last)) {
      assert all[|init|] == last;
    } else {
      assert forall i :: 0 <= i < |init| ==> all[i] == init[i];
      assert Normalize(last) == "ATSH" + h ==> "ATSH" <= Normalize(last);
    }
  }

  lemma BusStep(init: seq<string>, last: string)
    ensures OnSecondary(init + [last]) <==>
              if TouchesBus(Normalize(last)) then "STP5" <= Normalize(last) else OnSecondary(init)
  {
    hide Normalize;
    var all := init + [last];
    if TouchesBus(Normalize(last)) {
      assert all[|init|] == last;
    } else {
      assert forall i :: 0 <= i < |init| ==> all[i] == init[i];
      FiveIsDigit(Normalize(last));
    }
  }

  lemma FiveIsDigit(c: string)
    ensures "STP5" <= c <==> "STP" <= c && |c| > 3 && c[3] == '5'
  {
    assert "STP5"[3] == '5' && "STP5"[..3] == "STP";
  }

  lemma RateStep(init: seq<string>, last: string, r: string)
    ensures RateIs(init + [last], r) <==>
              if TouchesRate(Normalize(last)) then Normalize(last) == "STPBR" + r else RateIs(init, r)
  {
    hide Normalize;
    var all := init + [last];
    if TouchesRate(Normalize(last)) {
      assert all[|init|] == last;
    } else {
      assert forall i :: 0 <= i < |init| ==> all[i] == init[i];
      assert Normalize(last) == "STPBR" + r ==> "STPBR" <= Normalize(last);
    }
  }

  /** What one command changes, by its first letters. */
  lemma FollowParts(c: Context, command: string)
    ensures var d := Follow(c, command);
            && d.header == (if "ATSH" <= command then Some(command[4..]) else if Resets(command) then None else c.header)
            && d.secondary == (if TouchesBus(command) then "STP5" <= command else c.secondary)
            && d.rate == (if "STPBR" <= command then Some(command[5..]) else if TouchesRate(command) then None else c.rate)
  {
    FiveIsDigit(command);
    if |command| >= 4 {
      assert "ATSH"[2] == 'S' && "ATSH"[3] == 'H' && "ATSP"[3] == 'P' && "ATTP"[2] == 'T' && "STPBR"[3] == 'B';
    }
  }

  /** The context that follows from a sequence of commands. */
  function ContextOf(commands: seq<string>): Context {
    if commands == [] then DEFAULT else Follow(ContextOf(commands[..|commands| - 1]), Normalize(commands[|commands| - 1]))
  }

  /** Following commands one by one keeps exactly what is in effect. */
  lemma {:induction false} FollowedExactly(commands: seq<string>)
    ensures InEffect(commands, ContextOf(commands))
  {
    hide Normalize, Follow, HeaderIs, OnSecondary, RateIs;
    if commands == [] {
      NothingInEffect();
    } else {
      var init, last := commands[..|commands| - 1], commands[|commands| - 1];
      FollowedExactly(init);
      assert commands == init + [last];
      EffectStep(init, last, ContextOf(init));
    }
  }

  lemma NothingInEffect()
    ensures InEffect([], DEFAULT)
  {
  }

  lemma EffectStep(init: seq<string>, last: string, c: Context)
    requires InEffect(init, c)
    ensures InEffect(init + [last], Follow(c, Normalize(last)))
  {
    hide Normalize, Follow, HeaderIs, OnSecondary, RateIs;
    var d, command := Follow(c, Normalize(last)), Normalize(last);
    FollowParts(c, command);
    BusStep(init, last);
    forall h
      ensures d.header == Some(h) <==> HeaderIs(init + [last], h)
    {
      HeaderStep(init, last, h);
      Stripped("ATSH", command, h);
    }
    forall r
      ensures d.rate == Some(r) <==> RateIs(init + [last], r)
    {
      RateStep(init, last, r);
      Stripped("STPBR", command, r);
    }
  }

  lemma Stripped(prefix: string, command: string, rest: string)
    ensures command == prefix + rest <==> prefix <= command && command[|prefix|..] == rest
  {
    if prefix <= command {
      assert command == prefix + command[|prefix|..];
    }
  }

  /** What is in effect is one context. */
  lemma EffectUnique(commands: seq<string>, c: Context, d: Context)
    requires InEffect(commands, c) && InEffect(commands, d)
    ensures c == d
  {
    hide HeaderIs, OnSecondary, RateIs;
    assert c.header.Some? ==> d.header == Some(c.header.value);
    assert d.header.Some? ==> c.header == Some(d.header.value);
    assert c.rate.Some? ==> d.rate == Some(c.rate.value);
    assert d.rate.Some? ==> c.rate == Some(d.rate.value);
  }

  /** After both the same header, bus and rate are in effect. */
  ghost predicate Alike(x: seq<string>, y: seq<string>) {
    && (forall h :: HeaderIs(x, h) <==> HeaderIs(y, h))
    && (OnSecondary(x) <==> OnSecondary(y))
    && (forall r :: RateIs(x, r) <==> RateIs(y, r))
  }

  lemma AlikeExactly(x: seq<string>, y: seq<string>)
    ensures Alike(x, y) <==> ContextOf(x) == ContextOf(y)
  {
    hide HeaderIs, OnSecondary, RateIs, ContextOf;
    FollowedExactly(x);
    FollowedExactly(y);
    if Alike(x, y) {
      EffectUnique(y, ContextOf(x), ContextOf(y));
    }
  }

  /** The recorded commands. */
  function Commands(rec: Recording): (commands: seq<string>)
    ensures |commands| == |rec.exchanges|
  {
    seq(|rec.exchanges|, i requires 0 <= i < |rec.exchanges| => rec.exchanges[i].command)
  }

  lemma {:induction false} RecordedContext(rec: Recording, n: nat)
    requires n <= |rec.exchanges|
    ensures rec.ContextAt(n) == ContextOf(Commands(rec)[..n])
  {
    hide Follow, Normalize;
    if n > 0 {
      RecordedContext(rec, n - 1);
      assert Commands(rec)[..n][..n - 1] == Commands(rec)[..n - 1];
    }
  }

  // ---- Whatever is sent ----

  /** The exchange is of this command, and up to it the recording had the header, bus and rate in effect
      that the commands sent have. */
  ghost predicate Stands(rec: Recording, i: nat, wanted: string, commands: seq<string>) {
    i < |rec.exchanges| && Normalize(rec.exchanges[i].command) == wanted && Alike(Commands(rec)[..i + 1], commands)
  }

  lemma StandsExactly(rec: Recording, i: nat, wanted: string, commands: seq<string>)
    requires i < |rec.exchanges|
    ensures Stands(rec, i, wanted, commands) <==> rec.InContext(i, wanted, ContextOf(commands))
  {
    hide Normalize, Alike, ContextOf;
    RecordedContext(rec, i + 1);
    AlikeExactly(Commands(rec)[..i + 1], commands);
  }

  /** Opening again starts the recording over but keeps the context the last command left. So a recording
      that begins with a request to the vehicle is missed at once on the second run unless that request
      was also recorded under the header, bus and rate in effect at the recording's end. */
  lemma ReopenedExactly(rec: Recording, misses: seq<string>)
    requires rec.mode == Lookup && OneLineCommands(rec) && rec.exchanges != [] && !IsAdapterCommand(rec.Wanted(0))
    ensures var ended := Playing(0, "", "", misses, rec.ContextAt(|rec.exchanges|));
            && InEffect(Commands(rec), ended.live)
            && (Written(rec, ended, Keystrokes(rec, 1)).0.misses == misses <==> exists i: nat :: Stands(rec, i, rec.Wanted(0), Commands(rec)))
  {
    hide Normalize, Queued, IsAdapterCommand, Typed, Follow, Stands, InEffect, ContextOf;
    var n := |rec.exchanges|;
    var ended := Playing(0, "", "", misses, rec.ContextAt(n));
    var command := rec.exchanges[0].command;
    assert Keystrokes(rec, 0) == "" && Keystrokes(rec, 1) == command + ['\r'];
    WrittenCommand(rec, ended, command);
    MissedExactly(rec, ended, command);
    VehicleKeeps(ended.live, rec.Wanted(0));
    RecordedContext(rec, n);
    assert Commands(rec)[..n] == Commands(rec);
    FollowedExactly(Commands(rec));
    forall i: nat | i < n
      ensures Stands(rec, i, rec.Wanted(0), Commands(rec)) <==> rec.InContext(i, rec.Wanted(0), ended.live)
    {
      StandsExactly(rec, i, rec.Wanted(0), Commands(rec));
    }
    StandsInside(rec, rec.Wanted(0), Commands(rec));
  }

  lemma StandsInside(rec: Recording, wanted: string, commands: seq<string>)
    ensures forall i: nat :: Stands(rec, i, wanted, commands) ==> i < |rec.exchanges|
  {
    hide Alike, Normalize;
  }

  lemma VehicleKeeps(c: Context, command: string)
    requires !IsAdapterCommand(command)
    ensures Follow(c, command) == c
  {
    Longer("AT", "ATSH", command);
    Longer("AT", "ATZ", command);
    Longer("AT", "ATD", command);
    Longer("AT", "ATSP", command);
    Longer("AT", "ATTP", command);
    Longer("ST", "STP", command);
    Longer("ST", "STPBR", command);
    NotBoth("STPX", "STPBR", 3, command);
  }

  lemma NotBoth(a: string, b: string, i: nat, s: string)
    requires i < |a| && i < |b| && a[i] != b[i]
    ensures !(a <= s && b <= s)
  {
  }

  lemma Longer(short: string, long: string, s: string)
    requires short <= long
    ensures long <= s ==> short <= s
  {
    if long <= s {
      assert s[..|short|] == long[..|short|];
    }
  }

  function TypedAll(commands: seq<string>): string {
    if commands == [] then "" else TypedAll(commands[..|commands| - 1]) + commands[|commands| - 1] + ['\r']
  }

  /** Carried to the vehicle: no `AT` command, and of the `ST` commands only `STPX`. */
  predicate ForVehicle(normalized: string) {
    "STPX" <= normalized || !("AT" <= normalized || "ST" <= normalized)
  }

  lemma VehicleExactly(c: string)
    ensures ForVehicle(c) <==> !IsAdapterCommand(c)
  {
    if "STPX" <= c {
      assert c[0] == 'S' && "ST" <= "STPX";
    }
  }

  /** The exchange is of this command, and up to it the recording had the bus and rate in effect that the
      commands sent have. */
  ghost predicate StandsOnBus(rec: Recording, i: nat, wanted: string, commands: seq<string>) {
    && i < |rec.exchanges| && Normalize(rec.exchanges[i].command) == wanted
    && (OnSecondary(Commands(rec)[..i + 1]) <==> OnSecondary(commands))
    && (forall r :: RateIs(Commands(rec)[..i + 1], r) <==> RateIs(commands, r))
  }

  ghost predicate Replied(rec: Recording, before: Playing, after: Playing, j: nat) {
    j < |rec.exchanges| && after.misses == before.misses && after.pending == before.pending + Queued(rec.exchanges[j].lines)
  }

  ghost predicate Missed(before: Playing, after: Playing, command: string) {
    after.misses == before.misses + [command] && after.pending == before.pending + Queued(["NO DATA"])
  }

  /** Whatever commands are sent, in whatever order. A request to the vehicle is answered from the
      recording only by an exchange before which the recording had the very header, bus and rate in effect
      that the commands sent have, and is missed exactly when there is none. A command to the adapter is
      missed only if it was never recorded, and answered from the same bus and rate where it was. */
  lemma LookupSafety(rec: Recording, commands: seq<string>)
    requires rec.mode == Lookup && commands != [] && forall i :: 0 <= i < |commands| ==> OneLine(commands[i])
    ensures var last, before, after := commands[|commands| - 1],
                Written(rec, FRESH, TypedAll(commands[..|commands| - 1])).0, Written(rec, FRESH, TypedAll(commands)).0;
            var wanted := Normalize(last);
            && InEffect(commands, after.live)
            && (ForVehicle(wanted) ==>
                 if i: nat :| Stands(rec, i, wanted, commands)
                 then exists j: nat :: Stands(rec, j, wanted, commands) && Replied(rec, before, after, j)
                 else Missed(before, after, last))
            && (!ForVehicle(wanted) ==>
                 if i: nat :| StandsOnBus(rec, i, wanted, commands)
                 then exists j: nat :: StandsOnBus(rec, j, wanted, commands) && Replied(rec, before, after, j)
                 else if i: nat :| i < |rec.exchanges| && rec.Wanted(i) == wanted
                 then exists j: nat :: j < |rec.exchanges| && rec.Wanted(j) == wanted && Replied(rec, before, after, j)
                 else Missed(before, after, last))
  {
    hide *;
    var last := commands[|commands| - 1];
    var before, after := Written(rec, FRESH, TypedAll(commands[..|commands| - 1])).0, Written(rec, FRESH, TypedAll(commands)).0;
    LookupContext(rec, commands);
    FollowedExactly(commands);
    VehicleExactly(Normalize(last));
    if ForVehicle(Normalize(last)) {
      AnsweredInContext(rec, before, after, last, commands);
    } else {
      AnsweredOnBus(rec, before, after, last, commands);
    }
  }

  lemma LookupContext(rec: Recording, commands: seq<string>)
    requires rec.mode == Lookup && commands != [] && forall i :: 0 <= i < |commands| ==> OneLine(commands[i])
    ensures var last, before, after := commands[|commands| - 1],
                Written(rec, FRESH, TypedAll(commands[..|commands| - 1])).0, Written(rec, FRESH, TypedAll(commands)).0;
            && after.live == ContextOf(commands)
            && match rec.Found(Normalize(last), ContextOf(commands))
               case Some(j) => Replied(rec, before, after, j)
               case None => Missed(before, after, last)
  {
    hide Normalize, Follow, Typed, Written, Replied, Missed, Recording.Found;
    var n := |commands| - 1;
    LookupRuns(rec, commands[..n]);
    var st := Written(rec, FRESH, TypedAll(commands[..n])).0;
    assert TypedAll(commands) == TypedAll(commands[..n]) + (commands[n] + ['\r']);
    WrittenAppend(rec, FRESH, TypedAll(commands[..n]), commands[n] + ['\r']);
    WrittenCommand(rec, st, commands[n]);
    TypedFound(rec, st, commands[n]);
  }

  lemma TypedFound(rec: Recording, st: Playing, command: string)
    requires rec.mode == Lookup && st.line == ""
    ensures var live := Follow(st.live, Normalize(command));
            var after := Typed(rec, st.(line := command)).0;
            && after.live == live
            && match rec.Found(Normalize(command), live)
               case Some(j) => Replied(rec, st, after, j)
               case None => Missed(st, after, command)
  {
    hide Normalize, Follow, Queued, IsAdapterCommand;
  }

  lemma AnsweredInContext(rec: Recording, before: Playing, after: Playing, last: string, commands: seq<string>)
    requires !IsAdapterCommand(Normalize(last))
    requires match rec.Found(Normalize(last), ContextOf(commands))
             case Some(j) => Replied(rec, before, after, j)
             case None => Missed(before, after, last)
    ensures if i: nat :| Stands(rec, i, Normalize(last), commands) then
              exists j: nat :: Stands(rec, j, Normalize(last), commands) && Replied(rec, before, after, j)
            else Missed(before, after, last)
  {
    hide Normalize, IsAdapterCommand, Stands, ContextOf, Replied, Missed, Recording.InContext;
    var wanted := Normalize(last);
    StandsInside(rec, wanted, commands);
    forall i: nat | i < |rec.exchanges|
      ensures Stands(rec, i, wanted, commands) <==> rec.InContext(i, wanted, ContextOf(commands))
    {
      StandsExactly(rec, i, wanted, commands);
    }
  }

  lemma BusExactly(rec: Recording, i: nat, wanted: string, commands: seq<string>)
    requires i < |rec.exchanges|
    ensures StandsOnBus(rec, i, wanted, commands) <==> rec.OnBus(i, wanted, ContextOf(commands))
  {
    hide Normalize, OnSecondary, RateIs, HeaderIs, ContextOf;
    RecordedContext(rec, i + 1);
    var x, y := Commands(rec)[..i + 1], commands;
    FollowedExactly(x);
    FollowedExactly(y);
    SameRate(ContextOf(x).rate, ContextOf(y).rate);
  }

  lemma SameRate(x: Option<string>, y: Option<string>)
    ensures (forall r :: x == Some(r) <==> y == Some(r)) <==> x == y
  {
    assert x.Some? ==> x == Some(x.value);
    assert y.Some? ==> y == Some(y.value);
  }

  lemma AnsweredOnBus(rec: Recording, before: Playing, after: Playing, last: string, commands: seq<string>)
    requires IsAdapterCommand(Normalize(last))
    requires match rec.Found(Normalize(last), ContextOf(commands))
             case Some(j) => Replied(rec, before, after, j)
             case None => Missed(before, after, last)
    ensures var wanted := Normalize(last);
            if i: nat :| StandsOnBus(rec, i, wanted, commands)
            then exists j: nat :: StandsOnBus(rec, j, wanted, commands) && Replied(rec, before, after, j)
            else if i: nat :| i < |rec.exchanges| && rec.Wanted(i) == wanted
            then exists j: nat :: j < |rec.exchanges| && rec.Wanted(j) == wanted && Replied(rec, before, after, j)
            else Missed(before, after, last)
  {
    hide Normalize, IsAdapterCommand, StandsOnBus, ContextOf, Replied, Missed, Recording.OnBus;
    var wanted := Normalize(last);
    OnBusInside(rec, wanted, commands);
    forall i: nat | i < |rec.exchanges|
      ensures StandsOnBus(rec, i, wanted, commands) <==> rec.OnBus(i, wanted, ContextOf(commands))
    {
      BusExactly(rec, i, wanted, commands);
    }
  }

  lemma OnBusInside(rec: Recording, wanted: string, commands: seq<string>)
    ensures forall i: nat :: StandsOnBus(rec, i, wanted, commands) ==> i < |rec.exchanges|
  {
    hide OnSecondary, RateIs, Normalize;
  }

  lemma {:induction false} LookupRuns(rec: Recording, commands: seq<string>)
    requires rec.mode == Lookup && forall i :: 0 <= i < |commands| ==> OneLine(commands[i])
    ensures var (st, ok) := Written(rec, FRESH, TypedAll(commands)); ok && st.line == "" && st.live == ContextOf(commands)
  {
    hide Normalize, Follow, Queued, IsAdapterCommand;
    if commands != [] {
      var n := |commands| - 1;
      LookupRuns(rec, commands[..n]);
      var st := Written(rec, FRESH, TypedAll(commands[..n])).0;
      assert TypedAll(commands) == TypedAll(commands[..n]) + (commands[n] + ['\r']);
      WrittenAppend(rec, FRESH, TypedAll(commands[..n]), commands[n] + ['\r']);
      WrittenCommand(rec, st, commands[n]);
    }
  }
}
