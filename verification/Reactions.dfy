/** What the adapter makes of a reply it reads: whose it is, what it calls for, what it teaches
    (core/adapter/src/elm327.rs). */
module Reactions {
  import opened Wrappers
  import opened Hex
  import opened Protocols
  import opened Response
  import opened Conversation
  import opened Elm
  import opened Headers
  import opened Transports
  import opened Commands
  import opened ResponseWindow

  const PROBE := "0100"

  // ---- Replies read ----

  /** The n-th reply read was to this command and is understood so. */
  predicate ReadAt(heard: seq<Heard>, n: nat, command: string, reply: AdapterResponse) {
    n < |heard| && heard[n].command == command && reply == Understood(command, heard[n].text)
  }

  /** The n-th reply read told the adapter that this command was taken. */
  predicate AckedAt(heard: seq<Heard>, n: nat, command: string) {
    n < |heard| && heard[n].command == command && Understood(command, heard[n].text).classified.IsSuccess()
  }

  lemma AckedStill(before: seq<Heard>, after: seq<Heard>, n: nat, command: string)
    requires before <= after && n < |before|
    ensures AckedAt(before, n, command) <==> AckedAt(after, n, command)
  {
    assert after[n] == before[n];
  }

  /** This is what the adapter makes of a reply it read to this command, from a point on. */
  ghost predicate Says(heard: seq<Heard>, from: nat, command: string, reply: AdapterResponse) {
    exists i: nat :: from <= i && ReadAt(heard, i, command, reply)
  }

  lemma SaysStill(before: seq<Heard>, after: seq<Heard>, from: nat, earlier: nat, command: string, reply: AdapterResponse)
    requires Says(before, from, command, reply) && before <= after && earlier <= from
    ensures Says(after, earlier, command, reply)
  {
    hide Understood;
    var i: nat :| from <= i && ReadAt(before, i, command, reply);
    assert after[i] == before[i];
    assert ReadAt(after, i, command, reply);
  }

  /** A reply to the probe was read as success, or as failure. */
  ghost predicate Probed(heard: seq<Heard>, from: nat, answered: bool) {
    exists i: nat :: from <= i && ProbedAt(heard, i, answered)
  }

  predicate ProbedAt(heard: seq<Heard>, n: nat, answered: bool) {
    n < |heard| && heard[n].command == PROBE && Understood(PROBE, heard[n].text).classified.IsSuccess() == answered
  }

  lemma SaysProbed(heard: seq<Heard>, from: nat, reply: AdapterResponse)
    requires Says(heard, from, PROBE, reply)
    ensures Probed(heard, from, reply.classified.IsSuccess())
  {
    hide Understood;
    var i: nat :| from <= i && ReadAt(heard, i, PROBE, reply);
    assert ProbedAt(heard, i, reply.classified.IsSuccess());
  }

  lemma ProbedStill(before: seq<Heard>, after: seq<Heard>, from: nat, earlier: nat, answered: bool)
    requires Probed(before, from, answered) && before <= after && earlier <= from
    ensures Probed(after, earlier, answered)
  {
    hide Understood;
    var i: nat :| from <= i && ProbedAt(before, i, answered);
    assert after[i] == before[i];
    assert ProbedAt(after, i, answered);
  }

  /** A probe that brought data. */
  predicate IsAnswer(h: Heard) {
    h.command == PROBE && Understood(PROBE, h.text).classified == Data
  }

  /** How many probes brought data. */
  function Answers(heard: seq<Heard>): nat {
    |set i | 0 <= i < |heard| && IsAnswer(heard[i])|
  }

  /** How many probes were sent. */
  function Probes(asked: seq<string>): nat {
    if asked == [] then 0 else Probes(asked[..|asked| - 1]) + if asked[|asked| - 1] == PROBE then 1 else 0
  }

  lemma AnswersNext(before: seq<Heard>, h: Heard)
    ensures Answers(before + [h]) == Answers(before) + if IsAnswer(h) then 1 else 0
  {
    hide IsAnswer;
    var was := set i | 0 <= i < |before| && IsAnswer(before[i]);
    var all := before + [h];
    assert all[|before|] == h;
    assert (set i | 0 <= i < |all| && IsAnswer(all[i])) == was + if IsAnswer(h) then {|before|} else {};
  }

  lemma {:induction false} ProbesAppend(a: seq<string>, b: seq<string>)
    ensures Probes(a + b) == Probes(a) + Probes(b)
  {
    if b == [] {
      assert a + b == a;
    } else {
      assert (a + b)[..|a + b| - 1] == a + b[..|b| - 1];
      ProbesAppend(a, b[..|b| - 1]);
    }
  }

  lemma ProbesNext(before: seq<string>, command: string)
    ensures Probes(before + [command]) == Probes(before) + if command == PROBE then 1 else 0
  {
    assert (before + [command])[..|before|] == before;
  }

  lemma {:induction false} NotProbing(lines: seq<string>)
    requires PROBE !in lines
    ensures Probes(lines) == 0
  {
    if lines != [] {
      NotProbing(lines[..|lines| - 1]);
    }
  }

  /** The protocol a reply to `ATDPN` names. */
  function NamedProtocol(reply: AdapterResponse): ObdProtocol {
    if reply.lines == [] then Unknown else ParseProtocolNumber(reply.lines[0])
  }

  /** The device named this protocol, from a point on. */
  ghost predicate Learned(heard: seq<Heard>, from: nat, protocol: ObdProtocol) {
    exists i :: from <= i < |heard| && heard[i].command == "ATDPN" && protocol == NamedProtocol(Understood("ATDPN", heard[i].text))
  }

  lemma LearnedStill(before: seq<Heard>, after: seq<Heard>, from: nat, earlier: nat, protocol: ObdProtocol)
    requires before <= after && earlier <= from
    ensures Learned(before, from, protocol) ==> Learned(after, earlier, protocol)
  {
    hide Understood, NamedProtocol;
    if Learned(before, from, protocol) {
      var i :| from <= i < |before| && before[i].command == "ATDPN" && protocol == NamedProtocol(Understood("ATDPN", before[i].text));
      assert after[i] == before[i];
    }
  }

  /** A command that sets this header, or a part of it. */
  predicate SetsHeader(header: string, command: string) {
    command == "ATSH" + header || (|header| == 8 && (command == "ATCP" + header[..2] || command == "ATSH" + header[2..]))
  }

  /** The device was heard not to take this header. */
  ghost predicate Refused(heard: seq<Heard>, from: nat, header: string) {
    exists i: nat :: from <= i && RefusedAt(heard, i, header)
  }

  predicate RefusedAt(heard: seq<Heard>, n: nat, header: string) {
    n < |heard| && SetsHeader(header, heard[n].command) && !Understood(heard[n].command, heard[n].text).classified.IsSuccess()
  }

  lemma SaysRefused(heard: seq<Heard>, from: nat, earlier: nat, header: string, command: string, reply: AdapterResponse)
    requires Says(heard, from, command, reply) && !reply.classified.IsSuccess() && SetsHeader(header, command) && earlier <= from
    ensures Refused(heard, earlier, header)
  {
    hide Understood, SetsHeader;
    var i: nat :| from <= i && ReadAt(heard, i, command, reply);
    assert RefusedAt(heard, i, header);
  }

  lemma RefusedStill(before: seq<Heard>, after: seq<Heard>, from: nat, earlier: nat, header: string)
    requires Refused(before, from, header) && before <= after && earlier <= from
    ensures Refused(after, earlier, header)
  {
    hide Understood, SetsHeader;
    var i: nat :| from <= i && RefusedAt(before, i, header);
    assert after[i] == before[i];
    assert RefusedAt(after, i, header);
  }

  // ---- What a reply calls for ----

  /** When a first reply has been read: how many had been by then, and the window and the proven one. */
  datatype Turn = Turn(next: nat, windowMs: nat, proven: Option<nat>)

  /** What is written after a reply, and whether the command is sent again at the end of it. */
  datatype Reaction = Reaction(lines: seq<string>, again: bool)

  predicate Silent(c: ResponseClass) {
    c == NoData || c == Timeout
  }

  /** The line on whose acceptance it depends whether the command is sent again. */
  function Remedy(c: ResponseClass, window: string): string {
    match c case BufferFull => "ATWS" case BusError => "ATPC" case _ => window
  }

  /** An interrupted command is sent again; an overflow calls for a warm start and, if the device takes
      that, its settings and the command; a bus error, unless it is about the device's own command, for
      closing the protocol and, if taken, the command. Silence to a vehicle's command is followed by the
      window, if it moved, and the command if the device took that; data by the window if it moved. */
  function CalledFor(c: ResponseClass, at: bool, command: string, window: string, moved: bool, taken: bool,
                     restoring: seq<string>): Reaction
  {
    match c
    case Stopped => Reaction([command], true)
    case BufferFull => if taken then Reaction(["ATWS"] + restoring + [command], true) else Reaction(["ATWS"], false)
    case BusError =>
      if at then Reaction([], false) else if taken then Reaction(["ATPC", command], true) else Reaction(["ATPC"], false)
    case NoData => if at || !moved then Reaction([], false) else Retried(command, window, taken)
    case Timeout => if at || !moved then Reaction([], false) else Retried(command, window, taken)
    case Data => Reaction(if !at && moved then [window] else [], false)
    case _ => Reaction([], false)
  }

  function Retried(command: string, window: string, taken: bool): Reaction {
    if taken then Reaction([window, command], true) else Reaction([window], false)
  }

  /** What becomes of the window: data to a vehicle's command proves the one in effect, unless one is
      proven, and closes a quarter of the gap; silence doubles it up to a second, but only while none is
      proven and the caller waits longer than that, and data on the second try proves it. */
  predicate Taught(c: ResponseClass, at: bool, timeoutMs: nat, dataAgain: bool, before: Turn, windowMs: nat, proven: Option<nat>) {
    if !at && c == Data then
      && proven == Some(if before.proven.Some? then before.proven.value else before.windowMs)
      && windowMs - proven.value == 3 * (before.windowMs - proven.value) / 4
    else if !at && Silent(c) && before.proven.None? && 2 * before.windowMs < timeoutMs && 2 * before.windowMs <= 1000 then
      windowMs == 2 * before.windowMs && proven == if dataAgain then Some(windowMs) else None
    else if !at && Silent(c) && before.proven.None? && 1000 < timeoutMs && 1000 <= 2 * before.windowMs then
      windowMs == 1000 && proven == if dataAgain then Some(1000) else None
    else windowMs == before.windowMs && proven == before.proven
  }

  /** The reply returned is the last one read, and came after the first. */
  ghost predicate Resent<E>(heard: seq<Heard>, from: nat, command: string, r: Result<AdapterResponse, E>) {
    r.Success? ==> from < |heard| && ReadAt(heard, |heard| - 1, command, r.value)
  }

  lemma ResentSays<E>(heard: seq<Heard>, from: nat, command: string, r: Result<AdapterResponse, E>)
    requires Resent(heard, from, command, r) && r.Success?
    ensures Says(heard, from, command, r.value)
  {
    hide Understood;
    assert ReadAt(heard, |heard| - 1, command, r.value);
  }

  /** Exactly what comes of a first reply: the lines written after it, which reply is returned, and the
      window afterwards. */
  ghost predicate Reacted<E>(first: AdapterResponse, command: string, timeoutMs: nat, turn: Turn, since: seq<string>,
                             r: Result<AdapterResponse, E>, heard: seq<Heard>, windowMs: nat, proven: Option<nat>, restoring: seq<string>)
  {
    var at, c, window := IsAtCommand(command), first.classified, WindowLine(windowMs);
    var called := CalledFor(c, at, command, window, windowMs != turn.windowMs, AckedAt(heard, turn.next, Remedy(c, window)), restoring);
    && since == called.lines
    && (if called.again then Resent(heard, turn.next, command, r) else r == Success(first))
    && Taught(c, at, timeoutMs, called.again && r.Success? && r.value.classified == Data, turn, windowMs, proven)
  }

  lemma ReactedSays<E>(first: AdapterResponse, command: string, timeoutMs: nat, turn: Turn, since: seq<string>,
                       r: Result<AdapterResponse, E>, heard: seq<Heard>, windowMs: nat, proven: Option<nat>, restoring: seq<string>)
    requires Reacted(first, command, timeoutMs, turn, since, r, heard, windowMs, proven, restoring)
    requires r.Success? && 0 < turn.next && ReadAt(heard, turn.next - 1, command, first)
    ensures Says(heard, turn.next - 1, command, r.value)
  {
    hide Understood, CalledFor, Taught, IsAtCommand, WindowLine, AckedAt;
    if Resent(heard, turn.next, command, r) {
      ResentSays(heard, turn.next, command, r);
      SaysStill(heard, heard, turn.next, turn.next - 1, command, r.value);
    } else {
      assert ReadAt(heard, turn.next - 1, command, r.value);
    }
  }

  /** What may follow any first reply: nothing; the window moved, with the command again or not; the
      command again; a warm start and, if it worked, the settings and the command again; the protocol
      closed and, if that worked, the command again. */
  predicate Followed(since: seq<string>, command: string, window: string, restoring: seq<string>) {
    || since == [] || since == [window] || since == [window, command] || since == [command]
    || since == ["ATWS"] || since == ["ATWS"] + restoring + [command]
    || since == ["ATPC"] || since == ["ATPC", command]
  }

  lemma ReactedFollows<E>(first: AdapterResponse, command: string, timeoutMs: nat, turn: Turn, since: seq<string>,
                          r: Result<AdapterResponse, E>, heard: seq<Heard>, windowMs: nat, proven: Option<nat>, restoring: seq<string>)
    requires Reacted(first, command, timeoutMs, turn, since, r, heard, windowMs, proven, restoring)
    ensures Followed(since, command, WindowLine(windowMs), restoring)
  {
    hide Understood, Taught, IsAtCommand, WindowLine, AckedAt, Resent;
  }

  /** The command that sets the device's response window: counts of four milliseconds. */
  function WindowLine(windowMs: nat): string {
    "ATST" + Print(windowMs / ATST_RESOLUTION, 2)
  }

  /** The number in it is the window in fours, in hexadecimal and at least two digits. */
  lemma WindowLineReads(windowMs: nat)
    ensures var line := WindowLine(windowMs);
            |line| >= 6 && line[..4] == "ATST" && FromStrRadix16(line[4..]) == Some(windowMs / 4)
  {
    hide Print, FromStrRadix16;
    var line := WindowLine(windowMs);
    ParsePrint(windowMs / 4, 2);
    AtLeastTwo(windowMs / 4);
    assert line[4..] == Print(windowMs / 4, 2);
  }

  lemma AtLeastTwo(v: nat)
    ensures |Print(v, 2)| >= 2
  {
    assert |Print(v / 16, 1)| >= 1;
  }
}
