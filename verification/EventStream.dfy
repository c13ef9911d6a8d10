/** The flight-recorder stream: a backlog from the database, then a live subscription
    (apps/api/src/ws.rs, `run_event_stream`; core/session/src/store.rs). */
module EventStream {
  import opened Wrappers

  datatype Event = Event(session: string, seqNo: int, kind: string)

  datatype Message = Recorded(event: Event) | Hello(session: string, fromSeq: int) | Lagged(missed: nat, resumeAfter: int) | Failed

  /** What the select loop wakes up for: the client's side of the socket, or the subscription. */
  datatype Wake = FromClient(closes: bool) | Delivered(event: Event) | Missed(count: nat) | Ended

  const BACKLOG_LIMIT := 5000

  // ---- What the database answers ----

  predicate Wanted(e: Event, session: string, after: int) {
    e.session == session && e.seqNo > after
  }

  /** The session's events above a number, in the order given. */
  function Since(events: seq<Event>, session: string, after: int): seq<Event> {
    if events == [] then []
    else if Wanted(events[0], session, after) then [events[0]] + Since(events[1..], session, after)
    else Since(events[1..], session, after)
  }

  function Take<T>(s: seq<T>, n: nat): seq<T> {
    if |s| <= n then s else s[..n]
  }

  function LastSeq(events: seq<Event>, after: int): int {
    if events == [] then after else events[|events| - 1].seqNo
  }

  // ---- What the stream sends ----

  function AsMessages(events: seq<Event>): seq<Message> {
    if events == [] then [] else [Recorded(events[0])] + AsMessages(events[1..])
  }

  function Follow(session: string, last: int, wakes: seq<Wake>): seq<Message>
    decreases |wakes|
  {
    if wakes == [] then []
    else
      match wakes[0]
      case FromClient(closes) => if closes then [] else Follow(session, last, wakes[1..])
      case Delivered(e) =>
        if Wanted(e, session, last) then [Recorded(e)] + Follow(session, e.seqNo, wakes[1..])
        else Follow(session, last, wakes[1..])
      case Missed(n) => [Lagged(n, last)] + Follow(session, last, wakes[1..])
      case Ended => []
  }

  /** Everything the stream would send to a client that never goes away. */
  function Stream(session: string, after: int, known: bool, backlog: Option<seq<Event>>, wakes: seq<Wake>): seq<Message> {
    if !known || backlog.None? then [Failed]
    else
      var last := LastSeq(backlog.value, after);
      AsMessages(backlog.value) + ([Hello(session, last)] + Follow(session, last, wakes))
  }

  /** The losses the subscription reports before the client or the channel goes away. */
  function Losses(wakes: seq<Wake>): seq<nat> {
    if wakes == [] || wakes[0].Ended? || wakes[0] == FromClient(true) then []
    else (if wakes[0].Missed? then [wakes[0].count] else []) + Losses(wakes[1..])
  }

  function Reported(messages: seq<Message>): seq<nat> {
    if messages == [] then [] else (if messages[0].Lagged? then [messages[0].missed] else []) + Reported(messages[1..])
  }

  /** Every loss is reported to the client with its own count, once and in order. */
  lemma {:induction false} LossesReported(session: string, last: int, wakes: seq<Wake>)
    ensures Reported(Follow(session, last, wakes)) == Losses(wakes)
    decreases |wakes|
  {
    if wakes != [] {
      match wakes[0]
      case FromClient(closes) => LossesReported(session, last, wakes[1..]);
      case Delivered(e) => LossesReported(session, if Wanted(e, session, last) then e.seqNo else last, wakes[1..]);
      case Missed(n) => LossesReported(session, last, wakes[1..]);
      case Ended =>
    }
  }

  /** The client's socket: it takes `room` more messages before sending to it fails. */
  class Socket {
    var sent: seq<Message>
    var room: nat

    constructor (room: nat)
      ensures sent == [] && this.room == room
    {
      sent, this.room := [], room;
    }

    method Send(message: Message) returns (ok: bool)
      modifies this
      ensures ok == (old(room) > 0)
      ensures ok ==> sent == old(sent) + [message] && room == old(room) - 1
      ensures !ok ==> sent == old(sent) && room == old(room)
    {
      ok := room > 0;
      if ok {
        sent, room := sent + [message], room - 1;
      }
    }
  }

  /** The rest of a stream reaches the socket as far as there is room for it. */
  ghost predicate Sending(before: seq<Message>, all: seq<Message>, room: nat, sent: seq<Message>, left: seq<Message>, roomLeft: nat) {
    sent + Take(left, roomLeft) == before + Take(all, room)
  }

  lemma SendingNext(before: seq<Message>, all: seq<Message>, room: nat, sent: seq<Message>, m: Message, left: seq<Message>, roomLeft: nat)
    requires Sending(before, all, room, sent, [m] + left, roomLeft)
    ensures roomLeft > 0 ==> Sending(before, all, room, sent + [m], left, roomLeft - 1)
    ensures roomLeft == 0 ==> sent == before + Take(all, room)
  {
    if roomLeft > 0 {
      assert Take([m] + left, roomLeft) == [m] + Take(left, roomLeft - 1);
      assert sent + [m] + Take(left, roomLeft - 1) == sent + ([m] + Take(left, roomLeft - 1));
    } else {
      assert Take([m] + left, roomLeft) == [];
      assert sent + [] == sent;
    }
  }

  method SendBacklog(socket: Socket, backlog: seq<Event>, after: int, ghost next: seq<Message>) returns (ok: bool, last: int)
    modifies socket
    ensures ok ==> last == LastSeq(backlog, after)
    ensures ok ==> Sending(old(socket.sent), AsMessages(backlog) + next, old(socket.room), socket.sent, next, socket.room)
    ensures !ok ==> socket.sent == old(socket.sent) + Take(AsMessages(backlog) + next, old(socket.room))
  {
    hide Take;
    last := after;
    ghost var all := AsMessages(backlog) + next;
    for i := 0 to |backlog|
      invariant last == LastSeq(backlog[..i], after)
      invariant Sending(old(socket.sent), all, old(socket.room), socket.sent, AsMessages(backlog[i..]) + next, socket.room)
    {
      assert backlog[i..][0] == backlog[i] && backlog[i..][1..] == backlog[i + 1..];
      ghost var rest := AsMessages(backlog[i + 1..]) + next;
      assert AsMessages(backlog[i..]) + next == [Recorded(backlog[i])] + rest;
      SendingNext(old(socket.sent), all, old(socket.room), socket.sent, Recorded(backlog[i]), rest, socket.room);
      last := backlog[i].seqNo;
      ok := socket.Send(Recorded(backlog[i]));
      if !ok {
        return;
      }
    }
    assert backlog[..|backlog|] == backlog && backlog[|backlog|..] == [];
    assert AsMessages([]) + next == next;
    ok := true;
  }

  /** The live part: one message at a time until the client or the channel goes away. */
  method FollowLive(socket: Socket, session: string, from: int, wakes: seq<Wake>)
    modifies socket
    ensures socket.sent == old(socket.sent) + Take(Follow(session, from, wakes), old(socket.room))
  {
    hide Take;
    var last := from;
    ghost var all := Follow(session, from, wakes);
    for i := 0 to |wakes|
      invariant Sending(old(socket.sent), all, old(socket.room), socket.sent, Follow(session, last, wakes[i..]), socket.room)
    {
      assert wakes[i..][0] == wakes[i] && wakes[i..][1..] == wakes[i + 1..];
      ghost var rest := wakes[i + 1..];
      match wakes[i] {
        case FromClient(closes) =>
          if closes {
            SendingDone(old(socket.sent), all, old(socket.room), socket.sent, socket.room);
            return;
          }
        case Delivered(event) =>
          if event.session != session || event.seqNo <= last {
            continue;
          }
          last := event.seqNo;
          SendingNext(old(socket.sent), all, old(socket.room), socket.sent, Recorded(event), Follow(session, last, rest), socket.room);
          var ok := socket.Send(Recorded(event));
          if !ok {
            return;
          }
        case Missed(count) =>
          SendingNext(old(socket.sent), all, old(socket.room), socket.sent, Lagged(count, last), Follow(session, last, rest), socket.room);
          var ok := socket.Send(Lagged(count, last));
          if !ok {
            return;
          }
        case Ended =>
          SendingDone(old(socket.sent), all, old(socket.room), socket.sent, socket.room);
          return;
      }
    }
    assert wakes[|wakes|..] == [];
    SendingDone(old(socket.sent), all, old(socket.room), socket.sent, socket.room);
  }

  lemma SendingDone(before: seq<Message>, all: seq<Message>, room: nat, sent: seq<Message>, roomLeft: nat)
    requires Sending(before, all, room, sent, [], roomLeft)
    ensures sent == before + Take(all, room)
  {
    assert sent + Take([], roomLeft) == sent;
  }

  lemma SendingRest(before: seq<Message>, all: seq<Message>, room: nat, sent: seq<Message>, left: seq<Message>, roomLeft: nat, end: seq<Message>)
    requires Sending(before, all, room, sent, left, roomLeft) && end == sent + Take(left, roomLeft)
    ensures end == before + Take(all, room)
  {
  }

  /** The whole handler, on a session that is known or not and a database that answers or not. */
  method RunEventStream(socket: Socket, session: string, after: int, known: bool, backlog: Option<seq<Event>>, wakes: seq<Wake>)
    modifies socket
    ensures socket.sent == old(socket.sent) + Take(Stream(session, after, known, backlog, wakes), old(socket.room))
  {
    hide Follow;
    if !known || backlog.None? {
      var _ := socket.Send(Failed);
      return;
    }
    ghost var last := LastSeq(backlog.value, after);
    ghost var live := Follow(session, last, wakes);
    var ok, lastSeq := SendBacklog(socket, backlog.value, after, [Hello(session, last)] + live);
    if !ok {
      return;
    }
    ghost var all := AsMessages(backlog.value) + ([Hello(session, last)] + live);
    SendingNext(old(socket.sent), all, old(socket.room), socket.sent, Hello(session, last), live, socket.room);
    ok := socket.Send(Hello(session, lastSeq));
    if !ok {
      return;
    }
    label Greeted:
    FollowLive(socket, session, lastSeq, wakes);
    SendingRest(old(socket.sent), all, old(socket.room), old@Greeted(socket.sent), live, old@Greeted(socket.room), socket.sent);
  }

  // ---- The order of numbers ----

  /** Within a session, later events carry larger numbers. */
  ghost predicate Ordered(events: seq<Event>) {
    forall i, j :: 0 <= i < j < |events| && events[i].session == events[j].session ==> events[i].seqNo < events[j].seqNo
  }

  predicate Rising(events: seq<Event>, after: int) {
    events == [] || (events[0].seqNo > after && Rising(events[1..], events[0].seqNo))
  }

  lemma {:induction false} RisingIndexed(events: seq<Event>, after: int, j: nat)
    requires Rising(events, after) && j < |events|
    ensures events[j].seqNo > after && forall i :: 0 <= i < j ==> events[i].seqNo < events[j].seqNo
  {
    if j > 0 {
      RisingIndexed(events[1..], events[0].seqNo, j - 1);
      forall i | 0 <= i < j ensures events[i].seqNo < events[j].seqNo {
        assert i > 0 ==> events[i] == events[1..][i - 1];
      }
    }
  }

  function Events(messages: seq<Message>): seq<Event> {
    if messages == [] then []
    else if messages[0].Recorded? then [messages[0].event] + Events(messages[1..])
    else Events(messages[1..])
  }

  lemma {:induction false} EventsAppend(a: seq<Message>, b: seq<Message>)
    ensures Events(a + b) == Events(a) + Events(b)
  {
    if a == [] {
      assert a + b == b;
    } else {
      assert (a + b)[1..] == a[1..] + b;
      EventsAppend(a[1..], b);
    }
  }

  lemma {:induction false} EventsOf(events: seq<Event>)
    ensures Events(AsMessages(events)) == events
  {
    if events != [] {
      EventsOf(events[1..]);
      assert AsMessages(events)[1..] == AsMessages(events[1..]);
    }
  }

  lemma EventsCons(m: Message, rest: seq<Message>)
    ensures Events([m] + rest) == if m.Recorded? then [m.event] + Events(rest) else Events(rest)
  {
    assert ([m] + rest)[1..] == rest;
  }

  lemma RisingCons(e: Event, rest: seq<Event>, after: int)
    ensures Rising([e] + rest, after) <==> e.seqNo > after && Rising(rest, e.seqNo)
  {
    assert ([e] + rest)[1..] == rest;
  }

  /** Whatever is delivered, in whatever order, the live part sends rising numbers above the last. */
  lemma {:induction false} FollowRises(session: string, last: int, wakes: seq<Wake>)
    ensures Rising(Events(Follow(session, last, wakes)), last)
    decreases |wakes|
  {
    if wakes != [] {
      match wakes[0]
      case FromClient(closes) => FollowRises(session, last, wakes[1..]);
      case Delivered(e) =>
        if Wanted(e, session, last) {
          FollowRises(session, e.seqNo, wakes[1..]);
          EventsCons(Recorded(e), Follow(session, e.seqNo, wakes[1..]));
          RisingCons(e, Events(Follow(session, e.seqNo, wakes[1..])), last);
        } else {
          FollowRises(session, last, wakes[1..]);
        }
      case Missed(n) =>
        FollowRises(session, last, wakes[1..]);
        EventsCons(Lagged(n, last), Follow(session, last, wakes[1..]));
      case Ended =>
    }
  }

  lemma {:induction false} RisingAppend(a: seq<Event>, b: seq<Event>, after: int)
    requires Rising(a, after) && Rising(b, LastSeq(a, after))
    ensures Rising(a + b, after)
  {
    if a == [] {
      assert a + b == b;
    } else {
      assert (a + b)[1..] == a[1..] + b;
      RisingAppend(a[1..], b, a[0].seqNo);
    }
  }

  /** Whatever the channel delivers, a client is sent strictly rising numbers above the one it asked for. */
  lemma StreamRises(session: string, after: int, backlog: seq<Event>, wakes: seq<Wake>)
    requires Rising(backlog, after)
    ensures Rising(Events(Stream(session, after, true, Some(backlog), wakes)), after)
  {
    StreamEvents(session, after, backlog, wakes);
    FollowRises(session, LastSeq(backlog, after), wakes);
    RisingAppend(backlog, Events(Follow(session, LastSeq(backlog, after), wakes)), after);
  }

  lemma StreamEvents(session: string, after: int, backlog: seq<Event>, wakes: seq<Wake>)
    ensures Events(Stream(session, after, true, Some(backlog), wakes)) == backlog + Events(Follow(session, LastSeq(backlog, after), wakes))
  {
    hide Follow;
    var last := LastSeq(backlog, after);
    var live := Follow(session, last, wakes);
    EventsOf(backlog);
    EventsAppend(AsMessages(backlog), [Hello(session, last)] + live);
    EventsAppend([Hello(session, last)], live);
    assert Events([Hello(session, last)]) == [] by {
      assert [Hello(session, last)][1..] == [];
    }
    assert [] + Events(live) == Events(live);
  }

  // ---- Delivery in order ----

  function Deliveries(events: seq<Event>): seq<Wake> {
    if events == [] then [] else [Delivered(events[0])] + Deliveries(events[1..])
  }

  lemma {:induction false} SinceWanted(events: seq<Event>, session: string, after: int)
    ensures forall e :: e in Since(events, session, after) <==> e in events && Wanted(e, session, after)
  {
    if events != [] {
      SinceWanted(events[1..], session, after);
      assert events == [events[0]] + events[1..];
    }
  }

  lemma FollowDelivery(session: string, last: int, events: seq<Event>)
    requires events != []
    ensures Events(Follow(session, last, Deliveries(events)))
         == if Wanted(events[0], session, last) then [events[0]] + Events(Follow(session, events[0].seqNo, Deliveries(events[1..])))
            else Events(Follow(session, last, Deliveries(events[1..])))
  {
    var e := events[0];
    assert Deliveries(events)[0] == Delivered(e) && Deliveries(events)[1..] == Deliveries(events[1..]);
    EventsCons(Recorded(e), Follow(session, e.seqNo, Deliveries(events[1..])));
  }

  /** The live part sends every event of the session it is given exactly when they are given in rising
      order. Numbers are allocated under the database lock but published after it is released, so two
      writers can publish out of order; the earlier number is then dropped without a word. */
  lemma {:induction false} DeliveredExactly(session: string, last: int, events: seq<Event>)
    ensures Events(Follow(session, last, Deliveries(events))) == Since(events, session, last) <==> Rising(Since(events, session, last), last)
  {
    FollowRises(session, last, Deliveries(events));
    if Rising(Since(events, session, last), last) {
      DeliveredInOrder(session, last, events);
    }
  }

  lemma {:induction false} DeliveredInOrder(session: string, last: int, events: seq<Event>)
    requires Rising(Since(events, session, last), last)
    ensures Events(Follow(session, last, Deliveries(events))) == Since(events, session, last)
    decreases |events|
  {
    if events != [] {
      FollowDelivery(session, last, events);
      if Wanted(events[0], session, last) {
        RisingCons(events[0], Since(events[1..], session, last), last);
        SinceAbove(events[1..], session, last, events[0].seqNo);
        DeliveredInOrder(session, events[0].seqNo, events[1..]);
      } else {
        DeliveredInOrder(session, last, events[1..]);
      }
    }
  }

  lemma {:induction false} SinceAbove(events: seq<Event>, session: string, after: int, last: int)
    requires after <= last && Rising(Since(events, session, after), last)
    ensures Since(events, session, last) == Since(events, session, after)
  {
    if events != [] {
      if Wanted(events[0], session, after) {
        RisingCons(events[0], Since(events[1..], session, after), last);
        RisingFrom(Since(events[1..], session, after), events[0].seqNo, last);
      }
      SinceAbove(events[1..], session, after, last);
    }
  }

  lemma RisingFrom(events: seq<Event>, after: int, lower: int)
    requires Rising(events, after) && lower <= after
    ensures Rising(events, lower)
  {
  }

  // ---- The log and the backlog ----

  lemma {:induction false} SinceAppend(a: seq<Event>, b: seq<Event>, session: string, after: int)
    ensures Since(a + b, session, after) == Since(a, session, after) + Since(b, session, after)
  {
    if a == [] {
      assert a + b == b;
    } else {
      assert (a + b)[1..] == a[1..] + b;
      SinceAppend(a[1..], b, session, after);
    }
  }

  lemma {:induction false} SinceRaised(events: seq<Event>, session: string, after: int, last: int)
    requires after <= last
    ensures |Since(events, session, last)| <= |Since(events, session, after)|
  {
    if events != [] {
      SinceRaised(events[1..], session, after, last);
    }
  }

  lemma {:induction false} OrderedRises(events: seq<Event>, session: string, after: int)
    requires Ordered(events)
    ensures Rising(Since(events, session, after), after)
    decreases |events|
  {
    if events != [] {
      var rest := events[1..];
      assert Ordered(rest) by {
        assert forall i :: 0 <= i < |rest| ==> rest[i] == events[i + 1];
      }
      if Wanted(events[0], session, after) {
        OrderedRises(rest, session, events[0].seqNo);
        forall e | e in rest && e.session == session ensures e.seqNo > events[0].seqNo {
          var i :| 0 <= i < |rest| && rest[i] == e;
          assert events[i + 1] == e;
        }
        SinceSame(rest, session, after, events[0].seqNo);
        RisingCons(events[0], Since(rest, session, after), after);
      } else {
        OrderedRises(rest, session, after);
      }
    }
  }

  lemma {:induction false} SinceSame(events: seq<Event>, session: string, after: int, last: int)
    requires after <= last && forall e :: e in events && e.session == session ==> e.seqNo > last
    ensures Since(events, session, after) == Since(events, session, last)
  {
    if events != [] {
      assert events[0] in events && forall e :: e in events[1..] ==> e in events;
      SinceSame(events[1..], session, after, last);
    }
  }

  lemma {:induction false} RisingSplit(a: seq<Event>, b: seq<Event>, after: int)
    requires Rising(a + b, after)
    ensures Rising(a, after) && Rising(b, LastSeq(a, after))
  {
    if a == [] {
      assert a + b == b;
    } else {
      assert (a + b)[1..] == a[1..] + b;
      RisingSplit(a[1..], b, a[0].seqNo);
    }
  }

  /** The backlog read when `committed` events are in the database. */
  function Backlog(log: seq<Event>, committed: nat, session: string, after: int): seq<Event>
    requires committed <= |log|
  {
    Take(Since(log[..committed], session, after), BACKLOG_LIMIT)
  }

  /** The backlog is a prefix of all the session's events, and so are those before the subscription. */
  lemma BacklogPrefix(log: seq<Event>, committed: nat, session: string, after: int)
    requires committed <= |log|
    ensures Backlog(log, committed, session, after) <= Since(log, session, after)
    ensures Since(log[..committed], session, after) + Since(log[committed..], session, after) == Since(log, session, after)
  {
    assert log[..committed] + log[committed..] == log;
    SinceAppend(log[..committed], log[committed..], session, after);
  }

  /** Cutting a rising list of events at its `k`th. */
  lemma {:induction false} SinceCut(events: seq<Event>, session: string, after: int, last: int, k: nat)
    requires Rising(Since(events, session, after), after) && k <= |Since(events, session, after)| && after <= last
    requires if k == 0 then Rising(Since(events, session, after), last) else Since(events, session, after)[k - 1].seqNo == last
    ensures Since(events, session, last) == Since(events, session, after)[k..]
  {
    var all := Since(events, session, after);
    if k == 0 {
      SinceAbove(events, session, after, last);
    } else if Wanted(events[0], session, after) {
      var rest := Since(events[1..], session, after);
      RisingIndexed(all, after, k - 1);
      RisingCons(events[0], rest, after);
      RisingFrom(rest, events[0].seqNo, after);
      assert k > 1 ==> rest[k - 2] == all[k - 1] && all[0].seqNo < last;
      SinceCut(events[1..], session, after, last, k - 1);
      assert all[k..] == rest[k - 1..];
    } else {
      SinceCut(events[1..], session, after, last, k);
    }
  }

  /** A client that keeps up is sent every event of the session exactly when the backlog reaches as far as
      the subscription: no more than the limit had been published before it, and none of those was still
      missing from the database when the backlog was read. Subscribing first gives the second half. */
  lemma KeepingUpExactly(log: seq<Event>, subscribed: nat, committed: nat, session: string, after: int)
    requires Ordered(log) && subscribed <= |log| && committed <= |log|
    ensures var backlog := Backlog(log, committed, session, after);
            Events(Stream(session, after, true, Some(backlog), Deliveries(log[subscribed..]))) == Since(log, session, after)
            <==> |Since(log[..subscribed], session, after)| <= |backlog|
  {
    hide Since, Take, Follow, Rising, Ordered;
    var all := Since(log, session, after);
    var backlog := Backlog(log, committed, session, after);
    var last := LastSeq(backlog, after);
    var head, tail := Since(log[..subscribed], session, after), Since(log[subscribed..], session, after);
    BacklogPrefix(log, committed, session, after);
    BacklogPrefix(log, subscribed, session, after);
    OrderedRises(log, session, after);
    LastAbove(all, backlog, after);
    TailInOrder(log, subscribed, session, last);
    StreamEvents(session, after, backlog, Deliveries(log[subscribed..]));
    if |head| <= |backlog| {
      CutTail(log[subscribed..], session, after, head, tail, backlog);
      assert backlog + all[|backlog|..] == all;
    } else {
      SinceRaised(log[subscribed..], session, after, last);
    }
  }

  lemma LastAbove(all: seq<Event>, backlog: seq<Event>, after: int)
    requires Rising(all, after) && backlog <= all
    ensures after <= LastSeq(backlog, after)
  {
    if backlog != [] {
      RisingIndexed(all, after, |backlog| - 1);
    }
  }

  lemma TailInOrder(log: seq<Event>, subscribed: nat, session: string, last: int)
    requires Ordered(log) && subscribed <= |log|
    ensures Events(Follow(session, last, Deliveries(log[subscribed..]))) == Since(log[subscribed..], session, last)
  {
    var tail := log[subscribed..];
    assert Ordered(tail) by {
      assert forall i :: 0 <= i < |tail| ==> tail[i] == log[subscribed + i];
    }
    OrderedRises(tail, session, last);
    DeliveredInOrder(session, last, tail);
  }

  lemma CutTail(events: seq<Event>, session: string, after: int, head: seq<Event>, tail: seq<Event>, backlog: seq<Event>)
    requires tail == Since(events, session, after) && Rising(head + tail, after)
    requires backlog <= head + tail && |head| <= |backlog|
    ensures Since(events, session, LastSeq(backlog, after)) == (head + tail)[|backlog|..]
  {
    hide Since;
    var k := |backlog| - |head|;
    RisingSplit(head, tail, after);
    LastAbove(head + tail, backlog, after);
    LastAbove(head + tail, head, after);
    RisingFrom(tail, LastSeq(head, after), after);
    if k == 0 {
      assert backlog == head;
    } else {
      assert backlog[|backlog| - 1] == (head + tail)[|backlog| - 1] == tail[k - 1];
    }
    SinceCut(events, session, after, LastSeq(backlog, after), k);
    assert (head + tail)[|backlog|..] == tail[k..];
  }

  // ---- Falling behind ----

  /** What a subscription that has read the log up to `cursor` can be woken with: the next event, or word
      of how many it lost. */
  ghost predicate Walk(log: seq<Event>, cursor: nat, wakes: seq<Wake>)
    requires cursor <= |log|
    decreases |wakes|
  {
    wakes == [] ||
    match wakes[0]
    case FromClient(_) => Walk(log, cursor, wakes[1..])
    case Delivered(e) => cursor < |log| && log[cursor] == e && Walk(log, cursor + 1, wakes[1..])
    case Missed(n) => cursor + n <= |log| && Walk(log, cursor + n, wakes[1..])
    case Ended => true
  }

  /** An event was sent, or the client was told to read again from below it. */
  ghost predicate Accounted(log: seq<Event>, session: string, sent: seq<Message>, e: Event) {
    exists k :: 0 <= k < |sent| && (sent[k] == Recorded(e) || (sent[k].Lagged? && e in Since(log, session, sent[k].resumeAfter)))
  }

  ghost predicate CaughtUp(log: seq<Event>, cursor: nat, session: string, last: int)
    requires cursor <= |log|
  {
    forall i :: 0 <= i < cursor && log[i].session == session ==> log[i].seqNo <= last
  }

  /** In the live part, by the time an event is sent every earlier one is accounted for. */
  lemma {:induction false} FollowAccounts(log: seq<Event>, cursor: nat, session: string, last: int, wakes: seq<Wake>, i: nat, j: nat)
    requires Ordered(log) && cursor <= |log| && Walk(log, cursor, wakes) && CaughtUp(log, cursor, session, last)
    requires i < |log| && Wanted(log[i], session, last)
    requires j < |Follow(session, last, wakes)| && Follow(session, last, wakes)[j].Recorded?
    requires log[i].seqNo <= Follow(session, last, wakes)[j].event.seqNo
    ensures Accounted(log, session, Follow(session, last, wakes)[..j + 1], log[i])
    decreases |wakes|
  {
    hide Since;
    var out := Follow(session, last, wakes);
    match wakes[0]
    case FromClient(closes) => FollowAccounts(log, cursor, session, last, wakes[1..], i, j);
    case Delivered(e) =>
      if !Wanted(e, session, last) {
        FollowAccounts(log, cursor + 1, session, last, wakes[1..], i, j);
      } else if log[i].seqNo <= e.seqNo {
        assert i == cursor;
        assert out[..j + 1][0] == Recorded(log[i]);
      } else {
        assert j > 0;
        FollowAccounts(log, cursor + 1, session, e.seqNo, wakes[1..], i, j - 1);
        AccountedLater(log, session, out[0], out[1..], j, log[i]);
      }
    case Missed(n) =>
      SinceWanted(log, session, last);
      assert out[..j + 1][0] == Lagged(n, last);
  }

  lemma AccountedLater(log: seq<Event>, session: string, first: Message, rest: seq<Message>, j: nat, e: Event)
    requires 0 < j <= |rest| && Accounted(log, session, rest[..j], e)
    ensures Accounted(log, session, ([first] + rest)[..j + 1], e)
  {
    hide Since;
    var k :| 0 <= k < j && (rest[..j][k] == Recorded(e) || (rest[..j][k].Lagged? && e in Since(log, session, rest[..j][k].resumeAfter)));
    assert ([first] + rest)[..j + 1][k + 1] == rest[..j][k];
  }

  lemma {:induction false} AsMessagesAt(events: seq<Event>, k: nat)
    requires k < |events|
    ensures |AsMessages(events)| == |events| && AsMessages(events)[k] == Recorded(events[k])
  {
    if |events| > 1 {
      AsMessagesAt(events[1..], if k > 0 then k - 1 else 0);
    }
  }

  lemma {:induction false} AsMessagesLength(events: seq<Event>)
    ensures |AsMessages(events)| == |events|
  {
    if events != [] {
      AsMessagesLength(events[1..]);
    }
  }

  /** The backlog holds every event of the session up to its last. */
  lemma InBacklog(log: seq<Event>, committed: nat, session: string, after: int, i: nat) returns (p: nat)
    requires Ordered(log) && committed <= |log| && i < |log| && Wanted(log[i], session, after)
    requires log[i].seqNo <= LastSeq(Backlog(log, committed, session, after), after)
    ensures p < |Backlog(log, committed, session, after)| && Backlog(log, committed, session, after)[p] == log[i]
  {
    hide Since, Ordered, Take, Backlog;
    var all, backlog := Since(log, session, after), Backlog(log, committed, session, after);
    SinceWanted(log, session, after);
    p :| 0 <= p < |all| && all[p] == log[i];
    OrderedRises(log, session, after);
    BacklogPrefix(log, committed, session, after);
    if p >= |backlog| {
      RisingIndexed(all, after, p);
      assert false;
    }
  }

  lemma UpToSubscription(log: seq<Event>, subscribed: nat, committed: nat, session: string, after: int)
    requires Ordered(log) && subscribed <= |log| && committed <= |log|
    requires |Since(log[..subscribed], session, after)| <= |Backlog(log, committed, session, after)|
    ensures CaughtUp(log, subscribed, session, LastSeq(Backlog(log, committed, session, after), after))
  {
    hide Since, Ordered, Take, Backlog;
    var all, backlog := Since(log, session, after), Backlog(log, committed, session, after);
    var last := LastSeq(backlog, after);
    var head := Since(log[..subscribed], session, after);
    BacklogPrefix(log, committed, session, after);
    BacklogPrefix(log, subscribed, session, after);
    OrderedRises(log, session, after);
    LastAbove(all, backlog, after);
    forall i | 0 <= i < subscribed && log[i].session == session ensures log[i].seqNo <= last {
      if log[i].seqNo > after {
        SinceWanted(log[..subscribed], session, after);
        assert log[i] == log[..subscribed][i] && log[i] in log[..subscribed];
        assert log[i] in head;
        var p :| 0 <= p < |head| && head[p] == log[i];
        assert all[p] == log[i];
        RisingIndexed(all, after, |backlog| - 1);
      }
    }
  }

  lemma AccountedAfter(log: seq<Event>, session: string, first: seq<Message>, rest: seq<Message>, j: nat, e: Event)
    requires j <= |rest| && Accounted(log, session, rest[..j], e)
    ensures Accounted(log, session, (first + rest)[..|first| + j], e)
  {
    hide Since;
    var k :| 0 <= k < j && (rest[..j][k] == Recorded(e) || (rest[..j][k].Lagged? && e in Since(log, session, rest[..j][k].resumeAfter)));
    assert (first + rest)[..|first| + j][|first| + k] == rest[..j][k];
  }

  /** However far the client falls behind and wherever it stops: once it has been sent an event, every
      earlier event of the session it asked for was sent too, or it was told that it fell behind and to
      read again from a number below that event, and reading again from there returns it. */
  lemma NothingLost(log: seq<Event>, subscribed: nat, committed: nat, session: string, after: int, wakes: seq<Wake>, i: nat, j: nat)
    requires Ordered(log) && subscribed <= |log| && committed <= |log| && Walk(log, subscribed, wakes)
    requires |Since(log[..subscribed], session, after)| <= |Backlog(log, committed, session, after)|
    requires i < |log| && Wanted(log[i], session, after)
    requires var out := Stream(session, after, true, Some(Backlog(log, committed, session, after)), wakes);
             j < |out| && out[j].Recorded? && log[i].seqNo <= out[j].event.seqNo
    ensures Accounted(log, session, Stream(session, after, true, Some(Backlog(log, committed, session, after)), wakes)[..j + 1], log[i])
  {
    hide Since, Ordered, Take, Backlog, Walk, CaughtUp, Follow;
    var backlog := Backlog(log, committed, session, after);
    var out := Stream(session, after, true, Some(backlog), wakes);
    var last := LastSeq(backlog, after);
    AsMessagesLength(backlog);
    BacklogUpTo(log, committed, session, after, j);
    if log[i].seqNo <= last {
      var p := InBacklog(log, committed, session, after, i);
      AsMessagesAt(backlog, p);
      if j < |backlog| {
        AsMessagesAt(backlog, j);
        assert p <= j;
      }
      assert out[..j + 1][p] == Recorded(log[i]);
    } else {
      if j < |backlog| {
        AsMessagesAt(backlog, j);
        assert false;
      }
      UpToSubscription(log, subscribed, committed, session, after);
      var live := Follow(session, last, wakes);
      var first := AsMessages(backlog) + [Hello(session, last)];
      assert out == first + live;
      var k := j - |first|;
      assert out[|backlog|] == Hello(session, last);
      assert live[k] == out[j];
      FollowAccounts(log, subscribed, session, last, wakes, i, k);
      AccountedAfter(log, session, first, live, k + 1, log[i]);
    }
  }

  lemma BacklogUpTo(log: seq<Event>, committed: nat, session: string, after: int, j: nat)
    requires Ordered(log) && committed <= |log|
    ensures var backlog := Backlog(log, committed, session, after);
            j < |backlog| ==> backlog[j].seqNo <= LastSeq(backlog, after) && forall p :: j < p < |backlog| ==> backlog[j].seqNo < backlog[p].seqNo
  {
    hide Since, Ordered, Take, Backlog;
    var all, backlog := Since(log, session, after), Backlog(log, committed, session, after);
    BacklogPrefix(log, committed, session, after);
    OrderedRises(log, session, after);
    forall p | j < p < |backlog| ensures backlog[j].seqNo < backlog[p].seqNo {
      RisingIndexed(all, after, p);
    }
  }
}
