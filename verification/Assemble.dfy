/** Printed lines back into one message per module (`assemble_can_with`, core/adapter/src/elm327.rs). */
module Assemble {
  import opened Wrappers
  import opened Text
  import opened Hex
  import opened Can
  import opened IsoTp
  import opened Protocols
  import opened FrameText

  datatype CutOff = CutOff(announced: nat, received: nat)

  datatype EcuMessage = EcuMessage(address: string, payload: seq<Byte>, rawLines: seq<string>, cutOff: Option<CutOff>)

  datatype Cut = Cut(payload: seq<Byte>, cutOff: CutOff)

  /** Everything known about one module's reply so far. */
  datatype Stream = Stream(rx: Receiver, raw: seq<string>, done: Option<seq<Byte>>, cut: Option<Cut>)

  const NOTHING := Stream(FRESH, [], None, None)

  type Streams = map<string, Stream>

  function CutAt(rx: Receiver): Cut {
    Cut(rx.buffer, CutOff(rx.expectedLength, |rx.buffer|))
  }

  /** One line of one module. A stream that broke takes nothing more. */
  function StepStream(st: Stream, line: string, data: seq<Byte>, keepPartial: bool): Result<Stream, ErrorCode> {
    if st.cut.Some? then Success(st)
    else
      var seen := st.(raw := st.raw + [line]);
      match ParseFrame(data)
      case Failure(e) => if keepPartial then Success(seen) else Failure(e)
      case Success(frame) =>
        var (rx, outcome) := Feed(st.rx, frame);
        match outcome
        case Complete(payload) => Success(seen.(rx := rx, done := Some(payload)))
        case Failed(e) => if keepPartial && st.rx.active then Success(seen.(rx := rx, cut := Some(CutAt(st.rx)))) else Failure(e)
        case _ => Success(seen.(rx := rx))
  }

  function At(m: Streams, address: string): Stream {
    if address in m then m[address] else NOTHING
  }

  function StepLine(m: Streams, line: string, spaces: bool, protocol: ObdProtocol, keepPartial: bool): Result<Streams, ErrorCode> {
    match Decode(line, spaces, protocol)
    case Failure(e) => if keepPartial then Success(m) else Failure(e)
    case Success(d) =>
      match StepStream(At(m, d.address), line, d.data, keepPartial)
      case Failure(e) => Failure(e)
      case Success(st) => Success(m[d.address := st])
  }

  function FoldLines(lines: seq<string>, spaces: bool, protocol: ObdProtocol, keepPartial: bool): Result<Streams, ErrorCode> {
    if lines == [] then Success(map[])
    else
      match FoldLines(lines[..|lines| - 1], spaces, protocol, keepPartial)
      case Failure(e) => Failure(e)
      case Success(m) => StepLine(m, lines[|lines| - 1], spaces, protocol, keepPartial)
  }

  /** What a module's stream comes to: a cut takes the place of anything it finished before. */
  function Settle(st: Stream, keepPartial: bool): Option<Cut> {
    if keepPartial && st.rx.active then Some(CutAt(st.rx))
    else if st.cut.Some? then st.cut
    else if st.done.Some? then Some(Cut(st.done.value, CutOff(0, 0)))
    else None
  }

  predicate WasCut(st: Stream, keepPartial: bool) {
    (keepPartial && st.rx.active) || st.cut.Some?
  }

  function MessageOf(address: string, st: Stream, keepPartial: bool): (m: EcuMessage)
    requires Settle(st, keepPartial).Some?
  {
    var c := Settle(st, keepPartial).value;
    EcuMessage(address, c.payload, st.raw, if WasCut(st, keepPartial) then Some(c.cutOff) else None)
  }

  predicate Unfinished(st: Stream) {
    st.rx.active && st.done.None?
  }

  function Messages(m: Streams, keepPartial: bool): map<string, EcuMessage> {
    map a | a in m && Settle(m[a], keepPartial).Some? :: MessageOf(a, m[a], keepPartial)
  }

  /** The messages a reply holds, by address; an error when the strict form meets one. */
  function Assembled(lines: seq<string>, spaces: bool, protocol: ObdProtocol, keepPartial: bool): Result<map<string, EcuMessage>, ErrorCode> {
    match FoldLines(lines, spaces, protocol, keepPartial)
    case Failure(e) => Failure(e)
    case Success(m) =>
      if !keepPartial && exists a :: a in m && Unfinished(m[a]) then Failure(IsoTpError)
      else Success(Messages(m, keepPartial))
  }

  /** The messages in address order. */
  predicate IsListing(messages: seq<EcuMessage>, m: map<string, EcuMessage>) {
    && (forall i, j :: 0 <= i < j < |messages| ==> Less(messages[i].address, messages[j].address))
    && (forall i :: 0 <= i < |messages| ==> messages[i].address in m && m[messages[i].address] == messages[i])
    && (forall a :: a in m ==> exists i :: 0 <= i < |messages| && messages[i].address == a)
  }

  // ---- The procedure ----

  /** The procedure's four tables. */
  datatype Tables = Tables(
    receivers: map<string, Receiver>, raw: map<string, seq<string>>,
    done: map<string, seq<Byte>>, cut: map<string, Cut>)
  {
    predicate Valid() {
      receivers.Keys <= raw.Keys && done.Keys <= raw.Keys && cut.Keys <= raw.Keys
    }

    /** The tables read module by module. */
    function Abs(): Streams {
      map a | a in raw :: StreamOf(a)
    }

    function StreamOf(a: string): Stream {
      Stream(
        if a in receivers then receivers[a] else FRESH,
        if a in raw then raw[a] else [],
        if a in done then Some(done[a]) else None,
        if a in cut then Some(cut[a]) else None)
    }
  }

  /** The body of the loop over the lines. */
  method TakeLine(t: Tables, line: string, spaces: bool, protocol: ObdProtocol, keepPartial: bool) returns (r: Result<Tables, ErrorCode>)
    requires t.Valid()
    ensures r.Success? ==> r.value.Valid() && StepLine(t.Abs(), line, spaces, protocol, keepPartial) == Success(r.value.Abs())
    ensures r.Failure? ==> StepLine(t.Abs(), line, spaces, protocol, keepPartial) == Failure(r.error)
  {
    hide Decode, StepStream;
    var decoded := Decode(line, spaces, protocol);
    if decoded.Failure? {
      if keepPartial {
        return Success(t);
      }
      return Failure(decoded.error);
    }
    var address := decoded.value.address;
    StreamAt(t, address);
    r := TakeFrame(t, line, address, decoded.value.data, keepPartial);
  }

  method TakeFrame(t: Tables, line: string, address: string, data: seq<Byte>, keepPartial: bool) returns (r: Result<Tables, ErrorCode>)
    requires t.Valid()
    ensures var st := StepStream(t.StreamOf(address), line, data, keepPartial);
            && (r.Success? ==> r.value.Valid() && st.Success? && r.value.Abs() == t.Abs()[address := st.value])
            && (r.Failure? ==> st == Failure(r.error))
  {
    hide Feed, ParseFrame;
    if address in t.cut {
      StreamAt(t, address);
      assert t.Abs()[address := t.Abs()[address]] == t.Abs();
      return Success(t);
    }
    var seen := t.(raw := t.raw[address := (if address in t.raw then t.raw[address] else []) + [line]]);
    var parsed := ParseFrame(data);
    if parsed.Failure? {
      if keepPartial {
        AbsUpdate(t, seen, address);
        return Success(seen);
      }
      return Failure(parsed.error);
    }
    r := TakeOutcome(t, seen, address, parsed.value, keepPartial);
  }

  /** A frame fed to the module's receiver, and what came of it put away. */
  method TakeOutcome(t: Tables, seen: Tables, address: string, frame: Frame, keepPartial: bool) returns (r: Result<Tables, ErrorCode>)
    requires t.Valid() && address !in t.cut && address in seen.raw
    requires seen == t.(raw := t.raw[address := seen.raw[address]])
    ensures var st := seen.StreamOf(address);
            var (rx, outcome) := Feed(st.rx, frame);
            match outcome
            case Complete(payload) => Puts(t, address, r, st.(rx := rx, done := Some(payload)))
            case Failed(e) =>
              if keepPartial && st.rx.active then Puts(t, address, r, st.(rx := rx, cut := Some(CutAt(st.rx))))
              else r == Failure(e)
            case _ => Puts(t, address, r, st.(rx := rx))
  {
    hide Feed, CutAt, Tables.Abs, Tables.StreamOf;
    var rx := if address in t.receivers then t.receivers[address] else FRESH;
    HeldReceiver(seen, address);
    var (fed, outcome) := Feed(rx, frame);
    var next := seen.(receivers := seen.receivers[address := fed]);
    PutReceiver(t, seen, address, fed);
    match outcome {
      case Complete(payload) =>
        PutDone(t, seen, address, fed, payload);
        next := next.(done := next.done[address := payload]);
      case Failed(e) =>
        // What the receiver held is read before it rejects the frame and resets.
        if !keepPartial || !rx.active {
          return Failure(e);
        }
        PutCut(t, seen, address, fed, CutAt(rx));
        next := next.(cut := next.cut[address := CutAt(rx)]);
      case _ =>
    }
    return Success(next);
  }

  lemma HeldReceiver(t: Tables, a: string)
    ensures t.StreamOf(a).rx == if a in t.receivers then t.receivers[a] else FRESH
  {
  }

  lemma PutReceiver(t: Tables, seen: Tables, a: string, rx: Receiver)
    requires t.Valid() && a in seen.raw && seen == t.(raw := t.raw[a := seen.raw[a]])
    ensures var u := seen.(receivers := seen.receivers[a := rx]);
            u.Valid() && u.Abs() == t.Abs()[a := seen.StreamOf(a).(rx := rx)]
  {
    AbsUpdate(t, seen.(receivers := seen.receivers[a := rx]), a);
  }

  lemma PutDone(t: Tables, seen: Tables, a: string, rx: Receiver, payload: seq<Byte>)
    requires t.Valid() && a in seen.raw && seen == t.(raw := t.raw[a := seen.raw[a]])
    ensures var u := seen.(receivers := seen.receivers[a := rx], done := seen.done[a := payload]);
            u.Valid() && u.Abs() == t.Abs()[a := seen.StreamOf(a).(rx := rx, done := Some(payload))]
  {
    AbsUpdate(t, seen.(receivers := seen.receivers[a := rx], done := seen.done[a := payload]), a);
  }

  lemma PutCut(t: Tables, seen: Tables, a: string, rx: Receiver, cut: Cut)
    requires t.Valid() && a in seen.raw && seen == t.(raw := t.raw[a := seen.raw[a]])
    ensures var u := seen.(receivers := seen.receivers[a := rx], cut := seen.cut[a := cut]);
            u.Valid() && u.Abs() == t.Abs()[a := seen.StreamOf(a).(rx := rx, cut := Some(cut))]
  {
    AbsUpdate(t, seen.(receivers := seen.receivers[a := rx], cut := seen.cut[a := cut]), a);
  }

  /** The tables hold `st` for one module and are otherwise as before. */
  ghost predicate Puts(t: Tables, address: string, r: Result<Tables, ErrorCode>, st: Stream) {
    r.Success? && r.value.Valid() && r.value.Abs() == t.Abs()[address := st]
  }

  lemma StreamAt(t: Tables, a: string)
    requires t.Valid()
    ensures At(t.Abs(), a) == t.StreamOf(a)
    ensures a in t.Abs() <==> a in t.raw
  {
  }

  lemma AbsUpdate(t: Tables, u: Tables, a: string)
    requires u.raw.Keys == t.raw.Keys + {a}
    requires forall b :: b != a ==> u.StreamOf(b) == t.StreamOf(b)
    ensures u.Abs() == t.Abs()[a := u.StreamOf(a)]
  {
  }

  method AssembleCanWith(lines: seq<string>, spaces: bool, protocol: ObdProtocol, keepPartial: bool)
    returns (r: Result<seq<EcuMessage>, ErrorCode>)
    ensures r.Success? ==>
              && Assembled(lines, spaces, protocol, keepPartial).Success?
              && IsListing(r.value, Assembled(lines, spaces, protocol, keepPartial).value)
    ensures r.Failure? ==> Assembled(lines, spaces, protocol, keepPartial) == Failure(r.error)
  {
    hide StepLine, Messages, IsListing;
    var t := Tables(map[], map[], map[], map[]);
    assert t.Abs() == map[];
    for i := 0 to |lines|
      invariant t.Valid()
      invariant FoldLines(lines[..i], spaces, protocol, keepPartial) == Success(t.Abs())
    {
      assert lines[..i + 1][..i] == lines[..i];
      var next := TakeLine(t, lines[i], spaces, protocol, keepPartial);
      if next.Failure? {
        FailureStays(lines, i + 1, spaces, protocol, keepPartial);
        return Failure(next.error);
      }
      t := next.value;
    }
    assert lines[..|lines|] == lines;
    r := Finish(t, keepPartial);
  }

  /** An error met partway is the error of the whole. */
  lemma {:induction false} FailureStays(lines: seq<string>, i: nat, spaces: bool, protocol: ObdProtocol, keepPartial: bool)
    requires i <= |lines| && FoldLines(lines[..i], spaces, protocol, keepPartial).Failure?
    ensures FoldLines(lines, spaces, protocol, keepPartial) == FoldLines(lines[..i], spaces, protocol, keepPartial)
  {
    if i == |lines| {
      assert lines[..i] == lines;
    } else {
      assert lines[..|lines| - 1][..i] == lines[..i];
      FailureStays(lines[..|lines| - 1], i, spaces, protocol, keepPartial);
    }
  }

  /** Streams left open are errors or cut messages; then everything is listed in order. */
  method Finish(t: Tables, keepPartial: bool) returns (r: Result<seq<EcuMessage>, ErrorCode>)
    requires t.Valid()
    ensures r.Failure? <==> (!keepPartial && exists a :: a in t.Abs() && Unfinished(t.Abs()[a]))
    ensures r.Failure? ==> r.error == IsoTpError
    ensures r.Success? ==> IsListing(r.value, Messages(t.Abs(), keepPartial))
  {
    hide Tables.Abs, Messages, CutAt;
    StillOpen(t);
    var failed, cut := CutOpen(t, keepPartial);
    if failed {
      return Failure(IsoTpError);
    }
    var done := t.done - cut.Keys;
    SettledTables(t, cut, done, keepPartial);
    var messages := List(Listed(done, cut, t.raw));
    r := Success(messages);
  }

  predicate Open(t: Tables, a: string) {
    a in t.receivers && t.receivers[a].active && a !in t.done
  }

  lemma StillOpen(t: Tables)
    requires t.Valid()
    ensures (exists a :: a in t.Abs() && Unfinished(t.Abs()[a])) <==> exists a :: Open(t, a)
  {
    forall a ensures a in t.Abs() && Unfinished(t.Abs()[a]) <==> Open(t, a) {
    }
  }

  /** Streams still open: cut off, or an error in the strict form unless that module also finished one. */
  method CutOpen(t: Tables, keepPartial: bool) returns (failed: bool, cut: map<string, Cut>)
    ensures failed <==> !keepPartial && exists a :: Open(t, a)
    ensures !failed ==> cut.Keys == t.cut.Keys + set a | a in t.receivers && keepPartial && t.receivers[a].active
    ensures !failed ==> forall a :: a in cut ==>
              cut[a] == if a in t.receivers && keepPartial && t.receivers[a].active then CutAt(t.receivers[a]) else t.cut[a]
  {
    hide CutAt;
    cut := t.cut;
    var todo := t.receivers.Keys;
    while todo != {}
      invariant todo <= t.receivers.Keys
      invariant cut.Keys == t.cut.Keys + (set a | a in t.receivers && a !in todo && keepPartial && t.receivers[a].active)
      invariant forall a :: a in cut ==>
                  cut[a] == if a in t.receivers && a !in todo && keepPartial && t.receivers[a].active then CutAt(t.receivers[a]) else t.cut[a]
      invariant keepPartial || forall a :: a in t.receivers && a !in todo ==> !Open(t, a)
      decreases todo
    {
      var a :| a in todo;
      todo := todo - {a};
      var rx := t.receivers[a];
      if keepPartial {
        if rx.active {
          cut := cut[a := CutAt(rx)];
        }
        continue;
      }
      if rx.active && a !in t.done {
        assert Open(t, a);
        return true, cut;
      }
    }
    failed := false;
  }

  /** The finished tables as messages. */
  function Listed(done: map<string, seq<Byte>>, cut: map<string, Cut>, raw: map<string, seq<string>>): map<string, EcuMessage> {
    map a | a in done.Keys + cut.Keys ::
      EcuMessage(a, if a in cut then cut[a].payload else done[a], if a in raw then raw[a] else [],
                 if a in cut then Some(cut[a].cutOff) else None)
  }

  lemma SettledTables(t: Tables, cut: map<string, Cut>, done: map<string, seq<Byte>>, keepPartial: bool)
    requires t.Valid() && done == t.done - cut.Keys
    requires cut.Keys == t.cut.Keys + set a | a in t.receivers && keepPartial && t.receivers[a].active
    requires forall a :: a in cut ==>
               cut[a] == if a in t.receivers && keepPartial && t.receivers[a].active then CutAt(t.receivers[a]) else t.cut[a]
    ensures Listed(done, cut, t.raw) == Messages(t.Abs(), keepPartial)
  {
    hide CutAt, Tables.Abs, Tables.StreamOf;
    var l, m := Listed(done, cut, t.raw), Messages(t.Abs(), keepPartial);
    forall a
      ensures a in l <==> a in m
      ensures a in l ==> l[a] == m[a]
    {
      StreamAt(t, a);
      HeldStream(t, a);
    }
  }

  lemma HeldStream(t: Tables, a: string)
    ensures t.StreamOf(a).raw == if a in t.raw then t.raw[a] else []
    ensures t.StreamOf(a).rx == if a in t.receivers then t.receivers[a] else FRESH
    ensures t.StreamOf(a).done == if a in t.done then Some(t.done[a]) else None
    ensures t.StreamOf(a).cut == if a in t.cut then Some(t.cut[a]) else None
  {
  }

  /** Sorted by address. */
  method List(all: map<string, EcuMessage>) returns (messages: seq<EcuMessage>)
    requires forall a :: a in all ==> all[a].address == a
    ensures IsListing(messages, all)
  {
    hide Less;
    messages := [];
    var todo := all.Keys;
    while todo != {}
      invariant todo <= all.Keys
      invariant forall i, j :: 0 <= i < j < |messages| ==> Less(messages[i].address, messages[j].address)
      invariant forall i :: 0 <= i < |messages| ==> messages[i].address in all && all[messages[i].address] == messages[i]
      invariant forall i, a :: 0 <= i < |messages| && a in todo ==> Less(messages[i].address, a)
      invariant forall a :: a in all && a !in todo ==> Includes(messages, a)
      decreases todo
    {
      LeastExists(todo);
      var a :| a in todo && forall b :: b in todo && b != a ==> Less(a, b);
      forall b | Includes(messages, b) || b == a
        ensures Includes(messages + [all[a]], b)
      {
        IncludesMore(messages, all[a], b);
      }
      messages := messages + [all[a]];
      todo := todo - {a};
    }
  }

  ghost predicate Includes(messages: seq<EcuMessage>, a: string) {
    exists i :: 0 <= i < |messages| && messages[i].address == a
  }

  lemma IncludesMore(messages: seq<EcuMessage>, m: EcuMessage, a: string)
    requires Includes(messages, a) || a == m.address
    ensures Includes(messages + [m], a)
  {
    if a == m.address {
      assert (messages + [m])[|messages|].address == a;
    } else {
      var i :| 0 <= i < |messages| && messages[i].address == a;
      assert (messages + [m])[i].address == a;
    }
  }

  lemma {:induction false} LeastExists(s: set<string>)
    requires s != {}
    ensures exists a :: a in s && forall b :: b in s && b != a ==> Less(a, b)
    decreases |s|
  {
    var x :| x in s;
    if s == {x} {
      assert x in s && forall b :: b in s && b != x ==> Less(x, b);
    } else {
      var rest := s - {x};
      LeastExists(rest);
      var y :| y in rest && forall b :: b in rest && b != y ==> Less(y, b);
      LessTotal(x, y);
      if Less(x, y) {
        forall b | b in s && b != x
          ensures Less(x, b)
        {
          if b != y {
            LessTransitive(x, y, b);
          }
        }
        assert x in s;
      } else {
        assert y in s && forall b :: b in s && b != y ==> Less(y, b);
      }
    }
  }

  /** A table has one listing. */
  lemma {:induction false} ListingUnique(p: seq<EcuMessage>, q: seq<EcuMessage>, m: map<string, EcuMessage>)
    requires IsListing(p, m) && IsListing(q, m)
    ensures p == q
  {
    SamePrefix(p, q, m, |p|);
    SamePrefix(q, p, m, |q|);
    assert p == p[..|p|] && q == q[..|q|];
  }

  lemma {:induction false} SamePrefix(p: seq<EcuMessage>, q: seq<EcuMessage>, m: map<string, EcuMessage>, n: nat)
    requires IsListing(p, m) && IsListing(q, m) && n <= |p|
    ensures n <= |q| && p[..n] == q[..n]
  {
    hide Less;
    if n > 0 {
      SamePrefix(p, q, m, n - 1);
      SameNext(p, q, m, n - 1);
      assert p[..n] == p[..n - 1] + [p[n - 1]] && q[..n] == q[..n - 1] + [q[n - 1]];
    }
  }

  lemma SameNext(p: seq<EcuMessage>, q: seq<EcuMessage>, m: map<string, EcuMessage>, n: nat)
    requires IsListing(p, m) && IsListing(q, m) && n < |p| && n <= |q| && p[..n] == q[..n]
    ensures n < |q| && p[n] == q[n]
  {
    hide Less;
    assert p[n].address in m;
    var i :| 0 <= i < |q| && q[i].address == p[n].address;
    PositionBound(p, q, m, n, i);
    assert q[n].address in m;
    var j :| 0 <= j < |p| && p[j].address == q[n].address;
    PositionBound(q, p, m, n, j);
    if i != n && j != n {
      LessIrreflexive(p[n].address);
      LessTransitive(p[n].address, q[n].address, p[n].address);
      assert false;
    }
  }

  /** The same entry cannot stand earlier in the other listing than a prefix they share. */
  lemma PositionBound(p: seq<EcuMessage>, q: seq<EcuMessage>, m: map<string, EcuMessage>, n: nat, i: nat)
    requires IsListing(p, m) && IsListing(q, m)
    requires n < |p| && n <= |q| && p[..n] == q[..n] && i < |q| && q[i].address == p[n].address
    ensures i >= n && n < |q|
    ensures i > n ==> Less(q[n].address, p[n].address)
  {
    if i < n {
      assert p[i] == p[..n][i] == q[i];
      LessIrreflexive(p[n].address);
      assert false;
    }
  }
}
