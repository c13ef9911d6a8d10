/** The simulated vehicle's memory: configuration records, fault memories and the cleared flag
    (simulator/src/vehicle.rs). */
module Vehicle {
  import opened Wrappers
  import opened Hex
  import opened EcuReplies

  type Payload = seq<Byte>

  /** How a module treats a write to one of its records. */
  datatype WriteBehaviour = Accept | Refuse | AcceptButIgnore

  datatype VirtualEcu = VirtualEcu(
    responseId: nat,
    name: string,
    readsIdentifiers: bool,
    reportsDtcs: bool,
    udsFaults: Option<seq<Payload>>,
    configRecords: map<nat, Payload>,
    configWrite: WriteBehaviour)

  /** What never changes: how the vehicle is addressed, and what its modules answer to the legislated
      services that only read, given how much time has passed and whether codes were cleared. */
  datatype Kind = Kind(kLine: bool, extended: bool, answers: bool, legislated: (VirtualEcu, Payload, nat, bool) -> Option<Payload>)
  {
    predicate Addresses(target: nat, ecu: VirtualEcu) {
      if kLine then target % 0x1000000 == 0x686AF1
      else if extended then target == 0x18DB33F1 || target == 0x18DA00F1 + (ecu.responseId % 0x100) * 0x100
      else target == 0x7DF || target == (if ecu.responseId >= 8 then ecu.responseId - 8 else 0)
    }

    function ReplyId(ecu: VirtualEcu): nat {
      if kLine then ecu.responseId % 0x100
      else if extended then 0x18DAF100 + ecu.responseId % 0x100
      else ecu.responseId
    }
  }

  /** A data identifier from its two bytes. */
  function Did(request: Payload): nat
    requires |request| >= 3
  {
    request[1] as nat * 0x100 + request[2] as nat
  }

  function Concat(lists: seq<Payload>): Payload {
    if lists == [] then [] else lists[0] + Concat(lists[1..])
  }

  // ---- One module's answer ----

  function ReadRecord(ecu: VirtualEcu, request: Payload): Payload {
    if |request| < 3 then [0x7F, 0x22, 0x13]
    else if Did(request) in ecu.configRecords then [0x62, request[1], request[2]] + ecu.configRecords[Did(request)]
    else if ecu.configRecords == map[] && !ecu.readsIdentifiers then [0x7F, 0x22, 0x11]
    else [0x7F, 0x22, 0x31]
  }

  function WriteRecord(ecu: VirtualEcu, request: Payload): Payload {
    if |request| < 3 then [0x7F, 0x2E, 0x13]
    else if ecu.configWrite == Refuse then [0x7F, 0x2E, 0x22]
    else if Did(request) !in ecu.configRecords then if ecu.configRecords == map[] then [0x7F, 0x2E, 0x11] else [0x7F, 0x2E, 0x31]
    else if |ecu.configRecords[Did(request)]| != |request| - 3 then [0x7F, 0x2E, 0x13]
    else [0x6E, request[1], request[2]]
  }

  function ClearFaults(ecu: VirtualEcu, request: Payload): Payload {
    if ecu.udsFaults.None? then [0x7F, 0x14, 0x11]
    else if |request| == 4 then [0x54]
    else [0x7F, 0x14, 0x13]
  }

  predicate LegislatedRead(service: Byte) {
    service == 0x01 || service == 0x02 || service == 0x03 || service == 0x06 || service == 0x07 || service == 0x09 || service == 0x0A
  }

  function Answer(kind: Kind, ecu: VirtualEcu, request: Payload, tick: nat, cleared: bool): Option<Payload>
    requires request != []
  {
    var service := request[0];
    if LegislatedRead(service) then kind.legislated(ecu, request, tick, cleared)
    else if service == 0x04 then if ecu.reportsDtcs then Some([0x44]) else None
    else if service == 0x3E then Some([0x7E, 0x00])
    else if service == 0x19 then
      if ecu.udsFaults.Some? then Some([0x59, 0x02, 0xFF] + Concat(ecu.udsFaults.value)) else Some([0x7F, 0x19, 0x11])
    else if service == 0x14 then Some(ClearFaults(ecu, request))
    else if service == 0x22 then Some(ReadRecord(ecu, request))
    else if service == 0x2E then Some(WriteRecord(ecu, request))
    else if ecu.reportsDtcs then Some([0x7F, service, 0x11])
    else None
  }

  /** What an answered request changes in the module that answered it. */
  function Apply(ecu: VirtualEcu, request: Payload, payload: Payload): VirtualEcu
    requires request != []
  {
    var written :=
      if request[0] == 0x2E && payload != [] && payload[0] == 0x6E && |request| >= 3 && ecu.configWrite == Accept then
        ecu.(configRecords := ecu.configRecords[Did(request) := request[3..]])
      else ecu;
    if request[0] == 0x14 && payload != [] && payload[0] == 0x54 then written.(udsFaults := Some([])) else written
  }

  // ---- One request to one bus ----

  datatype Request = Request(secondary: bool, target: nat, pdu: Payload)

  datatype State = State(primary: seq<VirtualEcu>, secondary: seq<VirtualEcu>, tick: nat, cleared: bool)
  {
    function Bus(second: bool): seq<VirtualEcu> {
      if second then secondary else primary
    }

    function WithBus(second: bool, ecus: seq<VirtualEcu>): State {
      if second then this.(secondary := ecus) else this.(primary := ecus)
    }
  }

  predicate Heard(kind: Kind, r: Request, ecu: VirtualEcu) {
    kind.answers && r.pdu != [] && kind.Addresses(r.target, ecu)
  }

  function AnswerOf(kind: Kind, ecu: VirtualEcu, r: Request, tick: nat, cleared: bool): Option<Payload> {
    if Heard(kind, r, ecu) then Answer(kind, ecu, r.pdu, tick, cleared) else None
  }

  function EcuAfter(kind: Kind, ecu: VirtualEcu, r: Request, tick: nat, cleared: bool): VirtualEcu {
    var a := AnswerOf(kind, ecu, r, tick, cleared);
    if a.Some? then Apply(ecu, r.pdu, a.value) else ecu
  }

  function EcusAfter(kind: Kind, ecus: seq<VirtualEcu>, r: Request, tick: nat, cleared: bool): seq<VirtualEcu> {
    seq(|ecus|, i requires 0 <= i < |ecus| => EcuAfter(kind, ecus[i], r, tick, cleared))
  }

  function ReplyOf(kind: Kind, ecu: VirtualEcu, r: Request, tick: nat, cleared: bool): seq<EcuReply> {
    var a := AnswerOf(kind, ecu, r, tick, cleared);
    if a.Some? then [EcuReply(kind.ReplyId(ecu), a.value)] else []
  }

  function Replies(kind: Kind, ecus: seq<VirtualEcu>, r: Request, tick: nat, cleared: bool): seq<EcuReply> {
    if ecus == [] then []
    else
      var n := |ecus| - 1;
      Replies(kind, ecus[..n], r, tick, cleared) + ReplyOf(kind, ecus[n], r, tick, cleared)
  }

  function Handle(kind: Kind, s: State, r: Request): (State, seq<EcuReply>) {
    var ecus := s.Bus(r.secondary);
    var replies := Replies(kind, ecus, r, s.tick + 1, s.cleared);
    var after := s.WithBus(r.secondary, EcusAfter(kind, ecus, r, s.tick + 1, s.cleared)).(tick := s.tick + 1);
    (after.(cleared := s.cleared || (r.pdu != [] && r.pdu[0] == 0x04 && replies != [])), replies)
  }

  class VirtualVehicle {
    const kind: Kind
    var ecus: seq<VirtualEcu>
    var secondaryEcus: seq<VirtualEcu>
    var tick: nat
    var dtcsCleared: bool

    ghost function Now(): State
      reads this
    {
      State(ecus, secondaryEcus, tick, dtcsCleared)
    }

    constructor (kind: Kind, ecus: seq<VirtualEcu>, secondaryEcus: seq<VirtualEcu>)
      ensures this.kind == kind && Now() == State(ecus, secondaryEcus, 0, false)
    {
      this.kind, this.ecus, this.secondaryEcus, tick, dtcsCleared := kind, ecus, secondaryEcus, 0, false;
    }

    /** A request put to one bus: its list of modules is moved out, answered and moved back. */
    method HandleOnBus(r: Request) returns (replies: seq<EcuReply>)
      modifies this
      ensures (Now(), replies) == Handle(kind, old(Now()), r)
    {
      hide Answer, Apply, Kind.Addresses, EcusAfter, Replies;
      var taken := if r.secondary then secondaryEcus else ecus;
      var answered;
      replies, answered := AnswerFrom(taken, r);
      if r.secondary {
        secondaryEcus := answered;
      } else {
        ecus := answered;
      }
    }

    method AnswerFrom(given: seq<VirtualEcu>, r: Request) returns (replies: seq<EcuReply>, after: seq<VirtualEcu>)
      modifies this`tick, this`dtcsCleared
      ensures tick == old(tick) + 1
      ensures replies == Replies(kind, given, r, tick, old(dtcsCleared))
      ensures after == EcusAfter(kind, given, r, tick, old(dtcsCleared))
      ensures dtcsCleared == (old(dtcsCleared) || (r.pdu != [] && r.pdu[0] == 0x04 && replies != []))
    {
      hide EcuAfter, ReplyOf, Replies, EcusAfter;
      tick := tick + 1;
      after := given;
      replies := [];
      if !kind.answers || r.pdu == [] {
        Silent(kind, given, r, tick, dtcsCleared);
        return;
      }
      NoneYet(kind, r, tick, dtcsCleared);
      assert given[..0] == [] && after[..0] == [];
      for i := 0 to |given|
        invariant tick == old(tick) + 1 && dtcsCleared == old(dtcsCleared)
        invariant |after| == |given| && after[i..] == given[i..]
        invariant after[..i] == EcusAfter(kind, given[..i], r, tick, dtcsCleared)
        invariant replies == Replies(kind, given[..i], r, tick, dtcsCleared)
      {
        OneMore(kind, given, i, r, tick, dtcsCleared);
        assert after[i] == after[i..][0] == given[i];
        var changed, reply := AnswerOne(after[i], r);
        ghost var before := after;
        after := after[i := changed];
        replies := replies + reply;
        assert after[..i] == before[..i] && after[..i + 1] == after[..i] + [changed];
        assert after[i + 1..] == before[i..][1..] && given[i + 1..] == given[i..][1..];
      }
      assert given[..|given|] == given && after[..|given|] == after;
      if r.pdu[0] == 0x04 && replies != [] {
        dtcsCleared := true;
      }
    }

    /** One module of the list, when it is addressed. */
    method AnswerOne(ecu: VirtualEcu, r: Request) returns (changed: VirtualEcu, reply: seq<EcuReply>)
      requires kind.answers && r.pdu != []
      ensures changed == EcuAfter(kind, ecu, r, tick, dtcsCleared)
      ensures reply == ReplyOf(kind, ecu, r, tick, dtcsCleared)
    {
      hide Answer, Kind.Addresses, Kind.ReplyId;
      changed, reply := ecu, [];
      if kind.Addresses(r.target, ecu) {
        var answer := Answer(kind, ecu, r.pdu, tick, dtcsCleared);
        if answer.Some? {
          var payload := answer.value;
          if r.pdu[0] == 0x2E && payload != [] && payload[0] == 0x6E && |r.pdu| >= 3 && changed.configWrite == Accept {
            changed := changed.(configRecords := changed.configRecords[Did(r.pdu) := r.pdu[3..]]);
          }
          if r.pdu[0] == 0x14 && payload != [] && payload[0] == 0x54 {
            changed := changed.(udsFaults := Some([]));
          }
          reply := [EcuReply(kind.ReplyId(changed), answer.value)];
          KeepsReplyId(kind, ecu, r.pdu, answer.value);
        }
      }
    }
  }

  lemma NoneYet(kind: Kind, r: Request, tick: nat, cleared: bool)
    ensures EcusAfter(kind, [], r, tick, cleared) == [] && Replies(kind, [], r, tick, cleared) == []
  {
  }

  lemma OneMore(kind: Kind, ecus: seq<VirtualEcu>, i: nat, r: Request, tick: nat, cleared: bool)
    requires i < |ecus|
    ensures EcusAfter(kind, ecus[..i + 1], r, tick, cleared)
         == EcusAfter(kind, ecus[..i], r, tick, cleared) + [EcuAfter(kind, ecus[i], r, tick, cleared)]
    ensures Replies(kind, ecus[..i + 1], r, tick, cleared)
         == Replies(kind, ecus[..i], r, tick, cleared) + ReplyOf(kind, ecus[i], r, tick, cleared)
  {
    hide EcuAfter, ReplyOf;
    assert ecus[..i + 1][..i] == ecus[..i];
  }

  lemma KeepsReplyId(kind: Kind, ecu: VirtualEcu, pdu: Payload, payload: Payload)
    requires pdu != []
    ensures kind.ReplyId(Apply(ecu, pdu, payload)) == kind.ReplyId(ecu)
  {
  }

  lemma {:induction false} Silent(kind: Kind, ecus: seq<VirtualEcu>, r: Request, tick: nat, cleared: bool)
    requires !kind.answers || r.pdu == []
    ensures Replies(kind, ecus, r, tick, cleared) == [] && EcusAfter(kind, ecus, r, tick, cleared) == ecus
  {
    if ecus != [] {
      Silent(kind, ecus[..|ecus| - 1], r, tick, cleared);
    }
  }

  // ---- Runs ----

  function Run(kind: Kind, s: State, rs: seq<Request>): State {
    if rs == [] then s else Handle(kind, Run(kind, s, rs[..|rs| - 1]), rs[|rs| - 1]).0
  }

  /** Two states of one module: who it is, what it holds and how large the records are, never what is in
      them. */
  ghost predicate SameShape(a: VirtualEcu, b: VirtualEcu) {
    && a.responseId == b.responseId && a.name == b.name && a.readsIdentifiers == b.readsIdentifiers
    && a.reportsDtcs == b.reportsDtcs && a.configWrite == b.configWrite
    && a.udsFaults.None? == b.udsFaults.None?
    && a.configRecords.Keys == b.configRecords.Keys
    && forall d :: d in a.configRecords ==> |a.configRecords[d]| == |b.configRecords[d]|
  }

  /** A write that the module would carry out. */
  predicate Writes(kind: Kind, ecu: VirtualEcu, r: Request, did: nat) {
    && Heard(kind, r, ecu) && r.pdu[0] == 0x2E && |r.pdu| >= 3 && Did(r.pdu) == did
    && ecu.configWrite == Accept && did in ecu.configRecords && |r.pdu| - 3 == |ecu.configRecords[did]|
  }

  /** A clear that the module would carry out. */
  predicate Clears(kind: Kind, ecu: VirtualEcu, r: Request) {
    Heard(kind, r, ecu) && r.pdu[0] == 0x14 && |r.pdu| == 4 && ecu.udsFaults.Some?
  }

  lemma StepRecords(kind: Kind, ecu: VirtualEcu, r: Request, tick: nat, cleared: bool, did: nat)
    requires did in ecu.configRecords
    ensures var after := EcuAfter(kind, ecu, r, tick, cleared);
            did in after.configRecords && after.configRecords[did] == if Writes(kind, ecu, r, did) then r.pdu[3..] else ecu.configRecords[did]
  {
    hide Kind.Addresses;
  }

  lemma StepShape(kind: Kind, ecu: VirtualEcu, r: Request, tick: nat, cleared: bool)
    ensures SameShape(ecu, EcuAfter(kind, ecu, r, tick, cleared))
  {
    hide Kind.Addresses;
    var after := EcuAfter(kind, ecu, r, tick, cleared);
    if after != ecu && r.pdu[0] == 0x2E {
      assert after.configRecords.Keys == ecu.configRecords.Keys + {Did(r.pdu)};
    }
  }

  lemma StepFaults(kind: Kind, ecu: VirtualEcu, r: Request, tick: nat, cleared: bool)
    ensures EcuAfter(kind, ecu, r, tick, cleared).udsFaults == if Clears(kind, ecu, r) then Some([]) else ecu.udsFaults
  {
    hide Kind.Addresses;
  }

  /** One request leaves a module who it was; it replaces one record by an accepted write for it, empties
      the fault memory by a well-formed clear, and changes nothing else. */
  lemma ModuleAfter(kind: Kind, ecu: VirtualEcu, r: Request, tick: nat, cleared: bool)
    ensures var after := EcuAfter(kind, ecu, r, tick, cleared);
            && SameShape(ecu, after)
            && after.udsFaults == (if Clears(kind, ecu, r) then Some([]) else ecu.udsFaults)
            && forall did :: did in ecu.configRecords ==>
                 after.configRecords[did] == if Writes(kind, ecu, r, did) then r.pdu[3..] else ecu.configRecords[did]
  {
    hide EcuAfter, Clears, Kind.Addresses;
    StepShape(kind, ecu, r, tick, cleared);
    StepFaults(kind, ecu, r, tick, cleared);
    forall did | did in ecu.configRecords
      ensures EcuAfter(kind, ecu, r, tick, cleared).configRecords[did] == if Writes(kind, ecu, r, did) then r.pdu[3..] else ecu.configRecords[did]
    {
      StepRecords(kind, ecu, r, tick, cleared, did);
    }
  }

  lemma SameShapeTrans(a: VirtualEcu, b: VirtualEcu, c: VirtualEcu)
    requires SameShape(a, b) && SameShape(b, c)
    ensures SameShape(a, c)
  {
  }

  lemma HandleEcu(kind: Kind, s: State, r: Request, second: bool, i: nat)
    requires i < |s.Bus(second)|
    ensures var after := Handle(kind, s, r).0.Bus(second);
            && |after| == |s.Bus(second)|
            && after[i] == if r.secondary == second then EcuAfter(kind, s.Bus(second)[i], r, s.tick + 1, s.cleared) else s.Bus(second)[i]
  {
    hide EcuAfter, Replies;
  }

  /** Over every sequence of requests on either bus, no module is added, removed or re-addressed, none
      gains or loses an identifier or a fault memory, and no record changes its length. */
  lemma {:induction false} ShapeKept(kind: Kind, s: State, rs: seq<Request>, second: bool, i: nat)
    requires i < |s.Bus(second)|
    ensures |Run(kind, s, rs).Bus(second)| == |s.Bus(second)| && SameShape(s.Bus(second)[i], Run(kind, s, rs).Bus(second)[i])
  {
    hide Handle, SameShape;
    if rs == [] {
      ShapeReflexive(s.Bus(second)[i]);
    } else {
      var n := |rs| - 1;
      ShapeKept(kind, s, rs[..n], second, i);
      var before := Run(kind, s, rs[..n]);
      HandleEcu(kind, before, rs[n], second, i);
      ShapeReflexive(before.Bus(second)[i]);
      StepShape(kind, before.Bus(second)[i], rs[n], before.tick + 1, before.cleared);
      SameShapeTrans(s.Bus(second)[i], before.Bus(second)[i], Run(kind, s, rs).Bus(second)[i]);
    }
  }

  lemma ShapeReflexive(ecu: VirtualEcu)
    ensures SameShape(ecu, ecu)
  {
  }

  /** The last value a module accepted for an identifier, else the one it started with. It looks only at
      the module as it was at the start and at the requests on its own bus. */
  function LastWritten(kind: Kind, ecu: VirtualEcu, second: bool, rs: seq<Request>, did: nat): Payload
    requires did in ecu.configRecords
  {
    if rs == [] then ecu.configRecords[did]
    else
      var r := rs[|rs| - 1];
      if r.secondary == second && Writes(kind, ecu, r, did) then r.pdu[3..] else LastWritten(kind, ecu, second, rs[..|rs| - 1], did)
  }

  lemma WritesShape(kind: Kind, a: VirtualEcu, b: VirtualEcu, r: Request, did: nat)
    requires SameShape(a, b)
    ensures Writes(kind, a, r, did) == Writes(kind, b, r, did) && Clears(kind, a, r) == Clears(kind, b, r)
    ensures Heard(kind, r, a) == Heard(kind, r, b) && kind.ReplyId(a) == kind.ReplyId(b)
  {
  }

  /** Every record holds the last accepted write to it. */
  lemma {:induction false} RecordsAfter(kind: Kind, s: State, rs: seq<Request>, second: bool, i: nat, did: nat)
    requires i < |s.Bus(second)| && did in s.Bus(second)[i].configRecords
    ensures |Run(kind, s, rs).Bus(second)| == |s.Bus(second)|
    ensures did in Run(kind, s, rs).Bus(second)[i].configRecords
    ensures Run(kind, s, rs).Bus(second)[i].configRecords[did] == LastWritten(kind, s.Bus(second)[i], second, rs, did)
  {
    hide Handle, SameShape, Writes;
    if rs != [] {
      var n := |rs| - 1;
      RecordsAfter(kind, s, rs[..n], second, i, did);
      ShapeKept(kind, s, rs[..n], second, i);
      var before := Run(kind, s, rs[..n]);
      HandleEcu(kind, before, rs[n], second, i);
      StepRecords(kind, before.Bus(second)[i], rs[n], before.tick + 1, before.cleared, did);
      WritesShape(kind, s.Bus(second)[i], before.Bus(second)[i], rs[n], did);
    }
  }

  /** A module that refuses, or says yes and changes nothing, keeps what it started with. */
  lemma {:induction false} OnlyAcceptChanges(kind: Kind, ecu: VirtualEcu, second: bool, rs: seq<Request>, did: nat)
    requires did in ecu.configRecords && ecu.configWrite != Accept
    ensures LastWritten(kind, ecu, second, rs, did) == ecu.configRecords[did]
  {
    if rs != [] {
      OnlyAcceptChanges(kind, ecu, second, rs[..|rs| - 1], did);
    }
  }

  lemma {:induction false} ReplyListed(kind: Kind, ecus: seq<VirtualEcu>, i: nat, r: Request, tick: nat, cleared: bool)
    requires i < |ecus| && AnswerOf(kind, ecus[i], r, tick, cleared).Some?
    ensures EcuReply(kind.ReplyId(ecus[i]), AnswerOf(kind, ecus[i], r, tick, cleared).value) in Replies(kind, ecus, r, tick, cleared)
  {
    hide AnswerOf;
    if i < |ecus| - 1 {
      ReplyListed(kind, ecus[..|ecus| - 1], i, r, tick, cleared);
    }
  }

  /** After any requests, reading an identifier a module holds returns the last value it accepted. */
  lemma ReadReturnsLastWritten(kind: Kind, s: State, rs: seq<Request>, r: Request, i: nat)
    requires i < |s.Bus(r.secondary)| && Heard(kind, r, s.Bus(r.secondary)[i])
    requires |r.pdu| >= 3 && r.pdu[0] == 0x22 && Did(r.pdu) in s.Bus(r.secondary)[i].configRecords
    ensures var ecu := s.Bus(r.secondary)[i];
            EcuReply(kind.ReplyId(ecu), [0x62, r.pdu[1], r.pdu[2]] + LastWritten(kind, ecu, r.secondary, rs, Did(r.pdu)))
              in Handle(kind, Run(kind, s, rs), r).1
  {
    hide Kind.Addresses, SameShape, Run, Kind.ReplyId, Replies, LastWritten;
    var now := Run(kind, s, rs);
    RecordsAfter(kind, s, rs, r.secondary, i, Did(r.pdu));
    ShapeKept(kind, s, rs, r.secondary, i);
    WritesShape(kind, s.Bus(r.secondary)[i], now.Bus(r.secondary)[i], r, 0);
    ReadAnswered(kind, now.Bus(r.secondary)[i], r, now.tick + 1, now.cleared);
    ReplyListed(kind, now.Bus(r.secondary), i, r, now.tick + 1, now.cleared);
  }

  lemma ReadAnswered(kind: Kind, ecu: VirtualEcu, r: Request, tick: nat, cleared: bool)
    requires Heard(kind, r, ecu) && |r.pdu| >= 3 && r.pdu[0] == 0x22 && Did(r.pdu) in ecu.configRecords
    ensures AnswerOf(kind, ecu, r, tick, cleared) == Some([0x62, r.pdu[1], r.pdu[2]] + ecu.configRecords[Did(r.pdu)])
  {
  }

  /** A positive answer to a write means the value will be read back exactly when the module accepts. */
  lemma PositiveIsNotProof(kind: Kind, ecu: VirtualEcu, r: Request, tick: nat, cleared: bool)
    requires Heard(kind, r, ecu) && |r.pdu| >= 3 && r.pdu[0] == 0x2E
    requires AnswerOf(kind, ecu, r, tick, cleared) == Some([0x6E, r.pdu[1], r.pdu[2]])
    ensures Did(r.pdu) in EcuAfter(kind, ecu, r, tick, cleared).configRecords
    ensures (EcuAfter(kind, ecu, r, tick, cleared).configRecords[Did(r.pdu)] == r.pdu[3..])
       <==> (ecu.configWrite == Accept || ecu.configRecords[Did(r.pdu)] == r.pdu[3..])
  {
    hide Kind.Addresses, Concat;
  }

  /** A fault memory is emptied exactly by a well-formed clear that its module hears; a module without one
      never gains one. */
  lemma {:induction false} FaultsAfter(kind: Kind, s: State, rs: seq<Request>, second: bool, i: nat)
    requires i < |s.Bus(second)|
    ensures |Run(kind, s, rs).Bus(second)| == |s.Bus(second)|
    ensures Run(kind, s, rs).Bus(second)[i].udsFaults
         == if exists k :: 0 <= k < |rs| && rs[k].secondary == second && Clears(kind, s.Bus(second)[i], rs[k]) then Some([])
            else s.Bus(second)[i].udsFaults
  {
    hide Handle, SameShape, Clears;
    if rs != [] {
      var n := |rs| - 1;
      FaultsAfter(kind, s, rs[..n], second, i);
      ShapeKept(kind, s, rs[..n], second, i);
      var before := Run(kind, s, rs[..n]);
      HandleEcu(kind, before, rs[n], second, i);
      StepFaults(kind, before.Bus(second)[i], rs[n], before.tick + 1, before.cleared);
      WritesShape(kind, s.Bus(second)[i], before.Bus(second)[i], rs[n], 0);
      assert forall k :: 0 <= k < n ==> rs[..n][k] == rs[k];
    }
  }

  /** Four bytes a fault. */
  function ReadFaults(bytes: Payload): seq<Payload> {
    if |bytes| < 4 then [] else [bytes[..4]] + ReadFaults(bytes[4..])
  }

  lemma {:induction false} FaultsApart(faults: seq<Payload>)
    requires forall k :: 0 <= k < |faults| ==> |faults[k]| == 4
    ensures ReadFaults(Concat(faults)) == faults
  {
    if faults != [] {
      var rest := Concat(faults[1..]);
      FaultsApart(faults[1..]);
      assert (faults[0] + rest)[..4] == faults[0] && (faults[0] + rest)[4..] == rest;
    }
  }

  /** After any requests, reading a fault memory gives the faults it started with, or none once it heard a
      well-formed clear; a module without one says so. */
  lemma FaultsReadBack(kind: Kind, s: State, rs: seq<Request>, r: Request, i: nat)
    requires i < |s.Bus(r.secondary)| && Heard(kind, r, s.Bus(r.secondary)[i]) && r.pdu[0] == 0x19
    requires s.Bus(r.secondary)[i].udsFaults.Some? ==>
               forall k :: 0 <= k < |s.Bus(r.secondary)[i].udsFaults.value| ==> |s.Bus(r.secondary)[i].udsFaults.value[k]| == 4
    ensures |Run(kind, s, rs).Bus(r.secondary)| == |s.Bus(r.secondary)|
    ensures var ecu, now := s.Bus(r.secondary)[i], Run(kind, s, rs);
            var answer := AnswerOf(kind, now.Bus(r.secondary)[i], r, now.tick + 1, now.cleared);
            && answer.Some? && EcuReply(kind.ReplyId(ecu), answer.value) in Handle(kind, now, r).1
            && (ecu.udsFaults.None? ==> answer.value == [0x7F, 0x19, 0x11])
            && (ecu.udsFaults.Some? ==>
                 && |answer.value| >= 3 && answer.value[..3] == [0x59, 0x02, 0xFF]
                 && ReadFaults(answer.value[3..])
                    == if exists k :: 0 <= k < |rs| && rs[k].secondary == r.secondary && Clears(kind, ecu, rs[k]) then [] else ecu.udsFaults.value)
  {
    hide Kind.Addresses, SameShape, Run, Kind.ReplyId, Replies, Clears, Concat, ReadFaults, AnswerOf;
    var ecu, now := s.Bus(r.secondary)[i], Run(kind, s, rs);
    FaultsAfter(kind, s, rs, r.secondary, i);
    ShapeKept(kind, s, rs, r.secondary, i);
    WritesShape(kind, ecu, now.Bus(r.secondary)[i], r, 0);
    FaultsAnswered(kind, now.Bus(r.secondary)[i], r, now.tick + 1, now.cleared);
    ReplyListed(kind, now.Bus(r.secondary), i, r, now.tick + 1, now.cleared);
    forall k | 0 <= k < |rs| && ecu.udsFaults.None?
      ensures !Clears(kind, ecu, rs[k])
    {
      NothingToClear(kind, ecu, rs[k]);
    }
    if ecu.udsFaults.Some? {
      var held := now.Bus(r.secondary)[i].udsFaults.value;
      FaultsApart(held);
      assert ([0x59, 0x02, 0xFF] + Concat(held))[3..] == Concat(held);
    }
  }

  lemma NothingToClear(kind: Kind, ecu: VirtualEcu, r: Request)
    requires ecu.udsFaults.None?
    ensures !Clears(kind, ecu, r)
  {
  }

  lemma FaultsAnswered(kind: Kind, ecu: VirtualEcu, r: Request, tick: nat, cleared: bool)
    requires Heard(kind, r, ecu) && r.pdu[0] == 0x19
    ensures AnswerOf(kind, ecu, r, tick, cleared)
         == Some(if ecu.udsFaults.Some? then [0x59, 0x02, 0xFF] + Concat(ecu.udsFaults.value) else [0x7F, 0x19, 0x11])
  {
  }

  /** A service 04 request heard by some module that reports codes. */
  ghost predicate ClearsCodes(kind: Kind, s: State, r: Request) {
    r.pdu != [] && r.pdu[0] == 0x04 && exists i :: 0 <= i < |s.Bus(r.secondary)| && Heard(kind, r, s.Bus(r.secondary)[i]) && s.Bus(r.secondary)[i].reportsDtcs
  }

  /** The flag is set by exactly the requests that cleared something, and never goes back. */
  lemma {:induction false} ClearedExactly(kind: Kind, s: State, rs: seq<Request>)
    ensures Run(kind, s, rs).cleared <==> s.cleared || exists k :: 0 <= k < |rs| && ClearsCodes(kind, s, rs[k])
  {
    hide ClearsCodes, Handle;
    if rs != [] {
      var n := |rs| - 1;
      ClearedExactly(kind, s, rs[..n]);
      StepCleared(kind, Run(kind, s, rs[..n]), rs[n]);
      SameClears(kind, s, rs[..n], rs[n]);
      assert forall k :: 0 <= k < n ==> rs[..n][k] == rs[k];
    }
  }

  lemma StepCleared(kind: Kind, s: State, r: Request)
    ensures Handle(kind, s, r).0.cleared <==> s.cleared || ClearsCodes(kind, s, r)
  {
    hide Heard, EcusAfter, Replies;
    if r.pdu != [] && r.pdu[0] == 0x04 {
      AnyReply(kind, s.Bus(r.secondary), r, s.tick + 1, s.cleared);
    }
  }

  lemma SameClears(kind: Kind, s: State, rs: seq<Request>, r: Request)
    ensures ClearsCodes(kind, s, r) == ClearsCodes(kind, Run(kind, s, rs), r)
  {
    hide Heard, Run, SameShape, State.Bus;
    BusKept(kind, s, rs, r.secondary);
    forall i | 0 <= i < |s.Bus(r.secondary)|
      ensures Heard(kind, r, s.Bus(r.secondary)[i]) == Heard(kind, r, Run(kind, s, rs).Bus(r.secondary)[i])
      ensures s.Bus(r.secondary)[i].reportsDtcs == Run(kind, s, rs).Bus(r.secondary)[i].reportsDtcs
    {
      ShapeKept(kind, s, rs, r.secondary, i);
      WritesShape(kind, s.Bus(r.secondary)[i], Run(kind, s, rs).Bus(r.secondary)[i], r, 0);
      ShapeReports(s.Bus(r.secondary)[i], Run(kind, s, rs).Bus(r.secondary)[i]);
    }
  }

  lemma ShapeReports(a: VirtualEcu, b: VirtualEcu)
    requires SameShape(a, b)
    ensures a.reportsDtcs == b.reportsDtcs
  {
  }

  lemma {:induction false} BusKept(kind: Kind, s: State, rs: seq<Request>, second: bool)
    ensures |Run(kind, s, rs).Bus(second)| == |s.Bus(second)|
  {
    if rs != [] {
      BusKept(kind, s, rs[..|rs| - 1], second);
    }
  }

  lemma {:induction false} AnyReply(kind: Kind, ecus: seq<VirtualEcu>, r: Request, tick: nat, cleared: bool)
    requires r.pdu != [] && r.pdu[0] == 0x04
    ensures Replies(kind, ecus, r, tick, cleared) != [] <==> exists i :: 0 <= i < |ecus| && Heard(kind, r, ecus[i]) && ecus[i].reportsDtcs
  {
    hide Heard;
    if ecus != [] {
      AnyReply(kind, ecus[..|ecus| - 1], r, tick, cleared);
    }
  }
}
