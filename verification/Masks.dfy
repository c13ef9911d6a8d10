/** Supported-identifier masks: building and reading them (core/protocols/src/obd2.rs), answering them
    (simulator/src/vehicle.rs) and walking the chain they form (core/diagnostics/src/service.rs). */
module Masks {
  import opened Wrappers

  type Id = n: nat | n < 0x100

  // ---- Bits of a 32-bit word ----

  function Bit(word: nat, k: nat): bool {
    if k == 0 then word % 2 == 1 else Bit(word / 2, k - 1)
  }

  /** `word | 1 << k` */
  function SetBit(word: nat, k: nat): nat {
    if k == 0 then word - word % 2 + 1 else 2 * SetBit(word / 2, k - 1) + word % 2
  }

  lemma {:induction false} SetBitSets(word: nat, k: nat, j: nat)
    ensures Bit(SetBit(word, k), j) <==> j == k || Bit(word, j)
  {
    if k > 0 && j > 0 {
      assert SetBit(word, k) / 2 == SetBit(word / 2, k - 1);
      SetBitSets(word / 2, k - 1, j - 1);
    } else if k == 0 && j > 0 {
      assert SetBit(word, k) / 2 == word / 2;
    }
  }

  lemma {:induction false} NoBits(k: nat)
    ensures !Bit(0, k)
  {
    if k > 0 {
      NoBits(k - 1);
    }
  }

  function Power(k: nat): nat {
    if k == 0 then 1 else 2 * Power(k - 1)
  }

  lemma {:induction false} SetBitBound(word: nat, k: nat, width: nat)
    requires word < Power(width) && k < width
    ensures SetBit(word, k) < Power(width)
  {
    assert Power(width) == 2 * Power(width - 1);
    if k > 0 {
      hide Power;
      SetBitBound(word / 2, k - 1, width - 1);
    }
  }

  const WORD := 0x1_0000_0000

  lemma WordPower()
    ensures Power(32) == WORD
  {
    assert Power(8) == 256;
    PowerSquared(8);
    PowerSquared(16);
  }

  lemma {:induction false} PowerSum(a: nat, b: nat)
    ensures Power(a + b) == Power(a) * Power(b)
  {
    if a > 0 {
      PowerSum(a - 1, b);
    }
  }

  lemma PowerSquared(k: nat)
    ensures Power(2 * k) == Power(k) * Power(k)
  {
    PowerSum(k, k);
  }

  /** `to_be_bytes` */
  function ToBytes(word: nat): seq<Id>
    requires word < WORD
  {
    [word / 0x100 / 0x100 / 0x100, word / 0x100 / 0x100 % 0x100, word / 0x100 % 0x100, word % 0x100]
  }

  function FromBytes(b: seq<Id>): nat
    requires |b| >= 4
  {
    ((b[0] as nat * 0x100 + b[1] as nat) * 0x100 + b[2] as nat) * 0x100 + b[3] as nat
  }

  lemma BytesRoundTrip(word: nat)
    requires word < WORD
    ensures FromBytes(ToBytes(word)) == word
  {
  }

  // ---- Masks ----

  /** `wrapping_sub` */
  function Offset(pid: Id, base: Id): nat {
    (pid - base) % 0x100
  }

  /** The mask has a bit for an identifier exactly when it is listed and lies in the 32 above the base. */
  ghost predicate Lists(word: nat, base: Id, pids: seq<Id>) {
    forall k :: 0 <= k < 32 ==> (Bit(word, k) <==> (base + 32 - k) % 0x100 in pids)
  }

  method EncodeSupportedPids(base: Id, pids: seq<Id>) returns (mask: seq<Id>)
    ensures |mask| == 4 && Lists(FromBytes(mask), base, pids)
  {
    var bits: nat := 0;
    WordPower();
    ListsNothing(base);
    for i := 0 to |pids|
      invariant bits < WORD && Lists(bits, base, pids[..i])
    {
      var offset := Offset(pids[i], base);
      ListsNext(bits, base, pids, i);
      if 1 <= offset <= 32 {
        SetBitBound(bits, 32 - offset, 32);
        bits := SetBit(bits, 32 - offset);
      }
    }
    assert pids[..|pids|] == pids;
    BytesRoundTrip(bits);
    mask := ToBytes(bits);
  }

  lemma ListsNothing(base: Id)
    ensures Lists(0, base, [])
  {
    forall k | 0 <= k < 32 ensures !Bit(0, k) {
      NoBits(k);
    }
  }

  lemma ListsNext(word: nat, base: Id, pids: seq<Id>, i: nat)
    requires i < |pids| && Lists(word, base, pids[..i])
    ensures var offset := Offset(pids[i], base);
            Lists(if 1 <= offset <= 32 then SetBit(word, 32 - offset) else word, base, pids[..i + 1])
  {
    hide Bit, SetBit;
    var offset := Offset(pids[i], base);
    var next := if 1 <= offset <= 32 then SetBit(word, 32 - offset) else word;
    assert pids[..i + 1] == pids[..i] + [pids[i]];
    forall k | 0 <= k < 32
      ensures Bit(next, k) <==> (base + 32 - k) % 0x100 in pids[..i + 1]
    {
      OffsetIs(pids[i], base, k);
      if 1 <= offset <= 32 {
        SetBitSets(word, 32 - offset, k);
      }
    }
  }

  lemma OffsetIs(pid: Id, base: Id, k: nat)
    requires k < 32
    ensures pid == (base + 32 - k) % 0x100 <==> Offset(pid, base) == 32 - k
  {
  }

  datatype MaskError = TooShort

  /** The identifiers a mask reports, in rising order from its base. */
  method DecodeSupportedPids(base: Id, mask: seq<Id>) returns (r: Result<seq<Id>, MaskError>)
    ensures r.Failure? <==> |mask| < 4
    ensures r.Success? ==> forall x: Id :: x in r.value <==> 1 <= Offset(x, base) <= 32 && Bit(FromBytes(mask), 32 - Offset(x, base))
    ensures r.Success? ==> forall i, j :: 0 <= i < j < |r.value| ==> Offset(r.value[i], base) < Offset(r.value[j], base)
  {
    hide Bit;
    if |mask| < 4 {
      return Failure(TooShort);
    }
    var bits := FromBytes(mask);
    var out: seq<Id> := [];
    for i := 0 to 32
      invariant forall x: Id :: x in out <==> 1 <= Offset(x, base) <= i && Bit(bits, 32 - Offset(x, base))
      invariant forall a, b :: 0 <= a < b < |out| ==> Offset(out[a], base) < Offset(out[b], base)
    {
      OffsetOf(base, i + 1);
      if Bit(bits, 31 - i) {
        assert forall a :: 0 <= a < |out| ==> out[a] in out;
        out := out + [(base + i + 1) % 0x100];
      }
    }
    r := Success(out);
  }

  lemma OffsetOf(base: Id, n: nat)
    requires n <= 32
    ensures Offset((base + n) % 0x100, base) == n
    ensures forall x: Id :: Offset(x, base) == n ==> x == (base + n) % 0x100
  {
    forall x: Id | Offset(x, base) == n ensures x == (base + n) % 0x100 {
    }
  }

  /** Reading a mask back gives exactly the listed identifiers in its range. */
  lemma MaskRoundTrip(word: nat, base: Id, pids: seq<Id>, x: Id)
    requires Lists(word, base, pids)
    ensures 1 <= Offset(x, base) <= 32 && Bit(word, 32 - Offset(x, base)) <==> x in pids && 1 <= Offset(x, base) <= 32
  {
    hide Bit;
    if 1 <= Offset(x, base) <= 32 {
      OffsetIs(x, base, 32 - Offset(x, base));
    }
  }

  // ---- What a module answers ----

  predicate IsMaskPid(pid: Id) {
    pid % 0x20 == 0 && pid <= 0xC0
  }

  /** Two bytes. */
  type Word = n: nat | n < 0x1_0000

  datatype MonitorTest = MonitorTest(mid: Id, tid: Id, uasid: Id, value: Word, min: Word, max: Word)

  predicate HasMonitor(tests: seq<MonitorTest>, mid: Id) {
    exists i :: 0 <= i < |tests| && tests[i].mid == mid
  }

  function MidsOf(tests: seq<MonitorTest>): (mids: seq<Id>)
    ensures forall m :: m in mids <==> HasMonitor(tests, m)
  {
    if tests == [] then []
    else
      var n := |tests| - 1;
      MidsOf(tests[..n]) + [tests[n].mid]
  }

  function Highest(mids: seq<Id>): (h: Id)
    ensures forall m :: m in mids ==> m <= h
    ensures h == 0 || h in mids
  {
    if mids == [] then 0
    else
      var n := |mids| - 1;
      var h := Highest(mids[..n]);
      assert mids == mids[..n] + [mids[n]];
      if mids[n] > h then mids[n] else h
  }

  /** The mask boundaries needed to reach the highest monitor, of which the code adds no more than six. */
  function Boundaries(highest: Id): seq<Id> {
    (if 0x20 < highest then [0x20] else []) + (if 0x40 < highest then [0x40] else []) + (if 0x60 < highest then [0x60] else [])
    + (if 0x80 < highest then [0x80] else []) + (if 0xA0 < highest then [0xA0] else []) + (if 0xC0 < highest then [0xC0] else [])
  }

  /** What service 06 advertises. The code also sorts the list, which no reader of it depends on. */
  function SupportedMids(tests: seq<MonitorTest>): seq<Id> {
    MidsOf(tests) + Boundaries(Highest(MidsOf(tests)))
  }

  predicate SomeAbove(pids: seq<Id>, base: Id) {
    exists i :: 0 <= i < |pids| && base < pids[i] <= base + 32
  }

  function Record(t: MonitorTest): seq<Id> {
    [t.mid, t.tid, t.uasid, t.value / 0x100, t.value % 0x100, t.min / 0x100, t.min % 0x100, t.max / 0x100, t.max % 0x100]
  }

  function Records(tests: seq<MonitorTest>, mid: Id): seq<Id> {
    if tests == [] then []
    else (if tests[0].mid == mid then Record(tests[0]) else []) + Records(tests[1..], mid)
  }

  /** The tests of one monitor, in the order the module has them. */
  function OfMonitor(tests: seq<MonitorTest>, mid: Id): seq<MonitorTest> {
    if tests == [] then []
    else (if tests[0].mid == mid then [tests[0]] else []) + OfMonitor(tests[1..], mid)
  }

  function FromPair(high: nat, low: nat): Word
    requires high < 0x100 && low < 0x100
  {
    0x100 * high + low
  }

  /** Nine bytes a test, numbers high byte first. */
  function ReadRecords(bytes: seq<Id>): seq<MonitorTest> {
    if |bytes| < 9 then []
    else
      var b := bytes;
      [MonitorTest(b[0], b[1], b[2], FromPair(b[3], b[4]), FromPair(b[5], b[6]), FromPair(b[7], b[8]))] + ReadRecords(bytes[9..])
  }

  /** The results of a monitor read back as exactly its tests: identifiers, value and limits, in order. */
  lemma {:induction false} RecordsReadBack(tests: seq<MonitorTest>, mid: Id)
    ensures ReadRecords(Records(tests, mid)) == OfMonitor(tests, mid)
  {
    if tests != [] {
      var t, rest := tests[0], Records(tests[1..], mid);
      RecordsReadBack(tests[1..], mid);
      if t.mid == mid {
        assert (Record(t) + rest)[9..] == rest;
        RecordReads(t, rest);
      } else {
        assert [] + rest == rest;
      }
    }
  }

  lemma RecordReads(t: MonitorTest, rest: seq<Id>)
    ensures (Record(t) + rest)[9..] == rest && ReadRecords(Record(t) + rest) == [t] + ReadRecords(rest)
  {
    assert (Record(t) + rest)[9..] == rest;
  }

  /** The payload of a service 06 answer, after the service byte; none when the module is silent. */
  method AnswerMonitors(tests: seq<MonitorTest>, mid: Id) returns (answer: Option<seq<Id>>)
    ensures IsMaskPid(mid) ==> (answer.Some? <==> SomeAbove(SupportedMids(tests), mid))
    ensures IsMaskPid(mid) && answer.Some? ==> |answer.value| == 5 && answer.value[0] == mid && Lists(FromBytes(answer.value[1..]), mid, SupportedMids(tests))
    ensures !IsMaskPid(mid) ==> answer == if HasMonitor(tests, mid) then Some(Records(tests, mid)) else None
    ensures answer.Some? ==> |answer.value| >= 5
  {
    hide Lists, FromBytes, Records, Highest, Boundaries;
    if tests == [] {
      assert SupportedMids(tests) == [] by {
        NoTests();
      }
      return None;
    }
    if IsMaskPid(mid) {
      var supported := SupportedMids(tests);
      if !SomeAbove(supported, mid) {
        return None;
      }
      var mask := EncodeSupportedPids(mid, supported);
      assert ([mid] + mask)[1..] == mask;
      return Some([mid] + mask);
    }
    if !HasMonitor(tests, mid) {
      return None;
    }
    RecordsLong(tests, mid);
    answer := Some(Records(tests, mid));
  }

  lemma {:induction false} RecordsLong(tests: seq<MonitorTest>, mid: Id)
    requires HasMonitor(tests, mid)
    ensures |Records(tests, mid)| >= 9
  {
    if tests[0].mid != mid {
      var i :| 0 <= i < |tests| && tests[i].mid == mid;
      assert tests[1..][i - 1].mid == mid;
      RecordsLong(tests[1..], mid);
    }
  }

  lemma NoTests()
    ensures SupportedMids([]) == []
  {
  }

  /** The monitors whose results a module gives when asked for them by number. */
  predicate AnswersResults(tests: seq<MonitorTest>, mid: Id) {
    HasMonitor(tests, mid) && !IsMaskPid(mid)
  }

  lemma InSupported(tests: seq<MonitorTest>, x: Id)
    ensures x in SupportedMids(tests)
       <==> HasMonitor(tests, x) || (x % 0x20 == 0 && 0x20 <= x <= 0xC0 && exists m: Id :: m > x && HasMonitor(tests, m))
  {
    var mids := MidsOf(tests);
    var h := Highest(mids);
    if x % 0x20 == 0 && 0x20 <= x <= 0xC0 && (exists m: Id :: m > x && HasMonitor(tests, m)) {
      var m: Id :| m > x && HasMonitor(tests, m);
      assert m in mids;
    }
    BoundariesAre(h, x);
    if x in Boundaries(h) {
      assert HasMonitor(tests, h);
    }
  }

  lemma BoundariesAre(h: Id, x: Id)
    ensures x in Boundaries(h) <==> x % 0x20 == 0 && 0x20 <= x <= 0xC0 && x < h
  {
  }

  // ---- Walking the chain ----

  /** What the walk has found once it has read the masks up to `top`. */
  ghost predicate Found(tests: seq<MonitorTest>, found: set<Id>, top: nat) {
    forall x: Id :: x in found <==> 0 < x <= top && x in SupportedMids(tests)
  }

  /** Nothing that a mask could advertise lies above `top`. */
  ghost predicate Complete(tests: seq<MonitorTest>, top: nat) {
    top <= 0xE0 && forall x: Id :: x in SupportedMids(tests) && x < 0xE0 ==> x <= top
  }

  lemma NothingAbove(tests: seq<MonitorTest>, base: Id, next: nat)
    requires base % 0x20 == 0 && base <= 0xC0
    requires if next == base then !SomeAbove(SupportedMids(tests), base) else next == base + 0x20 && next !in SupportedMids(tests)
    ensures Complete(tests, next)
  {
    hide SupportedMids;
    var supported := SupportedMids(tests);
    forall x: Id | x in supported && x < 0xE0 ensures x <= next {
      if x > next {
        InSupported(tests, x);
        assert exists m: Id :: m >= x && HasMonitor(tests, m);
        if next == base && x <= base + 0x20 {
          assert false;
        }
        InSupported(tests, base + 0x20);
        assert false;
      }
    }
  }

  lemma ReadMask(tests: seq<MonitorTest>, base: Id, word: nat, mids: seq<Id>, found: set<Id>)
    requires base % 0x20 == 0 && base <= 0xC0 && Lists(word, base, SupportedMids(tests)) && Found(tests, found, base)
    requires forall x: Id :: x in mids <==> 1 <= Offset(x, base) <= 32 && Bit(word, 32 - Offset(x, base))
    ensures Found(tests, found + (set m | m in mids), base + 0x20)
    ensures base + 0x20 in mids <==> base + 0x20 in SupportedMids(tests)
  {
    hide SupportedMids, Bit, Lists;
    forall x: Id ensures x in mids <==> base < x <= base + 0x20 && x in SupportedMids(tests) {
      MaskRoundTrip(word, base, SupportedMids(tests), x);
    }
  }

  /** A walk that was not led astray lists exactly the monitors that answer when every monitor lies below
      the last mask's end. */
  lemma WalkedExactly(tests: seq<MonitorTest>, found: set<Id>, top: nat, list: set<Id>)
    requires Found(tests, found, top) && Complete(tests, top)
    requires list == set m | m in found && m != 0 && m % 0x20 != 0
    ensures (forall x: Id :: x in list <==> AnswersResults(tests, x)) <==> (forall m: Id :: HasMonitor(tests, m) ==> m < 0xE0)
  {
    hide SupportedMids, HasMonitor;
    forall x: Id
      ensures x in list <==> HasMonitor(tests, x) && x <= top && x % 0x20 != 0
      ensures HasMonitor(tests, x) && x < 0xE0 ==> x <= top
    {
      InSupported(tests, x);
    }
  }

  /** Ask which monitors a module has. A module whose highest monitor is `E0` is asked for a mask there and
      answers with that monitor's results, which the walk then reads as a mask. */
  method EnumerateSupportedMids(tests: seq<MonitorTest>) returns (list: set<Id>)
    ensures (forall x: Id :: x in list <==> AnswersResults(tests, x)) <==> (forall m: Id :: HasMonitor(tests, m) ==> m < 0xE0)
  {
    hide Lists, FromBytes, SupportedMids, Records, Bit, HasMonitor, Offset;
    var found: set<Id> := {};
    var base: Id := 0;
    ghost var top := 0;
    while true
      invariant base % 0x20 == 0
      invariant if base <= 0xC0 then Found(tests, found, base) else HasMonitor(tests, 0xE0)
      decreases 0x100 - base
    {
      var answer := AnswerMonitors(tests, base);
      if answer.None? {
        if base <= 0xC0 {
          top := base;
          NothingAbove(tests, base, base);
        }
        break;
      }
      var payload := answer.value[1..];
      var mids := DecodeSupportedPids(base, payload);
      if mids.Failure? {
        top := base;
        break;
      }
      if base <= 0xC0 {
        ReadMask(tests, base, FromBytes(payload), mids.value, found);
      }
      found := found + (set m | m in mids.value);
      var next := (base + 0x20) % 0x100;
      if next > base && next in mids.value {
        if base == 0xC0 {
          InSupported(tests, 0xE0);
        }
        base := next;
      } else {
        if base <= 0xC0 {
          top := next;
          NothingAbove(tests, base, next);
        }
        break;
      }
    }
    list := set m | m in found && m != 0 && m % 0x20 != 0;
    if HasMonitor(tests, 0xE0) {
      assert AnswersResults(tests, 0xE0) && 0xE0 !in list;
    } else {
      WalkedExactly(tests, found, top, list);
    }
  }

  // ---- Service 01 ----

  /** The PIDs the simulated vehicle has a reading for (`encode_pid`, simulator/src/state.rs). */
  predicate EncodesPid(pid: Id) {
    pid in [0x01, 0x03, 0x04, 0x05, 0x06, 0x07, 0x0B, 0x0C, 0x0D, 0x0F, 0x10, 0x11, 0x14, 0x15, 0x1C, 0x1F, 0x21, 0x23,
            0x2C, 0x2D, 0x2F, 0x30, 0x31, 0x33, 0x42, 0x43, 0x45, 0x46, 0x49, 0x4A, 0x51, 0x5A, 0x5C, 0x5E, 0x61, 0x62,
            0x63, 0x66, 0x67, 0x68, 0x78, 0x7C]
  }

  datatype CurrentData = Mask(bytes: seq<Id>) | Reading(pid: Id)

  /** A module's answer to service 01, which values aside depends only on the PIDs it declares. */
  method AnswerCurrentData(declared: seq<Id>, pid: Id) returns (answer: Option<CurrentData>)
    ensures answer.Some? <==> if IsMaskPid(pid) then SomeAbove(declared, pid) else AnswersReading(declared, pid)
    ensures answer.Some? && IsMaskPid(pid) ==> answer.value.Mask? && |answer.value.bytes| == 4 && Lists(FromBytes(answer.value.bytes), pid, declared)
    ensures answer.Some? && !IsMaskPid(pid) ==> answer.value == Reading(pid)
  {
    hide Lists, FromBytes, EncodesPid;
    if !IsMaskPid(pid) && pid !in declared {
      return None;
    }
    if IsMaskPid(pid) {
      var mask := EncodeSupportedPids(pid, declared);
      if !SomeAbove(declared, pid) {
        return None;
      }
      return Some(Mask(mask));
    }
    if !EncodesPid(pid) {
      return None;
    }
    return Some(Reading(pid));
  }

  predicate AnswersReading(declared: seq<Id>, pid: Id) {
    !IsMaskPid(pid) && pid in declared && EncodesPid(pid)
  }

  /** Some answered mask reports the PID. */
  ghost predicate Advertised(declared: seq<Id>, pid: Id) {
    exists base: Id :: IsMaskPid(base) && SomeAbove(declared, base) && base < pid <= base + 32 && pid in declared
  }

  /** Every PID a module advertises is answered exactly when it declares none, within reach of the masks,
      that the vehicle has no reading for. */
  lemma AdvertisedIsAnswered(declared: seq<Id>)
    ensures (forall x: Id :: Advertised(declared, x) && !IsMaskPid(x) ==> AnswersReading(declared, x))
       <==> (forall x: Id :: x in declared && 1 <= x <= 0xE0 && !IsMaskPid(x) ==> EncodesPid(x))
  {
    hide EncodesPid;
    forall x: Id ensures Advertised(declared, x) <==> x in declared && 1 <= x <= 0xE0 {
      if x in declared && 1 <= x <= 0xE0 {
        var base: Id := (x - 1) / 0x20 * 0x20;
        assert IsMaskPid(base) && base < x <= base + 32;
        var i :| 0 <= i < |declared| && declared[i] == x;
        assert SomeAbove(declared, base);
      }
    }
  }

  /** The simulated Toyota's engine module declares `0E` and `13`, which it has no reading for. */
  lemma ToyotaAdvertisesTooMuch()
    ensures var declared: seq<Id> := [0x01, 0x03, 0x04, 0x05, 0x06, 0x07, 0x0C, 0x0D, 0x0E, 0x0F, 0x10, 0x11, 0x13, 0x14, 0x15, 0x1C, 0x20, 0x21];
            forall x: Id :: Advertised(declared, x) && !IsMaskPid(x) ==> (AnswersReading(declared, x) <==> x != 0x0E && x != 0x13)
  {
  }

  /** Each mask boundary below a declared PID is declared, so that the chain of masks reaches it. */
  ghost predicate Chained(declared: seq<Id>) {
    forall p: Id :: p in declared ==> p <= 0xE0 && forall b: Id :: b % 0x20 == 0 && 0 < b < p ==> b in declared
  }

  datatype WalkError = NoData

  ghost predicate FoundPids(declared: seq<Id>, found: set<Id>, top: nat) {
    forall x: Id :: x in found <==> x == 0 || (x <= top && x in declared)
  }

  /** Ask which PIDs a module supports. The first mask must be answered; the walk then finds declared PIDs
      only, and all of them exactly when they form a chain. */
  method EnumerateSupported(declared: seq<Id>) returns (r: Result<set<Id>, WalkError>)
    ensures r.Failure? <==> !SomeAbove(declared, 0)
    ensures r.Success? ==> forall x: Id :: x in r.value ==> x == 0 || x in declared
    ensures r.Success? ==> ((forall x: Id :: x in declared ==> x in r.value) <==> Chained(declared))
  {
    hide Lists, FromBytes, Bit, Offset, SomeAbove, EncodesPid;
    var found: set<Id> := {};
    var base: Id := 0;
    ghost var top: nat := 0;
    while true
      invariant base % 0x20 == 0 && (base > 0 ==> SomeAbove(declared, 0))
      invariant forall b: Id :: b % 0x20 == 0 && 0 < b <= base ==> b in declared
      invariant if base == 0 then found == {} else FoundPids(declared, found, base)
      decreases 0x100 - base
    {
      var answer := AnswerCurrentData(declared, base);
      top := base;
      if answer.None? {
        if base == 0 {
          return Failure(NoData);
        }
        break;
      }
      if answer.value.Reading? {
        break;
      }
      var pids := DecodeSupportedPids(base, answer.value.bytes);
      ReadPids(declared, base, FromBytes(answer.value.bytes), pids.value, found);
      found := found + {base} + (set p | p in pids.value);
      top := base + 0x20;
      var next := (base + 0x20) % 0x100;
      if next > base && next in pids.value {
        base := next;
      } else {
        break;
      }
    }
    r := Success(found);
    ChainExactly(declared, found, base, top);
  }

  lemma ReadPids(declared: seq<Id>, base: Id, word: nat, pids: seq<Id>, found: set<Id>)
    requires IsMaskPid(base) && Lists(word, base, declared)
    requires if base == 0 then found == {} else base in declared && FoundPids(declared, found, base)
    requires forall x: Id :: x in pids <==> 1 <= Offset(x, base) <= 32 && Bit(word, 32 - Offset(x, base))
    ensures FoundPids(declared, found + {base} + (set p | p in pids), base + 0x20)
    ensures base + 0x20 in pids <==> base + 0x20 in declared
  {
    hide Bit, Lists;
    forall x: Id ensures x in pids <==> base < x <= base + 0x20 && x in declared {
      MaskRoundTrip(word, base, declared, x);
    }
  }

  /** Where the walk stopped: at a mask that is not answered, or at one that does not lead on. */
  lemma ChainExactly(declared: seq<Id>, found: set<Id>, base: Id, top: nat)
    requires base % 0x20 == 0 && FoundPids(declared, found, top)
    requires forall b: Id :: b % 0x20 == 0 && 0 < b <= base ==> b in declared
    requires (top == base && 0 < base && !(IsMaskPid(base) && SomeAbove(declared, base))) || (top == base + 0x20 <= 0xE0 && top !in declared)
    ensures (forall x: Id :: x in declared ==> x in found) <==> Chained(declared)
  {
    if Chained(declared) {
      forall x: Id | x in declared ensures x in found {
        if x > top {
          var i :| 0 <= i < |declared| && declared[i] == x;
          if top > base {
            BelowDeclared(declared, x, top);
          } else if x > base + 0x20 {
            BelowDeclared(declared, x, base + 0x20);
          }
          assert false;
        }
      }
    }
  }

  lemma BelowDeclared(declared: seq<Id>, p: Id, b: nat)
    requires Chained(declared) && p in declared && b % 0x20 == 0 && 0 < b < p
    ensures b in declared
  {
  }
}
