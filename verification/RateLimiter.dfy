/** How many reports are taken (apps/report-endpoint/src/lib.rs, the counters of `receive`). */
module RateLimiter {
  import Calendar

  type Address = string

  datatype Config = Config(perAddress: nat, window: nat, perDay: nat)

  /** A well-formed report: who sent it, when by the monotonic clock, and on which day. */
  datatype Request = Request(address: Address, now: nat, day: nat)

  datatype Entry = Entry(since: nat, count: nat)

  datatype Tally = Tally(byAddress: map<Address, Entry>, day: nat, today: nat, sequence: nat)

  datatype Outcome = Admitted(sequence: nat) | DayFull | AddressFull

  const FRESH := Tally(map[], 0, 0, 0)

  /** `duration_since`, which never goes below zero. */
  function Elapsed(now: nat, since: nat): nat {
    if now >= since then now - since else 0
  }

  function Retained(entries: map<Address, Entry>, now: nat, window: nat): map<Address, Entry> {
    map a | a in entries && Elapsed(now, entries[a].since) < window :: entries[a]
  }

  function NewDay(t: Tally, day: nat): Tally {
    if t.day != day then t.(day := day, today := 0) else t
  }

  /** The entry a request is counted in. */
  function EntryOf(entries: map<Address, Entry>, r: Request, window: nat): Entry {
    if r.address in entries && Elapsed(r.now, entries[r.address].since) < window then entries[r.address] else Entry(r.now, 0)
  }

  function Step(config: Config, t: Tally, r: Request): (Tally, Outcome) {
    var begun := NewDay(t, r.day);
    if begun.today >= config.perDay then (begun, DayFull)
    else
      var e := EntryOf(t.byAddress, r, config.window);
      var kept := Retained(t.byAddress, r.now, config.window);
      if e.count >= config.perAddress then (begun.(byAddress := kept[r.address := e]), AddressFull)
      else (Tally(kept[r.address := e.(count := e.count + 1)], r.day, begun.today + 1, t.sequence + 1), Admitted(t.sequence + 1))
  }

  class Counters {
    var byAddress: map<Address, Entry>
    var day: nat
    var today: nat
    var sequence: nat

    function State(): Tally
      reads this
    {
      Tally(byAddress, day, today, sequence)
    }

    constructor ()
      ensures State() == FRESH
    {
      byAddress, day, today, sequence := map[], 0, 0, 0;
    }

    /** The part of `receive` done while holding the lock. */
    method Admit(config: Config, r: Request) returns (outcome: Outcome)
      modifies this
      ensures (State(), outcome) == Step(config, old(State()), r)
    {
      if day != r.day {
        day := r.day;
        today := 0;
      }
      if today >= config.perDay {
        return DayFull;
      }
      var window := config.window;
      byAddress := map a | a in byAddress && Elapsed(r.now, byAddress[a].since) < window :: byAddress[a];
      ghost var kept := byAddress;
      assert kept == Retained(old(byAddress), r.now, window);
      if r.address !in byAddress {
        byAddress := byAddress[r.address := Entry(r.now, 0)];
      }
      var entry := byAddress[r.address];
      assert entry == EntryOf(old(byAddress), r, window) && byAddress == kept[r.address := entry];
      if entry.count >= config.perAddress {
        return AddressFull;
      }
      byAddress := byAddress[r.address := entry.(count := entry.count + 1)];
      assert byAddress == kept[r.address := entry.(count := entry.count + 1)];
      today := today + 1;
      sequence := sequence + 1;
      return Admitted(sequence);
    }
  }

  // ---- Runs ----

  function Play(config: Config, rs: seq<Request>): Tally {
    if rs == [] then FRESH else Step(config, Play(config, rs[..|rs| - 1]), rs[|rs| - 1]).0
  }

  function Answer(config: Config, rs: seq<Request>, i: nat): Outcome
    requires i < |rs|
  {
    Step(config, Play(config, rs[..i]), rs[i]).1
  }

  lemma {:induction false} SequenceGrows(config: Config, rs: seq<Request>, i: nat, j: nat)
    requires i <= j <= |rs|
    ensures Play(config, rs[..i]).sequence <= Play(config, rs[..j]).sequence
  {
    if i < j {
      SequenceGrows(config, rs, i, j - 1);
      assert rs[..j][..j - 1] == rs[..j - 1];
    }
  }

  /** No two admitted reports carry the same number, and the numbers rise in the order of admission. */
  lemma NumbersRise(config: Config, rs: seq<Request>, i: nat, j: nat)
    requires i < j < |rs| && Answer(config, rs, i).Admitted? && Answer(config, rs, j).Admitted?
    ensures Answer(config, rs, i).sequence < Answer(config, rs, j).sequence
  {
    hide Retained, EntryOf;
    assert rs[..i + 1][..i] == rs[..i];
    SequenceGrows(config, rs, i + 1, j);
  }

  /** `reference`: the time in seconds and milliseconds, and the number. */
  function Reference(seconds: nat, millis: nat, sequence: nat): string {
    Calendar.Padded(seconds, 1) + "-" + Calendar.Padded(millis, 3) + "-" + Calendar.Padded(sequence, 1)
  }

  lemma {:induction false} PaddedPlain(n: nat, width: nat)
    ensures '-' !in Calendar.Padded(n, width)
    decreases n, width
  {
    if n > 0 || width > 0 {
      PaddedPlain(n / 10, if width == 0 then 0 else width - 1);
      Calendar.NumeralValue(n % 10);
    }
  }

  lemma LastPart(a: string, p: string, b: string, q: string)
    requires a + "-" + p == b + "-" + q && '-' !in p && '-' !in q
    ensures p == q
  {
    var s := a + "-" + p;
    assert s[|a|] == '-' && s[|b|] == '-';
    if |a| < |b| {
      assert false;
    } else if |b| < |a| {
      assert false;
    }
    assert s[|a| + 1..] == p && s[|b| + 1..] == q;
  }

  /** Two admitted reports never share a reference, whatever the clock said, so no report's file is
      overwritten by another's. */
  lemma ReferencesDiffer(config: Config, rs: seq<Request>, i: nat, j: nat, s1: nat, m1: nat, s2: nat, m2: nat)
    requires i < j < |rs| && Answer(config, rs, i).Admitted? && Answer(config, rs, j).Admitted?
    ensures Reference(s1, m1, Answer(config, rs, i).sequence) != Reference(s2, m2, Answer(config, rs, j).sequence)
  {
    hide Calendar.Padded, Step;
    NumbersRise(config, rs, i, j);
    var n1, n2 := Answer(config, rs, i).sequence, Answer(config, rs, j).sequence;
    if Reference(s1, m1, n1) == Reference(s2, m2, n2) {
      PaddedPlain(n1, 1);
      PaddedPlain(n2, 1);
      LastPart(Calendar.Padded(s1, 1) + "-" + Calendar.Padded(m1, 3), Calendar.Padded(n1, 1),
               Calendar.Padded(s2, 1) + "-" + Calendar.Padded(m2, 3), Calendar.Padded(n2, 1));
      Calendar.ReadingPadded(n1, 1);
      Calendar.ReadingPadded(n2, 1);
      assert false;
    }
  }

  // ---- Per day ----

  function AdmittedOn(config: Config, rs: seq<Request>, day: nat): nat {
    if rs == [] then 0
    else AdmittedOn(config, rs[..|rs| - 1], day) + (if rs[|rs| - 1].day == day && Answer(config, rs, |rs| - 1).Admitted? then 1 else 0)
  }

  /** How often the requests come to a day they were not on before. */
  function Visits(rs: seq<Request>, day: nat): nat {
    if rs == [] then 0
    else
      var n := |rs| - 1;
      Visits(rs[..n], day) + (if rs[n].day == day && (n == 0 || rs[n - 1].day != day) then 1 else 0)
  }

  lemma {:induction false} DayCounts(config: Config, rs: seq<Request>, day: nat)
    ensures var t := Play(config, rs);
            && (rs != [] ==> t.day == rs[|rs| - 1].day) && t.today <= config.perDay
            && (if rs != [] && t.day == day then
                  Visits(rs, day) > 0 && AdmittedOn(config, rs, day) <= config.perDay * (Visits(rs, day) - 1) + t.today
                else AdmittedOn(config, rs, day) <= config.perDay * Visits(rs, day))
  {
    hide Retained, EntryOf;
    if rs != [] {
      var n := |rs| - 1;
      DayCounts(config, rs[..n], day);
      Distribute(config.perDay, Visits(rs[..n], day));
    }
  }

  lemma Distribute(a: nat, b: nat)
    ensures a * (b + 1) == a * b + a
    ensures b > 0 ==> a * b == a * (b - 1) + a
  {
  }

  /** Whatever order requests reach the lock in, a day takes no more than its share for each time the
      requests come to it. */
  lemma PerDayAndVisit(config: Config, rs: seq<Request>, day: nat)
    ensures AdmittedOn(config, rs, day) <= config.perDay * Visits(rs, day)
  {
    hide Play, AdmittedOn, Visits;
    DayCounts(config, rs, day);
    Distribute(config.perDay, Visits(rs, day));
  }

  ghost predicate DaysInOrder(rs: seq<Request>) {
    forall i, j :: 0 <= i <= j < |rs| ==> rs[i].day <= rs[j].day
  }

  lemma {:induction false} VisitedOnce(rs: seq<Request>, day: nat)
    requires DaysInOrder(rs)
    ensures Visits(rs, day) <= 1
    ensures rs == [] || rs[|rs| - 1].day < day ==> Visits(rs, day) == 0
  {
    if rs != [] {
      VisitedOnce(rs[..|rs| - 1], day);
    }
  }

  /** When days come in order, no day takes more than `per_day` reports. */
  lemma PerDay(config: Config, rs: seq<Request>, day: nat)
    requires DaysInOrder(rs)
    ensures AdmittedOn(config, rs, day) <= config.perDay
  {
    hide AdmittedOn, Visits;
    PerDayAndVisit(config, rs, day);
    VisitedOnce(rs, day);
    assert config.perDay * 1 == config.perDay && config.perDay * 0 == 0;
  }

  ghost predicate SameDays(rs: seq<Request>, others: seq<Request>) {
    |rs| == |others| && forall i :: 0 <= i < |rs| ==> rs[i].day == others[i].day
  }

  /** The same days, each request at one moment from an address of its own. */
  function Spread(rs: seq<Request>): (others: seq<Request>)
    ensures SameDays(rs, others)
  {
    seq(|rs|, i requires 0 <= i < |rs| => Request(seq(i, _ => 'a'), 0, rs[i].day))
  }

  /** Of such requests a limit of one admits the first of every visit. */
  lemma {:induction false} OneAVisit(rs: seq<Request>, day: nat)
    ensures var t := Play(Config(1, 1, 1), Spread(rs));
            && (rs != [] ==> t.day == rs[|rs| - 1].day && t.today == 1)
            && (forall a :: a in t.byAddress ==> |a| < |rs|)
    ensures AdmittedOn(Config(1, 1, 1), Spread(rs), day) == Visits(rs, day)
  {
    hide Step, Play, AdmittedOn;
    if rs == [] {
      assert Spread(rs) == [];
      NobodyYet(day);
    } else {
      var n := |rs| - 1;
      OneAVisit(rs[..n], day);
      var before, r := Spread(rs[..n]), Spread(rs)[n];
      assert Spread(rs) == before + [r];
      LastOn(Config(1, 1, 1), before, r, day);
      NobodyYet(day);
      assert n == 0 ==> before == [];
      SpreadStep(Play(Config(1, 1, 1), before), r, n, n > 0);
    }
  }

  lemma NobodyYet(day: nat)
    ensures Play(Config(1, 1, 1), []) == FRESH && AdmittedOn(Config(1, 1, 1), [], day) == 0
  {
  }

  lemma LastOn(config: Config, rs: seq<Request>, r: Request, day: nat)
    ensures Play(config, rs + [r]) == Step(config, Play(config, rs), r).0
    ensures AdmittedOn(config, rs + [r], day)
         == AdmittedOn(config, rs, day) + (if r.day == day && Step(config, Play(config, rs), r).1.Admitted? then 1 else 0)
  {
    hide Step;
    assert (rs + [r])[..|rs|] == rs;
  }

  lemma SpreadStep(t: Tally, r: Request, n: nat, played: bool)
    requires |r.address| == n && (forall a :: a in t.byAddress ==> |a| < n)
    requires if played then t.today == 1 else t == FRESH
    ensures var (next, outcome) := Step(Config(1, 1, 1), t, r);
            && next.day == r.day && next.today == 1 && (forall a :: a in next.byAddress ==> |a| < n + 1)
            && (outcome.Admitted? <==> !played || t.day != r.day)
  {
  }

  lemma {:induction false} SameVisits(rs: seq<Request>, others: seq<Request>, day: nat)
    requires SameDays(rs, others)
    ensures Visits(rs, day) == Visits(others, day)
  {
    if rs != [] {
      SameVisits(rs[..|rs| - 1], others[..|rs| - 1], day);
    }
  }

  /** The day is read before the lock is taken. Around midnight a request can reach the lock with
      yesterday's day after one with today's, which starts yesterday's count again. Every limit holds for
      requests that come on given days, whoever sends them and whenever, exactly when those days come to
      the limited one no more than once. */
  lemma PerDayExactly(rs: seq<Request>, day: nat)
    ensures (forall config, others :: SameDays(rs, others) ==> AdmittedOn(config, others, day) <= config.perDay)
       <==> Visits(rs, day) <= 1
  {
    hide AdmittedOn, Visits, Spread, SameDays;
    if Visits(rs, day) <= 1 {
      forall config: Config, others | SameDays(rs, others) ensures AdmittedOn(config, others, day) <= config.perDay {
        SameVisits(rs, others, day);
        PerDayAndVisit(config, others, day);
        assert config.perDay * 1 == config.perDay && config.perDay * 0 == 0;
      }
    } else {
      OneAVisit(rs, day);
      assert SameDays(rs, Spread(rs)) && AdmittedOn(Config(1, 1, 1), Spread(rs), day) > 1;
    }
  }

  // ---- Per address ----

  predicate Within(config: Config, r: Request, a: Address, from: nat) {
    r.address == a && from <= r.now < from + config.window
  }

  /** Admissions from one address in the window-long interval starting at `from`. */
  function AdmittedWithin(config: Config, rs: seq<Request>, a: Address, from: nat): nat {
    if rs == [] then 0
    else
      var counts := Within(config, rs[|rs| - 1], a, from) && Answer(config, rs, |rs| - 1).Admitted?;
      AdmittedWithin(config, rs[..|rs| - 1], a, from) + (if counts then 1 else 0)
  }

  ghost predicate TimesInOrder(rs: seq<Request>) {
    forall i, j :: 0 <= i <= j < |rs| ==> rs[i].now <= rs[j].now
  }

  function Latest(rs: seq<Request>): nat {
    if rs == [] then 0 else rs[|rs| - 1].now
  }

  /** What the entry of an address says about an interval: an entry opened before it has admitted one
      report outside it, and at most one entry is opened inside it. */
  predicate Explained(config: Config, t: Tally, a: Address, from: nat, latest: nat, admitted: nat) {
    var most := config.perAddress;
    if a !in t.byAddress then admitted <= most - 1 || (latest >= from + config.window && admitted <= 2 * most - 1)
    else
      var e := t.byAddress[a];
      && 1 <= e.count <= most && e.since <= latest
      && (if e.since < from then admitted <= e.count - 1
          else if e.since < from + config.window then admitted <= most - 1 + e.count
          else admitted <= 2 * most - 1)
  }

  lemma ExplainedStep(config: Config, t: Tally, r: Request, a: Address, from: nat, latest: nat, admitted: nat)
    requires config.perAddress >= 1 && latest <= r.now && (latest < from ==> admitted == 0)
    requires Explained(config, t, a, from, latest, admitted)
    ensures var (next, outcome) := Step(config, t, r);
            Explained(config, next, a, from, r.now, admitted + (if Within(config, r, a, from) && outcome.Admitted? then 1 else 0))
  {
  }

  lemma {:induction false} AllExplained(config: Config, rs: seq<Request>, a: Address, from: nat)
    requires config.perAddress >= 1 && TimesInOrder(rs)
    ensures Explained(config, Play(config, rs), a, from, Latest(rs), AdmittedWithin(config, rs, a, from))
    ensures Latest(rs) < from ==> AdmittedWithin(config, rs, a, from) == 0
  {
    hide Step, Explained;
    if rs == [] {
      NothingExplained(config, a, from);
    } else {
      var n := |rs| - 1;
      AllExplained(config, rs[..n], a, from);
      ExplainedStep(config, Play(config, rs[..n]), rs[n], a, from, Latest(rs[..n]), AdmittedWithin(config, rs[..n], a, from));
    }
  }

  lemma NothingExplained(config: Config, a: Address, from: nat)
    requires config.perAddress >= 1
    ensures Explained(config, FRESH, a, from, 0, 0)
  {
  }

  /** When requests reach the lock in the order of their times, no interval of one window's length admits
      `2 * per_address` reports from one address. */
  lemma PerAddress(config: Config, rs: seq<Request>, a: Address, from: nat)
    requires TimesInOrder(rs)
    ensures if config.perAddress == 0 then AdmittedWithin(config, rs, a, from) == 0
            else AdmittedWithin(config, rs, a, from) <= 2 * config.perAddress - 1
  {
    hide Play, AdmittedWithin;
    if config.perAddress == 0 {
      NoneAdmitted(config, rs, a, from);
    } else {
      AllExplained(config, rs, a, from);
    }
  }

  lemma {:induction false} NoneAdmitted(config: Config, rs: seq<Request>, a: Address, from: nat)
    requires config.perAddress == 0
    ensures AdmittedWithin(config, rs, a, from) == 0
  {
    hide Retained;
    if rs != [] {
      NoneAdmitted(config, rs[..|rs| - 1], a, from);
    }
  }

  // ---- The bound is reached ----

  /** Requests from one address at one moment, each on a day of its own. */
  function Burst(a: Address, now: nat, day: nat, n: nat): seq<Request> {
    seq(n, i requires 0 <= i < n => Request(a, now, day + i))
  }

  /** They are admitted while the address has room. */
  lemma {:induction false} BurstAdmitted(config: Config, rs: seq<Request>, a: Address, now: nat, day: nat, n: nat, from: nat)
    requires config.window > 0 && config.perDay > 0 && Play(config, rs).day < day
    requires EntryOf(Play(config, rs).byAddress, Request(a, now, day), config.window).count + n <= config.perAddress
    ensures var t, next := Play(config, rs), Play(config, rs + Burst(a, now, day, n));
            var e := EntryOf(t.byAddress, Request(a, now, day), config.window);
            && next.day < day + n
            && EntryOf(next.byAddress, Request(a, now, day + n), config.window) == Entry(e.since, e.count + n)
            && (n > 0 ==> a in next.byAddress && next.byAddress[a] == Entry(e.since, e.count + n))
    ensures AdmittedWithin(config, rs + Burst(a, now, day, n), a, from)
         == AdmittedWithin(config, rs, a, from) + (if from <= now < from + config.window then n else 0)
  {
    hide Step, Retained, Play, AdmittedWithin, Burst;
    BurstSplit(rs, a, now, day, n);
    if n > 0 {
      BurstAdmitted(config, rs, a, now, day, n - 1, from);
      var before, r := rs + Burst(a, now, day, n - 1), Request(a, now, day + n - 1);
      OneMore(config, before, r, a, from);
      BurstStep(config, Play(config, before), r);
    }
  }

  lemma BurstSplit(rs: seq<Request>, a: Address, now: nat, day: nat, n: nat)
    ensures rs + Burst(a, now, day, n) == if n == 0 then rs else rs + Burst(a, now, day, n - 1) + [Request(a, now, day + n - 1)]
  {
  }

  lemma OneMore(config: Config, rs: seq<Request>, r: Request, a: Address, from: nat)
    ensures Play(config, rs + [r]) == Step(config, Play(config, rs), r).0
    ensures AdmittedWithin(config, rs + [r], a, from)
         == AdmittedWithin(config, rs, a, from) + (if Within(config, r, a, from) && Step(config, Play(config, rs), r).1.Admitted? then 1 else 0)
  {
    hide Step;
    assert (rs + [r])[..|rs|] == rs;
  }

  lemma BurstStep(config: Config, t: Tally, r: Request)
    requires config.window > 0 && t.day < r.day && config.perDay > 0
    requires EntryOf(t.byAddress, r, config.window).count < config.perAddress
    ensures var (next, outcome) := Step(config, t, r);
            var e := EntryOf(t.byAddress, r, config.window);
            && outcome.Admitted? && next.day == r.day
            && r.address in next.byAddress && next.byAddress[r.address] == Entry(e.since, e.count + 1)
            && EntryOf(next.byAddress, r, config.window) == Entry(e.since, e.count + 1)
  {
  }

  /** One report at the start of a window, the rest just before it ends, and a full window after that. */
  function Worst(config: Config, a: Address): seq<Request>
    requires config.perAddress >= 1 && config.window >= 1
  {
    var p, w := config.perAddress, config.window;
    [] + Burst(a, 0, 1, 1) + Burst(a, w - 1, 2, p - 1) + Burst(a, w, p + 1, p)
  }

  lemma WorstInOrder(config: Config, a: Address)
    requires config.perAddress >= 1 && config.window >= 1
    ensures TimesInOrder(Worst(config, a)) && DaysInOrder(Worst(config, a))
  {
  }

  /** An interval can admit one report less than twice the limit. */
  lemma PerAddressReached(config: Config, a: Address)
    requires config.perAddress >= 1 && config.window >= 2 && config.perDay >= 1
    ensures AdmittedWithin(config, Worst(config, a), a, config.window - 1) == 2 * config.perAddress - 1
  {
    hide Play, AdmittedWithin, Retained, Step;
    var p, w := config.perAddress, config.window;
    StartOfRun(config, a, w - 1);
    BurstAdmitted(config, [], a, 0, 1, 1, w - 1);
    var first := [] + Burst(a, 0, 1, 1);
    BurstAdmitted(config, first, a, w - 1, 2, p - 1, w - 1);
    var second := first + Burst(a, w - 1, 2, p - 1);
    if p == 1 {
      assert second == first;
    }
    BurstAdmitted(config, second, a, w, p + 1, p, w - 1);
  }

  lemma StartOfRun(config: Config, a: Address, from: nat)
    ensures Play(config, []) == FRESH && AdmittedWithin(config, [], a, from) == 0
  {
  }

  /** A single report is admitted whenever anything can be. */
  lemma SingleAdmitted(config: Config, a: Address)
    requires config.perAddress >= 1 && config.window >= 1 && config.perDay >= 1
    ensures AdmittedWithin(config, [] + Burst(a, 0, 1, 1), a, 0) == 1
  {
    hide Play, AdmittedWithin, Retained, Step;
    StartOfRun(config, a, 0);
    BurstAdmitted(config, [], a, 0, 1, 1, 0);
  }

  lemma {:induction false} NothingAdmitted(config: Config, rs: seq<Request>, a: Address, from: nat)
    requires config.window == 0 || config.perDay == 0
    ensures AdmittedWithin(config, rs, a, from) == 0
  {
    hide Retained;
    if rs != [] {
      NothingAdmitted(config, rs[..|rs| - 1], a, from);
    }
  }

  /** In an interval of a single moment, all that is admitted is in the entry opened at that moment. */
  predicate AtOnce(config: Config, t: Tally, a: Address, from: nat, latest: nat, admitted: nat) {
    && (latest < from ==> admitted == 0)
    && (a in t.byAddress ==> t.byAddress[a].count <= config.perAddress && t.byAddress[a].since <= latest)
    && (latest == from ==> admitted <= if a in t.byAddress && t.byAddress[a].since == from then t.byAddress[a].count else 0)
    && admitted <= config.perAddress
  }

  lemma AtOnceStep(config: Config, t: Tally, r: Request, a: Address, from: nat, latest: nat, admitted: nat)
    requires config.window == 1 && latest <= r.now && AtOnce(config, t, a, from, latest, admitted)
    ensures var (next, outcome) := Step(config, t, r);
            AtOnce(config, next, a, from, r.now, admitted + (if Within(config, r, a, from) && outcome.Admitted? then 1 else 0))
  {
  }

  lemma {:induction false} MomentAdmits(config: Config, rs: seq<Request>, a: Address, from: nat)
    requires config.window == 1 && TimesInOrder(rs)
    ensures AtOnce(config, Play(config, rs), a, from, Latest(rs), AdmittedWithin(config, rs, a, from))
  {
    hide Step;
    if rs != [] {
      var n := |rs| - 1;
      MomentAdmits(config, rs[..n], a, from);
      AtOnceStep(config, Play(config, rs[..n]), rs[n], a, from, Latest(rs[..n]), AdmittedWithin(config, rs[..n], a, from));
    }
  }

  /** One report less than twice the limit is reached exactly when the window is longer than one moment, or
      the limit is one, and the day admits anything at all. */
  lemma PerAddressExactly(config: Config)
    requires config.perAddress >= 1
    ensures (exists rs, a, from :: TimesInOrder(rs) && DaysInOrder(rs) && AdmittedWithin(config, rs, a, from) == 2 * config.perAddress - 1)
       <==> config.perDay >= 1 && (config.window >= 2 || (config.window == 1 && config.perAddress == 1))
  {
    hide AdmittedWithin, Burst, Worst, Play;
    if config.perDay >= 1 && config.window >= 2 {
      WorstInOrder(config, "a");
      PerAddressReached(config, "a");
    } else if config.perDay >= 1 && config.window == 1 && config.perAddress == 1 {
      SingleAdmitted(config, "a");
      SingleInOrder("a");
      assert AdmittedWithin(config, [] + Burst("a", 0, 1, 1), "a", 0) == 2 * config.perAddress - 1;
    } else {
      forall rs, a, from | TimesInOrder(rs) ensures AdmittedWithin(config, rs, a, from) != 2 * config.perAddress - 1 {
        if config.window == 1 && config.perDay >= 1 {
          MomentAdmits(config, rs, a, from);
        } else {
          NothingAdmitted(config, rs, a, from);
        }
      }
    }
  }

  lemma SingleInOrder(a: Address)
    ensures TimesInOrder([] + Burst(a, 0, 1, 1)) && DaysInOrder([] + Burst(a, 0, 1, 1))
  {
  }
}
