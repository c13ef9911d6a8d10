/** Who holds the diagnostic service and what the busy marker says (apps/api/src/state.rs). */
module BusyMarker {
  import opened Wrappers

  // ---- Tasks ----

  /** `with_service_named`: the marker is set under the lock and cleared by a guard that is dropped before
      the lock is, whether the operation returned or panicked. */
  datatype NamedAt = Queued | Locked | Marked | Ending(panicked: bool) | Unmarked(panicked: bool) | Finished

  /** `peek_service` and `peek_service_now`. */
  datatype PeekAt = Asking | Reading | Leaving(panicked: bool) | Answered

  /** `connect`: a peek to see that nothing usable is connected, then the work, then the new service. */
  datatype ConnectAt = Checking | Looking | Parting(refused: bool) | Building | Waiting | Storing | Handing | Refused | Connected

  /** The end of `disconnect`. */
  datatype RemoveAt = Pending | Removing | Releasing | Removed

  datatype Task =
    | Named(what: string, named: NamedAt)
    | Peek(peek: PeekAt)
    | PeekNow(now: PeekAt)
    | Connect(connect: ConnectAt)
    | Remove(remove: RemoveAt)
  {
    predicate Begins() {
      match this
      case Named(_, at) => at == Queued
      case Peek(at) => at == Asking
      case PeekNow(at) => at == Asking
      case Connect(at) => at == Checking
      case Remove(at) => at == Pending
    }

    predicate Done() {
      match this
      case Named(_, at) => at == Finished
      case Peek(at) => at == Answered
      case PeekNow(at) => at == Answered
      case Connect(at) => at == Refused || at == Connected
      case Remove(at) => at == Removed
    }

    /** About to wait for the service lock. */
    predicate Waits() {
      match this
      case Named(_, at) => at == Queued
      case Peek(at) => at == Asking
      case PeekNow(_) => false
      case Connect(at) => at == Checking || at == Waiting
      case Remove(at) => at == Pending
    }

    predicate Holds() {
      match this
      case Named(_, at) => at != Queued && at != Finished
      case Peek(at) => at == Reading || at.Leaving?
      case PeekNow(at) => at == Reading || at.Leaving?
      case Connect(at) => at == Looking || at.Parting? || at == Storing || at == Handing
      case Remove(at) => at == Removing || at == Releasing
    }

    /** Inside the operation it names. */
    predicate Operates() {
      Named? && (named == Marked || named.Ending?)
    }
  }

  /** What a step may depend on besides the state: whether the caller's code panics, whether building the
      adapter fails, and whether the service it leaves is usable. */
  datatype Chance = Chance(panics: bool, fails: bool, usable: bool)

  datatype State = State(holder: Option<nat>, poisoned: bool, busy: Option<string>, service: Option<bool>, tasks: map<nat, Task>)

  const START := State(None, false, None, None, map[])

  // ---- Steps ----

  predicate Enabled(s: State, id: nat) {
    id in s.tasks && !s.tasks[id].Done() && (s.tasks[id].Waits() ==> s.holder.None?)
  }

  function Acquire(s: State, id: nat, inside: Task, failed: Task): State {
    if s.poisoned then s.(tasks := s.tasks[id := failed]) else s.(holder := Some(id), tasks := s.tasks[id := inside])
  }

  /** Dropping the lock; a panic poisons it. */
  function Release(s: State, id: nat, outside: Task, panicked: bool): State {
    s.(holder := None, poisoned := s.poisoned || panicked, tasks := s.tasks[id := outside])
  }

  function StepNamed(s: State, id: nat, t: Task, c: Chance): State
    requires t.Named?
  {
    match t.named
    case Queued => Acquire(s, id, t.(named := Locked), t.(named := Finished))
    case Locked => s.(busy := Some(t.what), tasks := s.tasks[id := t.(named := Marked)])
    case Marked =>
      if s.service.None? then s.(tasks := s.tasks[id := t.(named := Ending(false))])
      else s.(service := Some(c.usable), tasks := s.tasks[id := t.(named := Ending(c.panics))])
    case Ending(p) => s.(busy := None, tasks := s.tasks[id := t.(named := Unmarked(p))])
    case Unmarked(p) => Release(s, id, t.(named := Finished), p)
    case Finished => s
  }

  function StepPeek(s: State, id: nat, t: Task, c: Chance): State
    requires t.Peek?
  {
    match t.peek
    case Asking => Acquire(s, id, Peek(Reading), Peek(Answered))
    case Reading => s.(tasks := s.tasks[id := Peek(Leaving(s.service.Some? && c.panics))])
    case Leaving(p) => Release(s, id, Peek(Answered), p)
    case Answered => s
  }

  function StepPeekNow(s: State, id: nat, t: Task, c: Chance): State
    requires t.PeekNow?
  {
    match t.now
    case Asking => if s.holder.Some? then s.(tasks := s.tasks[id := PeekNow(Answered)]) else Acquire(s, id, PeekNow(Reading), PeekNow(Answered))
    case Reading => s.(tasks := s.tasks[id := PeekNow(Leaving(s.service.Some? && c.panics))])
    case Leaving(p) => Release(s, id, PeekNow(Answered), p)
    case Answered => s
  }

  function StepConnect(s: State, id: nat, t: Task, c: Chance): State
    requires t.Connect?
  {
    match t.connect
    case Checking => Acquire(s, id, Connect(Looking), Connect(Refused))
    case Looking => s.(tasks := s.tasks[id := Connect(Parting(s.service == Some(true)))])
    case Parting(refused) => Release(s, id, Connect(if refused then Refused else Building), false)
    case Building => s.(tasks := s.tasks[id := Connect(if c.fails then Refused else Waiting)])
    case Waiting => Acquire(s, id, Connect(Storing), Connect(Refused))
    case Storing => s.(service := Some(c.usable), tasks := s.tasks[id := Connect(Handing)])
    case Handing => Release(s, id, Connect(Connected), false)
    case Refused => s
    case Connected => s
  }

  function StepRemove(s: State, id: nat, t: Task, c: Chance): State
    requires t.Remove?
  {
    match t.remove
    case Pending => Acquire(s, id, Remove(Removing), Remove(Removed))
    case Removing => s.(service := None, tasks := s.tasks[id := Remove(Releasing)])
    case Releasing => Release(s, id, Remove(Removed), false)
    case Removed => s
  }

  function Step(s: State, id: nat, c: Chance): State
    requires Enabled(s, id)
  {
    var t := s.tasks[id];
    match t
    case Named(_, _) => StepNamed(s, id, t, c)
    case Peek(_) => StepPeek(s, id, t, c)
    case PeekNow(_) => StepPeekNow(s, id, t, c)
    case Connect(_) => StepConnect(s, id, t, c)
    case Remove(_) => StepRemove(s, id, t, c)
  }

  // ---- Runs ----

  datatype Action = Spawn(id: nat, task: Task) | Go(id: nat, chance: Chance)

  /** An action that cannot be taken now changes nothing: the task waits. */
  function Do(s: State, a: Action): State {
    match a
    case Spawn(id, t) => if id in s.tasks || !t.Begins() then s else s.(tasks := s.tasks[id := t])
    case Go(id, c) => if Enabled(s, id) then Step(s, id, c) else s
  }

  function Run(s: State, actions: seq<Action>): State {
    if actions == [] then s else Do(Run(s, actions[..|actions| - 1]), actions[|actions| - 1])
  }

  ghost predicate OneHolder(s: State) {
    && (s.holder.Some? ==> s.holder.value in s.tasks)
    && (forall id :: id in s.tasks ==> (s.tasks[id].Holds() <==> s.holder == Some(id)))
    && (s.poisoned ==> s.holder.None?)
  }

  /** The marker says exactly what the holder of the lock is doing under its name. */
  ghost predicate MarkerTrue(s: State) {
    s.busy == if s.holder.Some? && s.holder.value in s.tasks && s.tasks[s.holder.value].Operates() then Some(s.tasks[s.holder.value].what) else None
  }

  ghost predicate Inv(s: State) {
    OneHolder(s) && MarkerTrue(s)
  }

  lemma StepKeeps(s: State, id: nat, c: Chance)
    requires Inv(s) && Enabled(s, id)
    ensures Inv(Step(s, id, c))
  {
    match s.tasks[id]
    case Named(_, _) => NamedKeeps(s, id, c);
    case Peek(_) => PeekKeeps(s, id, c);
    case PeekNow(_) => PeekNowKeeps(s, id, c);
    case Connect(_) => ConnectKeeps(s, id, c);
    case Remove(_) => RemoveKeeps(s, id, c);
  }

  lemma NamedKeeps(s: State, id: nat, c: Chance)
    requires Inv(s) && Enabled(s, id) && s.tasks[id].Named?
    ensures Inv(StepNamed(s, id, s.tasks[id], c))
  {
  }

  lemma PeekKeeps(s: State, id: nat, c: Chance)
    requires Inv(s) && Enabled(s, id) && s.tasks[id].Peek?
    ensures Inv(StepPeek(s, id, s.tasks[id], c))
  {
  }

  lemma PeekNowKeeps(s: State, id: nat, c: Chance)
    requires Inv(s) && Enabled(s, id) && s.tasks[id].PeekNow?
    ensures Inv(StepPeekNow(s, id, s.tasks[id], c))
  {
  }

  lemma ConnectKeeps(s: State, id: nat, c: Chance)
    requires Inv(s) && Enabled(s, id) && s.tasks[id].Connect?
    ensures Inv(StepConnect(s, id, s.tasks[id], c))
  {
  }

  lemma RemoveKeeps(s: State, id: nat, c: Chance)
    requires Inv(s) && Enabled(s, id) && s.tasks[id].Remove?
    ensures Inv(StepRemove(s, id, s.tasks[id], c))
  {
  }

  lemma DoKeeps(s: State, a: Action)
    requires Inv(s)
    ensures Inv(Do(s, a))
  {
    hide Step;
    if a.Go? && Enabled(s, a.id) {
      StepKeeps(s, a.id, a.chance);
    }
  }

  /** In every interleaving of any tasks. */
  lemma {:induction false} EveryRun(actions: seq<Action>)
    ensures Inv(Run(START, actions))
  {
    hide Do, Inv;
    if actions == [] {
      StartHolds();
    } else {
      EveryRun(actions[..|actions| - 1]);
      DoKeeps(Run(START, actions[..|actions| - 1]), actions[|actions| - 1]);
    }
  }

  lemma StartHolds()
    ensures Inv(START)
  {
  }

  // ---- What follows ----

  /** The marker is set exactly while some named operation is inside the lock, and it names that one. */
  lemma MarkerExactly(actions: seq<Action>, what: string)
    ensures var s := Run(START, actions);
            && (forall id :: id in s.tasks && s.tasks[id].Operates() ==> s.holder == Some(id))
            && (s.busy == Some(what) <==> exists id :: id in s.tasks && s.tasks[id].Operates() && s.tasks[id].what == what)
  {
    hide Run;
    EveryRun(actions);
  }

  /** By the time the lock is given back the marker has been cleared, after a panic as well. */
  lemma ClearedBeforeRelease(actions: seq<Action>, a: Action)
    ensures var s := Run(START, actions); s.holder.Some? && Do(s, a).holder.None? ==> s.busy.None?
    ensures Run(START, actions).holder.None? ==> Run(START, actions).busy.None?
  {
    hide Run;
    EveryRun(actions);
    var s := Run(START, actions);
    if a.Go? && Enabled(s, a.id) {
      ReleasedUnmarked(s, a.id, a.chance);
    }
  }

  lemma ReleasedUnmarked(s: State, id: nat, c: Chance)
    requires Inv(s) && Enabled(s, id)
    ensures s.holder.Some? && Step(s, id, c).holder.None? ==> s.busy.None?
  {
  }

  /** `peek_service_now` can always take its next step, and while another task has the lock that step is
      its answer. */
  lemma PeekNowNeverWaits(actions: seq<Action>, id: nat, c: Chance)
    ensures var s := Run(START, actions);
            id in s.tasks && s.tasks[id].PeekNow? && !s.tasks[id].Done() ==>
              && Enabled(s, id)
              && (s.holder.Some? && s.holder != Some(id) ==> Step(s, id, c).tasks[id].Done())
  {
    hide Run;
    EveryRun(actions);
  }

  /** Whoever holds the lock can go on, so some unfinished task always can. */
  lemma NoDeadlock(actions: seq<Action>)
    ensures var s := Run(START, actions);
            (exists id :: id in s.tasks && !s.tasks[id].Done()) ==> exists id :: Enabled(s, id)
  {
    hide Run;
    EveryRun(actions);
    var s := Run(START, actions);
    if id :| id in s.tasks && !s.tasks[id].Done() {
      assert Enabled(s, if s.holder.Some? then s.holder.value else id);
    }
  }

  lemma PoisonStep(s: State, a: Action)
    requires Inv(s) && s.poisoned
    ensures Do(s, a).poisoned && Do(s, a).service == s.service
  {
  }

  /** After a panic nobody ever gets the lock again: the marker stays clear and the service as it was. */
  lemma {:induction false} PoisonedForGood(actions: seq<Action>, later: seq<Action>)
    requires Run(START, actions).poisoned
    ensures var s := Run(START, actions + later);
            s.poisoned && s.holder.None? && s.busy.None? && s.service == Run(START, actions).service
  {
    hide Do;
    EveryRun(actions + later);
    if later == [] {
      assert actions + later == actions;
    } else {
      var n := |later| - 1;
      PoisonedForGood(actions, later[..n]);
      assert (actions + later)[..|actions + later| - 1] == actions + later[..n];
      EveryRun(actions + later[..n]);
      PoisonStep(Run(START, actions + later[..n]), later[n]);
    }
  }

  function Turns(id: nat, c: Chance, n: nat): seq<Action> {
    if n == 0 then [] else Turns(id, c, n - 1) + [Go(id, c)]
  }

  lemma {:induction false} RunAppend(s: State, a: seq<Action>, b: seq<Action>)
    ensures Run(s, a + b) == Run(Run(s, a), b)
  {
    hide Do;
    if b == [] {
      assert a + b == a;
    } else {
      assert (a + b)[..|a + b| - 1] == a + b[..|b| - 1];
      RunAppend(s, a, b[..|b| - 1]);
    }
  }

  ghost predicate Quiet(s: State) {
    s.holder.None? && !s.poisoned
  }

  lemma ConnectTurn(s: State, id: nat, c: Chance)
    requires Enabled(s, id) && s.tasks[id].Connect?
    ensures Do(s, Go(id, c)) == StepConnect(s, id, s.tasks[id], c)
  {
    hide StepConnect;
  }

  lemma SetTwice(tasks: map<nat, Task>, id: nat, a: Task, b: Task)
    ensures tasks[id := a][id := b] == tasks[id := b]
  {
  }

  /** A connect left alone to look: nothing usable is there, so it goes on to build. */
  lemma LooksAlone(s: State, id: nat, c: Chance)
    requires Quiet(s) && id in s.tasks && s.tasks[id] == Connect(Checking) && s.service != Some(true)
    ensures Run(s, Turns(id, c, 3)) == s.(tasks := s.tasks[id := Connect(Building)])
  {
    hide Do, Run, Turns;
    var s1 := s.(holder := Some(id), tasks := s.tasks[id := Connect(Looking)]);
    var s2 := s1.(tasks := s1.tasks[id := Connect(Parting(false))]);
    OneTurn(s, id, c, 0);
    OneTurn(s, id, c, 1);
    OneTurn(s, id, c, 2);
    ConnectTurn(s, id, c);
    ConnectTurn(s1, id, c);
    ConnectTurn(s2, id, c);
    SetTwice(s.tasks, id, Connect(Looking), Connect(Parting(false)));
    SetTwice(s.tasks, id, Connect(Parting(false)), Connect(Building));
  }

  lemma OneTurn(s: State, id: nat, c: Chance, n: nat)
    ensures Run(s, Turns(id, c, 0)) == s
    ensures Run(s, Turns(id, c, n + 1)) == Do(Run(s, Turns(id, c, n)), Go(id, c))
  {
    hide Do;
    assert Turns(id, c, n + 1)[..|Turns(id, c, n + 1)| - 1] == Turns(id, c, n);
  }

  /** A connect left alone to finish stores its service, whatever is there by then. */
  lemma StoresAlone(s: State, id: nat, c: Chance)
    requires Quiet(s) && id in s.tasks && s.tasks[id] == Connect(Building) && !c.fails
    ensures Run(s, Turns(id, c, 4)) == s.(service := Some(c.usable), tasks := s.tasks[id := Connect(Connected)])
  {
    hide Do, Run, Turns;
    var s1 := s.(tasks := s.tasks[id := Connect(Waiting)]);
    var s2 := s1.(holder := Some(id), tasks := s1.tasks[id := Connect(Storing)]);
    var s3 := s2.(service := Some(c.usable), tasks := s2.tasks[id := Connect(Handing)]);
    OneTurn(s, id, c, 0);
    OneTurn(s, id, c, 1);
    OneTurn(s, id, c, 2);
    OneTurn(s, id, c, 3);
    ConnectTurn(s, id, c);
    ConnectTurn(s1, id, c);
    ConnectTurn(s2, id, c);
    ConnectTurn(s3, id, c);
    SetTwice(s.tasks, id, Connect(Waiting), Connect(Storing));
    SetTwice(s.tasks, id, Connect(Storing), Connect(Handing));
    SetTwice(s.tasks, id, Connect(Handing), Connect(Connected));
  }

  lemma BothSpawned()
    ensures Run(START, [Spawn(1, Connect(Checking)), Spawn(2, Connect(Checking))])
         == START.(tasks := map[1 := Connect(Checking), 2 := Connect(Checking)])
  {
    hide Step, Turns;
    var both := [Spawn(1, Connect(Checking)), Spawn(2, Connect(Checking))];
    assert both[..1][..0] == [] && both[..1][0] == both[0];
  }

  /** The lock is not held between looking and storing, so two connects that both looked first both
      succeed, and the second replaces the first's service although it is usable. */
  lemma ConnectsOverlap(c: Chance)
    requires c.usable && !c.fails
    ensures exists first: seq<Action> ::
              && Run(START, first).service == Some(true) && Run(START, first).tasks.Keys == {1, 2}
              && Run(START, first).tasks[1] == Connect(Connected)
              && Run(START, first + Turns(2, c, 4)) == Run(START, first).(tasks := Run(START, first).tasks[2 := Connect(Connected)])
  {
    hide Step, Turns, Run, Do;
    var both := [Spawn(1, Connect(Checking)), Spawn(2, Connect(Checking))];
    var s0 := START.(tasks := map[1 := Connect(Checking), 2 := Connect(Checking)]);
    BothSpawned();
    LooksAlone(s0, 1, c);
    var s1 := s0.(tasks := s0.tasks[1 := Connect(Building)]);
    LooksAlone(s1, 2, c);
    var s2 := s1.(tasks := s1.tasks[2 := Connect(Building)]);
    StoresAlone(s2, 1, c);
    var s3 := s2.(service := Some(true), tasks := s2.tasks[1 := Connect(Connected)]);
    StoresAlone(s3, 2, c);
    RunAppend(START, both, Turns(1, c, 3));
    RunAppend(START, both + Turns(1, c, 3), Turns(2, c, 3));
    RunAppend(START, both + Turns(1, c, 3) + Turns(2, c, 3), Turns(1, c, 4));
    var first := both + Turns(1, c, 3) + Turns(2, c, 3) + Turns(1, c, 4);
    assert Run(START, first) == s3;
    RunAppend(START, first, Turns(2, c, 4));
  }

  // ---- When a connect replaces a usable service ----

  function ServiceAt(actions: seq<Action>, n: nat): Option<bool>
    requires n <= |actions|
  {
    Run(START, actions[..n]).service
  }

  ghost predicate ConnectIs(actions: seq<Action>, n: nat, id: nat, at: ConnectAt)
    requires n <= |actions|
  {
    var s := Run(START, actions[..n]);
    id in s.tasks && s.tasks[id] == Connect(at)
  }

  /** The task takes this step of its connect. */
  ghost predicate Takes(actions: seq<Action>, n: nat, id: nat, at: ConnectAt) {
    n < |actions| && actions[n].Go? && actions[n].id == id && ConnectIs(actions, n, id, at)
  }

  /** It has looked, found nothing usable, and has not stored yet. */
  predicate Between(t: Task) {
    t.Connect? && (t.connect == Parting(false) || t.connect == Building || t.connect == Waiting || t.connect == Storing)
  }

  ghost predicate InWindow(actions: seq<Action>, n: nat, id: nat)
    requires n <= |actions|
  {
    var s := Run(START, actions[..n]);
    id in s.tasks && Between(s.tasks[id])
  }

  lemma RunNext(actions: seq<Action>, n: nat)
    requires n < |actions|
    ensures Run(START, actions[..n + 1]) == Do(Run(START, actions[..n]), actions[n])
  {
    hide Do;
    assert actions[..n + 1][..n] == actions[..n];
  }

  /** A task enters its window by looking, and its steps inside change nothing but itself. */
  lemma WindowStep(s: State, a: Action, id: nat)
    requires id in Do(s, a).tasks && Between(Do(s, a).tasks[id])
    ensures id in s.tasks
    ensures Between(s.tasks[id]) || (a.Go? && a.id == id && s.tasks[id] == Connect(Looking) && s.service != Some(true))
    ensures a.Go? && a.id == id ==> Do(s, a).service == s.service
  {
    hide StepNamed, StepPeek, StepPeekNow, StepRemove;
    if a.Go? && a.id != id && Enabled(s, a.id) {
      OthersStay(s, a.id, a.chance, id);
    } else if a.Go? && Enabled(s, a.id) {
      KindStays(s, id, a.chance);
    }
  }

  lemma OthersStay(s: State, id: nat, c: Chance, other: nat)
    requires Enabled(s, id) && other != id
    ensures other in Step(s, id, c).tasks <==> other in s.tasks
    ensures other in s.tasks ==> Step(s, id, c).tasks[other] == s.tasks[other]
  {
  }

  lemma KindStays(s: State, id: nat, c: Chance)
    requires Enabled(s, id)
    ensures id in Step(s, id, c).tasks && (Step(s, id, c).tasks[id].Connect? <==> s.tasks[id].Connect?)
  {
  }

  /** Whoever is about to store looked before, and has been in its window ever since. */
  lemma {:induction false} Looked(actions: seq<Action>, n: nat, id: nat) returns (i: nat)
    requires n <= |actions| && InWindow(actions, n, id)
    ensures i < n && Takes(actions, i, id, Looking) && ServiceAt(actions, i) != Some(true)
    ensures forall m :: i < m <= n ==> InWindow(actions, m, id)
  {
    hide Run, Do, Between;
    if n == 0 {
      StartEmpty(actions);
      assert false;
    }
    RunNext(actions, n - 1);
    WindowStep(Run(START, actions[..n - 1]), actions[n - 1], id);
    if InWindow(actions, n - 1, id) {
      i := Looked(actions, n - 1, id);
    } else {
      i := n - 1;
    }
  }

  lemma StartEmpty(actions: seq<Action>)
    ensures Run(START, actions[..0]) == START
  {
  }

  /** This step of some other task left the service usable, and no step after it undid that. */
  ghost predicate LeftUsable(actions: seq<Action>, k: nat, j: nat, id: nat) {
    && k < j <= |actions| && actions[k].Go? && actions[k].id != id
    && ServiceAt(actions, k) != Some(true) && forall m :: k < m <= j ==> ServiceAt(actions, m) == Some(true)
  }

  lemma {:induction false} LastUnusable(actions: seq<Action>, i: nat, j: nat) returns (k: nat)
    requires i <= j <= |actions| && ServiceAt(actions, i) != Some(true) && ServiceAt(actions, j) == Some(true)
    ensures i <= k < j && ServiceAt(actions, k) != Some(true) && forall m :: k < m <= j ==> ServiceAt(actions, m) == Some(true)
  {
    hide Run;
    if ServiceAt(actions, j - 1) != Some(true) {
      k := j - 1;
    } else {
      k := LastUnusable(actions, i, j - 1);
    }
  }

  /** In every run, a connect that stores looked once before, and it replaces a usable service exactly when
      between the two some other task left the service usable and nobody undid it. */
  lemma ReplacesExactly(actions: seq<Action>, j: nat, id: nat) returns (i: nat)
    requires Takes(actions, j, id, Storing)
    ensures i < j && Takes(actions, i, id, Looking)
    ensures ServiceAt(actions, j) == Some(true) <==> exists k :: i < k < j && LeftUsable(actions, k, j, id)
  {
    hide Run, Do;
    i := Looked(actions, j, id);
    if ServiceAt(actions, j) == Some(true) {
      var k := LastUnusable(actions, i, j);
      RunNext(actions, k);
      assert InWindow(actions, k + 1, id) && ServiceAt(actions, k + 1) == Some(true);
      WindowStep(Run(START, actions[..k]), actions[k], id);
      SpawnKeeps(Run(START, actions[..k]), actions[k]);
      assert k > i;
      assert LeftUsable(actions, k, j, id);
    }
  }

  lemma SpawnKeeps(s: State, a: Action)
    ensures a.Spawn? ==> Do(s, a).service == s.service
  {
  }

  /** So a connect during which no other task leaves the service usable never replaces a usable one. */
  lemma AloneNeverReplaces(actions: seq<Action>, j: nat, id: nat) returns (i: nat)
    requires Takes(actions, j, id, Storing)
    ensures i < j && Takes(actions, i, id, Looking)
    ensures (forall k :: i < k < j && actions[k].Go? && ServiceAt(actions, k) != Some(true) && ServiceAt(actions, k + 1) == Some(true) ==> actions[k].id == id)
       ==> ServiceAt(actions, j) != Some(true)
  {
    hide Run, Do, ConnectIs;
    i := ReplacesExactly(actions, j, id);
    if k :| i < k < j && LeftUsable(actions, k, j, id) {
      assert ServiceAt(actions, k + 1) == Some(true);
    }
  }

  // ---- The handlers ----

  datatype ServiceError = LockPoisoned | NoSession | TaskFailed | AdapterBusy | BadRequest

  lemma NamedTurn(s: State, id: nat, c: Chance)
    requires Enabled(s, id) && s.tasks[id].Named?
    ensures Do(s, Go(id, c)) == StepNamed(s, id, s.tasks[id], c)
  {
    hide StepNamed;
  }

  lemma PeekTurn(s: State, id: nat, c: Chance)
    requires Enabled(s, id) && (s.tasks[id].Peek? || s.tasks[id].PeekNow?)
    ensures Do(s, Go(id, c)) == if s.tasks[id].Peek? then StepPeek(s, id, s.tasks[id], c) else StepPeekNow(s, id, s.tasks[id], c)
  {
    hide StepPeek, StepPeekNow;
  }

  lemma DoneTurn(s: State, id: nat, c: Chance)
    requires id in s.tasks && s.tasks[id].Done()
    ensures Do(s, Go(id, c)) == s
  {
  }

  /** The state with one task only. */
  function Alone(locked: bool, poisoned: bool, busy: Option<string>, service: Option<bool>, id: nat, t: Task): State {
    State(if locked then Some(id) else None, poisoned, busy, service, map[id := t])
  }

  /** What a named operation left alone comes to: five turns, or one when the lock is poisoned. */
  lemma NamedAlone(poisoned: bool, service: Option<bool>, id: nat, what: string, c: Chance)
    ensures Run(Alone(false, poisoned, None, service, id, Named(what, Queued)), Turns(id, c, 5))
         == Alone(false, poisoned || (service.Some? && c.panics), None,
                  if poisoned || service.None? then service else Some(c.usable), id, Named(what, Finished))
  {
    hide Do, Run, Turns;
    var s := Alone(false, poisoned, None, service, id, Named(what, Queued));
    OneTurn(s, id, c, 0);
    OneTurn(s, id, c, 1);
    OneTurn(s, id, c, 2);
    OneTurn(s, id, c, 3);
    OneTurn(s, id, c, 4);
    NamedTurn(s, id, c);
    var t := Named(what, if poisoned then Finished else Locked);
    SetTwice(map[], id, Named(what, Queued), t);
    assert Do(s, Go(id, c)) == Alone(!poisoned, poisoned, None, service, id, t);
    if poisoned {
      DoneTurn(Alone(false, true, None, service, id, t), id, c);
    } else {
      NamedInside(service, id, what, c);
    }
  }

  lemma NamedInside(service: Option<bool>, id: nat, what: string, c: Chance)
    ensures var panics, left := service.Some? && c.panics, if service.None? then service else Some(c.usable);
            && Do(Alone(true, false, None, service, id, Named(what, Locked)), Go(id, c)) == Alone(true, false, Some(what), service, id, Named(what, Marked))
            && Do(Alone(true, false, Some(what), service, id, Named(what, Marked)), Go(id, c)) == Alone(true, false, Some(what), left, id, Named(what, Ending(panics)))
            && Do(Alone(true, false, Some(what), left, id, Named(what, Ending(panics))), Go(id, c)) == Alone(true, false, None, left, id, Named(what, Unmarked(panics)))
            && Do(Alone(true, false, None, left, id, Named(what, Unmarked(panics))), Go(id, c)) == Alone(false, panics, None, left, id, Named(what, Finished))
  {
    hide Do;
    var panics, left := service.Some? && c.panics, if service.None? then service else Some(c.usable);
    NamedTurn(Alone(true, false, None, service, id, Named(what, Locked)), id, c);
    NamedTurn(Alone(true, false, Some(what), service, id, Named(what, Marked)), id, c);
    NamedTurn(Alone(true, false, Some(what), left, id, Named(what, Ending(panics))), id, c);
    NamedTurn(Alone(true, false, None, left, id, Named(what, Unmarked(panics))), id, c);
  }

  /** What the handlers share. Each handler here runs alone from lock to release; its contract says what it
      leaves, and that it takes the very turns its task takes above. */
  class AppState {
    var locked: bool
    var poisoned: bool
    var busy: Option<string>
    var service: Option<bool>

    ghost function Now(id: nat, t: Task): State
      reads this
    {
      Alone(locked, poisoned, busy, service, id, t)
    }

    constructor ()
      ensures !locked && !poisoned && busy.None? && service.None?
    {
      locked, poisoned, busy, service := false, false, None, None;
    }

    /** `lock`: a poisoned lock is given back at once as an error. */
    method Lock() returns (ok: bool)
      requires !locked
      modifies this`locked
      ensures ok == locked == !poisoned
    {
      ok := !poisoned;
      locked := ok;
    }

    /** The guard of the lock dropped, by a return or by a panic on its way out. */
    method Unlock(panicking: bool)
      requires locked
      modifies this`locked, this`poisoned
      ensures !locked && poisoned == (old(poisoned) || panicking)
    {
      if panicking {
        poisoned := true;
      }
      locked := false;
    }

    /** The caller's operation: it finds itself inside the lock and under its own name. */
    method Operate(ghost what: string, c: Chance) returns (panicked: bool)
      requires locked && busy == Some(what) && service.Some?
      modifies this`service
      ensures service == Some(c.usable) && panicked == c.panics
    {
      service := Some(c.usable);
      panicked := c.panics;
    }

    /** `with_service_named`: whatever the operation does, afterwards the marker is clear and the lock is
        free, and it is poisoned exactly when the operation panicked. */
    method WithServiceNamed(what: string, c: Chance, ghost id: nat) returns (r: Result<(), ServiceError>)
      requires !locked && busy.None?
      modifies this
      ensures !locked && busy.None?
      ensures old(poisoned) ==> r == Failure(LockPoisoned) && poisoned && service == old(service)
      ensures !old(poisoned) && old(service).None? ==> r == Failure(NoSession) && !poisoned && service.None?
      ensures !old(poisoned) && old(service).Some? ==>
                r == (if c.panics then Failure(TaskFailed) else Success(())) && poisoned == c.panics && service == Some(c.usable)
      ensures Now(id, Named(what, Finished)) == Run(old(Now(id, Named(what, Queued))), Turns(id, c, 5))
    {
      hide Run, Turns;
      NamedAlone(poisoned, service, id, what, c);
      var ok := Lock();
      if !ok {
        return Failure(LockPoisoned);
      }
      busy := Some(what);
      var panicked := false;
      r := Failure(NoSession);
      if service.Some? {
        panicked := Operate(what, c);
        r := if panicked then Failure(TaskFailed) else Success(());
      }
      // The marker's guard is dropped before the lock's.
      busy := None;
      Unlock(panicked);
    }

    /** `busy_now`: what is being done, without waiting for it. */
    method BusyNow() returns (what: Option<string>)
      ensures what == busy
    {
      what := busy;
    }

    /** `peek_service`: reads under the lock and leaves service and marker alone. */
    method PeekService(c: Chance, ghost id: nat) returns (r: Result<Option<bool>, ServiceError>)
      requires !locked
      modifies this`locked, this`poisoned
      ensures !locked && poisoned == (old(poisoned) || (service.Some? && c.panics))
      ensures r == if old(poisoned) then Failure(LockPoisoned) else if poisoned then Failure(TaskFailed) else Success(service)
      ensures Now(id, Peek(Answered)) == Run(old(Now(id, Peek(Asking))), Turns(id, c, 3))
    {
      hide Run, Turns;
      PeekAlone(poisoned, busy, service, id, c);
      var ok := Lock();
      if !ok {
        return Failure(LockPoisoned);
      }
      var panicked := service.Some? && c.panics;
      r := if panicked then Failure(TaskFailed) else Success(service);
      Unlock(panicked);
    }

    /** `peek_service_now`: while another task has the lock it answers at once and touches nothing. */
    method PeekServiceNow(c: Chance, ghost id: nat) returns (r: Result<Option<bool>, ServiceError>)
      modifies this`locked, this`poisoned
      ensures locked == old(locked)
      ensures old(locked) ==> r == Failure(AdapterBusy) && poisoned == old(poisoned)
      ensures !old(locked) ==>
                && poisoned == (old(poisoned) || (service.Some? && c.panics))
                && r == (if old(poisoned) then Failure(LockPoisoned) else if poisoned then Failure(TaskFailed) else Success(service))
                && Now(id, PeekNow(Answered)) == Run(old(Now(id, PeekNow(Asking))), Turns(id, c, 3))
    {
      hide Run, Turns;
      if locked {
        return Failure(AdapterBusy);
      }
      PeekNowAlone(poisoned, busy, service, id, c);
      var ok := Lock();
      if !ok {
        return Failure(LockPoisoned);
      }
      var panicked := service.Some? && c.panics;
      r := if panicked then Failure(TaskFailed) else Success(service);
      Unlock(panicked);
    }

    /** `connect`: a usable service is kept and the caller refused; otherwise the new service is stored,
        usable or not. */
    method ConnectService(c: Chance, ghost id: nat) returns (r: Result<(), ServiceError>)
      requires !locked
      modifies this`locked, this`poisoned, this`service
      ensures !locked && poisoned == old(poisoned) && (r.Failure? ==> service == old(service))
      ensures r == if poisoned then Failure(LockPoisoned) else if old(service) == Some(true) then Failure(AdapterBusy)
                   else if c.fails then Failure(BadRequest) else Success(())
      ensures r.Success? ==> service == Some(c.usable)
      ensures Now(id, Connect(if r.Success? then Connected else Refused)) == Run(old(Now(id, Connect(Checking))), Turns(id, c, 7))
    {
      hide Run, Turns;
      ConnectAlone(poisoned, busy, service, id, c);
      var ok := Lock();
      if !ok {
        return Failure(LockPoisoned);
      }
      var already := service == Some(true);
      Unlock(false);
      if already {
        return Failure(AdapterBusy);
      }
      if c.fails {
        return Failure(BadRequest);
      }
      ok := Lock();
      if !ok {
        assert false;
        return Failure(LockPoisoned);
      }
      service := Some(c.usable);
      Unlock(false);
      r := Success(());
    }

    /** The end of `disconnect`: no service afterwards, unless the lock is poisoned. */
    method RemoveService()
      requires !locked
      modifies this`locked, this`poisoned, this`service
      ensures !locked && poisoned == old(poisoned) && service == if poisoned then old(service) else None
    {
      var ok := Lock();
      if ok {
        service := None;
        Unlock(false);
      }
    }
  }

  lemma PeekAlone(poisoned: bool, busy: Option<string>, service: Option<bool>, id: nat, c: Chance)
    ensures Run(Alone(false, poisoned, busy, service, id, Peek(Asking)), Turns(id, c, 3))
         == Alone(false, poisoned || (service.Some? && c.panics), busy, service, id, Peek(Answered))
  {
    hide Do, Run, Turns;
    var s := Alone(false, poisoned, busy, service, id, Peek(Asking));
    OneTurn(s, id, c, 0);
    OneTurn(s, id, c, 1);
    OneTurn(s, id, c, 2);
    PeekTurn(s, id, c);
    var t := Peek(if poisoned then Answered else Reading);
    SetTwice(map[], id, Peek(Asking), t);
    assert Do(s, Go(id, c)) == Alone(!poisoned, poisoned, busy, service, id, t);
    if poisoned {
      DoneTurn(Alone(false, true, busy, service, id, t), id, c);
    } else {
      var leaving := Peek(Leaving(service.Some? && c.panics));
      SetTwice(map[], id, t, leaving);
      SetTwice(map[], id, leaving, Peek(Answered));
      PeekTurn(Alone(true, false, busy, service, id, t), id, c);
      PeekTurn(Alone(true, false, busy, service, id, leaving), id, c);
      assert Do(Alone(true, false, busy, service, id, t), Go(id, c)) == Alone(true, false, busy, service, id, leaving);
    }
  }

  lemma PeekNowAlone(poisoned: bool, busy: Option<string>, service: Option<bool>, id: nat, c: Chance)
    ensures Run(Alone(false, poisoned, busy, service, id, PeekNow(Asking)), Turns(id, c, 3))
         == Alone(false, poisoned || (service.Some? && c.panics), busy, service, id, PeekNow(Answered))
  {
    hide Do, Run, Turns;
    var s := Alone(false, poisoned, busy, service, id, PeekNow(Asking));
    OneTurn(s, id, c, 0);
    OneTurn(s, id, c, 1);
    OneTurn(s, id, c, 2);
    PeekTurn(s, id, c);
    var t := PeekNow(if poisoned then Answered else Reading);
    SetTwice(map[], id, PeekNow(Asking), t);
    assert Do(s, Go(id, c)) == Alone(!poisoned, poisoned, busy, service, id, t);
    if poisoned {
      DoneTurn(Alone(false, true, busy, service, id, t), id, c);
    } else {
      var leaving := PeekNow(Leaving(service.Some? && c.panics));
      SetTwice(map[], id, t, leaving);
      SetTwice(map[], id, leaving, PeekNow(Answered));
      PeekTurn(Alone(true, false, busy, service, id, t), id, c);
      PeekTurn(Alone(true, false, busy, service, id, leaving), id, c);
      assert Do(Alone(true, false, busy, service, id, t), Go(id, c)) == Alone(true, false, busy, service, id, leaving);
    }
  }

  lemma ConnectAlone(poisoned: bool, busy: Option<string>, service: Option<bool>, id: nat, c: Chance)
    ensures Run(Alone(false, poisoned, busy, service, id, Connect(Checking)), Turns(id, c, 7))
         == if !poisoned && service != Some(true) && !c.fails then Alone(false, false, busy, Some(c.usable), id, Connect(Connected))
            else Alone(false, poisoned, busy, service, id, Connect(Refused))
  {
    hide Do, Run, Turns;
    var s := Alone(false, poisoned, busy, service, id, Connect(Checking));
    OneTurn(s, id, c, 0);
    OneTurn(s, id, c, 1);
    OneTurn(s, id, c, 2);
    OneTurn(s, id, c, 3);
    OneTurn(s, id, c, 4);
    OneTurn(s, id, c, 5);
    OneTurn(s, id, c, 6);
    ConnectTurn(s, id, c);
    var t := Connect(if poisoned then Refused else Looking);
    SetTwice(map[], id, Connect(Checking), t);
    assert Do(s, Go(id, c)) == Alone(!poisoned, poisoned, busy, service, id, t);
    DoneTurn(Alone(false, poisoned, busy, service, id, Connect(Refused)), id, c);
    if !poisoned {
      ConnectLooks(busy, service, id, c);
      ConnectStores(busy, service, id, c);
    }
  }

  lemma ConnectLooks(busy: Option<string>, service: Option<bool>, id: nat, c: Chance)
    ensures var already := service == Some(true);
            && Do(Alone(true, false, busy, service, id, Connect(Looking)), Go(id, c)) == Alone(true, false, busy, service, id, Connect(Parting(already)))
            && Do(Alone(true, false, busy, service, id, Connect(Parting(already))), Go(id, c))
               == Alone(false, false, busy, service, id, Connect(if already then Refused else Building))
            && Do(Alone(false, false, busy, service, id, Connect(Building)), Go(id, c))
               == Alone(false, false, busy, service, id, Connect(if c.fails then Refused else Waiting))
  {
    hide Do;
    ConnectTurn(Alone(true, false, busy, service, id, Connect(Looking)), id, c);
    ConnectTurn(Alone(true, false, busy, service, id, Connect(Parting(service == Some(true)))), id, c);
    ConnectTurn(Alone(false, false, busy, service, id, Connect(Building)), id, c);
  }

  lemma ConnectStores(busy: Option<string>, service: Option<bool>, id: nat, c: Chance)
    ensures Do(Alone(false, false, busy, service, id, Connect(Waiting)), Go(id, c)) == Alone(true, false, busy, service, id, Connect(Storing))
    ensures Do(Alone(true, false, busy, service, id, Connect(Storing)), Go(id, c)) == Alone(true, false, busy, Some(c.usable), id, Connect(Handing))
    ensures Do(Alone(true, false, busy, Some(c.usable), id, Connect(Handing)), Go(id, c))
         == Alone(false, false, busy, Some(c.usable), id, Connect(Connected))
  {
    hide Do;
    ConnectTurn(Alone(false, false, busy, service, id, Connect(Waiting)), id, c);
    ConnectTurn(Alone(true, false, busy, service, id, Connect(Storing)), id, c);
    ConnectTurn(Alone(true, false, busy, Some(c.usable), id, Connect(Handing)), id, c);
  }
}
