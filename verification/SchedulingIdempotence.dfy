/** A reconcile that meets no fault and no interference is idempotent, from any state of the
    world: a second one at the same time writes nothing. */
module SchedulingIdempotence {
  import opened Prelude
  import opened Phases
  import opened SchedulingProtocol
  import opened SchedulingHistory

  /** One reconcile from its Get to its end, every call of which succeeds, with nothing else
      happening in between. */
  ghost predicate Cycle(cfg: Config, states: seq<State>) {
    && |states| >= 2
    && (forall i :: 0 <= i < |states| ==> (states[i].proc.Idle? <==> i == 0 || i == |states| - 1))
    && (forall i {:trigger Succeeds(cfg, states, i)} :: 0 <= i < |states| - 1 ==> Succeeds(cfg, states, i))
  }

  ghost predicate Succeeds(cfg: Config, states: seq<State>, i: nat)
    requires i + 1 < |states|
  {
    CallStep(cfg, states[i], Ok, states[i + 1])
  }

  /** Whether the next call of the process is a write. */
  predicate Writes(p: Proc) {
    p.Clearing? || p.Recovering? || p.Creating? || p.Recording? || (p.Deleting? && p.todo != [])
  }

  /** Nothing is left to do at the present time. */
  ghost predicate Settled(cfg: Config, w: World) {
    if NoneActive(w.children) then
      && w.status.active.None?
      && (cfg.schedule.Some? ==>
            && !Due(cfg.schedule.value, w.status, w.clock)
            && |InPhaseNames(w.children, Completed)| <= cfg.successLimit
            && |InPhaseNames(w.children, Failed)| <= cfg.failureLimit)
    else w.status.active.Some?
  }

  // ---------------------------------------------------------------- a settled world

  ghost predicate StillSettled(cfg: Config, w: World, s: State) {
    && s.world == w
    && match s.proc
       case Idle => true
       case Got(seen) => seen == w.status
       case Listed(seen, kids) => seen == w.status && kids == w.children
       case Sorting(_, kids, _, phase) =>
         kids == w.children && Terminal(phase) && NoneActive(kids) && cfg.schedule.Some?
       case Deleting(_, kids, _, phase, todo) =>
         kids == w.children && Terminal(phase) && NoneActive(kids) && cfg.schedule.Some? && todo == []
       case _ => false
  }

  lemma SettledStep(cfg: Config, w: World, s: State, s': State)
    requires Settled(cfg, w) && StillSettled(cfg, w, s) && CallStep(cfg, s, Ok, s')
    ensures StillSettled(cfg, w, s')
  {
    if s.proc.Sorting? {
      ExcessCounts(s.proc.kids, s.proc.phase, Limit(cfg, s.proc.phase), s'.proc.todo);
    }
  }

  lemma {:induction false} SettledCycleWritesNothing(cfg: Config, states: seq<State>, i: nat)
    requires Cycle(cfg, states) && Settled(cfg, states[0].world) && i < |states|
    ensures StillSettled(cfg, states[0].world, states[i])
    ensures states[i].world == states[0].world && !Writes(states[i].proc)
  {
    if i > 0 {
      SettledCycleWritesNothing(cfg, states, i - 1);
      assert Succeeds(cfg, states, i - 1);
      SettledStep(cfg, states[0].world, states[i - 1], states[i]);
    }
  }

  // ---------------------------------------------------------------- one reconcile settles

  /** A reconcile that started a scan, which is now the active one. */
  ghost predicate Started(w: World, kids: Children) {
    w.status.active.Some? && exists n :: n !in kids && IsActive(w.children, n)
  }

  /** A reconcile that only waits for the next fire time, and cleans up. */
  ghost predicate Waiting(cfg: Config, w: World, seen: Status, kids: Children, now: Time) {
    && w.status.active.None? && seen == w.status && now == w.clock
    && cfg.schedule.Some? && !Due(cfg.schedule.value, seen, now)
    && NoneActive(kids) && (forall n :: n in w.children ==> n in kids && w.children[n] == kids[n])
  }

  ghost predicate CleansUp(cfg: Config, w: World, seen: Status, kids: Children, now: Time) {
    Started(w, kids) || Waiting(cfg, w, seen, kids, now)
  }

  ghost predicate Undisturbed(cfg: Config, s: State) {
    var w, p := s.world, s.proc;
    && CleanUpProgress(cfg, w, p)
    && (!p.Idle? ==> p.seen == w.status)
    && (p.Listed? || p.Clearing? || p.Creating? ==> p.kids == w.children)
    && (p.Clearing? || p.Creating? ==> NoneActive(p.kids) && p.now == w.clock)
    && (p.Creating? ==> cfg.schedule.Some?)
    && (p.Recovering? ==> !NoneActive(w.children))
    && (p.Recording? ==> p.ref.name !in p.kids && IsActive(w.children, p.ref.name))
    && (p.Sorting? || p.Deleting? ==> CleansUp(cfg, w, p.seen, p.kids, p.now))
  }

  lemma DeletionKeepsCleaning(cfg: Config, w: World, seen: Status, kids: Children, now: Time, name: string)
    requires CleansUp(cfg, w, seen, kids, now) && name in kids
    ensures CleansUp(cfg, w.(children := w.children - {name}), seen, kids, now)
  {
  }

  lemma DeletingUndisturbed(cfg: Config, s: State, s': State)
    requires Undisturbed(cfg, s) && CallStep(cfg, s, Ok, s') && s.proc.Deleting? && s.proc.todo != []
    ensures Undisturbed(cfg, s')
  {
    CleaningMakesProgress(cfg, s, s');
    assert InPhase(s.proc.kids, s.proc.phase, s.proc.todo[0]);
    DeletionKeepsCleaning(cfg, s.world, s.proc.seen, s.proc.kids, s.proc.now, s.proc.todo[0].name);
  }

  lemma PlanningUndisturbed(cfg: Config, s: State, s': State)
    requires Undisturbed(cfg, s) && CallStep(cfg, s, Ok, s') && !s'.proc.Idle?
    requires s.proc.Sorting? || (s.proc.Deleting? && s.proc.todo == [])
    ensures Undisturbed(cfg, s')
  {
    CleaningMakesProgress(cfg, s, s');
  }

  lemma UndisturbedStep(cfg: Config, s: State, s': State)
    requires Undisturbed(cfg, s) && CallStep(cfg, s, Ok, s') && !s'.proc.Idle?
    ensures Undisturbed(cfg, s')
  {
    if s.proc.Deleting? && s.proc.todo != [] {
      DeletingUndisturbed(cfg, s, s');
    } else if s.proc.Sorting? || s.proc.Deleting? {
      PlanningUndisturbed(cfg, s, s');
    }
  }

  lemma AllAreLeft(w: World, kids: Children, phase: Phase)
    requires forall n :: n in w.children ==> n in kids && w.children[n] == kids[n]
    ensures |InPhaseNames(w.children, phase)| <= |Left(w, kids, phase, [])|
  {
    assert InPhaseNames(w.children, phase) <= Left(w, kids, phase, []);
    SubsetSize(InPhaseNames(w.children, phase), Left(w, kids, phase, []));
  }

  lemma WaitingSettles(cfg: Config, s: State)
    requires Undisturbed(cfg, s) && AtEnd(s.proc) && !Started(s.world, s.proc.kids)
    ensures Settled(cfg, s.world)
  {
    AllAreLeft(s.world, s.proc.kids, Completed);
    AllAreLeft(s.world, s.proc.kids, Failed);
  }

  /** The last call of a reconcile leaves a settled world. */
  lemma LastStepSettles(cfg: Config, s: State, s': State)
    requires Undisturbed(cfg, s) && CallStep(cfg, s, Ok, s') && !s.proc.Idle? && s'.proc.Idle?
    ensures Settled(cfg, s'.world)
  {
    if s.proc.Deleting? && !Started(s.world, s.proc.kids) { WaitingSettles(cfg, s); }
  }

  lemma FirstIsUndisturbed(cfg: Config, s: State)
    requires s.proc == Idle
    ensures Undisturbed(cfg, s)
  {
  }

  lemma NextIsUndisturbed(cfg: Config, states: seq<State>, i: nat)
    requires Cycle(cfg, states) && i + 2 < |states| && Undisturbed(cfg, states[i])
    ensures Undisturbed(cfg, states[i + 1])
  {
    assert Succeeds(cfg, states, i);
    UndisturbedStep(cfg, states[i], states[i + 1]);
  }

  lemma {:induction false} CycleIsUndisturbed(cfg: Config, states: seq<State>, i: nat)
    requires Cycle(cfg, states) && i < |states| - 1
    ensures Undisturbed(cfg, states[i])
  {
    if i == 0 {
      FirstIsUndisturbed(cfg, states[0]);
    } else {
      CycleIsUndisturbed(cfg, states, i - 1);
      NextIsUndisturbed(cfg, states, i - 1);
    }
  }

  lemma CycleSettles(cfg: Config, states: seq<State>)
    requires Cycle(cfg, states)
    ensures Settled(cfg, states[|states| - 1].world)
  {
    var k := |states| - 2;
    assert Succeeds(cfg, states, 0);
    CycleIsUndisturbed(cfg, states, k);
    assert Succeeds(cfg, states, k);
    LastStepSettles(cfg, states[k], states[k + 1]);
  }

  /** Idempotence: two reconciles in a row, from any world at all. */
  lemma SecondReconcileWritesNothing(cfg: Config, first: seq<State>, second: seq<State>, i: nat)
    requires Cycle(cfg, first) && Cycle(cfg, second) && second[0] == first[|first| - 1] && i < |second|
    ensures second[i].world == second[0].world && !Writes(second[i].proc)
  {
    CycleSettles(cfg, first);
    SettledCycleWritesNothing(cfg, second, i);
  }

  /** With a schedule that never fires, every undisturbed reconcile leaves an unfinished scan: if
      the last one is over, it starts another one. */
  lemma NeverFiringKeepsScanning(cfg: Config, states: seq<State>, zero: Time)
    requires Cycle(cfg, states) && zero <= states[|states| - 1].world.clock
    requires cfg.schedule.Some? && NeverFires(cfg.schedule.value, zero)
    ensures !NoneActive(states[|states| - 1].world.children)
  {
    var w := states[|states| - 1].world;
    CycleSettles(cfg, states);
    NeverFiringIsDue(cfg.schedule.value, zero, w.status, w.clock);
  }
}
