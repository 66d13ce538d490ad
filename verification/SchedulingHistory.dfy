/** The history limits: what one clean-up leaves, and how many children there can be. */
module SchedulingHistory {
  import opened Prelude
  import opened Phases
  import opened SchedulingProtocol
  import opened SchedulingInvariant

  function Names(refs: seq<Ref>): set<string> { set r | r in refs :: r.name }

  function InPhaseNames(kids: Children, phase: Phase): set<string> {
    set n | n in kids && kids[n].phase == phase
  }

  lemma {:induction false} NamesOfDistinct(refs: seq<Ref>)
    requires Distinct(refs)
    ensures |Names(refs)| == |refs|
  {
    if refs == [] {
      assert Names(refs) == {};
    } else {
      var init, last := refs[..|refs| - 1], refs[|refs| - 1];
      NamesOfDistinct(init);
      assert Names(refs) == Names(init) + {last.name};
      assert last.name !in Names(init);
    }
  }

  lemma OrderNames(kids: Children, phase: Phase, order: seq<Ref>)
    requires CreationOrder(kids, phase, order)
    ensures Names(order) == InPhaseNames(kids, phase) && |order| == |InPhaseNames(kids, phase)|
  {
    assert forall r :: r in order ==> InPhase(kids, phase, r);
    forall n | n in InPhaseNames(kids, phase) ensures n in Names(order) {
      assert Ref(n, kids[n].uid) in order;
    }
    NamesOfDistinct(order);
  }

  lemma ExcessCounts(kids: Children, phase: Phase, limit: nat, todo: seq<Ref>)
    requires Excess(kids, phase, limit, todo)
    ensures var all := InPhaseNames(kids, phase);
            && Distinct(todo) && Names(todo) <= all
            && |todo| == |Names(todo)| == Max(|all| - limit, 0)
  {
    var order: seq<Ref> :| CreationOrder(kids, phase, order) && todo == order[..Max(|order| - limit, 0)];
    OrderNames(kids, phase, order);
    NamesOfDistinct(todo);
    assert forall r :: r in todo ==> r in order;
  }

  lemma PrefixIsOldest(kids: Children, phase: Phase, order: seq<Ref>, m: nat, d: string, k: string)
    requires CreationOrder(kids, phase, order) && m <= |order|
    requires d in Names(order[..m]) && k in InPhaseNames(kids, phase) && k !in Names(order[..m])
    ensures d in kids && kids[d].created <= kids[k].created
  {
  }

  /** One clean-up asks for exactly the excess to be deleted, and it keeps the newest children:
      none that it deletes was created after one that it keeps. */
  lemma ExcessIsOldest(kids: Children, phase: Phase, limit: nat, todo: seq<Ref>)
    requires Excess(kids, phase, limit, todo)
    ensures var all := InPhaseNames(kids, phase);
            && Names(todo) <= all && |Names(todo)| == Max(|all| - limit, 0)
            && |all - Names(todo)| == if |all| < limit then |all| else limit
    ensures forall d, k :: d in Names(todo) && k in InPhaseNames(kids, phase) && k !in Names(todo) ==>
              kids[d].created <= kids[k].created
  {
    ExcessCounts(kids, phase, limit, todo);
    var all := InPhaseNames(kids, phase);
    assert |all - Names(todo)| == |all| - |Names(todo)|;
    var order: seq<Ref> :| CreationOrder(kids, phase, order) && todo == order[..Max(|order| - limit, 0)];
    forall d, k | d in Names(todo) && k in all && k !in Names(todo)
      ensures kids[d].created <= kids[k].created
    {
      PrefixIsOldest(kids, phase, order, |todo|, d, k);
    }
  }

  // ---------------------------------------------------------------- the clean-up calls

  /** The listed children of one phase that are left once `todo` is deleted. */
  function Left(w: World, kids: Children, phase: Phase, todo: seq<Ref>): set<string> {
    w.children.Keys * InPhaseNames(kids, phase) - Names(todo)
  }

  /** How far the clean-up has come. */
  ghost predicate CleanUpProgress(cfg: Config, w: World, p: Proc) {
    match p
    case Sorting(_, kids, _, phase) =>
      phase == Completed || (phase == Failed && |Left(w, kids, Completed, [])| <= cfg.successLimit)
    case Deleting(_, kids, _, phase, todo) =>
      && (forall i :: 0 <= i < |todo| ==> InPhase(kids, phase, todo[i]))
      && (if phase == Completed then |Left(w, kids, Completed, todo)| <= cfg.successLimit
          else
            && phase == Failed && |Left(w, kids, Completed, [])| <= cfg.successLimit
            && |Left(w, kids, Failed, todo)| <= cfg.failureLimit)
    case _ => true
  }

  lemma FewerAreLeft(w: World, w': World, kids: Children, phase: Phase, todo: seq<Ref>, todo': seq<Ref>)
    requires w'.children.Keys <= w.children.Keys
    requires Left(w', kids, phase, todo') <= Left(w, kids, phase, todo)
    ensures |Left(w', kids, phase, todo')| <= |Left(w, kids, phase, todo)|
  {
    SubsetSize(Left(w', kids, phase, todo'), Left(w, kids, phase, todo));
  }

  lemma ShrinkingKeepsProgress(cfg: Config, w: World, w': World, p: Proc)
    requires w'.children.Keys <= w.children.Keys && CleanUpProgress(cfg, w, p)
    ensures CleanUpProgress(cfg, w', p)
  {
    if p.Sorting? {
      FewerAreLeft(w, w', p.kids, Completed, [], []);
    } else if p.Deleting? {
      FewerAreLeft(w, w', p.kids, Completed, p.todo, p.todo);
      FewerAreLeft(w, w', p.kids, Completed, [], []);
      FewerAreLeft(w, w', p.kids, Failed, p.todo, p.todo);
    }
  }

  lemma PlanMakesProgress(cfg: Config, w: World, p: Proc, todo: seq<Ref>)
    requires p.Sorting? && CleanUpProgress(cfg, w, p) && Excess(p.kids, p.phase, Limit(cfg, p.phase), todo)
    ensures CleanUpProgress(cfg, w, Deleting(p.seen, p.kids, p.now, p.phase, todo))
  {
    ExcessIsOldest(p.kids, p.phase, Limit(cfg, p.phase), todo);
    ExcessIsListed(p.kids, p.phase, Limit(cfg, p.phase), todo);
    SubsetSize(Left(w, p.kids, p.phase, todo), InPhaseNames(p.kids, p.phase) - Names(todo));
  }

  lemma DeletionShrinksLeft(w: World, kids: Children, phase: Phase, todo: seq<Ref>)
    requires todo != []
    ensures var w' := w.(children := w.children - {todo[0].name});
            && w'.children.Keys <= w.children.Keys
            && |Left(w', kids, phase, todo[1..])| <= |Left(w, kids, phase, todo)|
  {
    var w' := w.(children := w.children - {todo[0].name});
    assert Names(todo) == {todo[0].name} + Names(todo[1..]) by {
      assert forall r :: r in todo <==> r == todo[0] || r in todo[1..];
    }
    FewerAreLeft(w, w', kids, phase, todo, todo[1..]);
  }

  lemma DeletionMakesProgress(cfg: Config, w: World, p: Proc)
    requires p.Deleting? && CleanUpProgress(cfg, w, p) && p.todo != []
    ensures CleanUpProgress(cfg, w.(children := w.children - {p.todo[0].name}), p.(todo := p.todo[1..]))
  {
    DeletionShrinksLeft(w, p.kids, p.phase, p.todo);
    FewerAreLeft(w, w.(children := w.children - {p.todo[0].name}), p.kids, Completed, [], []);
  }

  lemma CleaningMakesProgress(cfg: Config, s: State, s': State)
    requires CallStep(cfg, s, Ok, s') && (s.proc.Sorting? || s.proc.Deleting?) && CleanUpProgress(cfg, s.world, s.proc)
    ensures CleanUpProgress(cfg, s'.world, s'.proc)
    ensures s'.world.children.Keys <= s.world.children.Keys
  {
    if s.proc.Sorting? {
      PlanMakesProgress(cfg, s.world, s.proc, s'.proc.todo);
    } else if s.proc.todo != [] {
      DeletionMakesProgress(cfg, s.world, s.proc);
    }
  }

  // ---------------------------------------------------------------- one clean-up

  /** The clean-up has asked for the first `m` deletions. */
  ghost predicate Asked(cfg: Config, s: State, before: set<string>, todo: seq<Ref>, m: nat, succeeded: bool) {
    && m <= |todo| && s.proc.Deleting? && s.proc.todo == todo[m..]
    && var names := s.world.children.Keys;
    && names <= before
    && (!cfg.deletions ==> before - Names(todo[..m]) <= names)
    && (succeeded ==> names !! Names(todo[..m]))
  }

  lemma PlanIsAsked(cfg: Config, states: seq<State>, events: seq<Event>, i: nat, succeeded: bool)
    requires Run(cfg, states, events) && i < |events| && states[i].proc.Sorting? && states[i + 1].proc.Deleting?
    ensures Excess(states[i].proc.kids, states[i].proc.phase, Limit(cfg, states[i].proc.phase), states[i + 1].proc.todo)
    ensures Asked(cfg, states[i + 1], states[i].world.children.Keys, states[i + 1].proc.todo, 0, succeeded)
  {
    assert StepAt(cfg, states, events, i);
  }

  lemma CallIsAsked(cfg: Config, s: State, o: Outcome, s': State, before: set<string>, todo: seq<Ref>, m: nat,
                    succeeded: bool)
    requires CallStep(cfg, s, o, s') && (succeeded ==> o == Ok)
    requires Asked(cfg, s, before, todo, m, succeeded) && s'.proc.Deleting? && s'.proc.phase == s.proc.phase
    ensures m < |todo| && s.proc.todo != [] && s.proc.todo[0] == todo[m]
    ensures Asked(cfg, s', before, todo, m + 1, succeeded)
  {
    assert todo[m..] != [] && todo[m..][0] == todo[m] && todo[m..][1..] == todo[m + 1..];
    assert todo[..m + 1] == todo[..m] + [todo[m]];
    assert Names(todo[..m + 1]) == Names(todo[..m]) + {todo[m].name};
  }

  /** How many calls there are among the events from `i` up to `j`. */
  function Calls(events: seq<Event>, i: nat, j: nat): nat
    requires i <= j <= |events|
  {
    if i == j then 0 else Calls(events, i, j - 1) + if events[j - 1].Call? then 1 else 0
  }

  /** The states from `i` to `j` are those of one clean-up, from its plan on. */
  ghost predicate IsCleanUp(cfg: Config, states: seq<State>, events: seq<Event>, i: nat, j: nat) {
    && Run(cfg, states, events) && i < j < |states| && states[i].proc.Sorting?
    && forall k :: i < k <= j ==> states[k].proc.Deleting? && states[k].proc.phase == states[i].proc.phase
  }

  ghost predicate NoneFails(events: seq<Event>, i: nat, j: nat)
    requires j <= |events|
  {
    forall k :: i <= k < j ==> events[k] == Env || events[k] == Call(Ok)
  }

  /** At this point of a clean-up, its calls have asked for the beginning of the plan. */
  ghost predicate AskedAt(cfg: Config, states: seq<State>, events: seq<Event>, i: nat, k: nat, succeeded: bool)
    requires i < k <= |events| < |states| && states[i + 1].proc.Deleting?
  {
    Asked(cfg, states[k], states[i].world.children.Keys, states[i + 1].proc.todo, Calls(events, i + 1, k), succeeded)
  }

  /** The name that the next call of a clean-up deletes is the next one of its plan. */
  lemma NextIsAsked(cfg: Config, states: seq<State>, events: seq<Event>, i: nat, k: nat, succeeded: bool)
    requires i < k && IsCleanUp(cfg, states, events, i, k + 1) && AskedAt(cfg, states, events, i, k, succeeded)
    requires succeeded ==> events[k] == Env || events[k] == Call(Ok)
    ensures AskedAt(cfg, states, events, i, k + 1, succeeded)
    ensures events[k].Call? ==> states[k].proc.todo != [] && states[k].proc.todo[0] in states[i + 1].proc.todo
  {
    var before, todo, m := states[i].world.children.Keys, states[i + 1].proc.todo, Calls(events, i + 1, k);
    assert StepAt(cfg, states, events, k);
    match events[k]
    case Env => EnvAges(cfg, states[k].world, states[k + 1].world);
    case Restart =>
    case Call(o) => CallIsAsked(cfg, states[k], o, states[k + 1], before, todo, m, succeeded);
  }

  lemma {:induction false} CleanUpAsks(cfg: Config, states: seq<State>, events: seq<Event>, i: nat, j: nat,
                                       succeeded: bool)
    requires IsCleanUp(cfg, states, events, i, j) && (succeeded ==> NoneFails(events, i, j))
    ensures AskedAt(cfg, states, events, i, j, succeeded)
  {
    if j == i + 1 {
      PlanIsAsked(cfg, states, events, i, succeeded);
    } else {
      CleanUpAsks(cfg, states, events, i, j - 1, succeeded);
      NextIsAsked(cfg, states, events, i, j - 1, succeeded);
    }
  }

  /** Each call of a clean-up asks for the deletion of one of `todo`. */
  ghost predicate AsksOnlyFor(states: seq<State>, events: seq<Event>, i: nat, j: nat, todo: seq<Ref>)
    requires j <= |events| < |states|
  {
    forall k :: i < k < j && events[k].Call? ==>
      states[k].proc.Deleting? && states[k].proc.todo != [] && states[k].proc.todo[0] in todo
  }

  lemma CleanUpAsksOnly(cfg: Config, states: seq<State>, events: seq<Event>, i: nat, j: nat)
    requires IsCleanUp(cfg, states, events, i, j)
    ensures AsksOnlyFor(states, events, i, j, states[i + 1].proc.todo)
  {
    forall k | i < k < j && events[k].Call?
      ensures states[k].proc.todo != [] && states[k].proc.todo[0] in states[i + 1].proc.todo
    {
      CleanUpAsks(cfg, states, events, i, k, false);
      NextIsAsked(cfg, states, events, i, k, false);
    }
  }

  /** What is left after the calls of a clean-up. */
  ghost predicate Leaves(cfg: Config, before: set<string>, after: set<string>, todo: seq<Ref>, succeeded: bool) {
    && after <= before
    && (succeeded ==> after !! Names(todo))
    && (!cfg.deletions ==> before - Names(todo) <= after)
  }

  lemma CleanUpLeaves(cfg: Config, states: seq<State>, events: seq<Event>, i: nat, j: nat)
    requires IsCleanUp(cfg, states, events, i, j) && states[j].proc.todo == []
    ensures var todo := states[i + 1].proc.todo;
            && Calls(events, i + 1, j) == |todo|
            && Leaves(cfg, states[i].world.children.Keys, states[j].world.children.Keys, todo, NoneFails(events, i, j))
  {
    CleanUpAsks(cfg, states, events, i, j, NoneFails(events, i, j));
    var todo := states[i + 1].proc.todo;
    assert todo[..|todo|] == todo;
  }

  /** One clean-up, from its plan (`i`) to its end (`j`). Its calls name nothing but the oldest
      children beyond the limit, each once, whichever of them fail. If none fails, none of these is
      left; if nobody else deletes children, all others are. */
  lemma CleanUpDeletesTheExcess(cfg: Config, states: seq<State>, events: seq<Event>, i: nat, j: nat)
    requires IsCleanUp(cfg, states, events, i, j) && states[j].proc.todo == []
    ensures var kids, phase := states[i].proc.kids, states[i].proc.phase;
            var limit := if phase == Completed then cfg.successLimit else cfg.failureLimit;
            exists todo :: Excess(kids, phase, limit, todo)
              && AsksOnlyFor(states, events, i, j, todo)
              && Calls(events, i + 1, j) == |todo| == Max(|InPhaseNames(kids, phase)| - limit, 0)
              && Leaves(cfg, states[i].world.children.Keys, states[j].world.children.Keys, todo,
                        NoneFails(events, i, j))
  {
    PlanIsAsked(cfg, states, events, i, false);
    CleanUpLeaves(cfg, states, events, i, j);
    CleanUpAsksOnly(cfg, states, events, i, j);
    ExcessCounts(states[i].proc.kids, states[i].proc.phase, Limit(cfg, states[i].proc.phase), states[i + 1].proc.todo);
  }

  // ---------------------------------------------------------------- the bound

  ghost predicate FaultFree(events: seq<Event>) {
    forall e :: e in events ==> e == Env || e == Call(Ok)
  }

  function Bound(cfg: Config): nat { cfg.successLimit + cfg.failureLimit + 1 }

  /** Before its Create a reconcile knows all children, and after it all but at most one. */
  ghost predicate Repairing(cfg: Config, s: State) {
    var names, p := s.world.children.Keys, s.proc;
    && CleanUpProgress(cfg, s.world, p)
    && (p.Listed? || p.Clearing? || p.Creating? ==> names <= p.kids.Keys)
    && (p.Recording? || p.Sorting? || p.Deleting? ==> |names - p.kids.Keys| <= 1)
    && (p.Idle? || p.Got? || p.Recovering? || p.Listed? || NoneActive(p.kids))
  }

  lemma EnvKeepsRepairing(cfg: Config, s: State, s': State)
    requires Step(cfg, s, Env, s') && Repairing(cfg, s)
    ensures Repairing(cfg, s') && s'.world.children.Keys <= s.world.children.Keys
  {
    EnvAges(cfg, s.world, s'.world);
    ShrinkingKeepsProgress(cfg, s.world, s'.world, s.proc);
    if !s.proc.Idle? && !s.proc.Got? && !s.proc.Recovering? {
      SubsetSize(s'.world.children.Keys - s.proc.kids.Keys, s.world.children.Keys - s.proc.kids.Keys);
    }
  }

  lemma ListedAreLeft(w: World, kids: Children)
    requires NoneActive(kids)
    ensures w.children.Keys <= Left(w, kids, Completed, []) + Left(w, kids, Failed, []) + (w.children.Keys - kids.Keys)
  {
    forall n | n in w.children && n in kids ensures n in Left(w, kids, Completed, []) + Left(w, kids, Failed, []) {
      assert kids[n].phase == Completed || kids[n].phase == Failed;
    }
  }

  lemma InThreeParts<T>(all: set<T>, a: set<T>, b: set<T>, c: set<T>)
    requires all <= a + b + c
    ensures |all| <= |a| + |b| + |c|
  {
    SubsetSize(all, a + b + c);
    assert |a + b| <= |a| + |b| && |a + b + c| <= |a + b| + |c|;
  }

  lemma PartsAreBounded(w: World, kids: Children, completed: nat, failed: nat)
    requires NoneActive(kids) && |w.children.Keys - kids.Keys| <= 1
    requires |Left(w, kids, Completed, [])| <= completed && |Left(w, kids, Failed, [])| <= failed
    ensures |w.children.Keys| <= completed + failed + 1
  {
    ListedAreLeft(w, kids);
    InThreeParts(w.children.Keys, Left(w, kids, Completed, []), Left(w, kids, Failed, []), w.children.Keys - kids.Keys);
  }

  lemma NothingIsAsked(w: World, kids: Children, phase: Phase, todo: seq<Ref>)
    requires todo == []
    ensures Left(w, kids, phase, todo) == Left(w, kids, phase, [])
  {
  }

  /** What a finished clean-up leaves of the listed children, and the child started since. */
  lemma CleanUpEnds(cfg: Config, s: State)
    requires Repairing(cfg, s) && AtEnd(s.proc)
    ensures |s.world.children.Keys| <= Bound(cfg)
  {
    NothingIsAsked(s.world, s.proc.kids, Failed, s.proc.todo);
    PartsAreBounded(s.world, s.proc.kids, cfg.successLimit, cfg.failureLimit);
  }

  lemma CleaningKeepsRepairing(cfg: Config, s: State, s': State)
    requires CallStep(cfg, s, Ok, s') && Repairing(cfg, s) && (s.proc.Sorting? || s.proc.Deleting?)
    ensures Repairing(cfg, s')
  {
    CleaningMakesProgress(cfg, s, s');
    SubsetSize(s'.world.children.Keys - s.proc.kids.Keys, s.world.children.Keys - s.proc.kids.Keys);
  }

  lemma NoneIsUnknown(w: World, kids: Children)
    requires w.children.Keys <= kids.Keys
    ensures |w.children.Keys - kids.Keys| == 0
  {
    assert w.children.Keys - kids.Keys == {};
  }

  lemma WaitingIsRepairing(cfg: Config, w: World, seen: Status, kids: Children, now: Time)
    requires w.children.Keys <= kids.Keys && NoneActive(kids)
    ensures Repairing(cfg, State(w, Sorting(seen, kids, now, Completed)))
  {
    NoneIsUnknown(w, kids);
  }

  lemma DecidedKeepsRepairing(cfg: Config, w: World, seen: Status, kids: Children, now: Time)
    requires w.children.Keys <= kids.Keys && NoneActive(kids)
    ensures Repairing(cfg, State(w, Decided(cfg, seen, kids, now)))
  {
    if Decided(cfg, seen, kids, now).Sorting? {
      WaitingIsRepairing(cfg, w, seen, kids, now);
    }
  }

  lemma DecidingKeepsRepairing(cfg: Config, s: State, s': State)
    requires CallStep(cfg, s, Ok, s') && Repairing(cfg, s) && (s.proc.Listed? || s.proc.Clearing?)
    ensures Repairing(cfg, s')
  {
    var w, kids := s'.world, s.proc.kids;
    assert w.children == s.world.children;
    if s.proc.Clearing? {
      DecidedKeepsRepairing(cfg, w, w.status, kids, s.proc.now);
    } else if NoneActive(kids) {
      DecidedKeepsRepairing(cfg, w, s.proc.seen, kids, w.clock);
    }
  }

  lemma StartingKeepsRepairing(cfg: Config, s: State, s': State)
    requires CallStep(cfg, s, Ok, s') && Repairing(cfg, s) && (s.proc.Creating? || s.proc.Recording?)
    ensures Repairing(cfg, s')
  {
    if s.proc.Creating? {
      SubsetSize(s'.world.children.Keys - s.proc.kids.Keys, {ChildNames.ChildName(cfg.name, s.proc.now)});
    }
  }

  lemma CallKeepsRepairing(cfg: Config, s: State, s': State)
    requires CallStep(cfg, s, Ok, s') && Repairing(cfg, s)
    ensures Repairing(cfg, s')
  {
    if s.proc.Sorting? || s.proc.Deleting? {
      CleaningKeepsRepairing(cfg, s, s');
    } else if s.proc.Listed? || s.proc.Clearing? {
      DecidingKeepsRepairing(cfg, s, s');
    } else if s.proc.Creating? || s.proc.Recording? {
      StartingKeepsRepairing(cfg, s, s');
    }
  }

  /** Any part of a run, from any world at all, that begins between two reconciles and in which no
      call fails. */
  ghost predicate FaultFreePart(cfg: Config, states: seq<State>, events: seq<Event>) {
    && |states| == |events| + 1 && states[0].proc == Idle && FaultFree(events)
    && forall i {:trigger StepAt(cfg, states, events, i)} :: 0 <= i < |events| ==> StepAt(cfg, states, events, i)
  }

  lemma NextIsRepairing(cfg: Config, states: seq<State>, events: seq<Event>, i: nat)
    requires FaultFreePart(cfg, states, events) && i < |events| && Repairing(cfg, states[i])
    ensures Repairing(cfg, states[i + 1])
  {
    assert StepAt(cfg, states, events, i) && events[i] in events;
    if events[i] == Env {
      EnvKeepsRepairing(cfg, states[i], states[i + 1]);
    } else {
      CallKeepsRepairing(cfg, states[i], states[i + 1]);
    }
  }

  lemma FirstIsRepairing(cfg: Config, s: State)
    requires s.proc == Idle
    ensures Repairing(cfg, s)
  {
  }

  lemma {:induction false} PartIsRepairing(cfg: Config, states: seq<State>, events: seq<Event>, i: nat)
    requires FaultFreePart(cfg, states, events) && i < |states|
    ensures Repairing(cfg, states[i])
  {
    if i == 0 {
      FirstIsRepairing(cfg, states[0]);
    } else {
      PartIsRepairing(cfg, states, events, i - 1);
      NextIsRepairing(cfg, states, events, i - 1);
    }
  }

  /** One reconcile repairs the bound: whatever the world was like before and whatever failed, one
      that comes to its end without a fault leaves at most as many children as both limits allow
      and one more. Others may interfere as they like. */
  lemma OneReconcileRepairs(cfg: Config, states: seq<State>, events: seq<Event>, i: nat)
    requires FaultFreePart(cfg, states, events) && i < |states| && AtEnd(states[i].proc)
    ensures |states[i].world.children| <= cfg.successLimit + cfg.failureLimit + 1
  {
    PartIsRepairing(cfg, states, events, i);
    CleanUpEnds(cfg, states[i]);
    assert |states[i].world.children.Keys| == |states[i].world.children|;
  }

  /** The children that were listed in one phase and are still there. */
  function StillThere(w: World, kids: Children, phase: Phase): set<string> {
    set n | n in w.children && n in kids && kids[n].phase == phase
  }

  lemma StillThereIsLeft(w: World, kids: Children, phase: Phase)
    ensures StillThere(w, kids, phase) == Left(w, kids, phase, [])
  {
  }

  lemma CleanUpKeepsLimits(cfg: Config, s: State)
    requires Repairing(cfg, s) && AtEnd(s.proc)
    ensures |StillThere(s.world, s.proc.kids, Completed)| <= cfg.successLimit
    ensures |StillThere(s.world, s.proc.kids, Failed)| <= cfg.failureLimit
  {
    StillThereIsLeft(s.world, s.proc.kids, Completed);
    StillThereIsLeft(s.world, s.proc.kids, Failed);
  }

  /** Such a reconcile leaves no more of the completed scans that it listed than the limit for
      successful scans, and no more of the failed ones than the limit for those. */
  lemma EachLimitIsKept(cfg: Config, states: seq<State>, events: seq<Event>, i: nat)
    requires FaultFreePart(cfg, states, events) && i < |states| && AtEnd(states[i].proc)
    ensures |StillThere(states[i].world, states[i].proc.kids, Completed)| <= cfg.successLimit
    ensures |StillThere(states[i].world, states[i].proc.kids, Failed)| <= cfg.failureLimit
  {
    PartIsRepairing(cfg, states, events, i);
    CleanUpKeepsLimits(cfg, states[i]);
  }

  // ---------------------------------------------------------------- fault-free runs

  /** The children that a reconcile knows, or all of them when it has listed none, are within the
      bound. */
  ghost predicate Counted(cfg: Config, s: State) {
    if s.proc.Idle? || s.proc.Got? || s.proc.Recovering? then |s.world.children.Keys| <= Bound(cfg)
    else |s.proc.kids.Keys| <= Bound(cfg)
  }

  lemma CountedBounds(cfg: Config, s: State)
    requires Repairing(cfg, s) && Counted(cfg, s)
    ensures |s.world.children| <= Bound(cfg) + 1
    ensures s.proc.Idle? ==> |s.world.children| <= Bound(cfg)
  {
    var names := s.world.children.Keys;
    assert |names| == |s.world.children|;
    if !s.proc.Idle? && !s.proc.Got? && !s.proc.Recovering? {
      var kids := s.proc.kids.Keys;
      SubsetSize(names, kids + (names - kids));
      assert |kids + (names - kids)| == |kids| + |names - kids|;
      if names <= kids { assert names - kids == {}; }
    }
  }

  lemma CallKeepsCounted(cfg: Config, s: State, s': State)
    requires CallStep(cfg, s, Ok, s') && Repairing(cfg, s) && Counted(cfg, s)
    ensures Counted(cfg, s')
  {
    if s.proc.Listed? || s.proc.Clearing? {
      SubsetSize(s.world.children.Keys, s.proc.kids.Keys);
    } else if AtEnd(s.proc) {
      CleanUpEnds(cfg, s);
    }
  }

  lemma NextIsCounted(cfg: Config, states: seq<State>, events: seq<Event>, i: nat)
    requires FaultFreePart(cfg, states, events) && i < |events| && Counted(cfg, states[i])
    ensures Counted(cfg, states[i + 1])
  {
    PartIsRepairing(cfg, states, events, i);
    assert StepAt(cfg, states, events, i) && events[i] in events;
    if events[i] == Env {
      EnvKeepsRepairing(cfg, states[i], states[i + 1]);
      SubsetSize(states[i + 1].world.children.Keys, states[i].world.children.Keys);
    } else {
      CallKeepsCounted(cfg, states[i], states[i + 1]);
    }
  }

  lemma {:induction false} PartIsCounted(cfg: Config, states: seq<State>, events: seq<Event>, i: nat)
    requires FaultFreePart(cfg, states, events) && i < |states| && |states[0].world.children.Keys| <= Bound(cfg)
    ensures Counted(cfg, states[i])
  {
    if i > 0 {
      PartIsCounted(cfg, states, events, i - 1);
      NextIsCounted(cfg, states, events, i - 1);
    }
  }

  /** In a run without faults and restarts, every reconcile ends with at most as many children as
      both limits allow and one more, and never has more than one above that on the way. */
  lemma HistoryIsBounded(cfg: Config, states: seq<State>, events: seq<Event>, i: nat)
    requires Run(cfg, states, events) && FaultFree(events) && i < |states|
    ensures |states[i].world.children| <= cfg.successLimit + cfg.failureLimit + 2
    ensures states[i].proc.Idle? ==> |states[i].world.children| <= cfg.successLimit + cfg.failureLimit + 1
  {
    PartIsRepairing(cfg, states, events, i);
    PartIsCounted(cfg, states, events, i);
    CountedBounds(cfg, states[i]);
  }
}
