/** What every reachable state of the scheduling protocol satisfies, whatever calls fail, are
    lost or are cut off by a restart. */
module SchedulingInvariant {
  import opened Prelude
  import opened Phases
  import opened SchedulingProtocol

  /** The history accounts for every child, and only the newest start can still be active. */
  ghost predicate ChildrenStarted(w: World) {
    forall n :: n in w.children ==>
      var c := w.children[n];
      && c.uid < |w.starts| && w.starts[c.uid].name == n && w.starts[c.uid].created == c.created
      && (!Terminal(c.phase) ==> c.uid == |w.starts| - 1 && (w.starts[c.uid].recorded ==> w.status.active.Some?))
  }

  ghost predicate StartsOrdered(w: World) {
    && (forall i :: 0 <= i < |w.starts| ==> w.starts[i].reading <= w.starts[i].created <= w.clock)
    && (forall i, j :: 0 <= i < j < |w.starts| ==> w.starts[i].created <= w.starts[j].reading)
  }

  /** Starts that were recorded keep every later start out of their cron slot. */
  ghost predicate SlotsKept(cfg: Config, w: World) {
    && (|w.starts| > 0 ==> cfg.schedule.Some?)
    && (forall i :: 0 <= i < |w.starts| && w.starts[i].recorded ==>
          w.status.lastSchedule.Some? && w.starts[i].reading <= w.status.lastSchedule.value)
    && (forall i, j :: 0 <= i < j < |w.starts| && w.starts[i].recorded ==>
          cfg.schedule.value(w.starts[i].reading) <= w.starts[j].reading)
  }

  /** The three status times alternate: a scan is scheduled, then it is over. */
  ghost predicate TimesAlternate(w: World) {
    var st := w.status;
    && (st.lastSchedule.Some? ==> st.lastSchedule.value <= w.clock)
    && (st.lastCompletion.Some? ==> st.lastCompletion.value <= w.clock)
    && (st.active.Some? ==> st.lastSchedule.Some?)
    && (st.active.Some? && st.lastCompletion.Some? ==> st.lastCompletion.value <= st.lastSchedule.value)
    && (st.active.None? && st.lastSchedule.Some? ==>
          st.lastCompletion.Some? && st.lastSchedule.value <= st.lastCompletion.value)
  }

  /** How the status relates to the newest start. */
  ghost predicate NewestStart(cfg: Config, w: World) {
    var st, k := w.status, |w.starts| - 1;
    if k < 0 then st == EMPTY_STATUS
    else
      var last := w.starts[k];
      && (st.active.Some? ==> st.active.value == Ref(last.name, k) && last.recorded)
      && (last.recorded ==> st.lastSchedule.Some? && last.reading <= st.lastSchedule.value <= last.created)
      && (!last.recorded ==>
            && st.active.None?
            && (st.lastSchedule.Some? ==>
                  && st.lastSchedule.value <= last.reading
                  && cfg.schedule.Some? && cfg.schedule.value(st.lastSchedule.value) <= last.reading)
            && (st.lastCompletion.Some? ==> st.lastCompletion.value <= last.reading))
  }

  ghost predicate WorldInv(cfg: Config, w: World) {
    && ChildrenStarted(w) && StartsOrdered(w) && SlotsKept(cfg, w) && TimesAlternate(w) && NewestStart(cfg, w)
  }

  /** What a snapshot of the children still tells: the children it lists are ones that were
      started, and a child that it lists as over is over. */
  ghost predicate Snapshot(w: World, kids: Children) {
    forall n :: n in kids ==>
      var c := kids[n];
      && c.uid < |w.starts| && w.starts[c.uid].name == n && w.starts[c.uid].created == c.created
      && (!Terminal(c.phase) ==> c.uid == |w.starts| - 1 && (w.starts[c.uid].recorded ==> w.status.active.Some?))
      && (n in w.children && w.children[n].uid == c.uid && Terminal(c.phase) ==> Terminal(w.children[n].phase))
  }

  /** No child was created since the snapshot. */
  ghost predicate Covers(w: World, kids: Children) {
    forall n :: n in w.children ==> n in kids && kids[n].uid == w.children[n].uid
  }

  /** Without other deletions, a child that is missing was deleted by this reconcile. */
  ghost predicate NotReplaced(w: World, kids: Children) {
    forall n :: n in kids && n in w.children ==> kids[n].uid == w.children[n].uid
  }

  ghost predicate NowInv(w: World, now: Time) {
    && now <= w.clock
    && (w.status.lastSchedule.Some? ==> w.status.lastSchedule.value <= now)
    && (w.status.lastCompletion.Some? ==> w.status.lastCompletion.value <= now)
  }

  ghost predicate StartsBefore(w: World, now: Time) {
    forall i :: 0 <= i < |w.starts| ==> w.starts[i].created <= now
  }

  /** The clean-up works on children that were over when they were listed, next to at most one
      child that was started since. */
  ghost predicate CleanUpInv(cfg: Config, w: World, seen: Status, kids: Children, now: Time) {
    && seen == w.status && Snapshot(w, kids) && NoneActive(kids)
    && cfg.schedule.Some? && seen.lastSchedule.Some?
    && (seen.lastSchedule.value == now || seen.lastSchedule.value < now < cfg.schedule.value(seen.lastSchedule.value))
    && (seen.active.Some? ==> forall n :: n in kids ==> kids[n].uid != seen.active.value.uid)
    && (!cfg.deletions ==> NotReplaced(w, kids))
  }

  ghost predicate ProcInv(cfg: Config, w: World, p: Proc) {
    match p
    case Idle => true
    case Got(seen) => seen == w.status
    case Listed(seen, kids) => seen == w.status && Snapshot(w, kids) && Covers(w, kids) &&
      (!cfg.deletions ==> kids.Keys <= w.children.Keys)
    case Clearing(seen, kids, now) =>
      && seen == w.status && Snapshot(w, kids) && Covers(w, kids) && NoneActive(kids)
      && (!cfg.deletions ==> kids.Keys <= w.children.Keys)
      && NowInv(w, now) && StartsBefore(w, now) && seen.active.Some?
    case Recovering(seen, orphan, created) =>
      && seen == w.status && seen.active.None?
      && |w.starts| > 0 && orphan == Ref(w.starts[|w.starts| - 1].name, |w.starts| - 1)
      && created == w.starts[|w.starts| - 1].created && !w.starts[|w.starts| - 1].recorded
    case Creating(seen, kids, now) =>
      && seen == w.status && Snapshot(w, kids) && Covers(w, kids) && NoneActive(kids)
      && (!cfg.deletions ==> kids.Keys <= w.children.Keys)
      && NowInv(w, now) && StartsBefore(w, now) && seen.active.None?
      && cfg.schedule.Some? && Due(cfg.schedule.value, seen, now)
    case Recording(seen, kids, now, ref) =>
      && seen == w.status && Snapshot(w, kids) && NoneActive(kids) && seen.active.None?
      && now <= w.clock && cfg.schedule.Some?
      && var k := |w.starts| - 1;
      && k >= 0 && ref == Ref(w.starts[k].name, k) && w.starts[k].reading == now && !w.starts[k].recorded
      && (forall n :: n in kids ==> kids[n].uid < k)
      && (!cfg.deletions ==> NotReplaced(w, kids))
    case Sorting(seen, kids, now, phase) =>
      CleanUpInv(cfg, w, seen, kids, now) && Terminal(phase)
    case Deleting(seen, kids, now, phase, todo) =>
      && CleanUpInv(cfg, w, seen, kids, now) && Terminal(phase)
      && forall i :: 0 <= i < |todo| ==> InPhase(kids, phase, todo[i])
  }

  ghost predicate Inv(cfg: Config, s: State) {
    WorldInv(cfg, s.world) && ProcInv(cfg, s.world, s.proc)
  }

  // ---------------------------------------------------------------- children age

  /** Children can only go away or finish, and time can only pass. */
  ghost predicate Aged(w: World, w': World) {
    && w'.status == w.status && w'.starts == w.starts && w.clock <= w'.clock
    && forall n :: n in w'.children ==>
      && n in w.children && w'.children[n].uid == w.children[n].uid && w'.children[n].created == w.children[n].created
      && (Terminal(w.children[n].phase) ==> Terminal(w'.children[n].phase))
  }

  lemma EnvAges(cfg: Config, w: World, w': World)
    requires EnvStep(cfg, w, w')
    ensures Aged(w, w') && (!cfg.deletions ==> w'.children.Keys == w.children.Keys)
  {
  }

  lemma AgedKeepsWorldInv(cfg: Config, w: World, w': World)
    requires WorldInv(cfg, w) && Aged(w, w')
    ensures WorldInv(cfg, w')
  {
    assert ChildrenStarted(w');
    assert StartsOrdered(w') && SlotsKept(cfg, w');
    assert NewestStart(cfg, w') && TimesAlternate(w');
  }

  lemma AgedKeepsSnapshot(w: World, w': World, kids: Children)
    requires Aged(w, w') && Snapshot(w, kids)
    ensures Snapshot(w', kids)
    ensures Covers(w, kids) ==> Covers(w', kids)
    ensures NotReplaced(w, kids) ==> NotReplaced(w', kids)
  {
  }

  lemma AgedKeepsProcInv(cfg: Config, w: World, w': World, p: Proc)
    requires Aged(w, w') && (!cfg.deletions ==> w'.children.Keys == w.children.Keys)
    requires ProcInv(cfg, w, p)
    ensures ProcInv(cfg, w', p)
  {
    if !p.Idle? && !p.Got? && !p.Recovering? {
      AgedKeepsSnapshot(w, w', p.kids);
    }
  }

  // ---------------------------------------------------------------- one step

  lemma EnvKeepsInv(cfg: Config, s: State, s': State)
    requires Inv(cfg, s) && Step(cfg, s, Env, s')
    ensures Inv(cfg, s')
  {
    EnvAges(cfg, s.world, s'.world);
    AgedKeepsWorldInv(cfg, s.world, s'.world);
    AgedKeepsProcInv(cfg, s.world, s'.world, s.proc);
  }

  lemma ListKeepsInv(cfg: Config, s: State, o: Outcome, s': State)
    requires Inv(cfg, s) && Step(cfg, s, Call(o), s')
    requires s.proc.Idle? || s.proc.Got?
    ensures Inv(cfg, s')
  {
  }

  /** What holds when a reconcile that saw no active child decides whether to start one. */
  ghost predicate Quiescent(cfg: Config, w: World, seen: Status, kids: Children, now: Time) {
    && seen == w.status && seen.active.None? && Snapshot(w, kids) && Covers(w, kids) && NoneActive(kids)
    && (!cfg.deletions ==> kids.Keys <= w.children.Keys)
    && NowInv(w, now) && StartsBefore(w, now)
  }

  lemma DecisionKeepsInv(cfg: Config, w: World, seen: Status, kids: Children, now: Time)
    requires Quiescent(cfg, w, seen, kids, now)
    ensures ProcInv(cfg, w, Decided(cfg, seen, kids, now))
  {
  }

  lemma OrphanKeepsInv(cfg: Config, w: World, seen: Status, kids: Children, p: Proc)
    requires seen == w.status && Snapshot(w, kids) && seen.active.None?
    requires exists n :: IsActive(kids, n) && p == Recovering(seen, Ref(n, kids[n].uid), kids[n].created)
    ensures ProcInv(cfg, w, p)
  {
  }

  lemma ClockKeepsInv(cfg: Config, s: State, o: Outcome, s': State)
    requires Inv(cfg, s) && Step(cfg, s, Call(o), s') && s.proc.Listed?
    ensures Inv(cfg, s')
  {
    var w, seen, kids := s.world, s.proc.seen, s.proc.kids;
    assert NowInv(w, w.clock) && StartsBefore(w, w.clock);
    if !NoneActive(kids) {
      if seen.active.None? { OrphanKeepsInv(cfg, w, seen, kids, s'.proc); }
    } else if seen.active.None? {
      DecisionKeepsInv(cfg, w, seen, kids, w.clock);
    }
  }

  /** Clearing the active reference of a scan that is over. */
  lemma ClearingKeepsWorldInv(cfg: Config, w: World, now: Time)
    requires WorldInv(cfg, w) && NoneActive(w.children) && NowInv(w, now) && w.status.active.Some?
    ensures WorldInv(cfg, w.(status := Cleared(w.status, now)))
  {
    var w' := w.(status := Cleared(w.status, now));
    assert ChildrenStarted(w') && StartsOrdered(w') && SlotsKept(cfg, w');
    assert NewestStart(cfg, w') && TimesAlternate(w');
  }

  lemma ClearingKeepsInv(cfg: Config, s: State, o: Outcome, s': State)
    requires Inv(cfg, s) && Step(cfg, s, Call(o), s') && s.proc.Clearing?
    ensures Inv(cfg, s')
  {
    var w, w', kids, now := s.world, s'.world, s.proc.kids, s.proc.now;
    if o != Refused {
      assert w' == w.(status := Cleared(w.status, now));
      ClearingKeepsWorldInv(cfg, w, now);
      DecisionKeepsInv(cfg, w', w'.status, kids, now);
    }
  }

  /** Making the newest, so far unrecorded start the active one. */
  function Recorded(w: World, scheduled: Time): World
    requires |w.starts| > 0
  {
    var k := |w.starts| - 1;
    w.(status := Activated(w.status, Ref(w.starts[k].name, k), scheduled),
       starts := w.starts[k := w.starts[k].(recorded := true)])
  }

  lemma RecordedKeepsWorldInv(cfg: Config, w: World, scheduled: Time)
    requires WorldInv(cfg, w) && |w.starts| > 0 && !w.starts[|w.starts| - 1].recorded
    requires var last := w.starts[|w.starts| - 1]; scheduled == last.created || scheduled == last.reading
    ensures WorldInv(cfg, Recorded(w, scheduled))
  {
    var w' := Recorded(w, scheduled);
    assert ChildrenStarted(w') && StartsOrdered(w') && TimesAlternate(w') && NewestStart(cfg, w');
    assert SlotsKept(cfg, w');
  }

  lemma RecoveringKeepsInv(cfg: Config, s: State, o: Outcome, s': State)
    requires Inv(cfg, s) && Step(cfg, s, Call(o), s') && s.proc.Recovering?
    ensures Inv(cfg, s')
    ensures o != Refused ==> s'.world == Recorded(s.world, s.proc.created)
  {
    if o != Refused {
      assert s'.world == Recorded(s.world, s.proc.created);
      RecordedKeepsWorldInv(cfg, s.world, s.proc.created);
    }
  }

  /** What the clean-up after a recorded start relies on. */
  lemma RecordedKeepsCleanUp(cfg: Config, w: World, seen: Status, kids: Children, now: Time, ref: Ref)
    requires ProcInv(cfg, w, Recording(seen, kids, now, ref))
    ensures CleanUpInv(cfg, Recorded(w, now), Recorded(w, now).status, kids, now)
  {
    assert Snapshot(Recorded(w, now), kids);
  }

  lemma RecordingKeepsInv(cfg: Config, s: State, o: Outcome, s': State)
    requires Inv(cfg, s) && Step(cfg, s, Call(o), s') && s.proc.Recording?
    ensures Inv(cfg, s')
    ensures o != Refused ==> s'.world == Recorded(s.world, s.proc.now)
  {
    if o != Refused {
      assert s'.world == Recorded(s.world, s.proc.now);
      RecordedKeepsWorldInv(cfg, s.world, s.proc.now);
      RecordedKeepsCleanUp(cfg, s.world, s.proc.seen, s.proc.kids, s.proc.now, s.proc.ref);
    }
  }

  /** A start that is due, while no child is active. */
  lemma CreatedKeepsWorldInv(cfg: Config, w: World, name: string, now: Time, w': World)
    requires WorldInv(cfg, w) && NoneActive(w.children) && w.status.active.None?
    requires NowInv(w, now) && StartsBefore(w, now)
    requires cfg.schedule.Some? && Due(cfg.schedule.value, w.status, now)
    requires Created(w, name, now, w')
    ensures WorldInv(cfg, w')
  {
    var next := cfg.schedule.value;
    assert ChildrenStarted(w') && StartsOrdered(w') && TimesAlternate(w') && NewestStart(cfg, w');
    assert forall i :: 0 <= i < |w.starts| && w.starts[i].recorded ==>
      next(w.starts[i].reading) <= next(w.status.lastSchedule.value);
    assert SlotsKept(cfg, w');
  }

  lemma CreatingKeepsInv(cfg: Config, s: State, o: Outcome, s': State)
    requires Inv(cfg, s) && Step(cfg, s, Call(o), s') && s.proc.Creating?
    ensures Inv(cfg, s')
  {
    if o != Refused {
      var w, w', kids, now := s.world, s'.world, s.proc.kids, s.proc.now;
      var name := ChildNames.ChildName(cfg.name, now);
      assert NoneActive(w.children);
      CreatedKeepsWorldInv(cfg, w, name, now, w');
      if o == Ok {
        assert Snapshot(w', kids);
        if !cfg.deletions { assert NotReplaced(w', kids); }
      }
    }
  }

  lemma SortingKeepsInv(cfg: Config, s: State, o: Outcome, s': State)
    requires Inv(cfg, s) && Step(cfg, s, Call(o), s') && s.proc.Sorting?
    ensures Inv(cfg, s')
  {
    ExcessIsListed(s.proc.kids, s.proc.phase, Limit(cfg, s.proc.phase), s'.proc.todo);
  }

  lemma ExcessIsListed(kids: Children, phase: Phase, limit: nat, todo: seq<Ref>)
    requires Excess(kids, phase, limit, todo)
    ensures forall i :: 0 <= i < |todo| ==> InPhase(kids, phase, todo[i])
  {
  }

  lemma DeletionAges(w: World, n: string)
    ensures Aged(w, w.(children := w.children - {n}))
  {
  }

  /** The world after one deletion attempt. */
  lemma DeletingAges(cfg: Config, s: State, o: Outcome, s': State)
    requires CallStep(cfg, s, o, s') && s.proc.Deleting?
    ensures Aged(s.world, s'.world)
  {
    if s.proc.todo != [] { DeletionAges(s.world, s.proc.todo[0].name); }
  }

  lemma DeletingKeepsProcInv(cfg: Config, s: State, o: Outcome, s': State)
    requires ProcInv(cfg, s.world, s.proc) && CallStep(cfg, s, o, s') && s.proc.Deleting? && Aged(s.world, s'.world)
    ensures ProcInv(cfg, s'.world, s'.proc)
  {
  }

  lemma DeletingKeepsInv(cfg: Config, s: State, o: Outcome, s': State)
    requires Inv(cfg, s) && CallStep(cfg, s, o, s') && s.proc.Deleting?
    ensures Inv(cfg, s')
  {
    DeletingAges(cfg, s, o, s');
    AgedKeepsWorldInv(cfg, s.world, s'.world);
    DeletingKeepsProcInv(cfg, s, o, s');
  }

  lemma StepKeepsInv(cfg: Config, s: State, e: Event, s': State)
    requires Inv(cfg, s) && Step(cfg, s, e, s')
    ensures Inv(cfg, s')
  {
    match e
    case Env => EnvKeepsInv(cfg, s, s');
    case Restart =>
    case Call(o) =>
      match s.proc
      case Idle => ListKeepsInv(cfg, s, o, s');
      case Got(_) => ListKeepsInv(cfg, s, o, s');
      case Listed(_, _) => ClockKeepsInv(cfg, s, o, s');
      case Clearing(_, _, _) => ClearingKeepsInv(cfg, s, o, s');
      case Recovering(_, _, _) => RecoveringKeepsInv(cfg, s, o, s');
      case Creating(_, _, _) => CreatingKeepsInv(cfg, s, o, s');
      case Recording(_, _, _, _) => RecordingKeepsInv(cfg, s, o, s');
      case Sorting(_, _, _, _) => SortingKeepsInv(cfg, s, o, s');
      case Deleting(_, _, _, _, _) => DeletingKeepsInv(cfg, s, o, s');
  }

  /** Every state of every run satisfies the invariant. */
  lemma {:induction false} RunKeepsInv(cfg: Config, states: seq<State>, events: seq<Event>, i: nat)
    requires Run(cfg, states, events) && i < |states|
    ensures Inv(cfg, states[i])
  {
    if i > 0 {
      RunKeepsInv(cfg, states, events, i - 1);
      assert StepAt(cfg, states, events, i - 1);
      StepKeepsInv(cfg, states[i - 1], events[i - 1], states[i]);
    }
  }
}
