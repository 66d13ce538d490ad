/** Runs that show the limits of the scheduling protocol. They are put together from segments,
    each of which extends a run. */
module SchedulingWitness {
  import opened Prelude
  import opened Phases
  import opened ChildNames
  import opened SchedulingProtocol
  import opened SchedulingInvariant
  import opened SchedulingResults
  import opened SchedulingHistory
  import opened SchedulingCleanUp

  // ---------------------------------------------------------------- segments of runs

  datatype Trace = Trace(states: seq<State>, events: seq<Event>)

  /** A run that ends in `s`. */
  ghost predicate EndsIn(cfg: Config, tr: Trace, s: State) {
    Run(cfg, tr.states, tr.events) && tr.states[|tr.states| - 1] == s
  }

  /** The second run begins with the first. */
  ghost predicate Grows(tr: Trace, tr': Trace) {
    tr.states != [] && tr.states <= tr'.states && tr.events <= tr'.events
  }

  /** If no call of the first run fails, then none of the second does. */
  ghost predicate Calm(tr: Trace, tr': Trace) {
    FaultFree(tr.events) ==> FaultFree(tr'.events)
  }

  ghost function Begin(t: Time): Trace {
    Trace([State(World(EMPTY_STATUS, map[], t, []), Idle)], [])
  }

  lemma Go(cfg: Config, tr: Trace, s: State, e: Event, s': State) returns (tr': Trace)
    requires EndsIn(cfg, tr, s) && Step(cfg, s, e, s')
    ensures EndsIn(cfg, tr', s') && tr' == Trace(tr.states + [s'], tr.events + [e])
    ensures Grows(tr, tr') && (e == Env || e == Call(Ok) ==> Calm(tr, tr'))
  {
    Extend(cfg, tr.states, tr.events, e, s');
    tr' := Trace(tr.states + [s'], tr.events + [e]);
  }

  /** A reconcile of a parent without a status that lists no unfinished child, up to its Create. */
  lemma Starts(cfg: Config, tr: Trace, w: World) returns (tr': Trace)
    requires EndsIn(cfg, tr, State(w, Idle)) && NoneActive(w.children) && w.status == EMPTY_STATUS && cfg.schedule.Some?
    ensures EndsIn(cfg, tr', State(w, Creating(EMPTY_STATUS, w.children, w.clock))) && Grows(tr, tr') && Calm(tr, tr')
  {
    tr' := Go(cfg, tr, State(w, Idle), Call(Ok), State(w, Got(w.status)));
    tr' := Go(cfg, tr', State(w, Got(w.status)), Call(Ok), State(w, Listed(w.status, w.children)));
    tr' := Go(cfg, tr', State(w, Listed(w.status, w.children)), Call(Ok),
              State(w, Creating(w.status, w.children, w.clock)));
  }

  /** The server creates a child and stamps it at once. */
  function WithChild(w: World, name: string, now: Time): World {
    w.(children := w.children[name := Child(|w.starts|, Unset, w.clock)],
       starts := w.starts + [Start(name, now, w.clock, false)])
  }

  lemma WithChildIsCreated(w: World, name: string, now: Time)
    requires name !in w.children && now <= w.clock
    ensures Created(w, name, now, WithChild(w, name, now))
  {
  }

  function WithPhase(w: World, name: string, q: Phase): World
    requires name in w.children
  {
    w.(children := w.children[name := w.children[name].(phase := q)])
  }

  lemma Waits(cfg: Config, tr: Trace, w: World, p: Proc, t: Time) returns (tr': Trace)
    requires EndsIn(cfg, tr, State(w, p)) && w.clock <= t && Int64(t)
    ensures EndsIn(cfg, tr', State(w.(clock := t), p)) && Grows(tr, tr') && Calm(tr, tr')
  {
    assert Ticks(w, w.(clock := t));
    tr' := Go(cfg, tr, State(w, p), Env, State(w.(clock := t), p));
  }

  /** A new child runs and comes to its end. */
  lemma Finishes(cfg: Config, tr: Trace, w: World, p: Proc, name: string, q: Phase) returns (tr': Trace)
    requires EndsIn(cfg, tr, State(w, p)) && name in w.children && w.children[name].phase == Unset && Terminal(q)
    ensures EndsIn(cfg, tr', State(WithPhase(w, name, q), p)) && Grows(tr, tr') && Calm(tr, tr')
  {
    var w1 := WithPhase(w, name, Running);
    assert ChildAdvances(w, name, Running, w1);
    tr' := Go(cfg, tr, State(w, p), Env, State(w1, p));
    assert WithPhase(w1, name, q) == WithPhase(w, name, q);
    assert ChildAdvances(w1, name, q, WithPhase(w1, name, q));
    tr' := Go(cfg, tr', State(w1, p), Env, State(WithPhase(w, name, q), p));
  }

  /** Somebody else deletes a child. */
  lemma LosesChild(cfg: Config, tr: Trace, w: World, p: Proc, name: string) returns (tr': Trace)
    requires EndsIn(cfg, tr, State(w, p)) && cfg.deletions && name in w.children
    ensures EndsIn(cfg, tr', State(w.(children := w.children - {name}), p)) && Grows(tr, tr') && Calm(tr, tr')
  {
    assert ChildGoes(w, name, w.(children := w.children - {name}));
    tr' := Go(cfg, tr, State(w, p), Env, State(w.(children := w.children - {name}), p));
  }

  /** A Create and the status patch that records it. */
  lemma Creates(cfg: Config, tr: Trace, w: World, p: Proc) returns (tr': Trace)
    requires EndsIn(cfg, tr, State(w, p)) && p.Creating? && Int64(p.now) && p.now <= w.clock
    requires cfg.accepts(ChildName(cfg.name, p.now)) && ChildName(cfg.name, p.now) !in w.children
    ensures var name := ChildName(cfg.name, p.now);
            EndsIn(cfg, tr', State(WithChild(w, name, p.now), Recording(p.seen, p.kids, p.now, Ref(name, |w.starts|))))
    ensures Grows(tr, tr') && Calm(tr, tr')
  {
    var name := ChildName(cfg.name, p.now);
    WithChildIsCreated(w, name, p.now);
    tr' := Go(cfg, tr, State(w, p), Call(Ok),
              State(WithChild(w, name, p.now), Recording(p.seen, p.kids, p.now, Ref(name, |w.starts|))));
  }

  lemma Records(cfg: Config, tr: Trace, w: World, p: Proc) returns (tr': Trace)
    requires EndsIn(cfg, tr, State(w, p)) && p.Recording?
    ensures var w' := Patched(w, p.seen, Activated(p.seen, p.ref, p.now));
            EndsIn(cfg, tr', State(w', Sorting(w'.status, p.kids, p.now, Completed)))
    ensures Grows(tr, tr') && Calm(tr, tr')
  {
    var w' := Patched(w, p.seen, Activated(p.seen, p.ref, p.now));
    tr' := Go(cfg, tr, State(w, p), Call(Ok), State(w', Sorting(w'.status, p.kids, p.now, Completed)));
  }

  /** Event `k` is a status patch after a Create that fails without effect. */
  ghost predicate PatchFails(tr: Trace, k: nat) {
    k < |tr.events| && k < |tr.states| && tr.states[k].proc.Recording? && tr.events[k] == Call(Refused)
  }

  lemma FailsToRecord(cfg: Config, tr: Trace, w: World, p: Proc) returns (tr': Trace)
    requires EndsIn(cfg, tr, State(w, p)) && p.Recording?
    ensures EndsIn(cfg, tr', State(w, Idle)) && Grows(tr, tr') && PatchFails(tr', |tr.events|)
  {
    tr' := Go(cfg, tr, State(w, p), Call(Refused), State(w, Idle));
  }

  lemma Plans(cfg: Config, tr: Trace, w: World, p: Proc, todo: seq<Ref>) returns (tr': Trace)
    requires EndsIn(cfg, tr, State(w, p)) && p.Sorting? && Excess(p.kids, p.phase, Limit(cfg, p.phase), todo)
    ensures EndsIn(cfg, tr', State(w, Deleting(p.seen, p.kids, p.now, p.phase, todo)))
    ensures Grows(tr, tr') && Calm(tr, tr')
  {
    tr' := Go(cfg, tr, State(w, p), Call(Ok), State(w, Deleting(p.seen, p.kids, p.now, p.phase, todo)));
  }

  /** The clean-up goes on to the failed children. */
  lemma EndsPhase(cfg: Config, tr: Trace, w: World, p: Proc) returns (tr': Trace)
    requires EndsIn(cfg, tr, State(w, p)) && p.Deleting? && p.phase == Completed && p.todo == []
    ensures EndsIn(cfg, tr', State(w, Sorting(p.seen, p.kids, p.now, Failed)))
    ensures Grows(tr, tr') && Calm(tr, tr')
  {
    tr' := Go(cfg, tr, State(w, p), Call(Ok), State(w, Sorting(p.seen, p.kids, p.now, Failed)));
  }

  /** One deletion, which is the last event of the run. */
  lemma DeletesNext(cfg: Config, tr: Trace, w: World, p: Proc) returns (tr': Trace)
    requires EndsIn(cfg, tr, State(w, p)) && p.Deleting? && p.todo != [] && p.todo[0].name in w.children
    ensures Run(cfg, tr'.states, tr'.events) && Deletes(tr'.states, tr'.events, |tr.events|, p.todo[0].name)
    ensures tr'.states[|tr.events|].world == w && Grows(tr, tr')
  {
    var w' := w.(children := w.children - {p.todo[0].name});
    tr' := Go(cfg, tr, State(w, p), Call(Ok), State(w', p.(todo := p.todo[1..])));
  }

  /** A Create after which the status patch fails, at event `k`. */
  lemma StartsUnrecorded(cfg: Config, tr: Trace, w: World, p: Proc) returns (tr': Trace, k: nat)
    requires EndsIn(cfg, tr, State(w, p)) && p.Creating? && Int64(p.now) && p.now <= w.clock
    requires cfg.accepts(ChildName(cfg.name, p.now)) && ChildName(cfg.name, p.now) !in w.children
    ensures EndsIn(cfg, tr', State(WithChild(w, ChildName(cfg.name, p.now), p.now), Idle)) && Grows(tr, tr')
    ensures PatchFails(tr', k)
  {
    var name := ChildName(cfg.name, p.now);
    tr' := Creates(cfg, tr, w, p);
    k := |tr'.events|;
    tr' := FailsToRecord(cfg, tr', WithChild(w, name, p.now), Recording(p.seen, p.kids, p.now, Ref(name, |w.starts|)));
  }

  /** A whole reconcile of that kind, and the end of the child. */
  lemma RunsUnrecorded(cfg: Config, tr: Trace, w: World, q: Phase) returns (tr': Trace, k: nat)
    requires EndsIn(cfg, tr, State(w, Idle)) && NoneActive(w.children) && w.status == EMPTY_STATUS
    requires cfg.schedule.Some? && Terminal(q) && Int64(w.clock)
    requires cfg.accepts(ChildName(cfg.name, w.clock)) && ChildName(cfg.name, w.clock) !in w.children
    ensures var name := ChildName(cfg.name, w.clock);
            EndsIn(cfg, tr', State(WithPhase(WithChild(w, name, w.clock), name, q), Idle)) && Grows(tr, tr')
    ensures PatchFails(tr', k)
  {
    var name := ChildName(cfg.name, w.clock);
    tr' := Starts(cfg, tr, w);
    tr', k := StartsUnrecorded(cfg, tr', w, Creating(EMPTY_STATUS, w.children, w.clock));
    tr' := Finishes(cfg, tr', WithChild(w, name, w.clock), Idle, name, q);
  }

  // ---------------------------------------------------------------- two starts in one slot

  /** A child that was started at `t`, was not recorded, and is over at `t + 1`. */
  function OverAndUnrecorded(cfg: Config, t: Time): World
    requires Int64(t)
  {
    World(EMPTY_STATUS, map[ChildName(cfg.name, t) := Child(0, Failed, t)], t + 1,
          [Start(ChildName(cfg.name, t), t, t, false)])
  }

  lemma ReachOverAndUnrecorded(cfg: Config, t: Time) returns (tr: Trace, k: nat)
    requires cfg.schedule.Some? && Int64(t) && Int64(t + 1) && cfg.accepts(ChildName(cfg.name, t))
    ensures EndsIn(cfg, tr, State(OverAndUnrecorded(cfg, t), Idle)) && PatchFails(tr, k)
  {
    var w, name := World(EMPTY_STATUS, map[], t, []), ChildName(cfg.name, t);
    tr, k := RunsUnrecorded(cfg, Begin(t), w, Failed);
    w := WithPhase(WithChild(w, name, t), name, Failed);
    tr := Waits(cfg, tr, w, Idle, t + 1);
    assert w.(clock := t + 1) == OverAndUnrecorded(cfg, t);
  }

  /** The status patch after a Create fails, at event `k`, and the child is over before the next
      reconcile: the parent runs twice within one cron slot. */
  lemma TwoStartsInOneSlotHappen(cfg: Config, t: Time) returns (tr: Trace, k: nat)
    requires cfg.schedule.Some? && t >= 0 && Int64(t + 1) && t + 1 < cfg.schedule.value(t)
    requires cfg.accepts(ChildName(cfg.name, t)) && cfg.accepts(ChildName(cfg.name, t + 1))
    ensures Run(cfg, tr.states, tr.events) && PatchFails(tr, k)
    ensures var w := tr.states[|tr.states| - 1].world;
            && |w.starts| == 2 && w.starts[0].reading == t && w.starts[1].reading == t + 1 < cfg.schedule.value(t)
            && !w.starts[0].recorded
            && w.starts[0].name in w.children && Terminal(w.children[w.starts[0].name].phase)
  {
    var w := OverAndUnrecorded(cfg, t);
    if ChildName(cfg.name, t + 1) == ChildName(cfg.name, t) { ChildNameIsInjective(cfg.name, t, t + 1); }
    tr, k := ReachOverAndUnrecorded(cfg, t);
    tr := Starts(cfg, tr, w);
    tr := Creates(cfg, tr, w, Creating(EMPTY_STATUS, w.children, t + 1));
  }

  // ---------------------------------------------------------------- starts without a fire time

  /** A clean-up that has nothing to do, up to the end of the reconcile. */
  lemma CleansUpNothing(cfg: Config, tr: Trace, w: World, p: Proc) returns (tr': Trace)
    requires EndsIn(cfg, tr, State(w, p)) && p.Sorting? && p.phase == Completed && p.kids == map[]
    ensures EndsIn(cfg, tr', State(w, Idle)) && Grows(tr, tr') && Calm(tr, tr')
  {
    var none: seq<Ref> := [];
    assert CreationOrder(p.kids, Completed, none) && none == none[..Max(|none| - cfg.successLimit, 0)];
    assert CreationOrder(p.kids, Failed, none) && none == none[..Max(|none| - cfg.failureLimit, 0)];
    tr' := Plans(cfg, tr, w, p, none);
    tr' := EndsPhase(cfg, tr', w, Deleting(p.seen, p.kids, p.now, Completed, none));
    tr' := Plans(cfg, tr', w, Sorting(p.seen, p.kids, p.now, Failed), none);
    tr' := Go(cfg, tr', State(w, Deleting(p.seen, p.kids, p.now, Failed, none)), Call(Ok), State(w, Idle));
  }

  /** A reconcile that finds its active child over, up to the Create that is due. */
  lemma ClearsAndStarts(cfg: Config, tr: Trace, w: World) returns (tr': Trace)
    requires EndsIn(cfg, tr, State(w, Idle)) && NoneActive(w.children) && w.status.active.Some?
    requires cfg.schedule.Some? && Due(cfg.schedule.value, w.status, w.clock)
    ensures var st := Cleared(w.status, w.clock);
            EndsIn(cfg, tr', State(w.(status := st), Creating(st, w.children, w.clock)))
    ensures Grows(tr, tr') && Calm(tr, tr')
  {
    var st, clearing := Cleared(w.status, w.clock), Clearing(w.status, w.children, w.clock);
    tr' := Go(cfg, tr, State(w, Idle), Call(Ok), State(w, Got(w.status)));
    tr' := Go(cfg, tr', State(w, Got(w.status)), Call(Ok), State(w, Listed(w.status, w.children)));
    tr' := Go(cfg, tr', State(w, Listed(w.status, w.children)), Call(Ok), State(w, clearing));
    assert Patched(w, w.status, st) == w.(status := st);
    tr' := Go(cfg, tr', State(w, clearing), Call(Ok), State(w.(status := st), Creating(st, w.children, w.clock)));
  }

  /** A child that was started and recorded at `t` and is over at `t + 1`. */
  function OverAndRecorded(cfg: Config, t: Time): World
    requires Int64(t)
  {
    var name := ChildName(cfg.name, t);
    World(Activated(EMPTY_STATUS, Ref(name, 0), t), map[name := Child(0, Completed, t)], t + 1,
          [Start(name, t, t, true)])
  }

  lemma ReachOverAndRecorded(cfg: Config, t: Time) returns (tr: Trace)
    requires cfg.schedule.Some? && Int64(t) && Int64(t + 1) && cfg.accepts(ChildName(cfg.name, t))
    ensures EndsIn(cfg, tr, State(OverAndRecorded(cfg, t), Idle)) && FaultFree(tr.events)
  {
    var w, name := World(EMPTY_STATUS, map[], t, []), ChildName(cfg.name, t);
    tr := Starts(cfg, Begin(t), w);
    tr := Creates(cfg, tr, w, Creating(EMPTY_STATUS, map[], t));
    w := WithChild(w, name, t);
    tr := Records(cfg, tr, w, Recording(EMPTY_STATUS, map[], t, Ref(name, 0)));
    w := Patched(w, EMPTY_STATUS, Activated(EMPTY_STATUS, Ref(name, 0), t));
    tr := CleansUpNothing(cfg, tr, w, Sorting(w.status, map[], t, Completed));
    tr := Finishes(cfg, tr, w, Idle, name, Completed);
    w := WithPhase(w, name, Completed);
    tr := Waits(cfg, tr, w, Idle, t + 1);
    assert w.(clock := t + 1) == OverAndRecorded(cfg, t);
  }

  /** The second child has been started and recorded as well. */
  function RecordedAgain(cfg: Config, t: Time): World
    requires Int64(t) && Int64(t + 1)
  {
    var w, name := OverAndRecorded(cfg, t), ChildName(cfg.name, t + 1);
    World(Activated(Cleared(w.status, t + 1), Ref(name, 1), t + 1), w.children[name := Child(1, Unset, t + 1)], t + 1,
          w.starts + [Start(name, t + 1, t + 1, true)])
  }

  /** A second Create and the status patch that records it. */
  lemma RunsAgain(cfg: Config, tr: Trace, t: Time) returns (tr': Trace)
    requires Int64(t) && Int64(t + 1) && cfg.accepts(ChildName(cfg.name, t + 1))
    requires ChildName(cfg.name, t + 1) != ChildName(cfg.name, t)
    requires var w := OverAndRecorded(cfg, t); var st := Cleared(w.status, t + 1);
             EndsIn(cfg, tr, State(w.(status := st), Creating(st, w.children, t + 1)))
    ensures var w, kids := RecordedAgain(cfg, t), OverAndRecorded(cfg, t).children;
            EndsIn(cfg, tr', State(w, Sorting(w.status, kids, t + 1, Completed))) && Calm(tr, tr')
  {
    var w, name := OverAndRecorded(cfg, t), ChildName(cfg.name, t + 1);
    var st, kids := Cleared(w.status, t + 1), w.children;
    var w' := WithChild(w.(status := st), name, t + 1);
    tr' := Creates(cfg, tr, w.(status := st), Creating(st, kids, t + 1));
    tr' := Records(cfg, tr', w', Recording(st, kids, t + 1, Ref(name, 1)));
    assert Patched(w', st, Activated(st, Ref(name, 1), t + 1)) == RecordedAgain(cfg, t);
  }

  /** When the schedule does not fire after `t`, as one that never fires does not, no call needs to
      fail: a recorded child is over and the next reconcile starts another one, at a time that the
      schedule did not ask for. */
  lemma StartsWithoutFireTimeHappen(cfg: Config, t: Time) returns (tr: Trace)
    requires cfg.schedule.Some? && cfg.schedule.value(t) <= t && t >= 0 && Int64(t + 1)
    requires cfg.accepts(ChildName(cfg.name, t)) && cfg.accepts(ChildName(cfg.name, t + 1))
    ensures Run(cfg, tr.states, tr.events) && FaultFree(tr.events)
    ensures var starts := tr.states[|tr.states| - 1].world.starts;
            && |starts| == 2 && starts[0].recorded && starts[1].recorded
            && starts[0].reading == t && starts[1].reading == t + 1
    ensures !FireTimeCame(cfg.schedule.value, t, t + 1)
  {
    if ChildName(cfg.name, t + 1) == ChildName(cfg.name, t) { ChildNameIsInjective(cfg.name, t, t + 1); }
    tr := ReachOverAndRecorded(cfg, t);
    tr := ClearsAndStarts(cfg, tr, OverAndRecorded(cfg, t));
    tr := RunsAgain(cfg, tr, t);
  }

  // ---------------------------------------------------------------- deletion by name

  predicate AcceptsBoth(cfg: Config) {
    cfg.accepts(ChildName(cfg.name, 0)) && cfg.accepts(ChildName(cfg.name, 1))
  }

  /** Two children of a parent without a status: one that was asked for at 0 and stamped at 1, one
      that was asked for and stamped at 1. Both have come to the same end. */
  function TwoChildren(cfg: Config, q: Phase): World {
    World(EMPTY_STATUS,
          map[ChildName(cfg.name, 0) := Child(0, q, 1), ChildName(cfg.name, 1) := Child(1, q, 1)], 1,
          [Start(ChildName(cfg.name, 0), 0, 1, false), Start(ChildName(cfg.name, 1), 1, 1, false)])
  }

  lemma ReachTwoChildren(cfg: Config, q: Phase) returns (tr: Trace)
    requires cfg.schedule.Some? && Terminal(q) && AcceptsBoth(cfg)
    ensures EndsIn(cfg, tr, State(TwoChildren(cfg, q), Idle)) && tr.states[0].world.clock == 0
  {
    var a, b := ChildName(cfg.name, 0), ChildName(cfg.name, 1);
    if a == b { ChildNameIsInjective(cfg.name, 0, 1); }
    var w := World(EMPTY_STATUS, map[], 0, []);
    var p := Creating(EMPTY_STATUS, map[], 0);
    tr := Starts(cfg, Begin(0), w);
    tr := Waits(cfg, tr, w, p, 1);
    w := w.(clock := 1);
    var k: nat;
    tr, k := StartsUnrecorded(cfg, tr, w, p);
    w := WithChild(w, a, 0);
    tr := Finishes(cfg, tr, w, Idle, a, q);
    w := WithPhase(w, a, q);
    tr, k := RunsUnrecorded(cfg, tr, w, q);
    assert WithPhase(WithChild(w, b, 1), b, q) == TwoChildren(cfg, q);
  }

  /** Somebody deletes the second child after it was listed, and the reconcile creates another
      one of that name, which is recorded as active. */
  function TakenOver(cfg: Config, q: Phase): World {
    World(Activated(EMPTY_STATUS, Ref(ChildName(cfg.name, 1), 2), 1),
          map[ChildName(cfg.name, 0) := Child(0, q, 1), ChildName(cfg.name, 1) := Child(2, Unset, 1)], 1,
          TwoChildren(cfg, q).starts + [Start(ChildName(cfg.name, 1), 1, 1, true)])
  }

  /** The other child is listed as well, and the reconcile is about to create a third one. */
  lemma ReachDeletion(cfg: Config, q: Phase) returns (tr: Trace)
    requires cfg.schedule.Some? && cfg.deletions && Terminal(q) && AcceptsBoth(cfg)
    ensures var w, b := TwoChildren(cfg, q), ChildName(cfg.name, 1);
            EndsIn(cfg, tr, State(w.(children := w.children - {b}), Creating(EMPTY_STATUS, w.children, 1)))
    ensures tr.states[0].world.clock == 0
  {
    var w := TwoChildren(cfg, q);
    tr := ReachTwoChildren(cfg, q);
    tr := Starts(cfg, tr, w);
    tr := LosesChild(cfg, tr, w, Creating(EMPTY_STATUS, w.children, 1), ChildName(cfg.name, 1));
  }

  lemma ReachTakenOver(cfg: Config, q: Phase) returns (tr: Trace)
    requires cfg.schedule.Some? && cfg.deletions && Terminal(q) && AcceptsBoth(cfg)
    ensures var w, kids := TakenOver(cfg, q), TwoChildren(cfg, q).children;
            EndsIn(cfg, tr, State(w, Sorting(w.status, kids, 1, Completed)))
    ensures tr.states[0].world.clock == 0
  {
    var b, kids := ChildName(cfg.name, 1), TwoChildren(cfg, q).children;
    if ChildName(cfg.name, 0) == b { ChildNameIsInjective(cfg.name, 0, 1); }
    var w := TwoChildren(cfg, q).(children := kids - {b});
    tr := ReachDeletion(cfg, q);
    tr := Creates(cfg, tr, w, Creating(EMPTY_STATUS, kids, 1));
    w := WithChild(w, b, 1);
    tr := Records(cfg, tr, w, Recording(EMPTY_STATUS, kids, 1, Ref(b, 2)));
    assert Patched(w, EMPTY_STATUS, Activated(EMPTY_STATUS, Ref(b, 2), 1)) == TakenOver(cfg, q);
  }

  /** The clean-up reaches the phase in which all listed children are. */
  lemma ReachPhase(cfg: Config, q: Phase) returns (tr: Trace)
    requires cfg.schedule.Some? && cfg.deletions && Terminal(q) && AcceptsBoth(cfg)
    ensures var w, kids := TakenOver(cfg, q), TwoChildren(cfg, q).children;
            EndsIn(cfg, tr, State(w, Sorting(w.status, kids, 1, q)))
    ensures tr.states[0].world.clock == 0
  {
    tr := ReachTakenOver(cfg, q);
    if q == Failed {
      var w, kids := TakenOver(cfg, q), TwoChildren(cfg, q).children;
      var none: seq<Ref> := [];
      assert CreationOrder(kids, Completed, none) && none == none[..Max(|none| - cfg.successLimit, 0)];
      tr := Plans(cfg, tr, w, Sorting(w.status, kids, 1, Completed), none);
      tr := EndsPhase(cfg, tr, w, Deleting(w.status, kids, 1, Completed, none));
    }
  }

  /** Event `i` is a clean-up call that deletes the child that the server names as active. */
  ghost predicate HitsTheActiveChild(cfg: Config, tr: Trace, i: nat) {
    && Run(cfg, tr.states, tr.events) && tr.states[0].world.clock >= 0
    && exists n :: Deletes(tr.states, tr.events, i, n) && IsNamedActive(tr.states[i].world, n)
  }

  /** Children that were created in the same second may be in any order. */
  lemma TieIsCreationOrder(kids: Children, q: Phase, a: string, b: string)
    requires a != b && kids.Keys == {a, b} && kids[a].phase == kids[b].phase == q && kids[a].created == kids[b].created
    ensures CreationOrder(kids, q, [Ref(b, kids[b].uid), Ref(a, kids[a].uid)])
  {
    var order := [Ref(b, kids[b].uid), Ref(a, kids[a].uid)];
    assert order[0] in order && order[1] in order;
  }

  lemma PlanBeginsWith(kids: Children, q: Phase, limit: nat, first: Ref, second: Ref) returns (todo: seq<Ref>)
    requires CreationOrder(kids, q, [first, second]) && limit <= 1
    ensures Excess(kids, q, limit, todo) && todo != [] && todo[0] == first
  {
    var order := [first, second];
    todo := order[..Max(|order| - limit, 0)];
  }

  /** Of two listed children that are stamped in the same second either may count as the older, so
      that with a limit of zero or one the plan can begin with the second of them. */
  lemma PlanBeginsWithTheSecond(cfg: Config, q: Phase) returns (todo: seq<Ref>)
    requires Terminal(q) && Limit(cfg, q) <= 1 && ChildName(cfg.name, 0) != ChildName(cfg.name, 1)
    ensures Excess(TwoChildren(cfg, q).children, q, Limit(cfg, q), todo)
    ensures todo != [] && todo[0] == Ref(ChildName(cfg.name, 1), 1)
  {
    var kids, a, b := TwoChildren(cfg, q).children, ChildName(cfg.name, 0), ChildName(cfg.name, 1);
    TieIsCreationOrder(kids, q, a, b);
    todo := PlanBeginsWith(kids, q, Limit(cfg, q), Ref(b, 1), Ref(a, 0));
  }

  /** With a limit of zero or one, deletions by others can make the clean-up hit the active child. */
  lemma CleanUpHitsTheActiveChild(cfg: Config, q: Phase) returns (tr: Trace, i: nat)
    requires cfg.schedule.Some? && cfg.deletions && Terminal(q) && Limit(cfg, q) <= 1
    requires AcceptsBoth(cfg)
    ensures HitsTheActiveChild(cfg, tr, i)
  {
    var b, w, kids := ChildName(cfg.name, 1), TakenOver(cfg, q), TwoChildren(cfg, q).children;
    if ChildName(cfg.name, 0) == b { ChildNameIsInjective(cfg.name, 0, 1); }
    var todo := PlanBeginsWithTheSecond(cfg, q);
    tr := ReachPhase(cfg, q);
    tr := Plans(cfg, tr, w, Sorting(w.status, kids, 1, q), todo);
    i := |tr.events|;
    tr := DeletesNext(cfg, tr, w, Deleting(w.status, kids, 1, q, todo));
    assert IsNamedActive(w, b);
  }

  /** The configurations under which a clean-up can ever hit the active child, for a parent whose
      name is a single label: exactly those with a schedule and a limit of zero or one, in a
      cluster in which others delete children. */
  lemma ActiveChildCanBeHitIff(cfg: Config)
    requires IsLabel(cfg.name) && |cfg.name| <= LABEL_MAX_LENGTH && Validates(cfg)
    ensures (exists tr, i: nat :: HitsTheActiveChild(cfg, tr, i)) <==>
            cfg.schedule.Some? && cfg.deletions && (cfg.successLimit <= 1 || cfg.failureLimit <= 1)
  {
    if tr, i: nat :| HitsTheActiveChild(cfg, tr, i) {
      var n :| Deletes(tr.states, tr.events, i, n) && IsNamedActive(tr.states[i].world, n);
      LimitsProtectTheActiveChild(cfg, tr.states, tr.events, i, n);
      RunKeepsInv(cfg, tr.states, tr.events, i);
    }
    if cfg.schedule.Some? && cfg.deletions && (cfg.successLimit <= 1 || cfg.failureLimit <= 1) {
      LabelParentCanHaveChild(cfg.name, 0);
      LabelParentCanHaveChild(cfg.name, 1);
      var tr, i := CleanUpHitsTheActiveChild(cfg, if cfg.successLimit <= 1 then Completed else Failed);
    }
  }
}
