/** What the scheduling protocol guarantees over all its runs, and where it falls short. */
module SchedulingResults {
  import opened Prelude
  import opened Schedules
  import opened ChildNames
  import opened SchedulingProtocol
  import opened SchedulingInvariant

  ghost predicate StartsScan(s: State, s': State) {
    |s'.world.starts| > |s.world.starts|
  }

  // ---------------------------------------------------------------- mutual exclusion

  /** At no point of any run are two children unfinished. */
  lemma AtMostOneActive(cfg: Config, states: seq<State>, events: seq<Event>, i: nat, m: string, n: string)
    requires Run(cfg, states, events) && i < |states|
    requires IsActive(states[i].world.children, m) && IsActive(states[i].world.children, n)
    ensures m == n
  {
    RunKeepsInv(cfg, states, events, i);
  }

  /** No child is created while another one is unfinished. */
  lemma NoStartWhileActive(cfg: Config, states: seq<State>, events: seq<Event>, i: nat)
    requires Run(cfg, states, events) && i < |events|
    requires StartsScan(states[i], states[i + 1])
    ensures NoneActive(states[i].world.children)
    ensures states[i].world.status.active.None?
  {
    RunKeepsInv(cfg, states, events, i);
    assert StepAt(cfg, states, events, i);
    OnlyCreatingStarts(cfg, states[i], events[i], states[i + 1]);
  }

  lemma OnlyCreatingStarts(cfg: Config, s: State, e: Event, s': State)
    requires Step(cfg, s, e, s') && StartsScan(s, s')
    ensures s.proc.Creating? && e.Call? && e.outcome != Refused
    ensures s'.world.starts[..|s.world.starts|] == s.world.starts
    ensures s'.world.starts[|s.world.starts|].reading == s.proc.now
  {
    if e.Env? { EnvAges(cfg, s.world, s'.world); }
  }

  // ---------------------------------------------------------------- cron slots

  /** The history only grows, and a recorded start stays recorded. */
  ghost predicate HistoryGrows(a: seq<Start>, b: seq<Start>) {
    && |a| <= |b|
    && forall k :: 0 <= k < |a| ==>
      && a[k].name == b[k].name && a[k].reading == b[k].reading && a[k].created == b[k].created
      && (a[k].recorded ==> b[k].recorded)
  }

  lemma CallGrowsHistory(cfg: Config, s: State, o: Outcome, s': State)
    requires CallStep(cfg, s, o, s')
    ensures HistoryGrows(s.world.starts, s'.world.starts)
  {
    if s.proc.Creating? && o != Refused {
      assert s'.world.starts[..|s.world.starts|] == s.world.starts;
    }
  }

  lemma StepGrowsHistory(cfg: Config, s: State, e: Event, s': State)
    requires Step(cfg, s, e, s')
    ensures HistoryGrows(s.world.starts, s'.world.starts)
  {
    match e
    case Env => EnvAges(cfg, s.world, s'.world);
    case Restart =>
    case Call(o) => CallGrowsHistory(cfg, s, o, s');
  }

  lemma HistoryGrowsOn(a: seq<Start>, b: seq<Start>, c: seq<Start>)
    requires HistoryGrows(a, b) && HistoryGrows(b, c)
    ensures HistoryGrows(a, c)
  {
  }

  lemma {:induction false} RunGrowsHistory(cfg: Config, states: seq<State>, events: seq<Event>, i: nat, j: nat)
    requires Run(cfg, states, events) && i <= j < |states|
    ensures HistoryGrows(states[i].world.starts, states[j].world.starts)
  {
    if i < j {
      RunGrowsHistory(cfg, states, events, i, j - 1);
      assert StepAt(cfg, states, events, j - 1);
      StepGrowsHistory(cfg, states[j - 1], events[j - 1], states[j]);
      HistoryGrowsOn(states[i].world.starts, states[j - 1].world.starts, states[j].world.starts);
    }
  }

  /** Two starts fall into one cron slot only if no status that names the first one was applied
      at any time up to the second start, and the first one was over by then. */
  lemma TwoStartsInOneSlot(cfg: Config, states: seq<State>, events: seq<Event>, i: nat, a: nat)
    requires Run(cfg, states, events) && i < |events|
    requires StartsScan(states[i], states[i + 1]) && a < |states[i].world.starts|
    requires var starts := states[i + 1].world.starts;
             cfg.schedule.Some? && starts[|starts| - 1].reading < cfg.schedule.value(starts[a].reading)
    ensures forall j :: 0 <= j <= i + 1 && a < |states[j].world.starts| ==> !states[j].world.starts[a].recorded
    ensures NoneActive(states[i].world.children)
  {
    NoStartWhileActive(cfg, states, events, i);
    RunKeepsInv(cfg, states, events, i + 1);
    assert StepAt(cfg, states, events, i);
    OnlyCreatingStarts(cfg, states[i], events[i], states[i + 1]);
    assert !states[i + 1].world.starts[a].recorded;
    forall j | 0 <= j <= i + 1 && a < |states[j].world.starts| ensures !states[j].world.starts[a].recorded {
      RunGrowsHistory(cfg, states, events, j, i + 1);
    }
  }

  /** If every child is recorded, the starts of a run are at least one fire time apart. */
  lemma RecordedStartsKeepTheirSlots(cfg: Config, states: seq<State>, events: seq<Event>, i: nat, a: nat, b: nat)
    requires Run(cfg, states, events) && i < |states|
    requires a < b < |states[i].world.starts| && states[i].world.starts[a].recorded
    ensures cfg.schedule.Some?
    ensures cfg.schedule.value(states[i].world.starts[a].reading) <= states[i].world.starts[b].reading
  {
    RunKeepsInv(cfg, states, events, i);
  }

  /** The decision of a reconcile that listed no active child. */
  lemma DecisionAfterNewest(cfg: Config, w: World, seen: Status, kids: Children, now: Time)
    requires |w.starts| > 0 && NewestStart(cfg, w) && cfg.schedule.Some?
    requires seen.lastSchedule == w.status.lastSchedule && w.starts[|w.starts| - 1].reading <= now
    ensures var last, p := w.starts[|w.starts| - 1], Decided(cfg, seen, kids, now);
            if last.recorded then p.Creating? <==> cfg.schedule.value(w.status.lastSchedule.value) <= now
            else p.Creating?
  {
  }

  /** What leads to a decision: the clock reading, or the patch that clears the reference. */
  lemma DecidesInCall(cfg: Config, s: State, e: Event, s': State)
    requires Step(cfg, s, e, s') && ProcInv(cfg, s.world, s.proc) && WorldInv(cfg, s.world)
    requires (s.proc.Listed? || s.proc.Clearing?) && (s'.proc.Creating? || s'.proc.Sorting?)
    ensures e.Call? && s'.proc == Decided(cfg, s'.proc.seen, s.proc.kids, s'.proc.now)
    ensures s'.proc.seen.lastSchedule == s.world.status.lastSchedule
    ensures forall i :: 0 <= i < |s.world.starts| ==> s.world.starts[i].reading <= s'.proc.now
  {
  }

  /** At every point where a reconcile decides, still within the slot of the newest start, whether
      to start a scan: it starts a second one exactly when the first was never recorded. */
  lemma SecondStartInSlotIff(cfg: Config, states: seq<State>, events: seq<Event>, i: nat)
    requires Run(cfg, states, events) && i < |events| && |states[i].world.starts| > 0
    requires states[i].proc.Listed? || states[i].proc.Clearing?
    requires states[i + 1].proc.Creating? || states[i + 1].proc.Sorting?
    requires var newest := states[i].world.starts[|states[i].world.starts| - 1];
             cfg.schedule.Some? && states[i + 1].proc.now < cfg.schedule.value(newest.reading)
    ensures states[i + 1].proc.Creating? <==> !states[i].world.starts[|states[i].world.starts| - 1].recorded
  {
    RunKeepsInv(cfg, states, events, i);
    var w, p := states[i].world, states[i + 1].proc;
    var newest := w.starts[|w.starts| - 1];
    assert StepAt(cfg, states, events, i);
    DecidesInCall(cfg, states[i], events[i], states[i + 1]);
    DecisionAfterNewest(cfg, w, p.seen, states[i].proc.kids, p.now);
    if newest.recorded {
      assert cfg.schedule.value(newest.reading) <= cfg.schedule.value(w.status.lastSchedule.value);
    }
  }

  // ---------------------------------------------------------------- schedules that do not fire

  /** A fire time of the schedule lies after `last` and not after `now`. */
  predicate FireTimeCame(next: Schedule, last: Time, now: Time) { last < next(last) <= now }

  /** A start after a recorded schedule time is one that the schedule asked for exactly if the
      schedule has a fire time after that time at all, which a guard before the Create could
      check. Otherwise the next fire time is one that is over, and every time is due. */
  lemma StartsAtFireTimeIff(cfg: Config, states: seq<State>, events: seq<Event>, i: nat)
    requires Run(cfg, states, events) && i < |events|
    requires StartsScan(states[i], states[i + 1]) && states[i].world.status.lastSchedule.Some?
    ensures cfg.schedule.Some?
    ensures var next, starts := cfg.schedule.value, states[i + 1].world.starts;
            var last, now := states[i].world.status.lastSchedule.value, starts[|starts| - 1].reading;
            && next(last) <= now
            && (FireTimeCame(next, last, now) <==> last < next(last))
  {
    RunKeepsInv(cfg, states, events, i);
    assert StepAt(cfg, states, events, i);
    OnlyCreatingStarts(cfg, states[i], events[i], states[i + 1]);
  }

  /** With a schedule that never fires, every reconcile that decides starts a scan. */
  lemma NeverFiringAlwaysStarts(cfg: Config, states: seq<State>, events: seq<Event>, i: nat, zero: Time)
    requires Run(cfg, states, events) && i < |events|
    requires cfg.schedule.Some? && NeverFires(cfg.schedule.value, zero)
    requires states[i].proc.Listed? || states[i].proc.Clearing?
    requires (states[i + 1].proc.Creating? || states[i + 1].proc.Sorting?) && zero <= states[i + 1].proc.now
    ensures states[i + 1].proc.Creating?
  {
    RunKeepsInv(cfg, states, events, i);
    assert StepAt(cfg, states, events, i);
    DecidesInCall(cfg, states[i], events[i], states[i + 1]);
    NeverFiringIsDue(cfg.schedule.value, zero, states[i + 1].proc.seen, states[i + 1].proc.now);
  }

  // ---------------------------------------------------------------- status times

  lemma StepKeepsLastSchedule(cfg: Config, s: State, e: Event, s': State)
    requires Inv(cfg, s) && Step(cfg, s, e, s') && s.world.status.lastSchedule.Some?
    ensures s'.world.status.lastSchedule.Some?
    ensures s.world.status.lastSchedule.value <= s'.world.status.lastSchedule.value
  {
    if e.Env? { EnvAges(cfg, s.world, s'.world); }
  }

  /** The last schedule time never decreases. */
  lemma {:induction false} LastScheduleNeverDecreases(cfg: Config, states: seq<State>, events: seq<Event>,
                                                       i: nat, j: nat)
    requires Run(cfg, states, events) && i <= j < |states|
    requires states[i].world.status.lastSchedule.Some?
    ensures states[j].world.status.lastSchedule.Some?
    ensures states[i].world.status.lastSchedule.value <= states[j].world.status.lastSchedule.value
  {
    if i < j {
      LastScheduleNeverDecreases(cfg, states, events, i, j - 1);
      RunKeepsInv(cfg, states, events, j - 1);
      assert StepAt(cfg, states, events, j - 1);
      StepKeepsLastSchedule(cfg, states[j - 1], events[j - 1], states[j]);
    }
  }

  /** A scan is scheduled, then it is over, then the next one is scheduled. */
  lemma StatusTimesAlternate(cfg: Config, states: seq<State>, events: seq<Event>, i: nat)
    requires Run(cfg, states, events) && i < |states|
    ensures var st := states[i].world.status;
            && (st.active.Some? ==> st.lastSchedule.Some?)
            && (st.active.Some? && st.lastCompletion.Some? ==> st.lastCompletion.value <= st.lastSchedule.value)
            && (st.active.None? && st.lastSchedule.Some? ==>
                 st.lastCompletion.Some? && st.lastSchedule.value <= st.lastCompletion.value)
  {
    RunKeepsInv(cfg, states, events, i);
    assert TimesAlternate(states[i].world);
  }

  // ---------------------------------------------------------------- references

  /** While the active reference is set, no other child can be unfinished. */
  lemma ActiveNamesTheActiveChild(cfg: Config, states: seq<State>, events: seq<Event>, i: nat, n: string)
    requires Run(cfg, states, events) && i < |states|
    requires var w := states[i].world; w.status.active.Some? && IsActive(w.children, n)
    ensures states[i].world.status.active.value == Ref(n, states[i].world.children[n].uid)
  {
    RunKeepsInv(cfg, states, events, i);
  }

  lemma OrphanIsPlanned(cfg: Config, w: World, seen: Status, kids: Children, now: Time, p: Proc, n: string)
    requires Snapshot(w, kids) && IsActive(kids, n) && seen.active.None?
    requires Planned(cfg, seen, kids, now, p)
    ensures p == Recovering(seen, Ref(n, kids[n].uid), kids[n].created) && kids[n].uid == |w.starts| - 1
  {
  }

  /** The clock reading of a reconcile that lists an unrecorded unfinished child. */
  lemma OrphanIsPicked(cfg: Config, states: seq<State>, events: seq<Event>, i: nat, n: string)
    requires Run(cfg, states, events) && i < |events| && events[i] == Call(Ok)
    requires states[i].proc.Listed? && IsActive(states[i].proc.kids, n) && states[i].world.status.active.None?
    ensures var child := states[i].proc.kids[n];
            states[i + 1].proc == Recovering(states[i].proc.seen, Ref(n, child.uid), child.created)
  {
    var s, s' := states[i], states[i + 1];
    assert ProcInv(cfg, s.world, s.proc) by { RunKeepsInv(cfg, states, events, i); }
    assert Planned(cfg, s.proc.seen, s.proc.kids, s.world.clock, s'.proc) by { assert StepAt(cfg, states, events, i); }
    OrphanIsPlanned(cfg, s.world, s.proc.seen, s.proc.kids, s.world.clock, s'.proc, n);
  }

  /** The status patch of such a reconcile. */
  lemma OrphanIsPatched(cfg: Config, states: seq<State>, events: seq<Event>, j: nat)
    requires Run(cfg, states, events) && j < |events| && events[j] == Call(Ok) && states[j].proc.Recovering?
    ensures var w, p := states[j + 1].world, states[j].proc;
            && w.status.active == Some(p.orphan) && w.status.lastSchedule == Some(p.created)
            && w.status.lastCompletion == states[j].world.status.lastCompletion
            && p.orphan.uid == |w.starts| - 1 && w.starts[p.orphan.uid].recorded
  {
    var s, s' := states[j], states[j + 1];
    assert ProcInv(cfg, s.world, s.proc) by { RunKeepsInv(cfg, states, events, j); }
    assert s'.world == Recorded(s.world, s.proc.created) by { assert StepAt(cfg, states, events, j); }
  }

  /** A reconcile that lists an unrecorded unfinished child goes on to record it, at its creation
      time, unless one of its calls fails: `i` is its clock reading, `j` its next call. */
  lemma OrphanIsRecorded(cfg: Config, states: seq<State>, events: seq<Event>, i: nat, j: nat, n: string)
    requires Run(cfg, states, events) && i < j < |events|
    requires states[i].proc.Listed? && IsActive(states[i].proc.kids, n) && states[i].world.status.active.None?
    requires events[i] == Call(Ok) && events[j] == Call(Ok) && forall k :: i < k < j ==> events[k] == Env
    ensures var child := states[i].proc.kids[n];
            && states[j + 1].world.status.active == Some(Ref(n, child.uid))
            && states[j + 1].world.status.lastSchedule == Some(child.created)
            && states[j + 1].world.status.lastCompletion == states[j].world.status.lastCompletion
            && child.uid == |states[j + 1].world.starts| - 1 && states[j + 1].world.starts[child.uid].recorded
  {
    OrphanIsPicked(cfg, states, events, i, n);
    EnvKeepsProc(cfg, states, events, i + 1, j);
    OrphanIsPatched(cfg, states, events, j);
  }

  lemma {:induction false} EnvKeepsProc(cfg: Config, states: seq<State>, events: seq<Event>, i: nat, j: nat)
    requires Run(cfg, states, events) && i <= j < |states|
    requires forall k :: i <= k < j ==> events[k] == Env
    ensures states[j].proc == states[i].proc
  {
    if i < j {
      EnvKeepsProc(cfg, states, events, i, j - 1);
      assert StepAt(cfg, states, events, j - 1);
    }
  }

  // ---------------------------------------------------------------- what the status patches write

  lemma ClearingIsPlanned(cfg: Config, states: seq<State>, events: seq<Event>, i: nat)
    requires Run(cfg, states, events) && i < |events| && events[i] == Call(Ok)
    requires states[i].proc.Listed? && NoneActive(states[i].proc.kids) && states[i].proc.seen.active.Some?
    ensures states[i + 1].proc == Clearing(states[i].proc.seen, states[i].proc.kids, states[i].world.clock)
  {
    assert StepAt(cfg, states, events, i);
  }

  lemma ClearingIsPatched(cfg: Config, states: seq<State>, events: seq<Event>, j: nat)
    requires Run(cfg, states, events) && j < |events| && states[j].proc.Clearing?
    requires events[j].Call? && events[j].outcome != Refused
    ensures var before, after := states[j].world.status, states[j + 1].world.status;
            && after.active.None? && after.lastCompletion == Some(states[j].proc.now)
            && after.lastSchedule == before.lastSchedule
  {
    var s, p, o := states[j], states[j].proc, events[j].outcome;
    assert ProcInv(cfg, s.world, p) by { RunKeepsInv(cfg, states, events, j); }
    assert CallStep(cfg, s, o, states[j + 1]) by { assert StepAt(cfg, states, events, j); }
    assert states[j + 1].world == Patched(s.world, p.seen, Cleared(p.seen, p.now));
  }

  /** The status patch of a reconcile whose active scan is over, applied at event `j`: the scan was
      completed at the clock reading of the reconcile, event `i`. */
  lemma CompletionIsRecorded(cfg: Config, states: seq<State>, events: seq<Event>, i: nat, j: nat)
    requires Run(cfg, states, events) && i < j < |events| && events[i] == Call(Ok)
    requires states[i].proc.Listed? && NoneActive(states[i].proc.kids) && states[i].proc.seen.active.Some?
    requires (forall k :: i < k < j ==> events[k] == Env) && events[j].Call? && events[j].outcome != Refused
    ensures var before, after := states[j].world.status, states[j + 1].world.status;
            && after.active.None? && after.lastCompletion == Some(states[i].world.clock)
            && after.lastSchedule == before.lastSchedule
  {
    ClearingIsPlanned(cfg, states, events, i);
    EnvKeepsProc(cfg, states, events, i + 1, j);
    ClearingIsPatched(cfg, states, events, j);
  }

  lemma RecordingIsPatched(cfg: Config, states: seq<State>, events: seq<Event>, j: nat)
    requires Run(cfg, states, events) && j < |events| && states[j].proc.Recording?
    requires events[j].Call? && events[j].outcome != Refused
    ensures var p, before, after := states[j].proc, states[j].world.status, states[j + 1].world.status;
            && after.active == Some(p.ref) && after.lastSchedule == Some(p.now)
            && after.lastCompletion == before.lastCompletion
  {
    var s, p, o := states[j], states[j].proc, events[j].outcome;
    assert ProcInv(cfg, s.world, p) by { RunKeepsInv(cfg, states, events, j); }
    assert CallStep(cfg, s, o, states[j + 1]) by { assert StepAt(cfg, states, events, j); }
    assert states[j + 1].world == Patched(s.world, p.seen, Activated(p.seen, p.ref, p.now));
  }

  /** The status patch after a Create, applied at event `j`: the new child is active since the clock
      reading of the reconcile that asked for it, and nothing else changes. */
  lemma StartIsRecorded(cfg: Config, states: seq<State>, events: seq<Event>, i: nat, j: nat)
    requires Run(cfg, states, events) && i < j < |events| && events[i] == Call(Ok) && states[i].proc.Creating?
    requires (forall k :: i < k < j ==> events[k] == Env) && events[j].Call? && events[j].outcome != Refused
    ensures var now, before, after := states[i].proc.now, states[j].world.status, states[j + 1].world.status;
            && Int64(now) && after.active == Some(Ref(ChildName(cfg.name, now), |states[i].world.starts|))
            && after.lastSchedule == Some(now) && after.lastCompletion == before.lastCompletion
  {
    CreateIsFollowed(cfg, states, events, i);
    EnvKeepsProc(cfg, states, events, i + 1, j);
    RecordingIsPatched(cfg, states, events, j);
  }

  lemma CreateIsFollowed(cfg: Config, states: seq<State>, events: seq<Event>, i: nat)
    requires Run(cfg, states, events) && i < |events| && events[i] == Call(Ok) && states[i].proc.Creating?
    ensures var p := states[i].proc;
            && Int64(p.now)
            && states[i + 1].proc ==
                 Recording(p.seen, p.kids, p.now, Ref(ChildName(cfg.name, p.now), |states[i].world.starts|))
  {
    assert StepAt(cfg, states, events, i);
  }

  /** A call that does not succeed ends the reconcile, except for a deletion, after which the next
      one is tried. One that is refused leaves the world alone. */
  lemma FailedCallsEndTheReconcile(cfg: Config, s: State, o: Outcome, s': State)
    requires CallStep(cfg, s, o, s') && o != Ok
    ensures !s.proc.Deleting? ==> s'.proc == Idle
    ensures s.proc.Deleting? ==> s.proc.todo != [] && s'.proc == s.proc.(todo := s.proc.todo[1..])
    ensures o == Refused ==> s'.world == s.world
  {
  }

  // ---------------------------------------------------------------- names

  /** Every start was asked for at `since` or later, and has the name that follows from its
      parent and that time, which the server accepted. */
  ghost predicate NamesFollow(cfg: Config, w: World, since: Time) {
    forall i :: 0 <= i < |w.starts| ==>
      var start := w.starts[i];
      && since <= start.reading && Int64(start.reading)
      && start.name == ChildName(cfg.name, start.reading) && cfg.accepts(start.name)
  }

  ghost predicate Since(cfg: Config, s: State, since: Time) {
    && NamesFollow(cfg, s.world, since) && since <= s.world.clock
    && (s.proc.Clearing? || s.proc.Creating? ==> since <= s.proc.now)
  }

  lemma CreatingKeepsSince(cfg: Config, s: State, o: Outcome, s': State, since: Time)
    requires Since(cfg, s, since) && CallStep(cfg, s, o, s') && s.proc.Creating?
    ensures Since(cfg, s', since)
  {
    if o != Refused {
      var n := |s.world.starts|;
      assert s'.world.starts[..n] == s.world.starts && s'.world.starts[n].reading == s.proc.now;
    }
  }

  lemma CallKeepsSince(cfg: Config, s: State, o: Outcome, s': State, since: Time)
    requires Since(cfg, s, since) && CallStep(cfg, s, o, s') && !s.proc.Creating?
    ensures Since(cfg, s', since)
  {
  }

  lemma StepKeepsSince(cfg: Config, s: State, e: Event, s': State, since: Time)
    requires Since(cfg, s, since) && Step(cfg, s, e, s')
    ensures Since(cfg, s', since)
  {
    match e
    case Env => EnvAges(cfg, s.world, s'.world);
    case Restart =>
    case Call(o) =>
      if s.proc.Creating? {
        CreatingKeepsSince(cfg, s, o, s', since);
      } else {
        CallKeepsSince(cfg, s, o, s', since);
      }
  }

  /** The names of all children of a run: those whose names or labels would not be valid were
      never created. */
  lemma {:induction false} StartsHaveNames(cfg: Config, states: seq<State>, events: seq<Event>, i: nat)
    requires Run(cfg, states, events) && i < |states|
    ensures Since(cfg, states[i], states[0].world.clock)
  {
    if i > 0 {
      StartsHaveNames(cfg, states, events, i - 1);
      assert StepAt(cfg, states, events, i - 1);
      StepKeepsSince(cfg, states[i - 1], events[i - 1], states[i], states[0].world.clock);
    }
  }

  /** The server accepts a child exactly if its name and its labels are valid. */
  ghost predicate Validates(cfg: Config) {
    forall t :: Int64(t) ==> (cfg.accepts(ChildName(cfg.name, t)) <==> CanHaveChild(cfg.name, t))
  }

  /** Only a parent whose name fits into a label value has children at all, and only at times for
      which that name is not cut behind a dot. */
  lemma StartsAreAccepted(cfg: Config, states: seq<State>, events: seq<Event>, i: nat, k: nat)
    requires Run(cfg, states, events) && i < |states| && k < |states[i].world.starts|
    requires IsSubdomain(cfg.name) && Validates(cfg)
    ensures |cfg.name| <= LABEL_MAX_LENGTH
    ensures var start := states[i].world.starts[k];
            Int64(start.reading) && !CutBehindDot(cfg.name, start.reading)
            && start.name == ChildName(cfg.name, start.reading)
  {
    StartsHaveNames(cfg, states, events, i);
    CanHaveChildIff(cfg.name, states[i].world.starts[k].reading);
  }

  // ---------------------------------------------------------------- waking up

  /** The delay that a reconcile asks for when it reaches its end. */
  function RequeueAfter(next: Schedule, seen: Status, now: Time): Time {
    var reference := if seen.lastSchedule.Some? then seen.lastSchedule.value else now;
    Max(next(reference) - now, 0)
  }

  /** The next reconcile is asked for at the fire time after the last schedule time, and never
      immediately, exactly if the schedule fires again. No fire time is slept past. */
  lemma WakesUpAtNextFireTime(cfg: Config, states: seq<State>, events: seq<Event>, i: nat)
    requires Run(cfg, states, events) && i < |states| && AtEnd(states[i].proc)
    ensures cfg.schedule.Some? && states[i].world.status.lastSchedule.Some?
    ensures var next, now, last := cfg.schedule.value, states[i].proc.now, states[i].world.status.lastSchedule.value;
            var delay := RequeueAfter(next, states[i].proc.seen, now);
            && (delay > 0 <==> now < next(now))
            && (delay > 0 ==> now + delay == next(last))
            && (HasFireTimes(next) ==> delay > 0 && forall u :: last < next(u) ==> now + delay <= next(u))
  {
    RunKeepsInv(cfg, states, events, i);
    var next, now, last := cfg.schedule.value, states[i].proc.now, states[i].world.status.lastSchedule.value;
    assert last <= now && next(last) <= next(now);
    if HasFireTimes(next) {
      forall u | last < next(u) ensures next(last) <= next(u) {
        NextIsLeastFireTime(next, last, u);
      }
    }
  }
}
