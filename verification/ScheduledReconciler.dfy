/** The reconcile loop of the ScheduledComplianceScan controller in its imperative form. Every
    execution, whatever the API server and the rest of the cluster do, is a run of the protocol. */
module ScheduledReconciler {
  import opened Prelude
  import opened Phases
  import opened ChildNames
  import opened SchedulingProtocol
  import opened SchedulingResults

  /** An element of a list of children. */
  datatype Item = Item(name: string, child: Child)

  datatype Result = Error | Stop | RequeueIn(delay: Time)

  const ONE_MINUTE: Time := 60

  /** Whether a step is a call that did not succeed, as a number to count with. */
  ghost function Fault(e: Event): nat { if e == Env || e == Call(Ok) then 0 else 1 }

  // ---------------------------------------------------------------- the cluster

  /** The API server and the clock, and the run that they have recorded so far. Before a call
      takes effect, other things happen in the cluster; any call can fail or lose its response. */
  class Cluster {
    const cfg: Config
    /** Whether all calls succeed, up to a Create that the server cannot accept. */
    const reliable: bool
    var world: World
    ghost var states: seq<State>
    ghost var events: seq<Event>
    /** How many calls have not succeeded. */
    ghost var faults: nat

    /** The run so far ends with the process about to do `p`. */
    ghost predicate At(p: Proc)
      reads this
    {
      Ran(world, p) && Int64(world.clock)
    }

    ghost predicate Ran(w: World, p: Proc)
      reads this
    {
      Run(cfg, states, events) && states[|states| - 1] == State(w, p)
    }

    /** The run and the time went on, and in a reliable cluster there was no fault. */
    ghost predicate Extends(before: seq<State>, earlier: nat, since: Time)
      reads this
    {
      && before <= states && since <= world.clock
      && (reliable ==> faults == earlier)
    }

    /** Adds the step that a call has made to the run. */
    ghost method Commit(w: World, p: Proc, e: Event, next: Proc)
      requires Ran(w, p) && Step(cfg, State(w, p), e, State(world, next))
      modifies this`states, this`events, this`faults
      ensures Ran(world, next)
      ensures states == old(states) + [State(world, next)] && events == old(events) + [e]
      ensures faults == old(faults) + Fault(e)
    {
      SchedulingProtocol.Extend(cfg, states, events, e, State(world, next));
      states, events, faults := states + [State(world, next)], events + [e], faults + Fault(e);
    }

    /** Anything that the environment can do, any number of times. */
    method Interfere(ghost p: Proc)
      requires At(p)
      modifies this
      ensures At(p) && Extends(old(states), old(faults), old(world.clock))
    {
      var rounds: nat := *;
      while rounds > 0
        invariant At(p) && Extends(old(states), old(faults), old(world.clock))
      {
        rounds := rounds - 1;
        var n: string, q: Phase, t: Time := *, *, *;
        ghost var before := world;
        if world.clock <= t && Int64(t) {
          world := world.(clock := t);
          assert Ticks(before, world);
          Commit(before, p, Env, p);
        } else if n in world.children && Advances(world.children[n].phase, q) {
          world := world.(children := world.children[n := world.children[n].(phase := q)]);
          assert ChildAdvances(before, n, q, world);
          Commit(before, p, Env, p);
        } else if cfg.deletions && n in world.children {
          world := world.(children := world.children - {n});
          assert ChildGoes(before, n, world);
          Commit(before, p, Env, p);
        }
      }
    }

    method Get() returns (ok: bool, status: Status)
      requires At(Idle)
      modifies this
      ensures At(if ok then Got(status) else Idle) && Extends(old(states), old(faults), old(world.clock))
      ensures |states| > |old(states)| && Last(Idle, if ok then Ok else Refused)
      ensures reliable ==> ok
    {
      Interfere(Idle);
      ok := *;
      ok := ok || reliable;
      status := world.status;
      Commit(world, Idle, Call(if ok then Ok else Refused), if ok then Got(status) else Idle);
    }

    /** The last step of the run was a call of a process at `p`. */
    ghost predicate Last(p: Proc, o: Outcome)
      reads this
    {
      |states| >= 2 && |events| == |states| - 1 && states[|states| - 2].proc == p && events[|events| - 1] == Call(o)
    }

    method List(ghost seen: Status) returns (ok: bool, items: seq<Item>, ghost kids: Children)
      requires At(Got(seen))
      modifies this
      ensures At(if ok then Listed(seen, kids) else Idle) && Extends(old(states), old(faults), old(world.clock))
      ensures Lists(items, kids)
      ensures !ok ==> Last(Got(seen), Refused)
      ensures reliable ==> ok
    {
      Interfere(Got(seen));
      ok := *;
      ok := ok || reliable;
      kids := world.children;
      items := AnyOrder(world.children);
      Commit(world, Got(seen), Call(if ok then Ok else Refused), if ok then Listed(seen, kids) else Idle);
    }

    method Now(ghost p: Proc) returns (now: Time)
      requires At(p)
      modifies this
      ensures At(p) && Extends(old(states), old(faults), old(world.clock)) && now == world.clock && Int64(now)
    {
      Interfere(p);
      now := world.clock;
    }

    /** A status patch: the difference between `base` and `modified`, applied to the server's
        status. The response replaces the caller's copy. */
    method PatchStatus(base: Status, modified: Status, ghost p: Proc)
      returns (ok: bool, response: Status, ghost o: Outcome, ghost before: World)
      requires At(p)
      modifies this
      ensures Ran(before, p) && Extends(old(states), old(faults), old(world.clock)) && Int64(world.clock)
      ensures world == if o == Refused then before else Patched(before, base, modified)
      ensures ok <==> o == Ok
      ensures response == if ok then world.status else modified
      ensures reliable ==> ok
    {
      Interfere(p);
      before := world;
      o := Refused;
      ok, response := false, modified;
      var applied, lost := *, *;
      if applied || reliable {
        world := Patched(world, base, modified);
        o := Lost;
        if !lost || reliable { ok, response, o := true, world.status, Ok; }
      }
    }

    method Create(name: string, now: Time, ghost p: Proc)
      returns (ok: bool, ref: Ref, ghost o: Outcome, ghost before: World)
      requires At(p) && Int64(now) && now <= world.clock && name == ChildName(cfg.name, now)
      modifies this
      ensures Ran(before, p) && Extends(old(states), old(faults), old(world.clock)) && Int64(world.clock)
      ensures if o == Refused then world == before else cfg.accepts(name) && Created(before, name, now, world)
      ensures ok <==> o == Ok
      ensures ref == Ref(name, |before.starts|)
      ensures reliable && !ok ==> o == Refused && (name in before.children || !cfg.accepts(name))
    {
      Interfere(p);
      before := world;
      o := Refused;
      ok, ref := false, Ref(name, |world.starts|);
      var applied, lost, created: Time := *, *, *;
      if !(now <= created <= world.clock) { created := world.clock; }
      if (applied || reliable) && name !in world.children && cfg.accepts(name) {
        world := world.(children := world.children[name := Child(|world.starts|, Unset, created)],
                        starts := world.starts + [Start(name, now, created, false)]);
        assert Created(before, name, now, world);
        o := Lost;
        if !lost || reliable { ok, o := true, Ok; }
      }
    }

    /** A delete call; a missing object counts as deleted. */
    method Delete(name: string, ghost p: Proc) returns (ok: bool, ghost before: World)
      requires At(p)
      modifies this
      ensures Ran(before, p) && Extends(old(states), old(faults), old(world.clock)) && Int64(world.clock)
      ensures world == before || world == before.(children := before.children - {name})
      ensures ok ==> world == before.(children := before.children - {name})
      ensures reliable ==> ok
    {
      Interfere(p);
      before := world;
      ok := *;
      ok := ok || reliable;
      var lost := *;
      if ok || lost { world := world.(children := world.children - {name}); }
    }
  }

  /** The children as a list, in some order. */
  ghost predicate Lists(items: seq<Item>, kids: Children) {
    && (forall i, j :: 0 <= i < j < |items| ==> items[i].name != items[j].name)
    && (forall i :: 0 <= i < |items| ==> items[i].name in kids && kids[items[i].name] == items[i].child)
    && (forall n :: n in kids ==> Item(n, kids[n]) in items)
  }

  method AnyOrder(kids: Children) returns (items: seq<Item>)
    ensures Lists(items, kids)
  {
    items := [];
    var rest := kids.Keys;
    while rest != {}
      invariant rest <= kids.Keys
      invariant forall i, j :: 0 <= i < j < |items| ==> items[i].name != items[j].name
      invariant forall i :: 0 <= i < |items| ==>
        items[i].name in kids && items[i].name !in rest && kids[items[i].name] == items[i].child
      invariant forall n :: n in kids && n !in rest ==> Item(n, kids[n]) in items
      decreases rest
    {
      var n :| n in rest;
      items := items + [Item(n, kids[n])];
      rest := rest - {n};
    }
  }

  // ---------------------------------------------------------------- the parent object

  /** The reconcile's copy of the parent, which it edits in place. */
  class ScheduledScan {
    var active: Option<Ref>
    var lastSchedule: Option<Time>
    var lastCompletion: Option<Time>

    constructor (status: Status)
      ensures Value() == status
    {
      new;
      Assign(status);
    }

    function Value(): Status
      reads this
    {
      Status(active, lastSchedule, lastCompletion)
    }

    method Assign(status: Status)
      modifies this
      ensures Value() == status
    {
      active, lastSchedule, lastCompletion := status.active, status.lastSchedule, status.lastCompletion;
    }

    method DeepCopy() returns (copy: ScheduledScan)
      ensures fresh(copy) && copy.Value() == Value()
    {
      copy := new ScheduledScan(Value());
    }
  }

  /** Names `ref` as the active scan, locally and on the server. */
  method SetActiveScan(c: Cluster, scan: ScheduledScan, ref: Ref, scheduled: Time, ghost p: Proc)
    returns (ok: bool, ghost o: Outcome, ghost before: World)
    requires c.At(p)
    modifies c, scan
    ensures c.Ran(before, p) && c.Extends(old(c.states), old(c.faults), old(c.world.clock)) && Int64(c.world.clock)
    ensures c.world == if o == Refused then before
                       else Patched(before, old(scan.Value()), Activated(old(scan.Value()), ref, scheduled))
    ensures ok <==> o == Ok
    ensures ok ==> scan.Value() == c.world.status
    ensures c.reliable ==> ok
  {
    var base := scan.DeepCopy();
    scan.active := Some(ref);
    scan.lastSchedule := Some(scheduled);
    var response;
    ok, response, o, before := c.PatchStatus(base.Value(), scan.Value(), p);
    scan.Assign(response);
  }

  // ---------------------------------------------------------------- history clean-up

  function OfPhase(items: seq<Item>, phase: Phase): seq<Item> {
    if items == [] then []
    else
      var last := items[|items| - 1];
      OfPhase(items[..|items| - 1], phase) + if last.child.phase == phase then [last] else []
  }

  lemma {:induction false} OfPhaseSelects(items: seq<Item>, phase: Phase)
    requires forall i, j :: 0 <= i < j < |items| ==> items[i].name != items[j].name
    ensures var part := OfPhase(items, phase);
            && (forall i, j :: 0 <= i < j < |part| ==> part[i].name != part[j].name)
            && (forall x :: x in part <==> x in items && x.child.phase == phase)
  {
    if items != [] {
      OfPhaseSelects(items[..|items| - 1], phase);
      assert forall x :: x in items <==> x in items[..|items| - 1] || x == items[|items| - 1];
      var part := OfPhase(items[..|items| - 1], phase);
      assert forall i :: 0 <= i < |part| ==> part[i] in items[..|items| - 1];
    }
  }

  ghost predicate SortedByCreation(items: seq<Item>) {
    forall i, j :: 0 <= i < j < |items| ==> items[i].child.created <= items[j].child.created
  }

  function Refs(items: seq<Item>): (refs: seq<Ref>)
    ensures |refs| == |items|
    ensures forall i :: 0 <= i < |refs| ==> refs[i] == Ref(items[i].name, items[i].child.uid)
  {
    seq(|items|, i requires 0 <= i < |items| => Ref(items[i].name, items[i].child.uid))
  }

  method Swap(scans: array<Item>, j: nat)
    requires 0 < j < scans.Length
    modifies scans
    ensures scans[..] == old(scans[..])[j - 1 := old(scans[j])][j := old(scans[j - 1])]
    ensures multiset(scans[..]) == multiset(old(scans[..]))
  {
    scans[j - 1], scans[j] := scans[j], scans[j - 1];
  }

  /** Moves the last element of a prefix, the rest of which is sorted, to its place. */
  method InsertLast(scans: array<Item>, i: nat)
    requires i < scans.Length && SortedByCreation(scans[..i])
    modifies scans
    ensures SortedByCreation(scans[..i + 1])
    ensures multiset(scans[..]) == multiset(old(scans[..]))
  {
    var j := i;
    while 0 < j && scans[j - 1].child.created > scans[j].child.created
      invariant 0 <= j <= i
      invariant SortedButFor(scans[..], i, j)
      invariant multiset(scans[..]) == multiset(old(scans[..]))
    {
      ghost var before := scans[..];
      Swap(scans, j);
      assert SortedButFor(before, i, j);
      j := j - 1;
    }
  }

  /** The elements up to `i` are in order, except that the one at `j` may belong further left. */
  ghost predicate SortedButFor(items: seq<Item>, i: nat, j: nat) {
    && i < |items|
    && forall a, b :: 0 <= a < b <= i && b != j ==> items[a].child.created <= items[b].child.created
  }

  /** Sorts in place, oldest first. */
  method SortByCreationTimestamp(scans: array<Item>)
    modifies scans
    ensures SortedByCreation(scans[..])
    ensures multiset(scans[..]) == multiset(old(scans[..]))
  {
    var i := 0;
    while i < scans.Length
      invariant 0 <= i <= scans.Length
      invariant SortedByCreation(scans[..i])
      invariant multiset(scans[..]) == multiset(old(scans[..]))
    {
      InsertLast(scans, i);
      i := i + 1;
    }
    assert scans[..scans.Length] == scans[..];
  }

  lemma NoDuplicates(items: seq<Item>)
    requires forall i, j :: 0 <= i < j < |items| ==> items[i].name != items[j].name
    ensures forall x :: multiset(items)[x] <= 1
  {
    if items != [] {
      NoDuplicates(items[1..]);
      assert items == [items[0]] + items[1..];
    }
  }

  lemma Duplicate(items: seq<Item>, i: nat, j: nat)
    requires i < j < |items| && items[i] == items[j]
    ensures multiset(items)[items[i]] >= 2
  {
    assert items == items[..j] + [items[j]] + items[j + 1..];
    assert items[i] in items[..j];
  }

  lemma PermutationKeepsItems(a: seq<Item>, b: seq<Item>)
    requires multiset(a) == multiset(b)
    requires forall i, j :: 0 <= i < j < |a| ==> a[i].name != a[j].name
    ensures forall x :: x in b <==> x in a
    ensures forall i, j :: 0 <= i < j < |b| ==> b[i].name != b[j].name
  {
    NoDuplicates(a);
    forall x ensures x in b <==> x in a {
      assert x in b <==> x in multiset(b);
      assert x in a <==> x in multiset(a);
    }
    forall i, j | 0 <= i < j < |b| ensures b[i].name != b[j].name {
      if b[i].name == b[j].name {
        assert b[i] in a && b[j] in a;
        Duplicate(b, i, j);
        assert false;
      }
    }
  }

  /** A sorted list of the children of one phase is a creation order of them. */
  lemma SortedIsCreationOrder(kids: Children, phase: Phase, items: seq<Item>, sorted: seq<Item>)
    requires Lists(items, kids)
    requires multiset(sorted) == multiset(OfPhase(items, phase)) && SortedByCreation(sorted)
    ensures CreationOrder(kids, phase, Refs(sorted))
  {
    OfPhaseSelects(items, phase);
    PermutationKeepsItems(OfPhase(items, phase), sorted);
    forall i | 0 <= i < |sorted|
      ensures sorted[i].name in kids && kids[sorted[i].name] == sorted[i].child && sorted[i].child.phase == phase
    {
      assert sorted[i] in items;
    }
    var order := Refs(sorted);
    forall n | n in kids && kids[n].phase == phase ensures Ref(n, kids[n].uid) in order {
      assert Item(n, kids[n]) in sorted;
      var i :| 0 <= i < |sorted| && sorted[i] == Item(n, kids[n]);
      assert order[i] == Ref(n, kids[n].uid);
    }
  }

  /** Deletes the oldest scans of one phase beyond the history limit. */
  method CleanUpOldScans(c: Cluster, scans: array<Item>, limit: nat, ghost p: Proc, ghost items: seq<Item>)
    requires p.Sorting? && Terminal(p.phase) && c.At(p) && limit == Limit(c.cfg, p.phase)
    requires Lists(items, p.kids) && scans[..] == OfPhase(items, p.phase)
    modifies c, scans
    ensures c.At(Deleting(p.seen, p.kids, p.now, p.phase, []))
    ensures c.Extends(old(c.states), old(c.faults), old(c.world.clock))
    ensures multiset(scans[..]) == multiset(old(scans[..])) && SortedByCreation(scans[..])
  {
    SortByCreationTimestamp(scans);
    label Sorted:
    var excess := scans.Length - limit;
    ghost var todo := Refs(scans[..])[..Max(excess, 0)];
    Plan(c, p, items, scans[..], todo);
    var i := 0;
    while i < excess
      invariant 0 <= i <= Max(excess, 0) <= scans.Length
      invariant scans[..] == old@Sorted(scans[..])
      invariant c.At(Deleting(p.seen, p.kids, p.now, p.phase, todo[i..]))
      invariant c.Extends(old(c.states), old(c.faults), old(c.world.clock))
    {
      assert todo[i..][0] == todo[i] && todo[i].name == scans[i].name;
      assert todo[i..][1..] == todo[i + 1..];
      DeleteScan(c, scans[i].name, Deleting(p.seen, p.kids, p.now, p.phase, todo[i..]));
      i := i + 1;
    }
    assert todo[i..] == [];
  }

  ghost method Plan(c: Cluster, p: Proc, items: seq<Item>, sorted: seq<Item>, todo: seq<Ref>)
    requires p.Sorting? && Terminal(p.phase) && c.At(p) && Lists(items, p.kids)
    requires multiset(sorted) == multiset(OfPhase(items, p.phase)) && SortedByCreation(sorted)
    requires todo == Refs(sorted)[..Max(|sorted| - Limit(c.cfg, p.phase), 0)]
    modifies c`states, c`events, c`faults
    ensures c.At(Deleting(p.seen, p.kids, p.now, p.phase, todo))
    ensures c.Extends(old(c.states), old(c.faults), old(c.world.clock))
  {
    SortedIsCreationOrder(p.kids, p.phase, items, sorted);
    assert Excess(p.kids, p.phase, Limit(c.cfg, p.phase), todo);
    c.Commit(c.world, p, Call(Ok), Deleting(p.seen, p.kids, p.now, p.phase, todo));
  }

  /** One deletion; an error is logged and otherwise ignored. */
  method DeleteScan(c: Cluster, name: string, ghost p: Proc)
    requires p.Deleting? && p.todo != [] && p.todo[0].name == name && c.At(p)
    modifies c
    ensures c.At(p.(todo := p.todo[1..])) && c.Extends(old(c.states), old(c.faults), old(c.world.clock))
  {
    var ok; ghost var before;
    ok, before := c.Delete(name, p);
    c.Commit(before, p, Call(if ok then Ok else if c.world == before then Refused else Lost), p.(todo := p.todo[1..]));
  }

  // ---------------------------------------------------------------- reconcile

  /** What a reconcile returns, given the last step of its run. */
  ghost function Returned(cfg: Config, p: Proc, o: Outcome): Result {
    if o != Ok then Error
    else match p
      case Listed(_, kids) => if NoneActive(kids) then Stop else RequeueIn(ONE_MINUTE)
      case Recovering(_, _, _) => RequeueIn(ONE_MINUTE)
      case Deleting(seen, _, now, _, _) =>
        if cfg.schedule.Some? then RequeueIn(RequeueAfter(cfg.schedule.value, seen, now)) else Stop
      case _ => Stop
  }

  function LastActive(items: seq<Item>): (r: Option<Item>)
    ensures r.None? ==> forall x :: x in items ==> Terminal(x.child.phase)
    ensures r.Some? ==> r.value in items && !Terminal(r.value.child.phase)
  {
    if items == [] then None
    else
      var init, last := items[..|items| - 1], items[|items| - 1];
      assert forall x :: x in items <==> x in init || x == last;
      if Terminal(last.child.phase) then LastActive(init) else Some(last)
  }

  /** A reconcile that lists an unfinished child, at event `i`, ends with this call or with the
      next one, and asks for another one after 60 seconds unless that call fails. */
  lemma AsksAgainInAMinute(cfg: Config, states: seq<State>, events: seq<Event>, i: nat, j: nat)
    requires Run(cfg, states, events) && i <= j < |events| && events[i] == Call(Ok) && events[j].Call?
    requires states[i].proc.Listed? && !NoneActive(states[i].proc.kids)
    requires (i < j ==> states[i + 1].proc != Idle) && forall k :: i < k < j ==> events[k] == Env
    requires states[j + 1].proc == Idle
    ensures Returned(cfg, states[j].proc, events[j].outcome) == if events[j].outcome == Ok then RequeueIn(60) else Error
  {
    assert StepAt(cfg, states, events, i);
    if i < j { EnvKeepsProc(cfg, states, events, i + 1, j); }
  }

  /** A reconcile that reaches its end asks for the next one at the fire time after the last
      schedule time. */
  lemma AsksForTheFireTime(cfg: Config, states: seq<State>, events: seq<Event>, i: nat)
    requires Run(cfg, states, events) && i < |states| && AtEnd(states[i].proc)
    ensures cfg.schedule.Some? && states[i].world.status.lastSchedule.Some?
    ensures var next, now, last := cfg.schedule.value, states[i].proc.now, states[i].world.status.lastSchedule.value;
            Returned(cfg, states[i].proc, Ok) == RequeueIn(if now < next(now) then next(last) - now else 0)
  {
    WakesUpAtNextFireTime(cfg, states, events, i);
  }

  /** Without a schedule that parses, a reconcile that finds no unfinished child asks for nothing. */
  lemma StopsWithoutSchedule(cfg: Config, s: State, s': State)
    requires CallStep(cfg, s, Ok, s') && s'.proc == Idle && cfg.schedule.None?
    requires (s.proc.Listed? || s.proc.Clearing?) && NoneActive(s.proc.kids)
    ensures Returned(cfg, s.proc, Ok) == Stop
  {
  }

  /** The lists of finished children and the last unfinished one, if any. */
  method Categorize(items: seq<Item>, ghost kids: Children)
    returns (successful: seq<Item>, failed: seq<Item>, active: Option<Item>)
    requires Lists(items, kids)
    ensures successful == OfPhase(items, Completed) && failed == OfPhase(items, Failed)
    ensures active == LastActive(items)
    ensures active.None? <==> NoneActive(kids)
    ensures active.Some? ==> active.value in items && IsActive(kids, active.value.name)
  {
    successful, failed, active := [], [], None;
    var i := 0;
    while i < |items|
      invariant 0 <= i <= |items|
      invariant successful == OfPhase(items[..i], Completed) && failed == OfPhase(items[..i], Failed)
      invariant active == LastActive(items[..i])
    {
      assert items[..i + 1][..i] == items[..i];
      match items[i].child.phase {
        case Completed => successful := successful + [items[i]];
        case Failed => failed := failed + [items[i]];
        case _ => active := Some(items[i]);
      }
      i := i + 1;
    }
    assert items[..i] == items;
    if active.None? {
      forall n | n in kids ensures Terminal(kids[n].phase) {
        assert Item(n, kids[n]) in items;
      }
    }
  }

  /** A reconcile has come to its end and returned `r`. In a reliable cluster it has met no fault,
      unless the name of the child that was due is taken or not accepted. */
  ghost predicate Completes(c: Cluster, before: seq<State>, earlier: nat, r: Result)
    reads c
  {
    && c.At(Idle) && before < c.states && |c.events| == |c.states| - 1 && c.events != []
    && var e, s := c.events[|c.events| - 1], c.states[|c.states| - 2];
    && e.Call? && r == Returned(c.cfg, s.proc, e.outcome)
    && (c.reliable && r != Error ==> c.faults == earlier)
    && (c.reliable && r == Error ==> CannotStart(c.cfg, s))
  }

  lemma CompletesFrom(c: Cluster, first: seq<State>, earliest: nat, before: seq<State>, earlier: nat, r: Result)
    requires Completes(c, before, earlier, r) && first <= before && (c.reliable ==> earlier == earliest)
    ensures Completes(c, first, earliest, r)
  {
  }

  ghost predicate CannotStart(cfg: Config, s: State) {
    && s.proc.Creating? && Int64(s.proc.now)
    && var name := ChildName(cfg.name, s.proc.now); name in s.world.children || !cfg.accepts(name)
  }

  /** One reconcile of the parent. It extends the run of the cluster and returns what the last
      step of that run calls for. */
  method Reconcile(c: Cluster) returns (r: Result)
    requires c.At(Idle)
    modifies c
    ensures Completes(c, old(c.states), old(c.faults), r)
  {
    var ok, status := c.Get();
    if !ok { return Error; }
    var scan := new ScheduledScan(status);

    var items; ghost var kids;
    ok, items, kids := c.List(status);
    if !ok { return Error; }
    r := Act(c, scan, items, kids);
  }

  /** A reconcile after its two reads. */
  method Act(c: Cluster, scan: ScheduledScan, items: seq<Item>, ghost kids: Children) returns (r: Result)
    requires c.At(Listed(scan.Value(), kids)) && Lists(items, kids)
    modifies c, scan
    ensures Completes(c, old(c.states), old(c.faults), r)
  {
    var successful, failed, active := Categorize(items, kids);
    var now := c.Now(Listed(scan.Value(), kids));
    if scan.active.Some? && active.None? {
      var ok := ClearActiveScan(c, scan, kids, now);
      if !ok { return Error; }
    } else if active.Some? && scan.active.None? {
      r := RecoverActiveScan(c, scan, kids, active.value);
      return;
    } else {
      Proceed(c, scan, kids, now, active.Some?);
      if active.Some? { return RequeueIn(ONE_MINUTE); }
    }
    if c.cfg.schedule.None? { return Stop; }
    r := FollowSchedule(c, scan, items, kids, successful, failed, now);
  }

  /** The recorded state of affairs is what the list shows. */
  ghost method Proceed(c: Cluster, scan: ScheduledScan, kids: Children, now: Time, active: bool)
    requires c.At(Listed(scan.Value(), kids)) && now == c.world.clock
    requires active <==> !NoneActive(kids)
    requires active <==> scan.Value().active.Some?
    modifies c`states, c`events, c`faults
    ensures active ==> Completes(c, old(c.states), old(c.faults), RequeueIn(ONE_MINUTE))
    ensures !active ==> c.At(Decided(c.cfg, scan.Value(), kids, now))
    ensures !active ==> c.Extends(old(c.states), old(c.faults), old(c.world.clock))
    ensures !active && c.cfg.schedule.None? ==> Completes(c, old(c.states), old(c.faults), Stop)
  {
    var p := Listed(scan.Value(), kids);
    c.Commit(c.world, p, Call(Ok), if active then Idle else Decided(c.cfg, scan.Value(), kids, now));
  }

  /** The active scan is over. */
  method ClearActiveScan(c: Cluster, scan: ScheduledScan, ghost kids: Children, now: Time) returns (ok: bool)
    requires scan.Value().active.Some? && NoneActive(kids) && c.At(Listed(scan.Value(), kids)) && now == c.world.clock
    modifies c, scan
    ensures c.Extends(old(c.states), old(c.faults), old(c.world.clock))
    ensures ok ==> c.At(Decided(c.cfg, scan.Value(), kids, now)) && Int64(now)
    ensures ok && c.cfg.schedule.None? ==> Completes(c, old(c.states), old(c.faults), Stop)
    ensures !ok ==> Completes(c, old(c.states), old(c.faults), Error)
  {
    ghost var p := Clearing(scan.Value(), kids, now);
    c.Commit(c.world, Listed(scan.Value(), kids), Call(Ok), p);
    var base := scan.DeepCopy();
    scan.active := None;
    scan.lastCompletion := Some(now);
    var response; ghost var o, before;
    ok, response, o, before := c.PatchStatus(base.Value(), scan.Value(), p);
    scan.Assign(response);
    c.Commit(before, p, Call(o), if ok then Decided(c.cfg, scan.Value(), kids, now) else Idle);
  }

  /** A scan was created although its status patch failed. */
  method RecoverActiveScan(c: Cluster, scan: ScheduledScan, ghost kids: Children, child: Item) returns (r: Result)
    requires scan.Value().active.None? && c.At(Listed(scan.Value(), kids))
    requires IsActive(kids, child.name) && kids[child.name] == child.child
    modifies c, scan
    ensures Completes(c, old(c.states), old(c.faults), r)
  {
    var ref := Ref(child.name, child.child.uid);
    ghost var p := Recovering(scan.Value(), ref, child.child.created);
    c.Commit(c.world, Listed(scan.Value(), kids), Call(Ok), p);
    var ok; ghost var o, before;
    ok, o, before := SetActiveScan(c, scan, ref, child.child.created, p);
    c.Commit(before, p, Call(o), Idle);
    return if ok then RequeueIn(ONE_MINUTE) else Error;
  }

  /** No scan is active: start one if it is due, clean up, and wait for the next fire time. */
  method FollowSchedule(c: Cluster, scan: ScheduledScan, items: seq<Item>, ghost kids: Children,
                        successful: seq<Item>, failed: seq<Item>, now: Time)
    returns (r: Result)
    requires c.At(Decided(c.cfg, scan.Value(), kids, now)) && Int64(now) && now <= c.world.clock && c.cfg.schedule.Some?
    requires Lists(items, kids)
    requires successful == OfPhase(items, Completed) && failed == OfPhase(items, Failed)
    modifies c, scan
    ensures Completes(c, old(c.states), old(c.faults), r)
  {
    var next := c.cfg.schedule.value;
    var shouldCreate := false;
    if scan.lastSchedule.None? {
      shouldCreate := true;
    } else {
      var nextSchedule := next(scan.lastSchedule.value);
      if !(now < nextSchedule) { shouldCreate := true; }
    }
    if shouldCreate {
      r := StartScan(c, scan, kids, now);
      if r == Error { return; }
    }
    CleanUp(c, items, successful, failed, Sorting(scan.Value(), kids, now, Completed));
    r := Finish(c, scan, kids, now);
  }

  /** Asks for the next reconcile at the next fire time. */
  method Finish(c: Cluster, scan: ScheduledScan, ghost kids: Children, now: Time) returns (r: Result)
    requires c.At(Deleting(scan.Value(), kids, now, Failed, [])) && c.cfg.schedule.Some?
    modifies c
    ensures Completes(c, old(c.states), old(c.faults), r)
  {
    var referenceTime := if scan.lastSchedule.Some? then scan.lastSchedule.value else now;
    var nextRun := (c.cfg.schedule.value)(referenceTime);
    var requeueAfter := Max(nextRun - now, 0);
    c.Commit(c.world, Deleting(scan.Value(), kids, now, Failed, []), Call(Ok), Idle);
    return RequeueIn(requeueAfter);
  }

  /** The step of a Create. */
  ghost method CommitCreate(c: Cluster, before: World, p: Proc, name: string, ref: Ref, o: Outcome)
    requires c.Ran(before, p) && p.Creating? && Int64(p.now) && Int64(c.world.clock)
    requires name == ChildName(c.cfg.name, p.now) && ref == Ref(name, |before.starts|)
    requires if o == Refused then c.world == before else c.cfg.accepts(name) && Created(before, name, p.now, c.world)
    requires c.reliable && o != Ok ==> CannotStart(c.cfg, State(before, p))
    modifies c`states, c`events, c`faults
    ensures o == Ok ==> c.At(Recording(p.seen, p.kids, p.now, ref))
    ensures o == Ok ==> c.Extends(old(c.states), old(c.faults), c.world.clock)
    ensures o != Ok ==> Completes(c, old(c.states), old(c.faults), Error)
  {
    c.Commit(before, p, Call(o), if o == Ok then Recording(p.seen, p.kids, p.now, ref) else Idle);
  }

  /** Creates a child for this time. */
  method DeployComplianceScan(c: Cluster, ghost p: Proc, now: Time) returns (ok: bool, ref: Ref)
    requires p.Creating? && p.now == now && c.At(p) && Int64(now) && now <= c.world.clock
    modifies c
    ensures ok ==> c.At(Recording(p.seen, p.kids, now, ref))
    ensures ok ==> c.Extends(old(c.states), old(c.faults), old(c.world.clock))
    ensures !ok ==> Completes(c, old(c.states), old(c.faults), Error)
  {
    var name := ChildName(c.cfg.name, now);
    ghost var o, before;
    ok, ref, o, before := c.Create(name, now, p);
    ghost var states, faults := c.states, c.faults;
    CommitCreate(c, before, p, name, ref, o);
    if !ok { CompletesFrom(c, old(c.states), old(c.faults), states, faults, Error); }
  }

  /** Creates a child that is due and names it as the active scan. */
  method StartScan(c: Cluster, scan: ScheduledScan, ghost kids: Children, now: Time) returns (r: Result)
    requires c.At(Creating(scan.Value(), kids, now)) && Int64(now) && now <= c.world.clock
    modifies c, scan
    ensures r == Error || r == Stop
    ensures r == Error ==> Completes(c, old(c.states), old(c.faults), r)
    ensures r == Stop ==> c.At(Sorting(scan.Value(), kids, now, Completed))
    ensures r == Stop ==> c.Extends(old(c.states), old(c.faults), old(c.world.clock))
  {
    var ok, ref := DeployComplianceScan(c, Creating(scan.Value(), kids, now), now);
    if !ok { return Error; }
    r := RecordScan(c, scan, kids, now, ref);
  }

  /** Names a child that was just created as the active scan. */
  method RecordScan(c: Cluster, scan: ScheduledScan, ghost kids: Children, now: Time, ref: Ref) returns (r: Result)
    requires c.At(Recording(scan.Value(), kids, now, ref))
    modifies c, scan
    ensures r == Error || r == Stop
    ensures r == Error ==> Completes(c, old(c.states), old(c.faults), r)
    ensures r == Stop ==> c.At(Sorting(scan.Value(), kids, now, Completed))
    ensures r == Stop ==> c.Extends(old(c.states), old(c.faults), old(c.world.clock))
  {
    ghost var p := Recording(scan.Value(), kids, now, ref);
    var ok; ghost var o, before;
    ok, o, before := SetActiveScan(c, scan, ref, now, p);
    c.Commit(before, p, Call(o), if ok then Sorting(scan.Value(), kids, now, Completed) else Idle);
    return if ok then Stop else Error;
  }

  method ToArray(items: seq<Item>) returns (a: array<Item>)
    ensures fresh(a) && a[..] == items
  {
    a := new Item[|items|](i requires 0 <= i < |items| => items[i]);
  }

  /** Cleans up the successful and then the failed scans. */
  method CleanUp(c: Cluster, items: seq<Item>, successful: seq<Item>, failed: seq<Item>, ghost p: Proc)
    requires p.Sorting? && p.phase == Completed && c.At(p) && Lists(items, p.kids)
    requires successful == OfPhase(items, Completed) && failed == OfPhase(items, Failed)
    modifies c
    ensures c.At(Deleting(p.seen, p.kids, p.now, Failed, []))
    ensures c.Extends(old(c.states), old(c.faults), old(c.world.clock))
  {
    var scans := ToArray(successful);
    CleanUpOldScans(c, scans, c.cfg.successLimit, p, items);
    ghost var q := Sorting(p.seen, p.kids, p.now, Failed);
    c.Commit(c.world, Deleting(p.seen, p.kids, p.now, Completed, []), Call(Ok), q);
    scans := ToArray(failed);
    CleanUpOldScans(c, scans, c.cfg.failureLimit, q, items);
  }
}
