/** Which child a clean-up call deletes. It deletes by name, so that it matters whether the name
    still belongs to the child that was listed. */
module SchedulingCleanUp {
  import opened Prelude
  import opened Phases
  import opened ChildNames
  import opened SchedulingProtocol
  import opened SchedulingInvariant
  import opened SchedulingResults

  // ---------------------------------------------------------------- the children that were not listed

  ghost predicate WasListed(w: World, kids: Children, n: string)
    requires n in w.children
  {
    n in kids && kids[n].uid == w.children[n].uid
  }

  /** All children were listed, except perhaps the one that `ref` names. */
  ghost predicate ListedBut(w: World, kids: Children, ref: Option<Ref>) {
    forall n :: n in w.children ==> WasListed(w, kids, n) || ref == Some(Ref(n, w.children[n].uid))
  }

  /** `todo` is what is left of the plan for `order`, after `m` of its deletions. */
  ghost predicate IsRest(kids: Children, phase: Phase, limit: nat, todo: seq<Ref>, order: seq<Ref>, m: nat) {
    && CreationOrder(kids, phase, order)
    && m <= Max(|order| - limit, 0) && todo == order[m..Max(|order| - limit, 0)]
  }

  ghost predicate FromPlan(kids: Children, phase: Phase, limit: nat, todo: seq<Ref>) {
    exists order, m: nat :: IsRest(kids, phase, limit, todo, order, m)
  }

  ghost predicate Accounted(cfg: Config, w: World, p: Proc) {
    match p
    case Recording(_, kids, _, ref) => ListedBut(w, kids, Some(ref))
    case Sorting(_, kids, _, _) => ListedBut(w, kids, w.status.active)
    case Deleting(_, kids, _, phase, todo) =>
      ListedBut(w, kids, w.status.active) && FromPlan(kids, phase, Limit(cfg, phase), todo)
    case _ => true
  }

  lemma AgedKeepsListed(w: World, w': World, kids: Children, ref: Option<Ref>)
    requires Aged(w, w') && ListedBut(w, kids, ref)
    ensures ListedBut(w', kids, ref)
  {
    forall n | n in w'.children ensures WasListed(w', kids, n) || ref == Some(Ref(n, w'.children[n].uid)) {
      assert WasListed(w, kids, n) || ref == Some(Ref(n, w.children[n].uid));
    }
  }

  lemma DecidingAccounts(cfg: Config, s: State, s': State)
    requires ProcInv(cfg, s.world, s.proc) && CallStep(cfg, s, Ok, s')
    requires (s.proc.Listed? || s.proc.Clearing?) && s'.proc.Sorting?
    ensures Accounted(cfg, s'.world, s'.proc)
  {
    assert Covers(s.world, s.proc.kids);
  }

  lemma StartingAccounts(cfg: Config, s: State, s': State)
    requires ProcInv(cfg, s.world, s.proc) && Accounted(cfg, s.world, s.proc) && CallStep(cfg, s, Ok, s')
    requires s.proc.Creating? || s.proc.Recording?
    ensures Accounted(cfg, s'.world, s'.proc)
  {
    if s.proc.Creating? { assert Covers(s.world, s.proc.kids); }
  }

  lemma PlanningAccounts(cfg: Config, s: State, s': State)
    requires Accounted(cfg, s.world, s.proc) && CallStep(cfg, s, Ok, s') && s.proc.Sorting?
    ensures Accounted(cfg, s'.world, s'.proc)
  {
    var kids, phase, limit := s.proc.kids, s.proc.phase, Limit(cfg, s.proc.phase);
    var order :| CreationOrder(kids, phase, order) && s'.proc.todo == order[..Max(|order| - limit, 0)];
    assert IsRest(kids, phase, limit, s'.proc.todo, order, 0);
  }

  lemma RestOfPlan(kids: Children, phase: Phase, limit: nat, todo: seq<Ref>)
    requires FromPlan(kids, phase, limit, todo) && todo != []
    ensures FromPlan(kids, phase, limit, todo[1..])
  {
    var order, m: nat :| IsRest(kids, phase, limit, todo, order, m);
    assert IsRest(kids, phase, limit, todo[1..], order, m + 1);
  }

  lemma DeletingAccounts(cfg: Config, s: State, o: Outcome, s': State)
    requires Accounted(cfg, s.world, s.proc) && CallStep(cfg, s, o, s') && s.proc.Deleting?
    ensures Accounted(cfg, s'.world, s'.proc)
  {
    if s.proc.todo != [] {
      DeletingAges(cfg, s, o, s');
      AgedKeepsListed(s.world, s'.world, s.proc.kids, s.world.status.active);
      RestOfPlan(s.proc.kids, s.proc.phase, Limit(cfg, s.proc.phase), s.proc.todo);
    }
  }

  lemma EnvAccounts(cfg: Config, s: State, s': State)
    requires Accounted(cfg, s.world, s.proc) && Step(cfg, s, Env, s')
    ensures Accounted(cfg, s'.world, s'.proc)
  {
    EnvAges(cfg, s.world, s'.world);
    if s.proc.Recording? {
      AgedKeepsListed(s.world, s'.world, s.proc.kids, Some(s.proc.ref));
    } else if s.proc.Sorting? || s.proc.Deleting? {
      AgedKeepsListed(s.world, s'.world, s.proc.kids, s.world.status.active);
    }
  }

  lemma StepAccounts(cfg: Config, s: State, e: Event, s': State)
    requires ProcInv(cfg, s.world, s.proc) && Accounted(cfg, s.world, s.proc) && Step(cfg, s, e, s')
    ensures Accounted(cfg, s'.world, s'.proc)
  {
    if e.Env? {
      EnvAccounts(cfg, s, s');
    } else if e.Call? {
      if s.proc.Deleting? {
        DeletingAccounts(cfg, s, e.outcome, s');
      } else if s'.proc.Recording? || (s.proc.Recording? && s'.proc.Sorting?) {
        StartingAccounts(cfg, s, s');
      } else if s.proc.Sorting? {
        PlanningAccounts(cfg, s, s');
      } else if s'.proc.Sorting? {
        DecidingAccounts(cfg, s, s');
      }
    }
  }

  lemma {:induction false} RunAccounts(cfg: Config, states: seq<State>, events: seq<Event>, i: nat)
    requires Run(cfg, states, events) && i < |states|
    ensures Accounted(cfg, states[i].world, states[i].proc)
  {
    if i > 0 {
      RunAccounts(cfg, states, events, i - 1);
      RunKeepsInv(cfg, states, events, i - 1);
      assert StepAt(cfg, states, events, i - 1);
      StepAccounts(cfg, states[i - 1], events[i - 1], states[i]);
    }
  }

  // ---------------------------------------------------------------- when it is the active child

  /** The next event is a clean-up call that deletes `n`. */
  ghost predicate Deletes(states: seq<State>, events: seq<Event>, i: nat, n: string) {
    && i < |events| && i < |states| && events[i].Call? && events[i].outcome != Refused
    && states[i].proc.Deleting? && states[i].proc.todo != [] && states[i].proc.todo[0].name == n
    && n in states[i].world.children
  }

  ghost predicate IsNamedActive(w: World, n: string)
    requires n in w.children
  {
    w.status.active == Some(Ref(n, w.children[n].uid))
  }

  /** A clean-up call deletes the child that the server names as active exactly if the child no
      longer has the unique identifier that was listed: a precondition on that identifier, which
      the call could carry, would prevent it and nothing else. Without deletions by others the
      identifier is always the listed one, and with it the child is over. */
  lemma CleanUpSparesTheActiveChild(cfg: Config, states: seq<State>, events: seq<Event>, i: nat, n: string)
    requires Run(cfg, states, events) && Deletes(states, events, i, n)
    ensures var w, listed := states[i].world, states[i].proc.todo[0];
            && (IsNamedActive(w, n) <==> w.children[n].uid != listed.uid)
            && (!IsNamedActive(w, n) ==> Terminal(w.children[n].phase))
            && (IsNamedActive(w, n) ==> cfg.deletions)
  {
    RunKeepsInv(cfg, states, events, i);
    RunAccounts(cfg, states, events, i);
    var w, p := states[i].world, states[i].proc;
    assert InPhase(p.kids, p.phase, p.todo[0]);
    assert WasListed(w, p.kids, n) || IsNamedActive(w, n);
  }

  // ---------------------------------------------------------------- the limits

  /** Names tell when a start was asked for. */
  ghost predicate NamesTellReadings(w: World) {
    forall i, j :: 0 <= i < |w.starts| && 0 <= j < |w.starts| ==>
      (w.starts[i].name == w.starts[j].name <==> w.starts[i].reading == w.starts[j].reading)
  }

  lemma NamesFollowReadings(cfg: Config, w: World)
    requires NamesFollow(cfg, w, 0)
    ensures NamesTellReadings(w)
  {
    forall i, j | 0 <= i < |w.starts| && 0 <= j < |w.starts| && w.starts[i].name == w.starts[j].name
      ensures w.starts[i].reading == w.starts[j].reading
    {
      ChildNameIsInjective(cfg.name, w.starts[i].reading, w.starts[j].reading);
    }
  }

  /** Of two starts that the server stamped in the same second, the later one was asked for in
      that second. */
  lemma SameSecond(w: World, i: nat, j: nat)
    requires StartsOrdered(w) && i < j < |w.starts| && w.starts[i].created == w.starts[j].created
    ensures w.starts[j].reading == w.starts[j].created
  {
  }

  /** A child that took over the name of a listed one was asked for in the second in which the
      listed one was stamped, and no start in between was stamped later. */
  lemma TakeOver(w: World, u: nat, k: nat)
    requires StartsOrdered(w) && NamesTellReadings(w)
    requires u < k == |w.starts| - 1 && w.starts[u].name == w.starts[k].name
    ensures w.starts[u].reading == w.starts[u].created
    ensures forall v :: 0 <= v < k ==> w.starts[v].created <= w.starts[u].created
  {
    assert w.starts[u].created <= w.starts[k].reading == w.starts[u].reading;
  }

  /** Of three starts that were stamped in the same second, two have the same name. */
  lemma NoThreeNames(w: World, u: nat, a: nat, b: nat)
    requires StartsOrdered(w) && NamesTellReadings(w) && u < |w.starts| && a < |w.starts| && b < |w.starts|
    requires a != b
    requires w.starts[a].created == w.starts[b].created == w.starts[u].created == w.starts[u].reading
    ensures w.starts[u].name == w.starts[a].name || w.starts[u].name == w.starts[b].name
  {
    if a < b { SameSecond(w, a, b); } else { SameSecond(w, b, a); }
  }

  /** The two newest children of a plan, which are kept when the limit is two or more. */
  lemma KeptByLimit(kids: Children, phase: Phase, limit: nat, todo: seq<Ref>) returns (a: Ref, b: Ref)
    requires FromPlan(kids, phase, limit, todo) && todo != [] && limit >= 2
    ensures InPhase(kids, phase, todo[0]) && InPhase(kids, phase, a) && InPhase(kids, phase, b)
    ensures a.name != b.name && a.name != todo[0].name && b.name != todo[0].name
    ensures kids[todo[0].name].created <= kids[a.name].created && kids[todo[0].name].created <= kids[b.name].created
  {
    var order, m: nat :| IsRest(kids, phase, limit, todo, order, m);
    a, b := order[|order| - 2], order[|order| - 1];
    assert todo[0] == order[m];
  }

  /** When the newest start has taken over the name of a child that the plan deletes. */
  lemma TakenOverName(w: World, kids: Children, phase: Phase, limit: nat, todo: seq<Ref>)
    requires StartsOrdered(w) && NamesTellReadings(w) && Snapshot(w, kids)
    requires FromPlan(kids, phase, limit, todo) && todo != [] && InPhase(kids, phase, todo[0]) && |w.starts| > 0
    requires w.starts[|w.starts| - 1].name == todo[0].name && forall n :: n in kids ==> kids[n].uid != |w.starts| - 1
    ensures limit <= 1
  {
    var u := todo[0].uid;
    TakeOver(w, u, |w.starts| - 1);
    forall a, b | a in kids && b in kids && a != b && kids[a].created == kids[b].created == w.starts[u].created
      ensures todo[0].name == a || todo[0].name == b
    {
      NoThreeNames(w, u, kids[a].uid, kids[b].uid);
    }
    if limit >= 2 {
      var a, b := KeptByLimit(kids, phase, limit, todo);
      assert false;
    }
  }

  lemma NewestTookOver(cfg: Config, w: World, p: Proc, n: string)
    requires WorldInv(cfg, w) && ProcInv(cfg, w, p) && p.Deleting? && n in w.children && IsNamedActive(w, n)
    ensures |w.starts| > 0 && w.starts[|w.starts| - 1].name == n && Snapshot(w, p.kids)
    ensures forall m :: m in p.kids ==> p.kids[m].uid != |w.starts| - 1
    ensures forall i :: 0 <= i < |p.todo| ==> InPhase(p.kids, p.phase, p.todo[i])
  {
  }

  /** A history limit of two or more protects the active child, even from deletions by others:
      from 1970 on, a clean-up call can only hit it in a phase whose limit is zero or one. */
  lemma LimitsProtectTheActiveChild(cfg: Config, states: seq<State>, events: seq<Event>, i: nat, n: string)
    requires Run(cfg, states, events) && states[0].world.clock >= 0
    requires Deletes(states, events, i, n) && IsNamedActive(states[i].world, n)
    ensures cfg.deletions && Limit(cfg, states[i].proc.phase) <= 1
  {
    CleanUpSparesTheActiveChild(cfg, states, events, i, n);
    var w, p := states[i].world, states[i].proc;
    assert WorldInv(cfg, w) && ProcInv(cfg, w, p) by { RunKeepsInv(cfg, states, events, i); }
    assert FromPlan(p.kids, p.phase, Limit(cfg, p.phase), p.todo) by { RunAccounts(cfg, states, events, i); }
    assert NamesTellReadings(w) by {
      StartsHaveNames(cfg, states, events, i);
      NamesFollowReadings(cfg, w);
    }
    NewestTookOver(cfg, w, p, n);
    TakenOverName(w, p.kids, p.phase, Limit(cfg, p.phase), p.todo);
  }
}
