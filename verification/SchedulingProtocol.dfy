/** The ScheduledComplianceScan controller as a transition system. The API server, the clock and
    the child scans form the world; a reconcile is a process that advances by one API call or one
    clock reading at a time and keeps local snapshots in between. */
module SchedulingProtocol {
  import opened Prelude
  import opened Schedules
  import opened Phases
  import opened MergePatch
  import opened ChildNames

  /** A reference to a child scan. Unique identifiers are numbered in the order of creation. */
  datatype Ref = Ref(name: string, uid: nat)

  datatype Status = Status(active: Option<Ref>, lastSchedule: Option<Time>, lastCompletion: Option<Time>)

  const EMPTY_STATUS: Status := Status(None, None, None)

  datatype Child = Child(uid: nat, phase: Phase, created: Time)

  type Children = map<string, Child>

  /** History: one entry for every child that the server ever created for this parent, with the
      clock reading of the reconcile that asked for it. `recorded` says whether the server ever
      applied a status that names the child as the active one. Nothing reads the history. */
  datatype Start = Start(name: string, reading: Time, created: Time, recorded: bool)

  datatype World = World(status: Status, children: Children, clock: Time, starts: seq<Start>)

  /** The parent's name and spec, fixed over a run, and what the cluster is like. `schedule` is
      absent when the cron expression does not parse. `accepts` is the server's validation of a
      new child by its name. `deletions` says whether anyone but the controller deletes children. */
  datatype Config = Config(name: string, schedule: Option<Schedule>, successLimit: nat, failureLimit: nat,
                           accepts: string -> bool, deletions: bool)

  /** What the process is about to do, with the locals it needs. */
  datatype Proc =
    | Idle                                                      // Get
    | Got(seen: Status)                                         // List
    | Listed(seen: Status, kids: Children)                      // read the clock
    | Clearing(seen: Status, kids: Children, now: Time)         // Patch: the active scan is over
    | Recovering(seen: Status, orphan: Ref, created: Time)      // Patch: name an unrecorded scan
    | Creating(seen: Status, kids: Children, now: Time)         // Create
    | Recording(seen: Status, kids: Children, now: Time, ref: Ref)               // Patch
    | Sorting(seen: Status, kids: Children, now: Time, phase: Phase)             // plan the clean-up
    | Deleting(seen: Status, kids: Children, now: Time, phase: Phase, todo: seq<Ref>) // Delete

  datatype State = State(world: World, proc: Proc)

  datatype Event = Env | Restart | Call(outcome: Outcome)

  // ---------------------------------------------------------------- the environment

  ghost predicate EnvStep(cfg: Config, w: World, w': World) {
    || Ticks(w, w')
    || (exists n, q :: ChildAdvances(w, n, q, w'))
    || (cfg.deletions && exists n :: ChildGoes(w, n, w'))
  }

  ghost predicate Ticks(w: World, w': World) {
    w.clock <= w'.clock && Int64(w'.clock) && w' == w.(clock := w'.clock)
  }

  ghost predicate ChildAdvances(w: World, n: string, q: Phase, w': World) {
    && n in w.children && Advances(w.children[n].phase, q)
    && w' == w.(children := w.children[n := w.children[n].(phase := q)])
  }

  ghost predicate ChildGoes(w: World, n: string, w': World) {
    n in w.children && w' == w.(children := w.children - {n})
  }

  // ---------------------------------------------------------------- reads and decisions

  predicate NoneActive(kids: Children) {
    forall n :: n in kids ==> Terminal(kids[n].phase)
  }

  predicate IsActive(kids: Children, n: string) {
    n in kids && !Terminal(kids[n].phase)
  }

  /** Whether a run is due at `now`. */
  predicate Due(next: Schedule, seen: Status, now: Time) {
    seen.lastSchedule.None? || next(seen.lastSchedule.value) <= now
  }

  /** What a reconcile does next once it has read the clock. */
  ghost predicate Planned(cfg: Config, seen: Status, kids: Children, now: Time, p: Proc) {
    if !NoneActive(kids) then
      if seen.active.None? then
        exists n :: IsActive(kids, n) && p == Recovering(seen, Ref(n, kids[n].uid), kids[n].created)
      else p == Idle
    else if seen.active.Some? then p == Clearing(seen, kids, now)
    else p == Decided(cfg, seen, kids, now)
  }

  function Decided(cfg: Config, seen: Status, kids: Children, now: Time): Proc {
    if cfg.schedule.None? then Idle
    else if Due(cfg.schedule.value, seen, now) then Creating(seen, kids, now)
    else Sorting(seen, kids, now, Completed)
  }

  /** The library returns the zero time for an expression without a fire time. */
  ghost predicate NeverFires(next: Schedule, zero: Time) {
    forall t :: next(t) == zero
  }

  lemma NeverFiringIsDue(next: Schedule, zero: Time, seen: Status, now: Time)
    requires NeverFires(next, zero) && zero <= now
    ensures Due(next, seen, now)
  {
    match seen.lastSchedule
    case None =>
    case Some(t) => assert next(t) == zero;
  }

  // ---------------------------------------------------------------- clean-up

  function Limit(cfg: Config, phase: Phase): nat {
    if phase == Completed then cfg.successLimit else cfg.failureLimit
  }

  ghost predicate Distinct(refs: seq<Ref>) {
    forall i, j :: 0 <= i < j < |refs| ==> refs[i].name != refs[j].name
  }

  predicate InPhase(kids: Children, phase: Phase, r: Ref) {
    r.name in kids && kids[r.name].uid == r.uid && kids[r.name].phase == phase
  }

  /** The children of one phase, each once, none before an older one. */
  ghost predicate CreationOrder(kids: Children, phase: Phase, order: seq<Ref>) {
    && Distinct(order)
    && (forall i :: 0 <= i < |order| ==> InPhase(kids, phase, order[i]))
    && (forall n :: n in kids && kids[n].phase == phase ==> Ref(n, kids[n].uid) in order)
    && (forall i, j :: 0 <= i < j < |order| && order[i].name in kids && order[j].name in kids ==>
          kids[order[i].name].created <= kids[order[j].name].created)
  }

  /** The oldest children of one phase that exceed the history limit. Ties are broken freely. */
  ghost predicate Excess(kids: Children, phase: Phase, limit: nat, todo: seq<Ref>) {
    exists order :: CreationOrder(kids, phase, order) && todo == order[..Max(|order| - limit, 0)]
  }

  /** Both clean-ups are over, and with them the reconcile. */
  predicate AtEnd(p: Proc) { p.Deleting? && p.phase == Failed && p.todo == [] }

  // ---------------------------------------------------------------- writes

  function Cleared(seen: Status, now: Time): Status {
    seen.(active := None, lastCompletion := Some(now))
  }

  function Activated(seen: Status, ref: Ref, scheduled: Time): Status {
    seen.(active := Some(ref), lastSchedule := Some(scheduled))
  }

  function PatchedStatus(server: Status, base: Status, modified: Status): Status {
    Status(Apply(Diff(base.active, modified.active), server.active),
           Apply(Diff(base.lastSchedule, modified.lastSchedule), server.lastSchedule),
           Apply(Diff(base.lastCompletion, modified.lastCompletion), server.lastCompletion))
  }

  function Noted(starts: seq<Start>, status: Status): seq<Start> {
    if status.active.Some? && status.active.value.uid < |starts| then
      var u := status.active.value.uid;
      starts[u := starts[u].(recorded := true)]
    else starts
  }

  /** The world after the server applied a status patch. */
  function Patched(w: World, base: Status, modified: Status): World {
    var status := PatchedStatus(w.status, base, modified);
    w.(status := status, starts := Noted(w.starts, status))
  }

  /** The world after the server created a child: the name must be free, and the server stamps
      the child between the reconcile's clock reading and the present. */
  ghost predicate Created(w: World, name: string, now: Time, w': World) {
    && name !in w.children
    && |w'.starts| == |w.starts| + 1
    && var c := w'.starts[|w.starts|].created;
    && now <= c <= w.clock
    && w' == w.(children := w.children[name := Child(|w.starts|, Unset, c)],
                starts := w.starts + [Start(name, now, c, false)])
  }

  /** One status patch: the process goes on with `after` only when it is told of success. */
  ghost predicate PatchStep(s: State, base: Status, modified: Status, o: Outcome, after: Proc, s': State) {
    && s'.world == (if o == Refused then s.world else Patched(s.world, base, modified))
    && s'.proc == (if o == Ok then after else Idle)
  }

  // ---------------------------------------------------------------- steps

  ghost predicate CallStep(cfg: Config, s: State, o: Outcome, s': State) {
    var w := s.world;
    match s.proc
    case Idle =>
      s'.world == w && s'.proc == if o == Ok then Got(w.status) else Idle
    case Got(seen) =>
      s'.world == w && s'.proc == if o == Ok then Listed(seen, w.children) else Idle
    case Listed(seen, kids) =>
      o == Ok && s'.world == w && Planned(cfg, seen, kids, w.clock, s'.proc)
    case Clearing(seen, kids, now) =>
      var cleared := Cleared(seen, now);
      PatchStep(s, seen, cleared, o, Decided(cfg, Patched(w, seen, cleared).status, kids, now), s')
    case Recovering(seen, orphan, created) =>
      PatchStep(s, seen, Activated(seen, orphan, created), o, Idle, s')
    case Creating(seen, kids, now) =>
      && Int64(now)
      && var name := ChildName(cfg.name, now);
      if o == Refused then s' == State(w, Idle)
      else
        && cfg.accepts(name) && Created(w, name, now, s'.world)
        && s'.proc == if o == Ok then Recording(seen, kids, now, Ref(name, |w.starts|)) else Idle
    case Recording(seen, kids, now, ref) =>
      var recorded := Activated(seen, ref, now);
      PatchStep(s, seen, recorded, o, Sorting(Patched(w, seen, recorded).status, kids, now, Completed), s')
    case Sorting(seen, kids, now, phase) =>
      && o == Ok && s'.world == w
      && s'.proc.Deleting? && s'.proc == Deleting(seen, kids, now, phase, s'.proc.todo)
      && Excess(kids, phase, Limit(cfg, phase), s'.proc.todo)
    case Deleting(seen, kids, now, phase, todo) =>
      if todo == [] then
        o == Ok && s'.world == w
        && s'.proc == if phase == Completed then Sorting(seen, kids, now, Failed) else Idle
      else
        && s'.world == (if o == Refused then w else w.(children := w.children - {todo[0].name}))
        && s'.proc == Deleting(seen, kids, now, phase, todo[1..])
  }

  ghost predicate Step(cfg: Config, s: State, e: Event, s': State) {
    match e
    case Env => s'.proc == s.proc && EnvStep(cfg, s.world, s'.world)
    case Restart => s' == s.(proc := Idle)
    case Call(o) => CallStep(cfg, s, o, s')
  }

  ghost predicate Init(s: State) {
    && s.proc == Idle
    && s.world == World(EMPTY_STATUS, map[], s.world.clock, [])
  }

  ghost predicate StepAt(cfg: Config, states: seq<State>, events: seq<Event>, i: nat)
    requires i < |events| && |states| == |events| + 1
  {
    Step(cfg, states[i], events[i], states[i + 1])
  }

  /** A run, from a freshly created parent without children. The trigger keeps the steps of a run
      out of proofs that do not ask for them. */
  ghost predicate Run(cfg: Config, states: seq<State>, events: seq<Event>) {
    && |states| == |events| + 1
    && Init(states[0])
    && forall i {:trigger StepAt(cfg, states, events, i)} :: 0 <= i < |events| ==> StepAt(cfg, states, events, i)
  }

  lemma Extend(cfg: Config, states: seq<State>, events: seq<Event>, e: Event, s': State)
    requires Run(cfg, states, events) && Step(cfg, states[|states| - 1], e, s')
    ensures Run(cfg, states + [s'], events + [e])
  {
    var ss, es := states + [s'], events + [e];
    forall i | 0 <= i < |es| ensures StepAt(cfg, ss, es, i) {
      if i < |events| { assert StepAt(cfg, states, events, i); }
    }
  }
}
