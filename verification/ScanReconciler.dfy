/** The ComplianceScan reconciler and the report exporter in their imperative form: objects that
    are edited in place, deep copies as patch bases, and an API server that they both patch.
    Every execution is a run of the scan protocol. */
module ScanReconciler {
  import opened Prelude
  import opened Phases
  import opened Conditions
  import opened ScanProtocol
  import Report
  import FanOut
  import DikiConfig

  // ---------------------------------------------------------------- the local object

  /** A local copy of a scan. Its conditions are a slice over a backing array. */
  class ComplianceScan {
    var phase: Phase
    var conditions: Slice
    var rulesets: seq<RulesetSummary>
    var outputs: seq<OutputStatus>

    ghost predicate Valid()
      reads this
    {
      conditions.Valid()
    }

    function Value(): ScanStatus
      requires Valid()
      reads this, conditions.data
    {
      ScanStatus(phase, conditions.Value(), rulesets, outputs)
    }

    /** Decodes a status into a new object. */
    constructor (status: ScanStatus)
      ensures Valid() && Value() == status
      ensures fresh(conditions.data)
    {
      phase, rulesets, outputs := status.phase, status.rulesets, status.outputs;
      var data := new Condition[|status.conditions|](i requires 0 <= i < |status.conditions| => status.conditions[i]);
      conditions := Slice(data, |status.conditions|);
      new;
      assert data[..] == status.conditions;
    }

    /** A copy that shares no memory with the original. */
    method DeepCopy() returns (copy: ComplianceScan)
      requires Valid()
      ensures fresh(copy) && copy.Valid() && fresh(copy.conditions.data) && copy.Value() == Value()
    {
      copy := new ComplianceScan(Value());
    }
  }

  /** Moves the conditions of other types to the front, in their order. */
  method Compact(s: Slice, ctype: string) returns (kept: nat)
    requires s.Valid()
    modifies s.data
    ensures kept <= s.len && s.data[..kept] == Without(old(s.Value()), ctype)
    ensures forall k :: s.len <= k < s.data.Length ==> s.data[k] == old(s.data[k])
  {
    ghost var cs := s.Value();
    kept := 0;
    for j := 0 to s.len
      invariant kept <= j && s.data[..kept] == Without(cs[..j], ctype)
      invariant forall k :: j <= k < s.len ==> s.data[k] == cs[k]
      invariant forall k :: s.len <= k < s.data.Length ==> s.data[k] == old(s.data[k])
    {
      assert cs[..j + 1][..j] == cs[..j];
      var c := s.data[j];
      if c.ctype != ctype {
        ghost var before := s.data[..kept];
        s.data[kept] := c;
        kept := kept + 1;
        assert s.data[..kept] == before + [c];
      }
    }
    assert cs[..s.len] == cs;
  }

  /** Removes the conditions of one type in place: the others move forward, and the places that
      become free are zeroed. */
  method DeleteConditions(s: Slice, ctype: string) returns (r: Slice)
    requires s.Valid()
    modifies s.data
    ensures r.Valid() && r.data == s.data && r.len <= s.len
    ensures r.Value() == Without(old(s.Value()), ctype)
    ensures forall k :: r.len <= k < s.len ==> s.data[k] == ZERO_CONDITION
    ensures forall k :: s.len <= k < s.data.Length ==> s.data[k] == old(s.data[k])
  {
    var kept := Compact(s, ctype);
    ghost var value := s.data[..kept];
    for j := kept to s.len
      invariant s.data[..kept] == value
      invariant forall k :: kept <= k < j ==> s.data[k] == ZERO_CONDITION
      invariant forall k :: s.len <= k < s.data.Length ==> s.data[k] == old(s.data[k])
    {
      s.data[j] := ZERO_CONDITION;
    }
    r := Slice(s.data, kept);
  }

  // ---------------------------------------------------------------- the cluster

  /** The API server's side of one scan, and the two processes that work on it. `events` is the
      run so far. Nothing that a process decides depends on the entries for the processes. */
  class Cluster {
    const spec: DikiConfig.Spec
    const maps: DikiConfig.ConfigMaps
    const yaml: DikiConfig.Yaml
    /** Whether all calls succeed. */
    const reliable: bool
    var state: State
    ghost var events: seq<Event>

    ghost predicate Synced()
      reads this
    {
      state == After(events)
    }

    ghost predicate Extends(before: seq<Event>)
      reads this
    {
      before <= events
    }

    /** Adds an event to the run. */
    method Commit(rec: Rec, exp: Exp, ending: Ending, ghost before: State, ghost e: Event)
      requires before == After(events)
      requires Next(before, e) == state.(rec := rec, exp := exp, ending := ending)
      modifies this
      ensures Synced() && events == old(events) + [e]
      ensures state == old(state).(rec := rec, exp := exp, ending := ending)
    {
      state := state.(rec := rec, exp := exp, ending := ending);
      events := events + [e];
      assert events[..|events| - 1] == old(events);
    }

    /** Anything that the exporter can do, any number of times. */
    method ExporterInterferes()
      requires Synced()
      modifies this
      ensures Synced() && Extends(old(events))
      ensures BlindStatus(state.server) == BlindStatus(old(state.server)) && state.configMaps == old(state.configMaps)
      ensures state.rec == old(state.rec) && state.ending == old(state.ending)
    {
      var rounds: int := *;
      while rounds > 0
        invariant Synced() && Extends(old(events))
        invariant BlindStatus(state.server) == BlindStatus(old(state.server))
        invariant state.configMaps == old(state.configMaps)
        invariant state.rec == old(state.rec) && state.ending == old(state.ending)
      {
        var e: Event := *;
        if e.ExpCall? || e.ExpRestart? {
          ghost var before := state;
          state := Next(state, e);
          Commit(state.rec, state.exp, state.ending, before, e);
        }
        rounds := rounds - 1;
      }
    }

    /** The reconciler is done with the scan: none of its calls is outstanding, and there is a phase. */
    ghost predicate Done()
      reads this
    {
      state.rec.Resting? && state.server.phase != Unset
    }

    /** Anything that the reconciler can do, any number of times. */
    method ReconcilerInterferes()
      requires Synced()
      modifies this
      ensures Synced() && Extends(old(events)) && state.exp == old(state.exp)
      ensures old(Done()) ==> state.server.phase == old(state.server.phase)
    {
      var rounds: int := *;
      while rounds > 0
        invariant Synced() && Extends(old(events)) && state.exp == old(state.exp)
        invariant old(Done()) ==> Done() && state.server.phase == old(state.server.phase)
      {
        var e: Event := *;
        if e.RecCall? || e.RecRestart? {
          ghost var before := state;
          state := Next(state, e);
          Commit(state.rec, state.exp, state.ending, before, e);
        }
        rounds := rounds - 1;
      }
    }

    /** A status patch: the difference between the base and the edited object, as they are at the
        time of the call, applied to the server's status. A successful call replaces the edited
        object by the response. */
    method PatchStatus(base: ComplianceScan, scan: ComplianceScan) returns (o: Outcome, error: string)
      requires base.Valid() && scan.Valid()
      modifies this`state, scan
      ensures state == old(state).(server :=
                AfterPatch(o, MergeFrom(old(base.Value()), old(scan.Value())), old(state.server)))
      ensures scan.Valid()
      ensures scan.conditions.data == old(scan.conditions.data) || fresh(scan.conditions.data)
      ensures scan.Value() == if o == Ok then state.server else old(scan.Value())
      ensures reliable ==> o == Ok
    {
      error := *;
      o := *;
      if reliable { o := Ok; }
      if o != Refused {
        state := state.(server := Merged(MergeFrom(base.Value(), scan.Value()), state.server));
        if o == Ok {
          var response := new ComplianceScan(state.server);
          scan.phase, scan.conditions := response.phase, response.conditions;
          scan.rulesets, scan.outputs := response.rulesets, response.outputs;
        }
      }
    }
  }

  // ---------------------------------------------------------------- the reconciler

  /** The local edits for a scan that failed. */
  method EditFailed(scan: ComplianceScan, error: string, now: Time)
    requires scan.Valid()
    modifies scan, scan.conditions.data
    ensures scan.Valid() && scan.Value() == FailedEdit(old(scan.Value()), error, now)
    ensures scan.conditions.data == old(scan.conditions.data) || fresh(scan.conditions.data)
  {
    scan.phase := Failed;
    scan.conditions := UpdateConditions(scan.conditions, TYPE_FAILED, CONDITION_TRUE, "ComplianceScanFailed",
                                        "ComplianceScan failed with error: " + error, now);
    scan.conditions := DeleteConditions(scan.conditions, TYPE_COMPLETED);
  }

  /** The local edits for a scan that runs. */
  method EditRunning(scan: ComplianceScan, now: Time)
    requires scan.Valid()
    modifies scan, scan.conditions.data
    ensures scan.Valid() && scan.Value() == RunningEdit(old(scan.Value()), now)
    ensures scan.conditions.data == old(scan.conditions.data) || fresh(scan.conditions.data)
  {
    scan.conditions := UpdateConditions(scan.conditions, TYPE_COMPLETED, CONDITION_FALSE, "ComplianceScanRunning",
                                        "ComplianceScan is running", now);
    scan.phase := Running;
  }

  /** The local edits for a scan that completed. */
  method EditCompleted(scan: ComplianceScan, now: Time)
    requires scan.Valid()
    modifies scan, scan.conditions.data
    ensures scan.Valid() && scan.Value() == CompletedEdit(old(scan.Value()), now)
    ensures scan.conditions.data == old(scan.conditions.data) || fresh(scan.conditions.data)
  {
    scan.phase := Completed;
    scan.conditions := UpdateConditions(scan.conditions, TYPE_COMPLETED, CONDITION_TRUE, "ComplianceScanCompleted",
                                        "ComplianceScan has completed successfully", now);
  }

  /** A status patch of the reconciler; the exporter may have come first. */
  method Patch(c: Cluster, base: ComplianceScan, scan: ComplianceScan)
    returns (o: Outcome, error: string, ghost before: State)
    requires c.Synced() && base.Valid() && scan.Valid()
    modifies c, scan
    ensures before == After(c.events) && c.Extends(old(c.events))
    ensures before.rec == old(c.state.rec) && before.configMaps == old(c.state.configMaps)
    ensures c.state == before.(server :=
              AfterPatch(o, MergeFrom(old(base.Value()), old(scan.Value())), before.server))
    ensures scan.Valid() && (scan.conditions.data == old(scan.conditions.data) || fresh(scan.conditions.data))
    ensures scan.Value() == if o == Ok then c.state.server else old(scan.Value())
    ensures c.reliable ==> o == Ok
  {
    c.ExporterInterferes();
    before := c.state;
    o, error := c.PatchStatus(base, scan);
  }

  /** Marks the scan as failed, locally and on the server. Returns no error if that worked. */
  method HandleFailedScan(c: Cluster, scan: ComplianceScan, error: string) returns (ok: bool)
    requires c.Synced() && scan.Valid() && c.state.rec == Failing(scan.Value())
    modifies c, scan, scan.conditions.data
    ensures c.Synced() && c.Extends(old(c.events)) && c.state.rec == Resting
    ensures c.state.ending == ReturnedNil || c.state.ending.ReturnedError?
    ensures ok <==> c.state.ending == ReturnedNil
    ensures c.state.configMaps == old(c.state.configMaps)
    ensures ok && old(scan.phase) != Failed ==> c.state.server.phase == Failed
    ensures c.reliable ==> ok
  {
    var base := scan.DeepCopy();
    var now: Time := *;
    EditFailed(scan, error, now);
    var o, text; ghost var before;
    o, text, before := Patch(c, base, scan);
    c.Commit(Resting, c.state.exp, if o == Ok then ReturnedNil else ReturnedError(o == Lost), before,
             RecCall(o, now, error, false));
    ok := o == Ok;
  }

  /** All the options that the scan references can be read. */
  ghost predicate Deployable(c: Cluster) { DikiConfig.Entries(c.maps, c.yaml, c.spec.rulesets).Success? }

  /** Looks up the options, builds the configuration, and creates its ConfigMap. */
  method DeployDikiConfigMap(c: Cluster, scan: ComplianceScan) returns (ok: bool, error: string)
    requires c.Synced() && scan.Valid() && c.state.rec == Deploying(scan.Value())
    modifies c
    ensures c.Synced() && c.Extends(old(c.events))
    ensures c.state.rec == if ok then Completing(scan.Value()) else Failing(scan.Value())
    ensures ok ==> Deployable(c) && c.state.configMaps == old(c.state.configMaps) + 1
    ensures c.reliable ==> (ok <==> Deployable(c)) && (!ok ==> c.state.configMaps == old(c.state.configMaps))
  {
    error := *;
    c.ExporterInterferes();
    var config := DikiConfig.BuildDikiConfig(c.maps, c.yaml, c.spec);
    ghost var before := c.state;
    if config.Failure? {
      c.Commit(Failing(scan.Value()), c.state.exp, c.state.ending, before, RecCall(Refused, 0, "", true));
      return false, error;
    }
    var o: Outcome := *;
    if c.reliable { o := Ok; }
    if o != Refused { c.state := c.state.(configMaps := c.state.configMaps + 1); }
    ok := o == Ok;
    c.Commit(if ok then Completing(scan.Value()) else Failing(scan.Value()), c.state.exp, c.state.ending, before,
             RecCall(o, 0, "", false));
  }

  /** Marks the scan as running. */
  method MarkRunning(c: Cluster, scan: ComplianceScan) returns (ok: bool, error: string)
    requires c.Synced() && scan.Valid() && c.state.rec == Starting(scan.Value())
    modifies c, scan, scan.conditions.data
    ensures c.Synced() && c.Extends(old(c.events)) && scan.Valid()
    ensures scan.conditions.data == old(scan.conditions.data) || fresh(scan.conditions.data)
    ensures c.state.rec == if ok then Deploying(scan.Value()) else Failing(scan.Value())
    ensures c.state.configMaps == old(c.state.configMaps)
    ensures old(scan.phase) == Unset ==> scan.phase == Running
    ensures c.reliable ==> ok
  {
    var base := scan.DeepCopy();
    var now: Time := *;
    EditRunning(scan, now);
    var o; ghost var before;
    o, error, before := Patch(c, base, scan);
    ok := o == Ok;
    c.Commit(if ok then Deploying(scan.Value()) else Failing(scan.Value()), c.state.exp, c.state.ending, before,
             RecCall(o, now, "", false));
  }

  /** Marks the scan as completed. */
  method MarkCompleted(c: Cluster, scan: ComplianceScan) returns (ok: bool, error: string)
    requires c.Synced() && scan.Valid() && c.state.rec == Completing(scan.Value())
    modifies c, scan, scan.conditions.data
    ensures c.Synced() && c.Extends(old(c.events)) && scan.Valid()
    ensures scan.conditions.data == old(scan.conditions.data) || fresh(scan.conditions.data)
    ensures c.state.rec == if ok then Resting else Failing(scan.Value())
    ensures ok ==> c.state.ending == ReturnedNil
    ensures ok && old(scan.phase) == Running ==> c.state.server.phase == Completed
    ensures c.state.configMaps == old(c.state.configMaps)
    ensures c.reliable ==> ok
  {
    var base := scan.DeepCopy();
    var now: Time := *;
    EditCompleted(scan, now);
    var o; ghost var before;
    o, error, before := Patch(c, base, scan);
    ok := o == Ok;
    c.Commit(if ok then Resting else Failing(scan.Value()), c.state.exp,
             if ok then ReturnedNil else c.state.ending, before, RecCall(o, now, "", false));
  }

  /** What an undisturbed reconcile of a new scan leaves. */
  ghost predicate Processed(c: Cluster, before: nat)
    reads c
  {
    && c.state.server.phase == (if Deployable(c) then Completed else Failed)
    && c.state.configMaps == before + (if Deployable(c) then 1 else 0)
  }

  /** A reconcile of a scan without a phase: run, deploy, complete, and mark as failed whatever
      goes wrong. */
  method Process(c: Cluster, scan: ComplianceScan) returns (ok: bool)
    requires c.Synced() && scan.Valid() && c.state.rec == Starting(scan.Value()) && scan.phase == Unset
    modifies c, scan, scan.conditions.data
    ensures c.Synced() && c.Extends(old(c.events)) && c.state.rec == Resting
    ensures ok ==> c.state.ending == ReturnedNil
    ensures c.reliable ==> ok && Processed(c, old(c.state.configMaps))
  {
    var error;
    ok, error := MarkRunning(c, scan);
    if !ok {
      ok := HandleFailedScan(c, scan, error);
      return;
    }
    ok, error := DeployDikiConfigMap(c, scan);
    if !ok {
      ok := HandleFailedScan(c, scan, error);
      return;
    }
    ok, error := MarkCompleted(c, scan);
    if !ok { ok := HandleFailedScan(c, scan, error); }
  }

  /** One reconcile of a scan. It extends the run of the cluster. If the scan had no phase yet and
      no error is returned, the phase that is left is terminal; if it had one, nothing of the
      reconciler's changes. Where no call fails, the scan completes if its options can be read and
      fails otherwise. */
  method Reconcile(c: Cluster) returns (ok: bool)
    requires c.Synced() && c.state.rec == Resting
    modifies c
    ensures c.Synced() && c.Extends(old(c.events)) && c.state.rec == Resting
    ensures ok && old(c.state.server.phase) == Unset ==> Terminal(c.state.server.phase)
    ensures old(c.state.server.phase) != Unset ==>
      && SameProgress(c.state.server, old(c.state.server))
      && c.state.configMaps == old(c.state.configMaps) && c.state.ending == old(c.state.ending)
    ensures c.reliable ==> ok && (old(c.state.server.phase) == Unset ==> Processed(c, old(c.state.configMaps)))
  {
    c.ExporterInterferes();
    var found := *;
    if !found && !c.reliable { return false; }
    var scan := new ComplianceScan(c.state.server);
    if scan.phase != Unset { return true; }
    c.Commit(Starting(scan.Value()), c.state.exp, c.state.ending, c.state, RecCall(Ok, 0, "", false));
    ok := Process(c, scan);
    AlwaysInv(c.events);
  }

  // ---------------------------------------------------------------- the exporter

  /** What the exports to the outputs come to is up to them. */
  method RunOutputs(outputs: map<string, string>) returns (outs: FanOut.Outcomes)
    ensures outs.Keys == outputs.Keys
  {
    outs := map[];
    var rest := outputs.Keys;
    while rest != {}
      invariant rest <= outputs.Keys && outs.Keys == outputs.Keys - rest
      decreases rest
    {
      var n :| n in rest;
      var o: FanOut.ExportOutcome := *;
      outs := outs[n := o];
      rest := rest - {n};
    }
  }

  datatype ExportResult =
    Exported(outs: FanOut.Outcomes) | NotFound | AlreadyCompleted | BadReport | BadOutputs | NotPatched

  /** One export. `report` is absent when it cannot be read; `statuses` are those of the rule
      library. On success the server holds the summaries of the report and one status for every
      configured output, next to whatever the reconciler has written. */
  method Export(c: Cluster, report: Option<Report.Report>, configs: seq<FanOut.OutputConfig>,
                statuses: seq<Report.RuleStatus>)
    returns (r: ExportResult)
    requires c.Synced() && c.state.exp == NotExporting
    modifies c
    ensures c.Synced() && c.Extends(old(c.events)) && c.state.exp == NotExporting
    ensures r.Exported? ==>
      && report.Some? && (forall n :: n in r.outs <==> exists i :: 0 <= i < |configs| && configs[i].name == n)
      && c.state.server.rulesets == Report.Summaries(Report.AllRulesets(report.value.providers), statuses)
      && FanOut.StatusesOf(r.outs, r.outs.Keys, c.state.server.outputs)
      && FanOut.TellsOutcomes(r.outs, c.state.server.outputs)
    ensures r.BadReport? ==> report.None?
    ensures r.AlreadyCompleted? ==> c.state.server.phase == Completed
    ensures old(c.Done()) && old(c.state.server.phase) == Completed ==> r.AlreadyCompleted? || r.NotFound?
    ensures r.BadOutputs? <==>
      report.Some? && (exists o :: o in configs && !FanOut.Usable(o)) && !r.NotFound? && !r.AlreadyCompleted?
    ensures r.NotFound? || r.NotPatched? ==> !c.reliable
  {
    c.ReconcilerInterferes();
    var found := *;
    if !found && !c.reliable { return NotFound; }
    var scan := new ComplianceScan(c.state.server);
    if scan.phase == Completed { return AlreadyCompleted; }
    c.Commit(c.state.rec, Exporting(scan.Value()), c.state.ending, c.state, ExpCall(Ok, [], []));
    if report.None? {
      Abandon(c);
      return BadReport;
    }
    var outputs := FanOut.CreateOutputs(configs);
    if outputs.None? {
      Abandon(c);
      return BadOutputs;
    }
    var outs := RunOutputs(outputs.value);
    var outputStatuses := FanOut.ExportAll(outs);
    var ok := PatchResults(c, scan, report.value, outputStatuses, statuses);
    return if ok then Exported(outs) else NotPatched;
  }

  method Abandon(c: Cluster)
    requires c.Synced()
    modifies c
    ensures c.Synced() && c.Extends(old(c.events)) && c.state.exp == NotExporting
  {
    c.Commit(c.state.rec, NotExporting, c.state.ending, c.state, ExpRestart);
  }

  /** Patches the results of an export into the status. */
  method PatchResults(c: Cluster, scan: ComplianceScan, report: Report.Report, outputs: seq<OutputStatus>,
                      statuses: seq<Report.RuleStatus>)
    returns (ok: bool)
    requires c.Synced() && scan.Valid() && c.state.exp == Exporting(scan.Value())
    modifies c, scan
    ensures c.Synced() && c.Extends(old(c.events)) && c.state.exp == NotExporting
    ensures ok ==>
      && c.state.server.rulesets == Report.Summaries(Report.AllRulesets(report.providers), statuses)
      && c.state.server.outputs == outputs
    ensures c.reliable ==> ok
  {
    ghost var local := scan.Value();
    var base := scan.DeepCopy();
    scan.rulesets := Report.CreateRulesetSummaries(report, statuses);
    scan.outputs := outputs;
    ghost var edited := scan.Value();
    assert edited == ExportEdit(local, edited.rulesets, outputs);
    c.ReconcilerInterferes();
    ghost var before := c.state;
    AlwaysInv(c.events);
    var o, _ := c.PatchStatus(base, scan);
    c.Commit(c.state.rec, NotExporting, c.state.ending, before, ExpCall(o, edited.rulesets, outputs));
    ok := o == Ok;
  }
}
