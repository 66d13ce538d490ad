/** One ComplianceScan and its two writers as a transition system: the scan's reconciler, which
    writes the phase and the conditions, and the report exporter, which writes the summaries and
    the output statuses. Both write JSON merge patches against their own snapshot. */
module ScanProtocol {
  import opened Prelude
  import opened Phases
  import opened MergePatch
  import opened Conditions
  import Report
  import FanOut

  type RulesetSummary = Report.RulesetSummary
  type OutputStatus = FanOut.OutputStatus

  const TYPE_COMPLETED: string := "Completed"
  const TYPE_FAILED: string := "Failed"
  const CONDITION_TRUE: string := "True"
  const CONDITION_FALSE: string := "False"

  datatype ScanStatus = ScanStatus(phase: Phase, conditions: seq<Condition>,
                                   rulesets: seq<RulesetSummary>, outputs: seq<OutputStatus>)

  const NEW_STATUS: ScanStatus := ScanStatus(Unset, [], [], [])

  /** A merge patch of a status. */
  datatype Patch = Patch(phase: Change<Phase>, conditions: Change<seq<Condition>>,
                         rulesets: Change<seq<RulesetSummary>>, outputs: Change<seq<OutputStatus>>)

  function MergeFrom(base: ScanStatus, modified: ScanStatus): Patch {
    Patch(Diff(base.phase, modified.phase), Diff(base.conditions, modified.conditions),
          Diff(base.rulesets, modified.rulesets), Diff(base.outputs, modified.outputs))
  }

  function Merged(p: Patch, s: ScanStatus): ScanStatus {
    ScanStatus(Apply(p.phase, s.phase), Apply(p.conditions, s.conditions),
               Apply(p.rulesets, s.rulesets), Apply(p.outputs, s.outputs))
  }

  // ---------------------------------------------------------------- the edits

  function RunningEdit(s: ScanStatus, time: Time): ScanStatus {
    s.(phase := Running,
       conditions := Updated(s.conditions, Update(TYPE_COMPLETED, CONDITION_FALSE, "ComplianceScanRunning",
                                                  "ComplianceScan is running", time)))
  }

  function CompletedEdit(s: ScanStatus, time: Time): ScanStatus {
    s.(phase := Completed,
       conditions := Updated(s.conditions, Update(TYPE_COMPLETED, CONDITION_TRUE, "ComplianceScanCompleted",
                                                  "ComplianceScan has completed successfully", time)))
  }

  /** The conditions of other types than the given one. */
  function Without(cs: seq<Condition>, ctype: string): seq<Condition> {
    if cs == [] then []
    else
      var last := cs[|cs| - 1];
      Without(cs[..|cs| - 1], ctype) + if last.ctype == ctype then [] else [last]
  }

  /** The others keep their places among themselves: each condition is judged alone, and the parts
      of a list are put together in their order. */
  lemma {:induction false} WithoutIsFilter(a: seq<Condition>, b: seq<Condition>, ctype: string)
    ensures Without(a + b, ctype) == Without(a, ctype) + Without(b, ctype)
  {
    if b == [] {
      assert a + b == a;
    } else {
      var n := |b| - 1;
      WithoutIsFilter(a, b[..n], ctype);
      assert (a + b)[..|a + b| - 1] == a + b[..n];
    }
  }

  lemma WithoutOne(c: Condition, ctype: string)
    ensures Without([c], ctype) == if c.ctype == ctype then [] else [c]
  {
    assert [c][..0] == [];
  }

  function FailedEdit(s: ScanStatus, error: string, time: Time): ScanStatus {
    s.(phase := Failed,
       conditions := Without(Updated(s.conditions, Update(TYPE_FAILED, CONDITION_TRUE, "ComplianceScanFailed",
                                                          "ComplianceScan failed with error: " + error, time)),
                             TYPE_COMPLETED))
  }

  function ExportEdit(s: ScanStatus, rulesets: seq<RulesetSummary>, outputs: seq<OutputStatus>): ScanStatus {
    s.(rulesets := rulesets, outputs := outputs)
  }

  // ---------------------------------------------------------------- processes

  /** What the reconciler is about to do: Get, patch to Running, look up options and create the
      configuration, patch to Completed, or patch to Failed. `local` is its copy of the scan. */
  datatype Rec =
    | Resting
    | Starting(local: ScanStatus)
    | Deploying(local: ScanStatus)
    | Completing(local: ScanStatus)
    | Failing(local: ScanStatus)

  /** What the exporter is about to do: Get, or patch its results into the status. */
  datatype Exp = NotExporting | Exporting(local: ScanStatus)

  /** History: how the last reconcile that did not skip the scan ended. */
  datatype Ending = NotYet | ReturnedNil | ReturnedError(failedApplied: bool) | Crashed

  datatype State = State(server: ScanStatus, configMaps: nat, rec: Rec, exp: Exp, ending: Ending)

  /** Calls carry what comes from outside: the clock, the error text, whether the lookups succeed,
      and the results of an export. */
  datatype Event =
    | RecCall(outcome: Outcome, time: Time, error: string, lookupsFail: bool)
    | RecRestart
    | ExpCall(outcome: Outcome, rulesets: seq<RulesetSummary>, outputs: seq<OutputStatus>)
    | ExpRestart

  function AfterPatch(o: Outcome, p: Patch, server: ScanStatus): ScanStatus {
    if o == Refused then server else Merged(p, server)
  }

  /** The reconciler, one call at a time. After a patch that succeeds its copy is the server's
      response; after one that fails it keeps its own edits. */
  function RecStep(s: State, e: Event): State
    requires e.RecCall?
  {
    var o := e.outcome;
    match s.rec
    case Resting =>
      if o == Ok && s.server.phase == Unset then s.(rec := Starting(s.server)) else s
    case Starting(local) =>
      var edited := RunningEdit(local, e.time);
      var server := AfterPatch(o, MergeFrom(local, edited), s.server);
      s.(server := server, rec := if o == Ok then Deploying(server) else Failing(edited))
    case Deploying(local) =>
      if e.lookupsFail then s.(rec := Failing(local))
      else s.(configMaps := if o == Refused then s.configMaps else s.configMaps + 1,
              rec := if o == Ok then Completing(local) else Failing(local))
    case Completing(local) =>
      var edited := CompletedEdit(local, e.time);
      s.(server := AfterPatch(o, MergeFrom(local, edited), s.server),
         rec := if o == Ok then Resting else Failing(edited),
         ending := if o == Ok then ReturnedNil else s.ending)
    case Failing(local) =>
      var edited := FailedEdit(local, e.error, e.time);
      s.(server := AfterPatch(o, MergeFrom(local, edited), s.server),
         rec := Resting,
         ending := if o == Ok then ReturnedNil else ReturnedError(o == Lost))
  }

  /** The exporter: it refuses to export for a scan that is already completed. */
  function ExpStep(s: State, e: Event): State
    requires e.ExpCall?
  {
    match s.exp
    case NotExporting =>
      if e.outcome == Ok && s.server.phase != Completed then s.(exp := Exporting(s.server)) else s
    case Exporting(local) =>
      var edited := ExportEdit(local, e.rulesets, e.outputs);
      s.(server := AfterPatch(e.outcome, MergeFrom(local, edited), s.server), exp := NotExporting)
  }

  function Next(s: State, e: Event): State {
    match e
    case RecCall(_, _, _, _) => RecStep(s, e)
    case RecRestart => if s.rec.Resting? then s else s.(rec := Resting, ending := Crashed)
    case ExpCall(_, _, _) => ExpStep(s, e)
    case ExpRestart => s.(exp := NotExporting)
  }

  const FRESH: State := State(NEW_STATUS, 0, Resting, NotExporting, NotYet)

  /** The state after a sequence of events. */
  function After(events: seq<Event>): State {
    if events == [] then FRESH else Next(After(events[..|events| - 1]), events[|events| - 1])
  }

  // ---------------------------------------------------------------- phase and conditions

  predicate Exactly(cs: seq<Condition>, ctype: string, status: string, reason: string) {
    |cs| == 1 && cs[0].ctype == ctype && cs[0].status == status && cs[0].reason == reason
  }

  predicate Agree(phase: Phase, cs: seq<Condition>) {
    match phase
    case Unset => cs == []
    case Running => Exactly(cs, TYPE_COMPLETED, CONDITION_FALSE, "ComplianceScanRunning")
    case Completed => Exactly(cs, TYPE_COMPLETED, CONDITION_TRUE, "ComplianceScanCompleted")
    case Failed => Exactly(cs, TYPE_FAILED, CONDITION_TRUE, "ComplianceScanFailed")
    case Pending => false
  }

  lemma RunningEditAgrees(s: ScanStatus, time: Time)
    requires Agree(s.phase, s.conditions) && s.phase == Unset
    ensures var t := RunningEdit(s, time); Agree(t.phase, t.conditions)
  {
  }

  lemma CompletedEditAgrees(s: ScanStatus, time: Time)
    requires Agree(s.phase, s.conditions) && s.phase == Running
    ensures var t := CompletedEdit(s, time); Agree(t.phase, t.conditions) && t.conditions != s.conditions
  {
    assert Find(s.conditions, TYPE_COMPLETED) == 0;
  }

  lemma FailedEditAgrees(s: ScanStatus, error: string, time: Time)
    requires Agree(s.phase, s.conditions) && (s.phase == Running || s.phase == Completed)
    ensures var t := FailedEdit(s, error, time); Agree(t.phase, t.conditions) && t.conditions != s.conditions
  {
    var cs := s.conditions;
    var u := Update(TYPE_FAILED, CONDITION_TRUE, "ComplianceScanFailed",
                    "ComplianceScan failed with error: " + error, time);
    assert Find(cs, TYPE_FAILED) == 1;
    assert Updated(cs, u) == [cs[0], Built(ZERO_CONDITION, u)];
    assert [cs[0], Built(ZERO_CONDITION, u)][..1] == [cs[0]];
    assert [cs[0]][..0] == [];
    assert Without([cs[0]], TYPE_COMPLETED) == [];
  }

  lemma FailedEditTells(s: ScanStatus, error: string, time: Time)
    requires Agree(s.phase, s.conditions) && (s.phase == Running || s.phase == Completed)
    ensures FailedEdit(s, error, time).conditions == [Condition("Failed", "True", time, time, "ComplianceScanFailed",
                                                                "ComplianceScan failed with error: " + error)]
  {
    var u := Update(TYPE_FAILED, CONDITION_TRUE, "ComplianceScanFailed",
                    "ComplianceScan failed with error: " + error, time);
    var c, failed := s.conditions[0], Built(ZERO_CONDITION, u);
    assert s.conditions == [c] && Find([c], TYPE_FAILED) == 1;
    WithoutOne(c, TYPE_COMPLETED);
    WithoutOne(failed, TYPE_COMPLETED);
    WithoutIsFilter([c], [failed], TYPE_COMPLETED);
  }

  /** The same phase and conditions. */
  predicate SameProgress(a: ScanStatus, b: ScanStatus) { a.phase == b.phase && a.conditions == b.conditions }

  predicate SameResults(a: ScanStatus, b: ScanStatus) { a.rulesets == b.rulesets && a.outputs == b.outputs }

  ghost predicate Inv(s: State) {
    && Agree(s.server.phase, s.server.conditions)
    && (match s.rec
        case Resting =>
          && (s.ending == NotYet ==> s.server.phase == Unset)
          && (s.ending == ReturnedNil ==> Terminal(s.server.phase))
          && (s.ending == ReturnedError(true) ==> s.server.phase == Failed)
        case Starting(local) => local.phase == Unset && SameProgress(local, s.server)
        case Deploying(local) => local.phase == Running && SameProgress(local, s.server)
        case Completing(local) => local.phase == Running && SameProgress(local, s.server)
        case Failing(local) =>
          Agree(local.phase, local.conditions) && (local.phase == Running || local.phase == Completed))
    && (s.server.phase == Unset || s.rec.Starting? ==> s.configMaps == 0)
    && s.configMaps <= (if s.rec.Deploying? then 0 else 1)
    && (s.exp.Exporting? ==> SameResults(s.exp.local, s.server))
  }

  lemma PatchingKeepsInv(s: State, e: Event)
    requires Inv(s) && e.RecCall? && (s.rec.Starting? || s.rec.Completing?)
    ensures Inv(RecStep(s, e))
  {
    if s.rec.Starting? { RunningEditAgrees(s.rec.local, e.time); } else { CompletedEditAgrees(s.rec.local, e.time); }
  }

  lemma FailingKeepsInv(s: State, e: Event)
    requires Inv(s) && e.RecCall? && s.rec.Failing?
    ensures Inv(RecStep(s, e))
  {
    FailedEditAgrees(s.rec.local, e.error, e.time);
  }

  lemma RecKeepsInv(s: State, e: Event)
    requires Inv(s) && e.RecCall?
    ensures Inv(RecStep(s, e))
  {
    if s.rec.Failing? {
      FailingKeepsInv(s, e);
    } else if s.rec.Starting? || s.rec.Completing? {
      PatchingKeepsInv(s, e);
    }
  }

  lemma StepKeepsInv(s: State, e: Event)
    requires Inv(s)
    ensures Inv(Next(s, e))
  {
    if e.RecCall? { RecKeepsInv(s, e); }
  }

  lemma {:induction false} AlwaysInv(events: seq<Event>)
    ensures Inv(After(events))
  {
    if events != [] {
      AlwaysInv(events[..|events| - 1]);
      StepKeepsInv(After(events[..|events| - 1]), events[|events| - 1]);
    }
  }

  // ---------------------------------------------------------------- what every run guarantees

  /** After every event of every run, lost responses and crashes included, phase and conditions on
      the server agree, and at most one configuration was ever created. */
  lemma PhaseAndConditionsAgree(events: seq<Event>)
    ensures Agree(After(events).server.phase, After(events).server.conditions)
    ensures After(events).configMaps <= 1
  {
    AlwaysInv(events);
  }

  /** Whatever goes wrong after the scan was read, the reconciler goes on to mark it as failed, and
      it goes on to its next call otherwise. It returns no error exactly if its last patch was
      answered. */
  lemma FailuresAreCompensated(events: seq<Event>, e: Event)
    requires e.RecCall?
    ensures var p, t := After(events).rec, After(events + [e]);
            var wrong := e.outcome != Ok || (p.Deploying? && e.lookupsFail);
            && (p.Starting? ==> if wrong then t.rec.Failing? else t.rec.Deploying?)
            && (p.Deploying? ==> if wrong then t.rec.Failing? else t.rec.Completing?)
            && (p.Completing? ==> if wrong then t.rec.Failing? else t.rec.Resting? && t.ending == ReturnedNil)
            && (p.Failing? ==> t.rec.Resting? && (t.ending == ReturnedNil <==> e.outcome == Ok))
  {
    AfterOneMore(events, e);
  }

  /** What the patches of the reconciler leave when they are applied: the phase, and the one
      condition, which says why and since when. */
  lemma RunningPatchTells(events: seq<Event>, e: Event)
    requires After(events).rec.Starting? && e.RecCall? && e.outcome != Refused
    ensures var s := After(events + [e]).server;
            && s.phase == Running
            && s.conditions == [Condition("Completed", "False", e.time, e.time, "ComplianceScanRunning",
                                          "ComplianceScan is running")]
  {
    AfterOneMore(events, e);
    AlwaysInv(events);
  }

  lemma CompletedPatchTells(events: seq<Event>, e: Event)
    requires After(events).rec.Completing? && e.RecCall? && e.outcome != Refused
    ensures var s := After(events + [e]).server;
            && s.phase == Completed
            && s.conditions == [Condition("Completed", "True", e.time, e.time, "ComplianceScanCompleted",
                                          "ComplianceScan has completed successfully")]
  {
    AfterOneMore(events, e);
    AlwaysInv(events);
    CompletedEditAgrees(After(events).rec.local, e.time);
  }

  lemma FailedPatchTells(events: seq<Event>, e: Event)
    requires After(events).rec.Failing? && e.RecCall? && e.outcome != Refused
    ensures var s := After(events + [e]).server;
            && s.phase == Failed
            && s.conditions == [Condition("Failed", "True", e.time, e.time, "ComplianceScanFailed",
                                          "ComplianceScan failed with error: " + e.error)]
  {
    AfterOneMore(events, e);
    AlwaysInv(events);
    FailedEditTells(After(events).rec.local, e.error, e.time);
  }

  /** The exporter does not export for a completed scan. */
  lemma CompletedIsNotExported(events: seq<Event>, e: Event)
    requires After(events).server.phase == Completed && After(events).exp == NotExporting && e.ExpCall?
    ensures After(events + [e]) == After(events)
  {
    AfterOneMore(events, e);
  }

  predicate MovesOn(p: Phase, q: Phase) { (p == q || Advances(p, q)) && (Terminal(p) ==> Terminal(q)) }

  lemma StartingMovesOn(s: State, e: Event)
    requires Inv(s) && e.RecCall? && s.rec.Starting?
    ensures MovesOn(s.server.phase, RecStep(s, e).server.phase)
  {
  }

  lemma CompletingMovesOn(s: State, e: Event)
    requires Inv(s) && e.RecCall? && s.rec.Completing?
    ensures MovesOn(s.server.phase, RecStep(s, e).server.phase)
  {
  }

  lemma FailingMovesOn(s: State, e: Event)
    requires Inv(s) && e.RecCall? && s.rec.Failing?
    ensures MovesOn(s.server.phase, RecStep(s, e).server.phase)
  {
  }

  /** The phase only advances, so a terminal phase never turns back into another one. */
  lemma PhaseAdvances(events: seq<Event>, e: Event)
    ensures var p, q := After(events).server.phase, After(events + [e]).server.phase;
            (p == q || Advances(p, q)) && (Terminal(p) ==> Terminal(q))
  {
    var s := After(events);
    AfterOneMore(events, e);
    AlwaysInv(events);
    if e.RecCall? {
      match s.rec
      case Starting(_) => StartingMovesOn(s, e);
      case Completing(_) => CompletingMovesOn(s, e);
      case Failing(_) => FailingMovesOn(s, e);
      case _ =>
    }
  }

  /** A completed scan does not always stay completed: an event takes that phase away exactly if it
      is the Failed patch of a reconcile whose Completed patch was lost, and is applied. */
  lemma CompletedTurnsFailedIff(events: seq<Event>, e: Event)
    requires After(events).server.phase == Completed
    ensures var s, t := After(events), After(events + [e]);
            && (t.server.phase != Completed <==> e.RecCall? && s.rec.Failing? && e.outcome != Refused)
            && (t.server.phase != Completed ==> t.server.phase == Failed)
  {
    assert (events + [e])[..|events|] == events;
    AlwaysInv(events);
  }

  lemma AfterOneMore(events: seq<Event>, e: Event)
    ensures After(events + [e]) == Next(After(events), e)
  {
    assert (events + [e])[..|events|] == events;
  }

  /** A run in which that happens: the last patch is applied, its response is lost, and the scan is
      marked as failed. */
  lemma CompletedTurnsFailed(time: Time, error: string) returns (events: seq<Event>, e: Event)
    ensures After(events).server.phase == Completed && After(events).configMaps == 1
    ensures After(events + [e]).server.phase == Failed && After(events + [e]).ending == ReturnedNil
  {
    var ok := RecCall(Ok, time, error, false);
    var lost := RecCall(Lost, time, error, false);
    var got, running, deployed := [ok], [ok] + [ok], [ok] + [ok] + [ok];
    AfterOneMore([], ok);
    assert [] + [ok] == got;
    AfterOneMore(got, ok);
    AfterOneMore(running, ok);
    AfterOneMore(deployed, lost);
    events, e := deployed + [lost], ok;
    AfterOneMore(events, e);
  }

  /** When no reconcile is under way: one that returned without an error has left a terminal
      phase, and the scan is still running only if the last reconcile crashed or could not even
      write its failure. */
  lemma RestingScans(events: seq<Event>)
    requires After(events).rec.Resting?
    ensures var s := After(events);
            && (s.ending == ReturnedNil ==> Terminal(s.server.phase))
            && (s.ending == ReturnedError(true) ==> s.server.phase == Failed)
            && (s.server.phase == Running ==> s.ending == Crashed || s.ending == ReturnedError(false))
  {
    AlwaysInv(events);
  }

  /** Once a scan has a phase and no reconcile is under way, retries write nothing any more. */
  lemma {:induction false} RetriesWriteNothing(events: seq<Event>, more: seq<Event>)
    requires After(events).rec.Resting? && After(events).server.phase != Unset
    ensures var s, t := After(events), After(events + more);
            t.rec.Resting? && SameProgress(t.server, s.server) && t.configMaps == s.configMaps && t.ending == s.ending
  {
    if more == [] {
      assert events + more == events;
    } else {
      var init := more[..|more| - 1];
      RetriesWriteNothing(events, init);
      assert (events + more)[..|events + more| - 1] == events + init;
    }
  }

  // ---------------------------------------------------------------- the two writers

  function BlindStatus(s: ScanStatus): ScanStatus { s.(rulesets := [], outputs := []) }

  function BlindRec(r: Rec): Rec {
    match r
    case Resting => Resting
    case Starting(local) => Starting(BlindStatus(local))
    case Deploying(local) => Deploying(BlindStatus(local))
    case Completing(local) => Completing(BlindStatus(local))
    case Failing(local) => Failing(BlindStatus(local))
  }

  /** A state without everything that comes from the exporter. */
  function Blind(s: State): State {
    State(BlindStatus(s.server), s.configMaps, BlindRec(s.rec), NotExporting, s.ending)
  }

  /** The events of the reconciler alone. */
  function WithoutExporter(events: seq<Event>): seq<Event> {
    if events == [] then []
    else
      var e := events[|events| - 1];
      WithoutExporter(events[..|events| - 1]) + if e.ExpCall? || e.ExpRestart? then [] else [e]
  }

  lemma ExporterIsInvisible(s: State, e: Event)
    requires e.ExpCall? || e.ExpRestart?
    ensures Blind(Next(s, e)) == Blind(s)
  {
  }

  lemma PatchIsBlind(o: Outcome, local: ScanStatus, edited: ScanStatus, server: ScanStatus)
    requires SameResults(local, edited)
    ensures BlindStatus(AfterPatch(o, MergeFrom(local, edited), server)) ==
            AfterPatch(o, MergeFrom(BlindStatus(local), BlindStatus(edited)), BlindStatus(server))
  {
  }

  lemma ReconcilerIsBlind(s: State, e: Event)
    requires e.RecCall? || e.RecRestart?
    ensures Blind(Next(s, e)) == Next(Blind(s), e)
  {
    if e.RecCall? {
      match s.rec
      case Starting(local) => PatchIsBlind(e.outcome, local, RunningEdit(local, e.time), s.server);
      case Completing(local) => PatchIsBlind(e.outcome, local, CompletedEdit(local, e.time), s.server);
      case Failing(local) => PatchIsBlind(e.outcome, local, FailedEdit(local, e.error, e.time), s.server);
      case _ =>
    }
  }

  /** To the reconciler, a run with an exporter looks like the run without it. */
  lemma {:induction false} ExporterDoesNotInterfere(events: seq<Event>)
    ensures Blind(After(events)) == After(WithoutExporter(events))
  {
    if events != [] {
      var init, e := events[..|events| - 1], events[|events| - 1];
      ExporterDoesNotInterfere(init);
      if e.ExpCall? || e.ExpRestart? {
        ExporterIsInvisible(After(init), e);
        assert WithoutExporter(events) == WithoutExporter(init);
      } else {
        ReconcilerIsBlind(After(init), e);
        assert WithoutExporter(events)[..|WithoutExporter(events)| - 1] == WithoutExporter(init);
      }
    }
  }

  /** The results that the server was made to store, in their order. */
  function Exports(events: seq<Event>): seq<(seq<RulesetSummary>, seq<OutputStatus>)> {
    if events == [] then []
    else
      var init, e := events[..|events| - 1], events[|events| - 1];
      var exp := After(init).exp;
      Exports(init) +
      if e.ExpCall? && exp.Exporting? && e.outcome != Refused then [(e.rulesets, e.outputs)] else []
  }

  /** The reconciler never touches the results of an export. */
  lemma ReconcilerKeepsResults(s: State, e: Event)
    requires Inv(s) && (e.RecCall? || e.RecRestart?)
    ensures SameResults(Next(s, e).server, s.server)
  {
  }

  /** The results on the server are those of the last export that it was made to store. */
  lemma {:induction false} ResultsAreLastExport(events: seq<Event>)
    ensures var server, xs := After(events).server, Exports(events);
            if xs == [] then server.rulesets == [] && server.outputs == []
            else (server.rulesets, server.outputs) == xs[|xs| - 1]
  {
    if events != [] {
      var init, e := events[..|events| - 1], events[|events| - 1];
      ResultsAreLastExport(init);
      AlwaysInv(init);
      if e.RecCall? || e.RecRestart? { ReconcilerKeepsResults(After(init), e); }
    }
  }

  /** Interleaving does not matter: two runs in which the reconciler makes the same calls and the
      same export is stored last end with the same status. */
  lemma InterleavingsAgree(events1: seq<Event>, events2: seq<Event>)
    requires WithoutExporter(events1) == WithoutExporter(events2)
    requires var xs, ys := Exports(events1), Exports(events2);
             (xs == [] && ys == []) || (xs != [] && ys != [] && xs[|xs| - 1] == ys[|ys| - 1])
    ensures After(events1).server == After(events2).server
  {
    ExporterDoesNotInterfere(events1);
    ExporterDoesNotInterfere(events2);
    ResultsAreLastExport(events1);
    ResultsAreLastExport(events2);
    assert BlindStatus(After(events1).server) == BlindStatus(After(events2).server);
  }
}
