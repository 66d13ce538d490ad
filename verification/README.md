# diki-operator: a verified model

This project models the control loops of the Gardener diki-operator in Dafny and proves what they
guarantee when API calls fail, responses get lost, processes restart and other writers interfere.

    dafny verify dfyconfig.toml

## What is modelled

**Scheduling** (`SchedulingProtocol`, `SchedulingInvariant`, `SchedulingResults`,
`SchedulingHistory`, `SchedulingCleanUp`, `SchedulingIdempotence`, `SchedulingWitness`,
`ScheduledReconciler`). The controller of a ScheduledComplianceScan is a transition system. The
world is the parent's status, its child scans and a clock. A reconcile is a process with a program counter and local snapshots;
each step is one API call or one clock reading. A call succeeds, is refused, or takes effect while
its caller is told that it failed. Between any two steps the clock may pass, children may advance,
the process may restart and, if `Config.deletions` is set, somebody may delete children. The results
are stated over all runs. `ScheduledReconciler` is the reconcile loop in its imperative form: an
object edited in place, deep copies as patch bases, loops that categorise, sort and delete. Each of
its executions extends a run of the protocol and returns what the last step of that run calls for;
in a cluster in which no call fails, it meets no fault either unless the child cannot be created.

**One scan** (`ScanProtocol`, `ScanReconciler`, `Conditions`, `ConditionHistory`). The reconciler
writes phase and conditions, the report exporter writes summaries and output statuses, both as JSON
merge patches (section 2 of RFC 7396) against their own snapshot. `ScanReconciler` holds both
writers in imperative form, with conditions as Go slices over shared backing arrays, so that the
patch base is proved not to be aliased by the in-place edits.

**Exporting** (`FanOut`, `Report`). The goroutines, wait group and buffered channel of one export as
a protocol, and the summary of a report with its 32-bit counters.

**Configuration and admission** (`DikiConfig`, `Admission`). The option lookups of the config
deployer, which stops at the first error, and the webhook check of the same references, which
collects all errors.

**Names** (`ChildNames`). Child names from a parent name and a Unix time.

## Assumptions

- Reads are fresh: the informer cache is not modelled.
- One scheduled reconcile runs at a time (internal/reconciler/scheduledcompliancescan/add.go:27), and
  one scan is never reconciled twice at the same time.
- There is one monotone clock in whole seconds, within the range of a 64-bit integer. The creation
  time that the server assigns lies between the clock reading of the reconcile and the present.
- The spec of a parent is fixed over a run, and nobody else creates children with its labels.
- A schedule is a function that gives a later time no earlier next fire time: cron expressions,
  fixed intervals (`@every`), and expressions that never fire, for which the library returns the
  zero time. What holds only of cron expressions says so (`HasFireTimes`). An expression that does
  not parse is an absent schedule. Fire times more than five years apart, between which the library
  gives up and returns the zero time, are excluded.
- History limits are not negative (pkg/apis/diki/v1alpha1/types_scheduledcompliancescan.go:53,58); an
  absent limit is 0, as in the code.
- One exporter works on a scan at a time. With two that started from the same status, an export equal
  to that status patches nothing and the other one stays.
- An API call takes effect atomically, at the time of the call.
- The server accepts a new child or not by its name (`Config.accepts`, any function). `Validates`
  makes this the validation of Kubernetes: the child's name must be a DNS subdomain, and the
  parent's name, which is the value of one of its labels, must not exceed 63 characters.
- Object names are ASCII. Times are Unix seconds; Go's zero time is that of the year 1.

## What the proofs found

- **Two runs in one cron slot.** The comment at reconciler.go:78-80 presents the recovery of an
  unrecorded child as the answer to a failed status patch. It is one only while the child is
  unfinished: if the status patch after a Create is not applied and the child is over before the
  next list, the parent runs again within the same slot. `TwoStartsInOneSlotHappen` gives the run;
  `SecondStartInSlotIff` proves that this is the only way.
- **Dotted and long parent names.** The truncation in utils.go:96-98 can cut a parent name behind a
  dot. The child name is then no valid object name. `ChildNameIsValidIff` gives the exact condition,
  `DottedParentNeverStarts` a family of parents that never get a child. A parent whose name is
  longer than a label value may be gets no child either, although the truncation is there for long
  names (`CanHaveChildIff`, `StartsAreAccepted`).
- **Deletion by name.** The clean-up deletes by name. If somebody else deletes a listed child and the
  reconcile creates one of the same name in the same second, the clean-up can delete the new child,
  which the status names as active. A call does so exactly when the child's unique identifier is not
  the listed one (`CleanUpSparesTheActiveChild`), so that a precondition on the identifier would rule
  it out. A history limit of two or more protects the active child even so
  (`LimitsProtectTheActiveChild`); with a limit of zero or one it can be hit, with one through a tie
  of creation times (`CleanUpHitsTheActiveChild`). `ActiveChildCanBeHitIff` puts both together.
- **Schedules that do not fire.** An expression such as `0 0 30 2 *` parses and never fires. Its next
  fire time, the zero time, is over, so that every time is due: each undisturbed reconcile leaves an
  unfinished scan (`NeverFiringKeepsScanning`), and since the end of a child triggers the next
  reconcile
  (internal/reconciler/scheduledcompliancescan/add.go:40-43), scans run back to back. No call needs to fail for that
  (`StartsWithoutFireTimeHappen`). A start after a recorded schedule time comes at a fire time exactly
  if the schedule fires after that time, which a guard before the Create could check
  (`StartsAtFireTimeIff`). The delay that the reconcile returns is then zero
  (`WakesUpAtNextFireTime`); it plays no part.
- **Completed scans that fail.** A scan can turn from Completed to Failed: when the response to its
  last patch is lost, the compensating patch is applied (`CompletedTurnsFailedIff`,
  `CompletedTurnsFailed`).
- **A stricter webhook.** References of rulesets that the controller does not support are checked
  although they are never looked up. `DeniedButDeployableIff` gives the exact condition. In turn the
  webhook does not decode the texts that it finds; an allowed scan deploys exactly when those of its
  supported rulesets decode (`AllowedScansDeploy`).
- **Counters.** The counters of a summary are 32 bits wide and exact up to 2^31 - 1 rules
  (`CounterIsExactIff`).

## Model

| member | source | states |
|---|---|---|
| Schedules.NextIsLeastFireTime | internal/reconciler/scheduledcompliancescan/reconciler.go:103-106 | for a schedule with fire times of its own, the next one lies after the given time and no other lies between |
| SchedulingInvariant.StepKeepsInv | internal/reconciler/scheduledcompliancescan/reconciler.go:31-137 | every step, whatever its outcome, keeps the invariant of children, history, status times, cron slots and local snapshots |
| SchedulingInvariant.RunKeepsInv | internal/reconciler/scheduledcompliancescan/reconciler.go:31-137 | every state of every run satisfies the invariant |
| SchedulingResults.AtMostOneActive | internal/reconciler/scheduledcompliancescan/reconciler.go:51-63 | in every state of every run at most one child is unfinished |
| SchedulingResults.NoStartWhileActive | internal/reconciler/scheduledcompliancescan/reconciler.go:89-120 | a child is created only while all others are over and the server names none as active |
| SchedulingResults.TwoStartsInOneSlot | internal/reconciler/scheduledcompliancescan/reconciler.go:78-120 | two starts fall into one cron slot only if no status naming the first was applied up to the second start, and the first was over by then |
| SchedulingResults.RecordedStartsKeepTheirSlots | internal/reconciler/scheduledcompliancescan/reconciler.go:99-120 | every start after a recorded one comes at or after the fire time that follows that one |
| SchedulingResults.SecondStartInSlotIff | internal/reconciler/scheduledcompliancescan/reconciler.go:78-107 | a reconcile that decides within the slot of the newest start begins a second one exactly when the first was never recorded |
| SchedulingWitness.TwoStartsInOneSlotHappen | internal/reconciler/scheduledcompliancescan/reconciler.go:109-120 | a run with a failed status patch in which the first of two starts in one slot is never recorded and is over |
| SchedulingResults.LastScheduleNeverDecreases | internal/reconciler/scheduledcompliancescan/utils.go:26-39 | over any run the last schedule time is never unset again and never decreases |
| SchedulingResults.StatusTimesAlternate | internal/reconciler/scheduledcompliancescan/reconciler.go:67-87 | with an active reference the last schedule time is set and not before the last completion; without one a set schedule time is followed by a completion time |
| SchedulingResults.ActiveNamesTheActiveChild | internal/reconciler/scheduledcompliancescan/reconciler.go:67-91 | if the active reference is set and a child is unfinished, the reference names that child, by name and unique identifier |
| SchedulingResults.OrphanIsRecorded | internal/reconciler/scheduledcompliancescan/reconciler.go:78-87 | a reconcile that lists an unrecorded unfinished child and whose next call succeeds has recorded it, at its creation time |
| SchedulingResults.CompletionIsRecorded | internal/reconciler/scheduledcompliancescan/reconciler.go:68-74 | an applied patch for an active scan that is over unsets the reference, sets the completion time to the clock reading of the reconcile, and leaves the schedule time |
| SchedulingResults.StartIsRecorded | internal/reconciler/scheduledcompliancescan/reconciler.go:109-120 | an applied patch after a Create names the new child with the clock reading as schedule time, and leaves the completion time |
| SchedulingResults.FailedCallsEndTheReconcile | internal/reconciler/scheduledcompliancescan/reconciler.go:35-124 | a call that does not succeed ends the reconcile, except for a deletion, after which the next one follows |
| SchedulingCleanUp.CleanUpSparesTheActiveChild | internal/reconciler/scheduledcompliancescan/utils.go:78-88 | a clean-up call deletes the child named as active exactly if its unique identifier is not the listed one, which takes deletions by others; any other child that it deletes is over |
| SchedulingCleanUp.LimitsProtectTheActiveChild | internal/reconciler/scheduledcompliancescan/utils.go:78-100 | from 1970 on, a clean-up call can delete the active child only in a phase whose history limit is zero or one |
| SchedulingWitness.ActiveChildCanBeHitIff | internal/reconciler/scheduledcompliancescan/utils.go:78-100 | for a parent named by one label, a run in which the active child is deleted exists exactly if there is a schedule, a limit of zero or one, and others delete children |
| SchedulingWitness.CleanUpHitsTheActiveChild | internal/reconciler/scheduledcompliancescan/utils.go:78-100 | for either phase with a limit of zero or one, a run in which a deletion by somebody else makes the clean-up delete the active child |
| SchedulingResults.WakesUpAtNextFireTime | internal/reconciler/scheduledcompliancescan/reconciler.go:126-136 | at the end of a reconcile the schedule time is set; the delay is positive exactly if the schedule fires again, and then ends at the fire time after the schedule time; no cron fire time is slept past |
| SchedulingResults.StartsAtFireTimeIff | internal/reconciler/scheduledcompliancescan/reconciler.go:99-107 | a start after a recorded schedule time comes at or after a fire time that follows it exactly if the schedule has one |
| SchedulingResults.NeverFiringAlwaysStarts | internal/reconciler/scheduledcompliancescan/reconciler.go:99-107 | with a schedule that never fires, every reconcile that decides starts a scan |
| SchedulingIdempotence.NeverFiringKeepsScanning | internal/reconciler/scheduledcompliancescan/reconciler.go:51-136 | with such a schedule every undisturbed reconcile leaves an unfinished scan |
| SchedulingWitness.StartsWithoutFireTimeHappen | internal/reconciler/scheduledcompliancescan/reconciler.go:67-120 | for a schedule that does not fire after a time, a run without any fault in which a recorded start at that time is followed by another one a second later |
| SchedulingResults.StartsHaveNames | internal/reconciler/scheduledcompliancescan/utils.go:41-44 | every child of a run has the name that follows from its parent and the clock reading that asked for it |
| SchedulingResults.StartsAreAccepted | internal/reconciler/scheduledcompliancescan/utils.go:41-51 | only a parent whose name fits into a label value has children, and only at times at which its name is not cut behind a dot |
| SchedulingHistory.ExcessIsOldest | internal/reconciler/scheduledcompliancescan/utils.go:72-88 | a clean-up of n scans plans max(n - limit, 0) deletions, keeps min(limit, n) scans, and deletes none newer than one it keeps |
| SchedulingHistory.CleanUpDeletesTheExcess | internal/reconciler/scheduledcompliancescan/utils.go:78-88 | over a whole clean-up, whoever else deletes children, the calls are max(n - limit, 0) and name only the planned excess; if none fails none of it is left; without deletions by others all other children are |
| SchedulingHistory.OneReconcileRepairs | internal/reconciler/scheduledcompliancescan/reconciler.go:109-124 | from any world at all, a reconcile that comes to its end without a fault leaves at most the two limits plus one children, whatever failed before |
| SchedulingHistory.EachLimitIsKept | internal/reconciler/scheduledcompliancescan/reconciler.go:122-124 | such a reconcile leaves no more of the listed completed scans than the limit for successful ones, and no more of the failed ones than the limit for those |
| SchedulingHistory.HistoryIsBounded | internal/reconciler/scheduledcompliancescan/reconciler.go:109-124 | without faults every reconcile ends with at most the two limits plus one children, and never has more than one above that |
| SchedulingIdempotence.SettledCycleWritesNothing | internal/reconciler/scheduledcompliancescan/reconciler.go:51-136 | an undisturbed reconcile of a settled world writes nothing |
| SchedulingIdempotence.CycleSettles | internal/reconciler/scheduledcompliancescan/reconciler.go:51-136 | an undisturbed reconcile of any world leaves a settled world |
| SchedulingIdempotence.SecondReconcileWritesNothing | internal/reconciler/scheduledcompliancescan/reconciler.go:51-136 | from any world at all, a second undisturbed reconcile at the same time creates, patches and deletes nothing |
| ScheduledReconciler.SetActiveScan | internal/reconciler/scheduledcompliancescan/utils.go:26-39 | the patch names the child and the schedule time, and on success the local copy is the server's status |
| ScheduledReconciler.Cluster.PatchStatus | internal/reconciler/scheduledcompliancescan/reconciler.go:69-74 | the server's status changes by the merge patch from base to edited object, or not at all, and a success is only reported if it did |
| ScheduledReconciler.Cluster.Create | internal/reconciler/scheduledcompliancescan/utils.go:65-69 | a child that the server accepts appears with no phase, the given name and a creation time between the clock reading and the present, or nothing happens |
| ScheduledReconciler.Cluster.Delete | internal/reconciler/scheduledcompliancescan/utils.go:82-86 | the named child goes or nothing happens, and an absent one counts as deleted |
| ScheduledReconciler.SortByCreationTimestamp | internal/reconciler/scheduledcompliancescan/utils.go:72-76 | the array is a permutation of what it was, sorted by creation time |
| ScheduledReconciler.SortedIsCreationOrder | internal/reconciler/scheduledcompliancescan/utils.go:72-79 | a sorted list of the children of one phase lists each of them once, none before an older one |
| ScheduledReconciler.CleanUpOldScans | internal/reconciler/scheduledcompliancescan/utils.go:78-88 | the loop stays within the sorted list and takes the protocol from its plan through every deletion of it |
| ScheduledReconciler.Categorize | internal/reconciler/scheduledcompliancescan/reconciler.go:51-63 | the lists are the completed and the failed children in list order, the active scan is the last unfinished one, and there is one exactly if some child is unfinished |
| ScheduledReconciler.ClearActiveScan | internal/reconciler/scheduledcompliancescan/reconciler.go:67-76 | the reference is cleared with the completion time, and the decision that follows is made on the server's response |
| ScheduledReconciler.RecoverActiveScan | internal/reconciler/scheduledcompliancescan/reconciler.go:78-87 | the unrecorded child is named as active at its creation time, and the reconcile asks for another one in a minute |
| ScheduledReconciler.StartScan | internal/reconciler/scheduledcompliancescan/reconciler.go:109-120 | create, then record; a failure of either ends the reconcile with an error |
| ScheduledReconciler.FollowSchedule | internal/reconciler/scheduledcompliancescan/reconciler.go:99-136 | start if due, clean up both lists, and return the delay to the next fire time |
| ScheduledReconciler.Finish | internal/reconciler/scheduledcompliancescan/reconciler.go:126-136 | the delay returned is the one that the protocol's end calls for |
| ScheduledReconciler.AsksAgainInAMinute | internal/reconciler/scheduledcompliancescan/reconciler.go:81-91 | a reconcile that lists an unfinished child and fails no call asks for another one after 60 seconds |
| ScheduledReconciler.AsksForTheFireTime | internal/reconciler/scheduledcompliancescan/reconciler.go:126-136 | a reconcile that reaches its end asks for the fire time after the schedule time, or for nothing if there is none any more |
| ScheduledReconciler.StopsWithoutSchedule | internal/reconciler/scheduledcompliancescan/reconciler.go:93-97 | without a schedule that parses, a reconcile that finds no unfinished child asks for nothing |
| ScheduledReconciler.Reconcile | internal/reconciler/scheduledcompliancescan/reconciler.go:31-137 | every execution extends the run to the end of a reconcile and returns what its last step calls for; where calls succeed, there is no fault unless the child's name is taken or not accepted |
| ChildNames.ParentBoundIsPositive | internal/reconciler/scheduledcompliancescan/utils.go:94-95 | for every 64-bit time at least 42 characters are left for the parent's name |
| ChildNames.ChildName | internal/reconciler/scheduledcompliancescan/utils.go:93-100 | never more than 63 characters, and the truncation stays within the parent's name |
| ChildNames.ChildNameKeepsParent | internal/reconciler/scheduledcompliancescan/utils.go:93-100 | the name is the suffix behind a prefix of the parent's name, min(63, both lengths) long in all, and behind all of it for parents of up to 42 characters |
| ChildNames.ParentsCollideIff | internal/reconciler/scheduledcompliancescan/utils.go:93-100 | two parents get the same name at one time exactly if they are the same up to the truncation |
| ChildNames.ChildNameEndsInTime | internal/reconciler/scheduledcompliancescan/utils.go:93-100 | from 1970 on, what follows the last dash parses back to the start time |
| ChildNames.ChildNameIsInjective | internal/reconciler/scheduledcompliancescan/utils.go:93-100 | from 1970 on, the children of one parent have different names for different times |
| ChildNames.ChildNameIsValidIff | internal/reconciler/scheduledcompliancescan/utils.go:90-100 | a valid parent name gives a valid child name exactly when it is not cut behind a dot |
| ChildNames.CanHaveChildIff | internal/reconciler/scheduledcompliancescan/utils.go:42-47 | a parent with a valid name can have a child exactly if its name fits into a label value and is not cut behind a dot |
| ChildNames.LabelParentGivesLabelChild | internal/reconciler/scheduledcompliancescan/utils.go:90-100 | a parent whose name is one label always gets children whose names are one label |
| ChildNames.DottedParentNeverStarts | internal/reconciler/scheduledcompliancescan/utils.go:96-98 | valid parent names all of whose children from 2001 to 2286 have invalid names |
| Conditions.ConditionBuilder.WithOldCondition | pkg/apis/diki/v1alpha1/helper/condition_builder.go:37-42 | the old condition is stored under the builder's type |
| Conditions.ConditionBuilder.Build | pkg/apis/diki/v1alpha1/helper/condition_builder.go:73-102 | defaults from request, old condition and constants; transition time moves with the status, update time with reason or message; the flag says whether anything changed |
| Conditions.UpdateConditions | pkg/apis/diki/v1alpha1/helper/compliancescan.go:14-30 | in place in the backing array, the first condition of the type is rebuilt or a new one comes last, and nothing else changes |
| ConditionHistory.ReplayRepresents | pkg/apis/diki/v1alpha1/helper/compliancescan.go:14-30 | after any sequence of updates each type occurs once, with the latest status and text and the times of the last changes of status and text |
| ConditionHistory.OthersUntouched | pkg/apis/diki/v1alpha1/helper/compliancescan.go:21-26 | conditions of other types stay as and where they are |
| ConditionHistory.RepeatedUpdateIsNoOp | pkg/apis/diki/v1alpha1/helper/condition_builder.go:93-101 | repeating an update at any later time changes nothing |
| ScanProtocol.AlwaysInv | internal/reconciler/compliancescan/reconciler.go:45-93 | every run of reconciler and exporter keeps the invariant of phase, conditions, configurations and snapshots |
| ScanProtocol.PhaseAndConditionsAgree | internal/reconciler/compliancescan/reconciler.go:50-89 | after every event of every run the conditions are exactly those of the phase, and at most one configuration was ever created |
| ScanProtocol.PhaseAdvances | internal/reconciler/compliancescan/utils.go:22-44 | the phase moves only forward, and a terminal phase never becomes another kind of phase |
| ScanProtocol.CompletedTurnsFailedIff | internal/reconciler/compliancescan/reconciler.go:87-89 | an event takes the phase Completed away exactly if it is an applied Failed patch, and leaves Failed |
| ScanProtocol.CompletedTurnsFailed | internal/reconciler/compliancescan/reconciler.go:76-89 | a run in which the response to the Completed patch is lost and the scan ends as Failed, without an error |
| ScanProtocol.RestingScans | internal/reconciler/compliancescan/utils.go:37-43 | a reconcile without an error leaves a terminal phase; an idle scan is still running only after a crash or a Failed patch that was not applied |
| ScanProtocol.RetriesWriteNothing | internal/reconciler/compliancescan/reconciler.go:45-48 | whatever happens to an idle scan with a phase, the reconciler writes nothing more |
| ScanProtocol.FailuresAreCompensated | internal/reconciler/compliancescan/reconciler.go:61-93 | each step of the reconciler goes on to the next one, or to marking the scan as failed exactly if something went wrong |
| ScanProtocol.RunningPatchTells | internal/reconciler/compliancescan/reconciler.go:50-63 | an applied Running patch leaves the phase and one condition with this status, reason, message and time |
| ScanProtocol.CompletedPatchTells | internal/reconciler/compliancescan/reconciler.go:76-89 | an applied Completed patch leaves the phase and one condition with this status, reason, message and time |
| ScanProtocol.FailedPatchTells | internal/reconciler/compliancescan/utils.go:22-44 | an applied Failed patch leaves the phase and one condition, with the text of the error in its message |
| ScanProtocol.CompletedIsNotExported | internal/component/reportexporter/report_exporter.go:53-57 | for a completed scan no export begins |
| ScanProtocol.ExporterDoesNotInterfere | internal/component/reportexporter/report_exporter.go:105-111 | without the exporter's fields, a run with exports is the run without them |
| ScanProtocol.ResultsAreLastExport | internal/component/reportexporter/report_exporter.go:105-111 | the results on the server are those of the last export that was stored, whatever the reconciler patched |
| ScanProtocol.InterleavingsAgree | internal/component/reportexporter/report_exporter.go:105-111 | all interleavings of the same reconciler calls with the same last export end in the same status |
| ScanReconciler.DeleteConditions | internal/reconciler/compliancescan/utils.go:33-35 | the others move forward in order, the places that become free are zeroed, the rest of the array is untouched |
| ScanProtocol.WithoutIsFilter | internal/reconciler/compliancescan/utils.go:33-35 | the others are found part by part and put together in their order |
| ScanProtocol.WithoutOne | internal/reconciler/compliancescan/utils.go:33-35 | one condition goes exactly if it is of the type |
| ScanReconciler.EditFailed | internal/reconciler/compliancescan/utils.go:24-35 | the edits of a failed scan, made in its own backing array or in a new one |
| ScanReconciler.HandleFailedScan | internal/reconciler/compliancescan/utils.go:22-44 | the server's phase is Failed if nil is returned, and otherwise the ending says whether the patch was applied |
| ScanReconciler.DeployDikiConfigMap | internal/reconciler/compliancescan/dikiconfig.go:24-103 | success means that all lookups succeeded and one configuration was created; where calls succeed, it succeeds exactly if the lookups do |
| ScanReconciler.ComplianceScan.DeepCopy | internal/reconciler/compliancescan/reconciler.go:51 | an equal patch base that shares no memory with the scan that is edited |
| ScanReconciler.MarkRunning | internal/reconciler/compliancescan/reconciler.go:50-63 | the step is the protocol's patch to Running, although the conditions are edited in place |
| ScanReconciler.MarkCompleted | internal/reconciler/compliancescan/reconciler.go:76-91 | the step is the protocol's patch to Completed |
| ScanReconciler.Reconcile | internal/reconciler/compliancescan/reconciler.go:32-94 | extends the run; no error on a new scan means a terminal phase, a scan with a phase is left alone, and where calls succeed the scan completes if its options can be read and fails otherwise |
| ScanReconciler.Export | internal/component/reportexporter/report_exporter.go:42-114 | on success the server holds the report's summaries and one status for each configured output name, completed or failed as its export was; a completed scan is refused, and each refusal has its cause |
| ScanReconciler.PatchResults | internal/component/reportexporter/report_exporter.go:105-111 | the patch stores exactly the summaries and statuses, whatever the reconciler did meanwhile |
| FanOut.CreateOutputs | internal/component/reportexporter/report_exporter.go:116-134 | an entry that cannot be used fails the whole; otherwise one output for each name, the last entry counts |
| FanOut.StepKeepsInv | internal/component/reportexporter/report_exporter.go:69-103 | every step of every goroutine keeps the wait group equal to its members and the statuses equal to the outputs delivered |
| FanOut.ExecutionsAreSafe | internal/component/reportexporter/report_exporter.go:69-103 | in every interleaving no send waits or follows the close, the wait group never goes below zero, and until the end some goroutine can go on |
| FanOut.ExecutionsTerminate | internal/component/reportexporter/report_exporter.go:69-103 | no interleaving takes more than five steps for each output and four more |
| FanOut.FinishedHasAllStatuses | internal/component/reportexporter/report_exporter.go:81-103 | in the end there is one status for each output, completed with the details of its export or failed with its error |
| FanOut.SchedulesAgree | internal/component/reportexporter/report_exporter.go:69-103 | any two finished interleavings deliver the same multiset of statuses |
| FanOut.ExportAll | internal/component/reportexporter/report_exporter.go:69-103 | goroutines scheduled in any order deliver one status for each output, completed with its details or failed with its error |
| Report.NumOfRulesWithStatus | internal/component/reportexporter/utils.go:81-92 | the number of rules with a check of the status, as a 32-bit integer |
| Report.RulesetSummaryCount | internal/component/reportexporter/utils.go:56-79 | each counter counts its own status if the library lists that status |
| Report.CountersTell | internal/component/reportexporter/utils.go:56-79 | below 2^31 rules each of the six counters is the number of rules with a check of its own status |
| Report.GetRulesetFindingsByStatus | internal/component/reportexporter/utils.go:42-54 | the findings are those of the rules with a check of the status |
| Report.CreateRulesetSummaries | internal/component/reportexporter/utils.go:17-40 | one summary for each ruleset of each provider |
| Report.SummaryTells | internal/component/reportexporter/utils.go:22-33 | a summary carries the ruleset's identifier and version and the findings of three statuses, each under its own name |
| Report.FindingsKeepOrder | internal/component/reportexporter/utils.go:42-54 | findings correspond one to one, in order, to the positions of the rules with a check of the status, and have their identifiers and names |
| Report.SummaryIsConsistent | internal/component/reportexporter/utils.go:28-33 | below 2^31 rules the counters equal the lengths of the findings, and the six of them add up to the pairs of rule and status that occur |
| Report.CounterIsExactIff | internal/component/reportexporter/utils.go:81-92 | a counter is exact exactly while it is below 2^31 |
| Report.SummariesFollowReport | internal/component/reportexporter/utils.go:20-37 | there are as many summaries as rulesets, and that of every ruleset stands behind those of all rulesets before it |
| DikiConfig.BuildDikiConfig | internal/reconciler/compliancescan/dikiconfig.go:30-72 | the loop builds the entries of all supported rulesets or stops at the first error |
| DikiConfig.EntriesFollowSpec | internal/reconciler/compliancescan/dikiconfig.go:30-72 | a configuration has one entry for each supported ruleset, in the order of the spec, with its identifier, name and version, and with the two texts that its references point to: at the explicit key if there is one, and at the default key otherwise |
| DikiConfig.LookupTells | internal/reconciler/compliancescan/dikiconfig.go:141-163 | a lookup gives the text at the explicit key, or else at the default key, and fails exactly if there is none, with its cause |
| DikiConfig.OptionsTell | internal/reconciler/compliancescan/dikiconfig.go:105-139 | options are read exactly if their reference, if any, resolves and its text decodes |
| DikiConfig.FailureIsFirstError | internal/reconciler/compliancescan/dikiconfig.go:31-60 | a failure is that of the first supported ruleset whose options cannot be read, rule options before ruleset options, with its cause |
| Admission.ValidateConfigMapReference | internal/webhook/compliancescan/handler.go:89-115 | no error exactly when the ConfigMap is found and has the explicit key, or else the default key; otherwise one error for the field that names its cause |
| Admission.Handle | internal/webhook/compliancescan/handler.go:34-86 | the answer to every request; the errors of a denied Create correspond one to one, in order, to the references that cannot be resolved |
| Admission.DenialTells | internal/webhook/compliancescan/handler.go:57-81 | a denial lists, in the order of the spec, one error for every reference without its key, with ruleset, field and cause, and no others |
| Admission.OtherAnswers | internal/webhook/compliancescan/handler.go:40-49 | an Update is allowed exactly if it leaves the spec alone, and other requests always |
| Admission.AllowedIffResolved | internal/webhook/compliancescan/handler.go:51-83 | a Create is allowed exactly when every referenced key can be read |
| Admission.DeployableIff | internal/reconciler/compliancescan/dikiconfig.go:30-72 | the deployment succeeds exactly when every key referenced by a supported ruleset can be read and its text decodes |
| Admission.AllowedScansDeploy | internal/reconciler/compliancescan/dikiconfig.go:105-163 | while the ConfigMaps stay unchanged no lookup fails for an allowed scan, and it deploys exactly when its supported texts decode |
| Admission.AllowedIffDeployable | internal/webhook/compliancescan/handler.go:51-83 | for supported rulesets, what can be deployed is exactly what the webhook allows and decodes |
| Admission.DeniedButDeployableIff | internal/webhook/compliancescan/handler.go:57-77 | a deployable scan is denied exactly when an unsupported ruleset has a reference that cannot be resolved |
| Admission.UnsupportedIsStricter | internal/webhook/compliancescan/handler.go:57-77 | a scan that is denied although its configuration can be deployed |
| Admission.SpecNeverChanges | internal/webhook/compliancescan/handler.go:40-49 | no sequence of updates changes an admitted spec |
| Admission.AdmittedScansDeployForLife | internal/webhook/compliancescan/handler.go:40-83 | at any time in the life of an admitted scan no lookup of its deployment fails, and it deploys exactly when its supported texts decode |

## Left out

- The deletion of parents and scans themselves: a Get that finds nothing ends the reconcile at once.
- A write that takes effect only after its caller has gone on: calls are atomic.
- The order of scans with the same creation time: the library sort is unstable, and every order is covered.
- The comparison of the `active` reference inside a merge patch: it is replaced as a whole, while the patch could name only its changed fields.
- Parsing of cron expressions: library code.
- YAML and JSON: decoding either succeeds or fails, and the encoding of the configuration always succeeds.
- `ConfigMapExporter.Export`, reading the report file, compression: an export succeeds with details or fails.
- Labels other than as a reason to reject a child, owner references, namespaces and generated names of created objects, the scan template, and the config's provider entry: fixed data.
- Texts of errors and log lines, and the rendering of admission errors into one message.
- Semantic equality of specs is equality of values.
- ScanProtocol.RestingScans: says nothing about a scan whose process crashed, which may rest at Running for good; no retry repairs it.
- SchedulingHistory.HistoryIsBounded: is about runs without faults; with faults the number of children has no bound until a reconcile comes to its end without one (`OneReconcileRepairs`).
- One API server for all parents and scans: each parent and each scan has a server of its own, and the two protocols are joined only by the phases that a child can go through.
- ConditionHistory.ReplayRepresents: is about updates with a status, a reason, a message and a time other than the zero time, the only ones the operator makes.
- Workqueues, rate limits, leader election, timeouts, and liveness under unbounded faults: decided by controller-runtime.
- Command-line options, manager setup, defaults, validation of the component configuration, generated code and Helm charts.
