# hotswap-operator: a verified model

hotswap-operator probes the pods of a Deployment over HTTP and, when a pod regresses,
restarts the Deployment or deletes the pod. This project models its three interacting
pieces in Dafny and proves what they guarantee over whole runs, pairs of runs and all
interleavings:

- **the prober** (`internal/prober/prober.go`): the per-pod threshold machine (`Hysteresis`),
  the health table with its probe goroutines as a state machine whose traces are arbitrary
  interleavings (`ProberTable`, `ProbeHistory`, `LateResults`, `ProbeLife`,
  `ProberEvents`), and the `Manager` class whose
  methods are proved to be the steps of that machine (`ProberManager`);
- **the reconciler** (`internal/controller/hotswappolicy_controller.go`): one reconcile as a
  function `Step` of the persisted status and of everything it reads (`Conditions`, `Guardian`,
  `Remediation`, `Reconcile`), the imperative `HotSwapPolicy.Reconcile` proved equal to it
  (`Reconciler`), and the properties of runs of reconciles (`Churn`, `Simulation`, `DryRun`,
  `SnapshotOrder`, `Breaker`, `Bookkeeping`, `ConditionRuns`, `Cadence`, `Rollout`, `Survivors`);
- **the gates** (`internal/controller/logic.go`): defaulting, stability, systemic valve, breaker,
  cooldown, strategy (`Gates`), over Go's wrapping `int32` (`Int32`).

`EndToEnd` and `JointRuns` put prober and reconciler together: the former at any snapshot, the latter over
runs in which only the policy's reconciles shape its table (`Readiness`, `SpecInForce`). `DecisionTable` and
`RemedyTable` are a second, declarative description of a reconcile on the fields of the objects it reads,
proved to be what `Step` does. `Guarding` asks which of several policies'
reconciles gets to act. `Examples` holds concrete inputs; `Realizable` and `RunExamples` show that the
runs made of them are joint runs.

How the source is rendered:

- `probeOnce` is two atomic steps, `ProbeBegin` and `ProbeEnd`, with the HTTP probe between them
  outside the lock; the probe's answer is an arbitrary boolean. A step that is not enabled leaves
  the state unchanged, so every sequence of events is a trace.
- A context is identified by the Sync that made it and its pod, which makes Sync a function
  although the source ranges over a map.
- Results are kept as a function of the trace (`ProbeHistory.History`), not as a field: they are
  the results *recorded on the entry*, since a cancelled prober may still record on an entry that
  a later Sync inserted for the same pod (`LateResults.OwnResultsIff` says exactly when).
- `Reconcile.Env` holds the clock reading, the prober's snapshot, the API's answers (ok, not found,
  error) and the objects read. An action is a change that the API server acknowledged. A `remediate`
  error or a failed status write leaves the persisted status as it was, even if pods are gone.
- A joint run has the reconciles of one policy one after the other, since controller-runtime does not
  reconcile an object twice at a time; other policies' reconciles and all probers interleave freely.
- A run of reconciles is about one policy object and ends with it: a policy created again under the
  same name starts another run, with an empty status.
- Times are whole seconds; `int32` counters wrap.

Where the code and its own comments or documentation disagree, the model follows the code:

- the comment on the event channel speaks of dropped transitions; the send blocks, and only a
  prober whose context is done gives one up (`ProberEvents.ProberLosesNothing`);
- MaxConsecutiveAttempts is documented to trip once that many remediations happen inside the
  cooldown; remediations are a cooldown apart, so the breaker changes only what is reported
  (`Breaker.BreakerMattersIff`, `Breaker.BreakerAbsorbedByCooldown`);
- MaxConcurrent is documented to keep a replica; the systemic valve does (`Survivors.AllDeletedIffValveOff`,
  `Survivors.OnlyTargetDeleted`);
- the circuit gauge is documented as 1 while the breaker is open; it stays 1 through later
  remediations until all targets are healthy (`Bookkeeping.GaugeIff`, `Bookkeeping.GaugeOutlivesBreaker`);
- Forget is documented to stop a deleted policy's probers; a policy deleted without the finalizer, or
  read as not found, is not forgotten (`EndToEnd.DropsProbersIff`, `EndToEnd.LeavesProbersRunning`);
- ConsecutiveFailures is documented to count failures since the last success; it wraps
  (`Hysteresis.ReportedFailures`).

## Model

| member | source | states |
|---|---|---|
| JointRuns.DeletionsAreJustified | internal/controller/hotswappolicy_controller.go:139-279 | in a run where the table is shaped only by the policy's reconciles and each snapshot follows the reconcile's own calls, spec edits included, a reconcile deletes only pods it lists itself as not terminating, that some reconcile listed with its first Ready condition "True" since their insertion, and that the results recorded since then condemn |
| Readiness.SawReadyIff | internal/controller/hotswappolicy_controller.go:158-164 | in such a run, a pod is past its grace if and only if some reconcile listed it with its first Ready condition "True" since its entry was inserted |
| JointRuns.RemediatesIff | internal/controller/hotswappolicy_controller.go:139-237 | in such a run, exactly when a reconcile sets out to remediate: in terms of how many live pods regressed, the fields of the Deployment and the spec, and the run's own past remediations |
| JointRuns.CountsOfRound | internal/controller/hotswappolicy_controller.go:166-184 | what the gates count are the regressed pods, out of those listed and not terminating |
| JointRuns.ConfigOfRound | internal/controller/hotswappolicy_controller.go:110-157 | every config under which such a run probes is the normalized probe of one of its reconciles |
| SpecInForce.ProbesUnderOwnSpec | internal/prober/prober.go:131-272 | from a guarding reconcile's Sync on and until the controller's next calls for the policy, every probe that begins runs under that reconcile's own probe, also for pods probed before |
| JointRuns.RegressedUnderSpec | internal/prober/prober.go:309-340 | while the specs' failureThreshold and successThreshold (or their defaults 3 and 1) stay the same, regressed means seen Ready and that many consecutive failures with no later that many consecutive successes |
| Realizable.RunsExist | internal/controller/hotswappolicy_controller.go:150-169 | for reconciles of Ready pods under a failure threshold of one, each list new or part of the one before, any choice of unhealthy pods is what some joint run shows them |
| RunExamples.DeletingRunExists | internal/controller/hotswappolicy_controller.go:150-279 | a joint run in which a pod is deleted, for every admitted skip percentage |
| RunExamples.HalfSweptRunExists | internal/controller/hotswappolicy_controller.go:150-279 | the reconciles of HalfSweptActsAgain are a joint run |
| RunExamples.GaugeRunExists | internal/controller/hotswappolicy_controller.go:150-237 | the reconciles of GaugeOutlivesBreaker are a joint run of a policy that runs dry |
| RunExamples.SteadyJointRunsExist | internal/controller/hotswappolicy_controller.go:150-237 | steady schedules of every length are joint runs |
| RunExamples.ClockSetBackRunExists | internal/controller/hotswappolicy_controller.go:150-237 | the reconciles of the two ClockSetBack examples are a joint run |
| RunExamples.TwoRestartsRunExists | internal/controller/hotswappolicy_controller.go:150-237 | the reconciles of TwoRestarts are a joint run, the restarted pod being replaced |
| EndToEnd.DeletedPodsRegressed | internal/controller/hotswappolicy_controller.go:150-279 | over every interleaving, the probe config changing at will, a pod is deleted only if since its entry was inserted it was seen Ready and condemned by the results recorded on it, and under the name its last Sync gave |
| EndToEnd.ActionsNeedRegression | internal/controller/hotswappolicy_controller.go:178-237 | no restart or deletion without at least one such regressed pod at the snapshot |
| EndToEnd.AllHealthyIffNoneRegressed | internal/controller/hotswappolicy_controller.go:169-197 | a reconcile takes the all-healthy branch if and only if it guards its target, the rollout is not stalled and no pod regressed |
| EndToEnd.UnhealthyIffRegressed | internal/controller/hotswappolicy_controller.go:179-184 | the unhealthy targets of a snapshot are exactly the regressed pods of the trace |
| EndToEnd.RegressedUnderFixed | internal/prober/prober.go:309-340 | under fixed thresholds, regressed means seen Ready and F consecutive failures with no later S consecutive successes |
| EndToEnd.SnapshotCovers | internal/prober/prober.go:191-203 | a snapshot holds each entry's record once and nothing else |
| EndToEnd.LosersDoNotProbe | internal/controller/hotswappolicy_controller.go:129-137 | a policy that is not its Deployment's guardian changes nothing and has no uncancelled prober until its next Sync |
| EndToEnd.DropsProbersIff | internal/controller/hotswappolicy_controller.go:86-148 | a reconcile that does not get to guard changes nothing in the cluster and takes its policy out of the prober if and only if the policy is being deleted with its finalizer, or its probe is valid and its Deployment is gone or guarded by another; then no prober is left uncancelled until the next Sync |
| EndToEnd.LeavesProbersRunning | internal/controller/hotswappolicy_controller.go:86-148 | every other such reconcile leaves all probers of the policy running under the old config, until the controller's next call for it |
| EndToEnd.InvalidProbeLeaks | internal/controller/hotswappolicy_controller.go:110-127 | an input: with an invalid probe and the Deployment gone, the prober is not stopped |
| EndToEnd.NoProbersAfterForget | internal/prober/prober.go:206-218 | after a Forget and until the next Sync, whatever is interleaved, every prober of the policy is cancelled |
| EndToEnd.GuardianProbesLivePods | internal/controller/hotswappolicy_controller.go:150-164 | a guarding reconcile, interleaved with any other steps, leaves exactly the listed non-terminating pods in its table, each under its listed name and address and owning one uncancelled prober |
| EndToEnd.ReadyCallsAre | internal/controller/hotswappolicy_controller.go:159-164 | a pod is reported seen Ready exactly when it is listed with its first Ready condition "True" |
| Reconcile.PodReadyIff | internal/controller/hotswappolicy_controller.go:404-411 | a pod is ready if and only if it has a Ready condition and the first one is "True" |
| Hysteresis.UnhealthyIffCondemned | internal/prober/prober.go:309-340 | after any history, the config changing at will, unhealthy if and only if some failure completed a run as long as its own config's failure threshold and no later success one as long as its own config's success threshold |
| Hysteresis.UnhealthyIffCondemnedUnder | internal/prober/prober.go:309-340 | under fixed thresholds, unhealthy if and only if some F consecutive failures are followed by no S consecutive successes |
| Hysteresis.WrapHarmless | internal/prober/prober.go:310-338 | for every history and every sequence of configs the int32 machine has the verdict of the unbounded one; the counter compared next never wrapped |
| Hysteresis.WrapKeepsFlips | internal/prober/prober.go:310-338 | and the same transitions |
| Hysteresis.ReportedFailures | internal/prober/prober.go:330-332 | the reported failure count is the trailing failure run modulo 2^32, exact if and only if it fits |
| Hysteresis.ReportedFailuresCanGoNegative | internal/prober/prober.go:330-332 | after 2^31 failures the reported count is negative |
| Hysteresis.FlapBound | internal/prober/prober.go:309-340 | k transitions need at least ceil(k/2)F + floor(k/2)S recorded probes; healthy exactly when k is even |
| Hysteresis.FlapBoundTight | internal/prober/prober.go:309-340 | for every config and k some history attains that bound |
| ProberTable.ProbersMatchEntries | internal/prober/prober.go:131-218 | in every reachable state, contexts not cancelled are in one-to-one correspondence with table entries, each prober probing its entry's policy and pod |
| ProberTable.TableIsLastSync | internal/prober/prober.go:131-176 | a policy's pods, their names and addresses are exactly those of its last Sync since its last Forget |
| ProberTable.OnlySyncAndForgetShapeTable | internal/prober/prober.go:257-295 | no probe step creates, removes, revives or re-keys an entry, nor changes a config |
| ProberTable.UncancelledNeverReturnsEarly | internal/prober/prober.go:221-293 | before the root is cancelled, an uncancelled prober takes none of the early returns, and records on its own entry |
| ProberTable.ForeignResultsAreFromCancelled | internal/prober/prober.go:283-295 | a result recorded on an entry by another prober comes from a cancelled one |
| ProbeHistory.EntryIsItsHistory | internal/prober/prober.go:131-340 | over every interleaving, an entry's verdict, counters and readiness are the fold of what was recorded since its insertion |
| ProbeHistory.EntryTimes | internal/prober/prober.go:319-337 | its probe and transition times are those of the last result and the last flip |
| ProbeHistory.UnhealthyAndReadyIff | internal/prober/prober.go:131-340 | over every interleaving, unhealthy and past grace if and only if seen Ready and condemned by the results recorded since its insertion |
| ProbeHistory.HistoryConfigs | internal/prober/prober.go:131-295 | every result was recorded under a config that some Sync of the policy gave |
| ProbeHistory.CondemnedUnderFixed | internal/prober/prober.go:309-340 | when all those Syncs carry the same thresholds, condemned means F consecutive failures with no later S consecutive successes |
| LateResults.OwnResultsIff | internal/prober/prober.go:221-295 | for every continuation, all results recorded on an entry while it lasts are its own prober's if and only if every other prober of that policy and pod has returned |
| LateResults.LateResultCondemnsNewEntry | internal/prober/prober.go:257-295 | an input: a cancelled prober's late result condemns an entry whose own prober never ran |
| LateResults.LateStartCondemnsNewEntry | internal/prober/prober.go:221-295 | an input: a prober cancelled before its first probe still probes, and condemns a later entry, with no probe in flight when the entry was inserted |
| ProberEvents.EventsConserved | internal/prober/prober.go:294-304 | transitions = events enqueued + sends abandoned + sends pending; enqueued = received + in the channel |
| ProberEvents.ProberLosesNothing | internal/prober/prober.go:297-304 | prober by prober: a transition is lost only if the prober's context is done |
| ProberEvents.UncancelledWaitsForChannel | internal/prober/prober.go:297-304 | a blocked prober whose context is live stays blocked until its event is in the channel |
| ProberEvents.EventsInOrder | internal/prober/prober.go:297-304 | what the controller received, followed by what is in the channel, is what the probers sent, in order |
| ProberEvents.SendsWhenRoom | internal/prober/prober.go:297-304 | a blocked prober's event goes through, once, whenever fewer than 1024 are in the channel |
| ProbeLife.TableHasLastConfig | internal/prober/prober.go:131-141 | over every trace, a policy in the table has the config of its last Sync, whichever pods that Sync kept |
| ProbeLife.ProbesUnderLastConfig | internal/prober/prober.go:257-283 | a probe in flight runs under the config of the last Sync before it began |
| ProbeLife.StepBegins | internal/prober/prober.go:257-275 | a probe comes to be in flight by its own prober's step alone, exactly when policy and pod are in the table, under the table's config |
| ProbeLife.OwnStepsOnly | internal/prober/prober.go:221-305 | nothing but a prober's own steps moves it |
| ProbeLife.AfterSending | internal/prober/prober.go:297-304 | a blocked prober goes on exactly when its event is in the channel or its context is done |
| ProbeLife.AfterProbe | internal/prober/prober.go:283-304 | a prober comes to send an event exactly when its result flipped the verdict in the table |
| ProbeLife.ReturnsIff | internal/prober/prober.go:221-253 | a prober returns if and only if it starts without its policy or waits with its context done |
| ProberManager.Record | internal/prober/prober.go:309-340 | the imperative threshold update is the machine's step, and reports flips exactly |
| ProberManager.CollectDesired | internal/prober/prober.go:143-146 | the loop builds the desired map, last target winning |
| ProberManager.Manager.Sync | internal/prober/prober.go:131-176 | the loops cancel, refresh and insert exactly as the Sync step |
| ProberManager.Manager.SetSeenReady | internal/prober/prober.go:180-188 | marks the entry if there is one and changes nothing else |
| ProberManager.Manager.Snapshot | internal/prober/prober.go:191-203 | returns every record of the policy once, in some order |
| ProberManager.Manager.Forget | internal/prober/prober.go:206-218 | cancels every prober of the policy and drops its entries |
| ProberManager.Manager.ProbeBegin | internal/prober/prober.go:259-272 | captures the config, or returns early |
| ProberManager.Manager.ProbeEnd | internal/prober/prober.go:283-297 | looks the pod up again and records under the captured config |
| Gates.NormalizeProbe | internal/controller/logic.go:33-59 | accepts an httpGet on a positive numeric port, defaults the rest, and fills the header map |
| Gates.NormalizedKeepsFields | internal/controller/logic.go:33-73 | accepted if and only if it is an httpGet on a positive numeric port; each positive field is kept under its own name, the others get the defaults 10, 1, 0, 1 and 3, and the header names are those listed |
| Gates.NormalizedIsUsable | internal/controller/logic.go:42-73 | an accepted probe has positive period and timeout, and thresholds that need no further defaulting |
| Gates.HeaderMapLastWins | internal/controller/logic.go:52-57 | a repeated header keeps its last value |
| Gates.ProgressDeadlineExceeded | internal/controller/logic.go:95-104 | finds a failed progress deadline exactly when there is one |
| Gates.ChooseStrategy | internal/controller/logic.go:116-126 | an explicit strategy is honoured; anything else deletes exactly with two or more replicas and restarts otherwise |
| Guardian.LessIsStrictTotalOrder | internal/controller/hotswappolicy_controller.go:353-358 | lessPolicy is a strict total order on distinctly named policies |
| Guardian.GuardianIsOldest | internal/controller/hotswappolicy_controller.go:324-358 | the guardian is the earliest created policy of its Deployment, ties going to the lexicographically first name |
| Guardian.ConflictingPolicy | internal/controller/hotswappolicy_controller.go:327-349 | the loop returns the election's verdict |
| Guardian.VerdictNamesGuardian | internal/controller/hotswappolicy_controller.go:327-349 | "" exactly for the policy before all its rivals; every other policy names that one |
| Guardian.ExactlyOneGuardian | internal/controller/hotswappolicy_controller.go:327-349 | each Deployment with a policy has exactly one winner, and all others name it |
| Guardian.VerdictOrderIndependent | internal/controller/hotswappolicy_controller.go:332-344 | the order of the list does not matter |
| Guardian.LateComerChangesNothing | internal/controller/hotswappolicy_controller.go:332-358 | adding a policy later in the order changes no verdict |
| Guarding.GuardedIff | internal/controller/hotswappolicy_controller.go:86-148 | over one list of policies, some policy's reconcile guards a Deployment if and only if the oldest one's can, and never two: an invalid or deleted guardian leaves it to nobody |
| Guarding.ReadyIff | internal/controller/hotswappolicy_controller.go:86-148 | a reconcile guards if and only if its policy is the guardian and nothing else is in the way |
| Guarding.InvalidGuardianBlocks | internal/controller/hotswappolicy_controller.go:110-137 | an input: a valid policy that guards when alone is rejected next to an older one with an invalid probe |
| Remediation.SelectUnhealthy | internal/controller/hotswappolicy_controller.go:179-184 | collects the unhealthy targets past their grace, in order |
| Remediation.UnhealthyAreListed | internal/controller/hotswappolicy_controller.go:179-184 | those and only those |
| Remediation.Sweeping | internal/controller/hotswappolicy_controller.go:259-280 | the deletion loop with its limit, skip and error exits |
| Remediation.SweptDeletes | internal/controller/hotswappolicy_controller.go:259-280 | deletes a prefix of the still existing unhealthy pods within the limit, and exactly the first min(limit, existing) without an API error |
| Remediation.SweptFailsIff | internal/controller/hotswappolicy_controller.go:259-280 | the loop returns an error if and only if some delete fails with fewer than the limit existing before it |
| Remediation.SweptUpToFailure | internal/controller/hotswappolicy_controller.go:259-280 | with an error it has deleted exactly the existing pods before the first failure it met |
| Remediation.SweptDry | internal/controller/hotswappolicy_controller.go:264-279 | a dry run counts min(limit, unhealthy) and deletes none |
| Reconciler.HotSwapPolicy.Remediate | internal/controller/hotswappolicy_controller.go:240-307 | acts, then counts and records the attempt; on an error the status is untouched |
| Reconciler.HotSwapPolicy.WriteBack | internal/controller/hotswappolicy_controller.go:360-366 | a failed status update keeps the stored status and returns the error |
| Reconciler.HotSwapPolicy.Guarded | internal/controller/hotswappolicy_controller.go:166-213 | the gates from the snapshot to stability, in the source's order |
| Reconciler.HotSwapPolicy.Acting | internal/controller/hotswappolicy_controller.go:215-237 | breaker, cooldown and remediation, in the source's order |
| Reconciler.HotSwapPolicy.Reconcile | internal/controller/hotswappolicy_controller.go:82-238 | the whole reconcile, with the prober calls it makes on each path, is the Step of all run properties |
| Reconciler.IsPodReady | internal/controller/hotswappolicy_controller.go:404-411 | the first Ready condition decides |
| DecisionTable.StepFollowsTable | internal/controller/hotswappolicy_controller.go:82-230 | every reconcile that the first applicable row of the table stops takes that row's branch, changes nothing in the cluster, and reports and asks for what the row says, or fails with the stored status untouched |
| DecisionTable.OneRowStops | internal/controller/hotswappolicy_controller.go:82-237 | exactly one row of the table stops a reconcile |
| DecisionTable.StabilityGate | internal/controller/logic.go:79-91 | unless requireStable is false a reconcile changes the cluster only on a current status with every replica there, updated and available, and such a status is never held back |
| RemedyTable.ActsFollowTable | internal/controller/hotswappolicy_controller.go:232-307 | past all rows: strategy by the spec and the replica count, failure exactly when the API refuses a call, and otherwise the attempt counted and recorded, with the period as delay |
| RemedyTable.DeletionsFollowTable | internal/controller/hotswappolicy_controller.go:259-280 | a live deletion deletes the first of the existing unhealthy pods in the snapshot's order, without a refusal as many as MaxConcurrent (one when not positive) allows |
| RemedyTable.MaxConcurrentKept | internal/controller/hotswappolicy_controller.go:260-268 | no reconcile makes more changes than MaxConcurrent, or one when it is not positive |
| RemedyTable.PodOnRecord | internal/controller/hotswappolicy_controller.go:258-292 | the pod on record is the first unhealthy target for a restart and the last one deleted, or counted, for a deletion |
| Reconciler.CollectTargets | internal/controller/hotswappolicy_controller.go:150-157 | the pods that are not terminating |
| Reconciler.ProberCalls | internal/controller/hotswappolicy_controller.go:150-164 | Sync with the targets, then SetSeenReady for each ready pod |
| Conditions.SettersShape | internal/controller/hotswappolicy_controller.go:368-402 | from unique condition types each setter keeps them unique and gives exactly its shape, with its reasons and the policy's generation |
| Conditions.SettersKeepOthers | internal/controller/hotswappolicy_controller.go:368-402 | conditions of other types are left alone |
| ConditionRuns.ConditionsConsistent | internal/controller/hotswappolicy_controller.go:110-238 | over every run types stay unique, and after each written reconcile exactly one shape holds, that of its branch |
| Churn.RemediationsSpaced | internal/controller/logic.go:155-160 | after a persisted remediation no reconcile acts within the cooldown, even if the clock moves backwards and whatever fails in between |
| Churn.ActionsSpaced | internal/controller/hotswappolicy_controller.go:215-237 | any two reconciles that change the cluster, the first not failed, are a cooldown apart |
| Churn.WindowBound | internal/controller/hotswappolicy_controller.go:215-292 | a window W holds at most W/cooldown + 1 persisted remediations |
| Churn.ActionWindowBound | internal/controller/hotswappolicy_controller.go:215-292 | with MaxConcurrent at most limit, a window W holds at most limit * (W/cooldown + 1) changes to the cluster, and limit more for each failed reconcile in it |
| Churn.ActionsAccountedFor | internal/controller/hotswappolicy_controller.go:259-292 | in every run with MaxConcurrent at most limit, actions <= limit * (persisted remediations + failed reconciles) |
| Churn.ActsAgainIff | internal/controller/hotswappolicy_controller.go:215-292 | a reconcile that acts, run again within the cooldown on inputs it would act on anew, acts again if and only if its status write failed or its remedy met an API error, for restarts and deletions |
| Churn.CloseAttemptsWereRefused | internal/controller/hotswappolicy_controller.go:215-292 | in every run, two attempts within the cooldown mean that the API refused something to the first |
| Churn.HalfSweptActsAgain | internal/controller/hotswappolicy_controller.go:259-280 | an input for every positive cooldown: a sweep that deletes one pod and is refused the next, all status writes going through, is followed at once by another deletion |
| DryRun.DryRunMirrorsLive | internal/controller/hotswappolicy_controller.go:186-307 | as long as no API call that a live reconcile would come to make fails, dry and live runs take the same branches forever and agree on attempts, last time and strategy, requeue, gauge and conditions, and the dry run never acts |
| DryRun.DryRunTouchesNothing | internal/controller/hotswappolicy_controller.go:249-280 | no reconcile in dry-run mode changes the cluster |
| DryRun.DivergesIffLiveFails | internal/controller/hotswappolicy_controller.go:233-307 | the two statuses part if and only if the patch is not answered ok, or a delete fails with fewer than the limit existing before it |
| SnapshotOrder.OrderDoesNotMatter | internal/controller/hotswappolicy_controller.go:169-280 | runs whose snapshots are permutations take the same branches, agree on status and make equally many changes, unless a live deletion mixes failing and succeeding deletes |
| SnapshotOrder.OrderIrrelevantIff | internal/controller/hotswappolicy_controller.go:169-280 | an acting reconcile gives agreeing outcomes and equally many changes for every order of its snapshot if and only if it runs dry, restarts, or none of its deletes would fail or none would succeed |
| SnapshotOrder.SweepOrderIrrelevantIff | internal/controller/hotswappolicy_controller.go:259-280 | the deletion loop gives the same error flag and count for every order of its pods if and only if none would fail or none would succeed |
| Breaker.BreakerAbsorbedByCooldown | internal/controller/hotswappolicy_controller.go:215-230 | runs differing only in MaxConsecutiveAttempts act, count, remember and requeue alike |
| Breaker.BreakerMattersIff | internal/controller/logic.go:143-160 | that maximum changes a decision if and only if the cooldown is not positive and the clock reads before the last remediation plus it, with 1 to MaxInt32 - 1 attempts |
| Breaker.MaxMattersWhenClockSetBack | internal/controller/logic.go:143-160 | an input: after a remediation without cooldown, and the clock set back, a maximum of 1 holds back what 2 lets through |
| Breaker.PositiveCooldownSuffices | internal/controller/logic.go:155-160 | a positive cooldown is enough for absorption, whatever the clock does |
| Bookkeeping.AttemptsAreStreak | internal/controller/hotswappolicy_controller.go:192-292 | from an empty status, the counter is the remediations persisted since the last persisted all-healthy reconcile modulo 2^32, and the stored remediation is the latest |
| Bookkeeping.ActsAndTripsIff | internal/controller/hotswappolicy_controller.go:186-237 | in terms of the past alone, exactly when a reconcile acts and exactly when it reports the breaker open |
| Bookkeeping.GaugeMeansMaxReached | internal/controller/hotswappolicy_controller.go:192-226 | with a fixed maximum, an open gauge means the streak reached it, even when writes fail |
| Bookkeeping.GaugeIff | internal/controller/hotswappolicy_controller.go:192-226 | the gauge is 1 if and only if the breaker was found open and all targets healthy never since |
| Bookkeeping.GaugeOutlivesBreaker | internal/controller/hotswappolicy_controller.go:215-237 | an input for every positive cooldown, a policy that runs dry: act, find the breaker open, act again after the cooldown with the gauge still 1 |
| Cadence.ExactCadence | internal/controller/hotswappolicy_controller.go:215-237 | for a target that stays unhealthy, remediation k is at t0 + k*gap, gap = P + c if P < c and P otherwise |
| Cadence.OnlyOnCadence | internal/controller/hotswappolicy_controller.go:215-237 | no other reconcile of that schedule acts |
| Cadence.BeatActs | internal/controller/hotswappolicy_controller.go:215-237 | which reconciles act, and every requested delay is positive |
| Cadence.SteadyRunsExist | internal/controller/hotswappolicy_controller.go:215-237 | such a schedule exists for every positive period, every cooldown and every length, under a policy that runs dry |
| Cadence.WakesAgainIff | internal/controller/hotswappolicy_controller.go:186-237 | a guarding reconcile asks for a positive delay unless it gets to the breaker under a non-positive cooldown with the attempts used up and the clock before the last remediation plus it, and exactly then |
| Cadence.SleepsWhenClockSetBack | internal/controller/hotswappolicy_controller.go:215-226 | an input: a run without cooldown whose clock is set back asks for no further reconcile |
| Rollout.NoActionDuringOwnRollout | internal/controller/hotswappolicy_controller.go:209-213 | while a restart's generation is not observed, no stability-gated reconcile restarts or deletes anything |
| Rollout.RestartsWaitForRollout | internal/controller/logic.go:79-91 | between two effective restarts the first one's generation was observed, with every replica there, updated and available and none unavailable |
| Rollout.TwoRestartsHappen | internal/controller/hotswappolicy_controller.go:209-237 | a history with two effective restarts, both under the stability gate |
| Rollout.RestartEffectiveIff | internal/controller/hotswappolicy_controller.go:313-317 | a restart starts a rollout if and only if the last one was not in the same second |
| Rollout.SameSecondRestartsOnce | internal/controller/hotswappolicy_controller.go:313-317 | however many reconciles run within the second of a restart, the Deployment stays as that restart left it |
| Rollout.RepeatsIff | internal/controller/hotswappolicy_controller.go:209-237 | on a current read a restart is repeated at once if and only if its status write failed and stability is not required or the restart changed nothing |
| Survivors.SomeTargetSurvives | internal/controller/logic.go:133-139 | for p in 1..100 and two or more targets, a deleting reconcile leaves more than (100 - p) percent, so at least one |
| Survivors.DeletionsAreUnhealthy | internal/controller/hotswappolicy_controller.go:265-279 | every pod deleted is an unhealthy target past its grace |
| Survivors.NoPodDeletedTwice | internal/controller/hotswappolicy_controller.go:265-279 | with distinct names no pod is deleted twice |
| Survivors.AllDeletedIffValveOff | api/v1alpha1/hotswappolicy_types.go:82-98 | from any status and for any API answers, all targets are deleted if and only if all are unhealthy and exist, MaxConcurrent is large enough, deletion is live and chosen, and every gate is open with the systemic valve off |
| Survivors.OnlyTargetDeleted | internal/controller/hotswappolicy_controller.go:259-280 | an input for every admitted skip percentage: an explicit DeletePod deletes the only target |
| Survivors.RecordedWithoutActionIff | internal/controller/hotswappolicy_controller.go:265-292 | a remediation is recorded without any deletion if and only if no unhealthy pod still exists |
| Survivors.GoneIsRecorded | internal/controller/hotswappolicy_controller.go:265-292 | an input: the only target is gone before its delete, and a remediation is recorded |

## Left out

- HTTP and TLS probing (`internal/prober/checker.go`): the answer of a probe is an arbitrary boolean.
- Tickers, timers, the initial delay and goroutine scheduling: any interleaving of steps, except the requeue schedule of the cadence theorems.
- Aliasing of pod entries: the manager's table holds pod records as values, where the source updates shared objects in place; the source reaches them only through the table, under the mutex. The `started` field, which nothing reads, is dropped.
- Per-target health in the status, condition messages and transition times, Kubernetes events, log lines and all metrics but the circuit gauge.
- An API error is taken to mean that nothing changed; a call that times out after taking effect is not modelled.
- Sub-second times and the serialization of stored times.
- Watch mapping from pods and Deployments to policies, manager set-up, leader election, flags and certificates.
- Label selection: the listed pods are an input, and an invalid selector is a flag.
- `Rollout`: the rest of the cluster is an environment that bumps the generation with every template change and lets the observed generation only catch up.
