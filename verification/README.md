# Verified model of the kagents operator

kagents is a Kubernetes operator that runs teams of AI agents. This project models its controllers in Dafny and proves
what they keep over whole runs, with API calls failing at any point.

- **Team reconciler.** `TeamSpec`, `TeamStatus` and `TeamReconcile` give one reconcile of an AgentTeam as a function of
  the cluster, the stored status, the clock and how many API writes succeed before one fails. A failed call ends the
  reconcile: what it did to pods and Jobs stays, its status edits are lost. `TeamRuns` interleaves reconciles with pod
  and Job progress, approvals given and revoked, and the clock. `TeamGraph`, `TeamObject` and `TeamController` are the
  same code as loops and objects updated in place; each method is proved to do what the function says, up to one whole
  reconcile being one step of a run. The theorems about runs are in `DependencySafety`, `GateRuns`, `Restarts`,
  `Verdicts`, `Lifecycles`, `Deadlines`, `InitRuns`, `Outcomes`, `DeliveryRuns`, `Intact`, `Progress`, `ArtifactRouting`,
  `ArtifactRecords`, `StageProgress`, `StagePhases` and `Approvals`; `TeamWitness` has the runs in which the status falls
  short; `LoopRules`, `Frames` and `Roster` carry the inductions they share.
- **Cron schedule.** `Schedule` is one reconcile, `ScheduleController` the in-place form, `ScheduleRuns`,
  `SchedulePunctuality`, `ScheduleTiming`, `ScheduleRetention`, `ScheduleHistory`, `ScheduleCatchUp`, `ScheduleStranding`,
  `ScheduleWitness` and `RunNames` the theorems, `PhaseText` the link to the team's phases. Cron is any function from a
  time to a later whole second that is the earliest such and leaves a minute between results.
- **Event stream.** `EventStream` has the writer and the decoder of the WHATWG HTML Living Standard (sections 9.2.5 and
  9.2.6), `StreamLoop` the poll loop; the hash is an arbitrary function.
- **Webhook trigger.** `Trigger` has the handler's concurrency policy and the reconciler, `TriggerRuns` their
  interleaving.
- **Budget and template.** `Budget` is the cost tracker over exact reals, `Prices` what a team costs by the minute,
  `Template` the template validation.

What the team theorems assume, as preconditions or in the shape of the steps:

- the spec does not change, reads are current, only the operator deletes pods and a deleted pod is gone at once; pods are
  identified by their agent's name;
- teammate names are distinct, which only template validation checks, and none is `lead`, which nothing forbids; that they
  are not empty and have no slash is the schema's pattern (api/v1alpha1/agentteam_types.go:256);
- the theorems about pipelines: stage names are distinct and not empty, every stage has a teammate, and every teammate of a
  stage is declared and in no other stage. The schema demands the name pattern and one teammate (same file, 316-326); the
  rest is documented there but not checked.

Where comments or documents and code differ, or the code falls short of them, the model follows the code:

- `requeueDelay` is the larger of the time to the next window and one minute, although its constant is described as a cap
  on how long the controller sleeps (internal/controller/agentteamschedule_controller.go:45-49 and 276-282); so a window
  that follows within a minute is fired late, exactly as `ScheduleTiming.FiringTimes` says.
- A late wake-up fires the stored window, the earliest missed, although the comment says the most recent (same file, 85-99).
- `updatePipelineStatus` looks at upstream stages in list order and never counts an undeclared upstream stage as done,
  while `pipelineDependencies` ignores order and skips undeclared stages; so a stage may be reported Waiting while its
  teammates run (`TeamWitnesses.WaitingWhileSpawnedHappens`), exactly when `StageProgress.PipelineStatusAgrees` says.
- A pod made by a reconcile that then fails to commit is not undone: a cleared pending approval can stay on record
  (`TeamWitnesses.StaleApprovalHappens`, exactly as `Approvals.StaleExactly` says), and a consumer can start before its
  producer's output is on record (`TeamWitnesses.UnrecordedInputHappens`, `ArtifactRouting.InputsAreRouted`).
- An API error while ensuring or reading the push Job fails the team, like a Job out of retries
  (internal/controller/agentteam_controller.go:440-449).
- ARCHITECTURE.md's edge from Pending to Failed (line 38) and its token rates (line 213) are not those of the code.
- `refreshRunPhases` keeps the last observed phase of a Run that an earlier collection deleted, to preserve history; when
  that collection's status write failed the phase kept is the one before the Run finished, and the entry stays in flight
  for good (`ScheduleWitnesses.StrandingHappens`, exactly as `ScheduleStranding.StrandsExactly` says, and
  `ScheduleStranding.StrandedForever`).
- `validateTemplate` rejects a self-dependency but accepts longer cycles (`Templates.CyclesPassValidation`).

## Model

| member | source | states |
|---|---|---|
| DependencySafety.CreationIsSafe | internal/controller/agentteam_controller.go:314-331 | Over every run, aborted reconciles included: when a pod is created, every agent reachable along effective dependencies has already Succeeded, and a teammate's stage gate and spawn gate had been granted then or earlier |
| GateRuns.CreationWasApproved | internal/controller/agentteam_controller.go:314-331 | Over every run, for each annotation asked for, "stage-" and the name of the stage that first lists the teammate if it requires approval, and "spawn-" and its own name if that is a declared gate: it counted as granted at the creation, and a step of the run had approved it before |
| GateRuns.SpawnsExactly | internal/controller/agentteam_controller.go:314-331 | Over every run, of a teammate without a pod: a committed reconcile that takes or leaves the team Running makes its pod iff everything it waits for has Succeeded and every annotation asked for is there; if only an annotation is missing its entry names it, the stage's first |
| GateRuns.SpawnPassExactly | internal/controller/agentteam_controller.go:397-424 | The same for one pass of the Running spawn loop, with the write that may fail |
| DependencySafety.UpstreamStagesSucceeded | internal/controller/agentteam_controller.go:2090-2112 | In pipeline mode the same for every teammate of every transitively upstream stage, given distinct, non-empty stages and each teammate in one stage |
| DependencySafety.BornIsCleared | internal/controller/agentteam_controller.go:580-589 | Why a restart may re-create a pod without asking again: what an agent that ever had a pod waits for has Succeeded and its gates were granted |
| DependencySafety.ReconcileKeeps | internal/controller/agentteam_controller.go:188-215 | Every reconcile keeps the creation history safe, and changes neither approvals nor the record of who ever Succeeded |
| DependencySafety.RunKeeps | internal/controller/agentteam_controller.go:188-215 | The creation history of every run is safe entry by entry: direct dependencies Succeeded, gates granted, every agent that Succeeded was created before |
| DependencySafety.ClosureSucceeded | internal/controller/agentteam_controller.go:2012-2023 | From the direct dependencies of each creation to its transitive ones, by following the history back |
| DependencySafety.StageClosureSucceeded | internal/controller/agentteam_controller.go:2090-2112 | The same induction along upstream stages |
| Restarts.CreationsBounded | internal/controller/agentteam_controller.go:542-592 | Over every run each teammate has at most 1 + RestartCount + aborted reconciles pod creations and RestartCount is within the limit; without aborts at most 1 + limit; the limit is the spec's maxRestarts, not below zero, or three |
| Restarts.RespawnsBalance | internal/controller/agentteam_controller.go:547-592 | A restart loop that commits raises each teammate's owed creations and its recorded restarts by the same amount, at most one; one that aborts owes at most one more |
| Restarts.SuperviseBalances | internal/controller/agentteam_controller.go:377-475 | The same for a whole Running reconcile, which works because status sync makes the entry that the restart counter is written to |
| Restarts.RunKeeps | internal/controller/agentteam_controller.go:502-592 | The account holds in every reachable state |
| Verdicts.NoTeammateLeftFailed | internal/controller/agentteam_controller.go:542-592 | When the restart check names nobody, no declared teammate's pod is Failed afterwards, so the later failure test answers for the lead alone |
| Verdicts.RespawnsVerdict | internal/controller/agentteam_controller.go:547-592 | The restart loop stops with a name exactly when some Failed teammate has used up its restarts |
| Verdicts.VerdictExact | internal/controller/agentteam_controller.go:384-475 | A committed Running reconcile within limits fails the team iff a Failed teammate is out of restarts, the lead Failed, or finalization errors; completes it iff all Succeeded and nothing is left to push; else leaves it Running |
| Lifecycles.RunningOutcomeExact | internal/controller/agentteam_controller.go:346-475 | Over every run: the phase after a committed Running reconcile, as an exact condition for each of TimedOut, BudgetExceeded, Failed and Completed |
| Outcomes.DecisionExact | internal/controller/agentteam_controller.go:346-475 | The same within the deadline, in terms of pod phases, recorded restarts against the spec's maxRestarts or three, budget limit, push Job, rendered branch and onComplete alone: BudgetExceeded, Failed, Completed or Running |
| Outcomes.CompletionRecords | internal/controller/agentteam_controller.go:1637-1752 | What completion puts on record: in deliver mode each target with the time and the outcome of its send, else none; in a push mode with a repository the branch as rendered |
| Outcomes.StopLeavesNoPods | internal/controller/agentteam_controller.go:350-375 | The reconcile that stops a Running team of any run for its deadline or budget leaves no pod |
| Outcomes.StatusShowsPods | internal/controller/agentteam_controller.go:1510-1559 | A committed Running reconcile of any run that does not stop the team stores the cost estimated now, and for the lead and each teammate what its pod was |
| Lifecycles.PhasesOrdered | internal/controller/agentteam_controller.go:201-214 | Along every run the phase rank never decreases, the start time is fixed once set, terminal phases absorb, and after a completion time is set nothing of the team changes and no pod exists |
| Lifecycles.CreationsInTime | internal/controller/agentteam_controller.go:274-361 | Every pod of every run was created after the start, within the deadline and, once Running, within budget |
| Lifecycles.DeadlineEndsTeam | internal/controller/agentteam_controller.go:350-361 | Once more time has passed since the start than the spec allows a reconcile creates nothing; the first that commits leaves the team TimedOut, whatever was half done before; with enough successful writes it does commit |
| Deadlines.DeadlineExact | internal/controller/agentteam_controller.go:2306-2319 | A committed Initializing or Running reconcile of any run leaves the team TimedOut iff more than its timeout has passed since the start: the duration it gives, 14400 s without one, never if the text does not parse |
| Deadlines.CreationsWithinTimeout | internal/controller/agentteam_controller.go:274-361 | No pod of any run is created later after the start than that duration |
| Deadlines.UnparsableNeverTimesOut | internal/controller/agentteam_controller.go:2306-2319 | A team whose timeout does not parse is never TimedOut |
| InitRuns.StartExactly | internal/controller/agentteam_controller.go:220-266 | The committed reconcile that starts a team of any run: Initializing from that time, with an init Job in place iff there is a repository, and nothing else in the cluster |
| InitRuns.NothingBeforeInit | internal/controller/agentteam_controller.go:285-299 | Over every run of a team with a repository no pod was created, and the team is not Running, before its init Job Succeeded |
| InitRuns.DeploymentExact | internal/controller/agentteam_controller.go:271-341 | A committed Initializing reconcile of any run within the deadline: Failed iff the init Job of a repository Failed; unchanged and without pods iff it is still going; Running, with the lead's pod, iff it Succeeded or there is no repository |
| Lifecycles.TerminalReconcileCleansUp | internal/controller/agentteam_controller.go:480-496 | A terminal reconcile without error leaves no pod, and as completion time that of the first such, no earlier than the start |
| Lifecycles.EntersCompleted | internal/controller/agentteam_controller.go:427-468 | A team enters Completed only from Running, at a reconcile that found every agent Succeeded and the push Job, when one is needed, Succeeded |
| Lifecycles.CompletedIsSound | internal/controller/agentteam_controller.go:1637-1752 | Over every run a Completed team has had every agent and any required push Job Succeed; its delivery record holds one entry per target in order however many attempts aborted, and is empty before |
| DeliveryRuns.SendsBounded | internal/controller/agentteam_controller.go:1698-1752 | Over every run the sends are whole rounds over the targets: at most one round per aborted reconcile and one for completion, and at least one once Completed |
| DeliveryRuns.SuperviseSends | internal/controller/agentteam_controller.go:377-475 | A committed Running reconcile sends one round exactly if it completes the team; an aborted one sends one round or nothing |
| Lifecycles.BudgetOvershoot | internal/controller/agentteam_controller.go:362-375 | If a Running reconcile left the team Running and one at most gap seconds later stops it for its budget, the recorded cost is at least the limit and below it plus gap seconds' exact price plus one rounding unit per agent |
| Intactness.RunKeeps | internal/controller/agentteam_controller.go:350-375 | While a team is within deadline and budget, every pod that Succeeded, and the lead's, still exists |
| Progress.BlockedNeverCompletes | internal/controller/agentteam_controller.go:2012-2065 | Over every run a teammate in a set that waits only within itself or on undeclared names never gets a pod, and the team never completes |
| Progress.DeadEndBlocks | internal/controller/agentteam_controller.go:2038-2065 | A dependency path that returns to itself or ends at an undeclared name is such a set |
| Progress.BlockedHasDeadEnd | internal/controller/agentteam_controller.go:2038-2065 | Conversely every such set holds such a path |
| Progress.RankedIsUnblocked | internal/controller/agentteam_controller.go:2038-2065 | Dependencies on agents only that descend in some ranking block nobody |
| Progress.RoundSpawns | internal/controller/agentteam_controller.go:397-424 | If nothing is blocked, gates are open and all existing pods have Succeeded, the next reconcile either finds everyone Succeeded or creates a missing pod |
| Progress.LapsReachSuccess | internal/controller/agentteam_controller.go:397-438 | So however long the laps take and whatever their environments, everyone has Succeeded after at most as many laps as teammates were missing, while the team is within deadline and budget at each reconcile |
| Progress.ClosingReconcile | internal/controller/agentteam_controller.go:427-468 | Once everyone has Succeeded a reconcile with writes to spare completes the team, or leaves it Running with the push Job made and still going |
| Progress.LapsFinish | internal/controller/agentteam_controller.go:427-468 | One lap more than teammates were missing leaves the team Completed, or with only the push Job to wait for |
| Progress.UnblockedCompletes | internal/controller/agentteam_controller.go:397-468 | From a reachable such Running state: after more laps than teammates, each of any length and in an environment of its own, within deadline and budget at each reconcile, the team is Completed; in the push modes, once the Job has Succeeded and one more reconcile has come |
| ArtifactRouting.InputsAreRouted | internal/controller/agentteam_controller.go:1418-1466 | Over every run, aborted reconciles included: what a created pod has staged is exactly its resolving inputs, from Succeeded producers; each resolving input is staged from the path of the producer's first such output; and that path is on record, as the first such artifact, iff the pod was created while Running |
| ArtifactRouting.CommittedRunsRoute | internal/controller/agentteam_controller.go:1418-1466 | In runs without aborted reconciles every resolving input of every created pod is on record |
| TeamWitnesses.UnrecordedInputHappens | internal/controller/agentteam_controller.go:303-341 | A run in which the record falls behind: a deployment that fails to commit, its producer succeeds, the next deployment starts the consumer with nothing on record |
| ArtifactRouting.ArtifactsOnlyGrow | internal/controller/agentteam_controller.go:2280-2302 | Along every run the stored artifact list only grows; no entry, nor its time, is rewritten |
| ArtifactRouting.RecordingAgainIsNoOp | internal/controller/agentteam_controller.go:2284-2293 | Recording a teammate whose outputs are on record changes nothing |
| ArtifactRouting.RecordingPutsOnRecord | internal/controller/agentteam_controller.go:2280-2302 | Recording a teammate puts every output on record, with the first artifact of each name being the first output of that name |
| ArtifactRecords.RecordIsSound | internal/controller/agentteam_controller.go:2280-2302 | Over every run each artifact on record is a declared output, under its base name, of a teammate that had Succeeded, dated between the start and now |
| ArtifactRecords.RecordIsComplete | internal/controller/agentteam_controller.go:1535-1552 | After a committed Running reconcile that does not stop the team every output of every teammate it saw Succeeded is on record, and what it added is dated now |
| ArtifactRecords.BaseIsLastComponent | internal/controller/agentteam_controller.go:2280-2302 | The base name is the last component of a path, whatever directory precedes it and however many slashes follow |
| ArtifactRecords.BaseOfNothing | internal/controller/agentteam_controller.go:2280-2302 | The base name of an empty path is a dot and of slashes alone a slash |
| ArtifactRouting.ProducerFound | internal/controller/agentteam_controller.go:2257-2269 | The path found is that of the first teammate of the producer's name that declares an output of that base name; it is empty if there is none |
| ArtifactRouting.OutputFound | internal/controller/agentteam_controller.go:2257-2269 | Of that teammate, the first output of that base name |
| ArtifactRouting.StagedIff | internal/controller/agentteam_controller.go:1434-1466 | A copy is staged iff some input asks for it and resolves, with an output volume |
| StageProgress.PipelineStatusAgrees | internal/controller/agentteam_controller.go:2141-2250 | In every reachable state Completed stages are closed under dependsOn, StagesCompleted counts them, CurrentStage is the first other one; a stage with a spawned teammate is Waiting iff none of its teammates Failed, not all are Completed and some dependsOn name is not declared at an earlier position, so never in topological order; starts are no later than completions |
| StageProgress.SyncWaitsExactly | internal/controller/agentteam_controller.go:2186-2222 | The same condition for one sync of a live Running team |
| StagePhases.StagesShowPods | internal/controller/agentteam_controller.go:2166-2222 | Over every run a committed Running reconcile that does not stop the team stores of each stage, in terms of its teammates' pods, the earlier stages and the annotation "stage-" and its name: the phase, the first of Failed, Completed, Waiting, PendingApproval, Running and Waiting that applies; how many pods Succeeded; and the time it was first seen Running or Completed |
| StagePhases.NoStagesNoStatus | internal/controller/agentteam_controller.go:2141-2145 | Over every run a team without stages has no pipeline status |
| TeamWitnesses.WaitingWhileSpawnedHappens | internal/controller/agentteam_controller.go:2186-2222 | A run in which a stage listed before the one it depends on is Waiting while its teammate has a pod |
| StageProgress.StampsAreFinal | internal/controller/agentteam_controller.go:2196-2216 | Along every run a stage stamp, once set, never changes |
| StageProgress.DoneMeansSucceeded | internal/controller/agentteam_controller.go:2197-2204 | A sync counts a stage as Completed exactly when every teammate's pod has Succeeded |
| StageProgress.DoneIsClosed | internal/controller/agentteam_controller.go:2187-2193 | If a stage has a pod, every teammate of each upstream stage is Succeeded |
| StageProgress.CountIsCardinality | internal/controller/agentteam_controller.go:2235-2239 | The running count is the number of Completed stages |
| StageProgress.FirstOpenIsFirst | internal/controller/agentteam_controller.go:2235-2239 | The current stage is the first that is not Completed |
| Approvals.ApprovalsUpdated | internal/controller/agentteam_controller.go:397-424 | Over every run, whatever was aborted: after a committed Running reconcile that leaves the team Running, entries are the declared teammates in order, ready counts those seen Running or Succeeded, a teammate that had no pod and all it waits for names the gate it is held at or nothing, any other keeps its entry; so an entry is exact iff it was not stale before, and stale iff it was |
| Approvals.StaleExactly | internal/controller/agentteam_controller.go:397-424 | Where stale entries of a live Running team come from, step by step over every run: a committed reconcile keeps exactly the stale ones; any other step makes stale the pending teammates that have a pod by then; a committed deployment, the held teammates whose pod an aborted one had made |
| TeamWitnesses.StaleApprovalHappens | internal/controller/agentteam_controller.go:397-424 | A run in which the entry of an approved teammate that has its pod still names the gate, after an aborted and a committed reconcile |
| Approvals.ApprovalsAreExact | internal/controller/agentteam_controller.go:397-424 | In runs without aborts every entry is exact after each Running reconcile that leaves the team Running: PendingApproval names the gate a teammate is held at iff it has no pod and all it waits for Succeeded, else it is empty |
| Approvals.UnabortedRuns | internal/controller/agentteam_controller.go:1987-2007 | In runs without aborts there is no pod before Running, and no stale entry while the team lives |
| Approvals.LateSpawnsSettle | internal/controller/agentteam_controller.go:397-424 | A committed spawn loop sets the entry of each eligible teammate to its gate or to nothing, leaves every other, and leaves eligible exactly those it held |
| Approvals.RunKeeps | internal/controller/agentteam_controller.go:1987-2007 | In every run nothing is recorded of teammates before Running, and in a live Running team whoever has a pending approval has everything it waits for |
| Approvals.ReadyAsSeen | internal/controller/agentteam_controller.go:1553-1558 | The ready count is the number of teammates whose pod the sync saw Running or Succeeded |
| TeamSpecs.DependenciesMeaning | internal/controller/agentteam_controller.go:2038-2065 | Effective dependencies are, each once and without empty names: with a pipeline the teammates listed by the stages its stage depends on, without one its dependsOn, and in both cases the producers of its inputs |
| TeamSpecs.PipelineDependenciesMeaning | internal/controller/agentteam_controller.go:2090-2112 | In pipeline mode a teammate waits for exactly the teammates listed by the declared stages, the last of each name, that the first stage listing it depends on |
| TeamSpecs.StageListingFindsFirst | internal/controller/agentteam_controller.go:2072-2084 | A teammate's stage is the first that lists it |
| TeamSpecs.StageIndexHoldsStages | internal/controller/agentteam_controller.go:2098-2102 | The stage index holds exactly the declared names, each for a stage of that name |
| TeamSpecs.LastStageWins | internal/controller/agentteam_controller.go:2098-2102 | Of several stages of one name it holds the last |
| TeamSpecs.HeldAtMeansClosed | internal/controller/agentteam_controller.go:318-325 | A teammate is held iff an annotation its stage or its spawn gate asks for is missing, and then at a missing one, the stage's if that is missing |
| Rosters.SyncKeepsEntries | internal/controller/agentteam_controller.go:1523-1558 | Status sync makes one entry per declared teammate in order and carries restart counts and pending approvals over |
| LoopRules.DeletePodsDone | internal/controller/agentteam_controller.go:2359-2376 | A delete loop leaves every pod not listed and, without error, no listed one; nothing else changes |
| TeamGraph.FindStageForTeammate | internal/controller/agentteam_controller.go:2072-2084 | The nested search returns the first stage that lists the teammate |
| TeamGraph.CollectPipelineDependencies | internal/controller/agentteam_controller.go:2090-2112 | The map and append loop compute the pipeline dependencies |
| TeamGraph.CollectEffectiveDependencies | internal/controller/agentteam_controller.go:2038-2065 | The seen-set loops compute the effective dependencies |
| TeamGraph.CheckApprovalGate | internal/controller/agentteam_controller.go:1930-1958 | Open iff no gate is declared for the event or its annotation is set |
| TeamGraph.FindGate | internal/controller/agentteam_controller.go:318-325 | The gate a teammate is held at, stage first |
| TeamGraph.LookUpProducerOutputPath | internal/controller/agentteam_controller.go:2257-2269 | The nested search returns the first matching output of a producer |
| TeamGraph.StageInputs | internal/controller/agentteam_controller.go:1434-1466 | One staged copy per input that resolves, in order |
| TeamObjects.AgentTeam.TeammateRestartCount | internal/controller/agentteam_controller.go:511-518 | The count of the first entry of that name, or zero |
| TeamObjects.AgentTeam.SetTeammateRestartCount | internal/controller/agentteam_controller.go:523-530 | Changes that entry only; without one, nothing |
| TeamObjects.AgentTeam.SetTeammatePendingApproval | internal/controller/agentteam_controller.go:1987-1998 | Changes the first entry of that name, or appends one |
| TeamObjects.AgentTeam.ClearTeammatePendingApproval | internal/controller/agentteam_controller.go:2000-2007 | Empties the pending approval of the first entry of that name only |
| TeamObjects.AgentTeam.RecordTeammateArtifacts | internal/controller/agentteam_controller.go:2280-2302 | Appends, in order, the outputs whose key was not on record at the start |
| TeamObjects.AgentTeam.SyncPodStatuses | internal/controller/agentteam_controller.go:1510-1559 | The new lead phase, roster, ready count and artifact list, as functions of the old status and the pods; nothing else changes |
| TeamObjects.AgentTeam.UpdatePipelineStatus | internal/controller/agentteam_controller.go:2141-2250 | The new pipeline status, as a function of the teammate entries, the old one and the annotations |
| TeamObjects.AgentTeam.UpdateStage | internal/controller/agentteam_controller.go:2166-2222 | The branch order, counts and stamps of one stage |
| TeamObjects.AgentTeam.TallyStage | internal/controller/agentteam_controller.go:2170-2185 | Completed count, any failed and any spawned, over a stage's teammates |
| TeamObjects.AgentTeam.NewTeamTracker | internal/controller/agentteam_controller.go:2340-2355 | A fresh tracker with the spec's limit and one session of the elapsed time per agent |
| TeamControllers.EnsureAgentPod | internal/controller/agentteam_controller.go:1002-1039 | No effect if the pod exists; otherwise one Pending pod with its staged inputs, or an error |
| TeamControllers.CheckDependencies | internal/controller/agentteam_controller.go:2012-2023 | True iff every named pod exists and has Succeeded |
| TeamControllers.TerminateAll | internal/controller/agentteam_controller.go:2359-2376 | Deletes every listed pod until a deletion fails |
| TeamControllers.CheckTimedOut | internal/controller/agentteam_controller.go:2306-2319 | Past the start plus the parsed timeout, four hours by default, never when it does not parse |
| TeamControllers.EstimateCost | internal/controller/agentteam_controller.go:2331-2333 | The tracker's total is the team cost of the elapsed seconds |
| TeamControllers.CheckBudgetExceeded | internal/controller/agentteam_controller.go:2321-2326 | Whether that cost has reached a positive limit |
| TeamControllers.SpawnFirst | internal/controller/agentteam_controller.go:314-331 | One pass of the initial spawn loop on the server and the held object |
| TeamControllers.SpawnLate | internal/controller/agentteam_controller.go:397-424 | One pass of the Running spawn loop |
| TeamControllers.SpawnUnblocked | internal/controller/agentteam_controller.go:397-424 | The whole loop, stopping at the first error |
| TeamControllers.RestartIfFailed | internal/controller/agentteam_controller.go:547-590 | One pass of the restart loop: skip, report, or delete, count and re-create in that order |
| TeamControllers.HandleTeammateFailures | internal/controller/agentteam_controller.go:542-592 | The whole loop, stopping at the first exhausted teammate or error |
| TeamControllers.AllPodsComplete | internal/controller/agentteam_controller.go:1578-1625 | anyFailed iff the lead or a declared teammate Failed; allDone iff all Succeeded |
| TeamControllers.Finalize | internal/controller/agentteam_controller.go:1637-1680 | Ready, waiting or error, with the push Job made at most once and the branch recorded only after it Succeeded |
| TeamControllers.ExecuteDelivery | internal/controller/agentteam_controller.go:1726-1752 | One send per target in order, and one appended record of each with its outcome |
| TeamControllers.Finish | internal/controller/agentteam_controller.go:426-475 | The end of a Running reconcile, and what it stores |
| TeamControllers.ReconcilePendingTeam | internal/controller/agentteam_controller.go:220-266 | Init Job once, phase, start time, commit |
| TeamControllers.DeployAgents | internal/controller/agentteam_controller.go:303-341 | Lead pod, initial spawns, Running |
| TeamControllers.ReconcileInitializingTeam | internal/controller/agentteam_controller.go:271-341 | Deadline, init Job outcome, then deployment |
| TeamControllers.Stop | internal/controller/agentteam_controller.go:350-361 | Pods deleted before the reason is recorded |
| TeamControllers.SyncStatus | internal/controller/agentteam_controller.go:362-380 | Cost, pods, pipeline |
| TeamControllers.SuperviseTeam | internal/controller/agentteam_controller.go:377-475 | Sync, restarts, spawns, conclusion, each skipped after an error |
| TeamControllers.ReconcileRunningTeam | internal/controller/agentteam_controller.go:346-475 | Deadline before budget before supervision |
| TeamControllers.ReconcileTerminalTeam | internal/controller/agentteam_controller.go:480-496 | Pods deleted; completion time set once |
| TeamControllers.ReconcileTeam | internal/controller/agentteam_controller.go:188-215 | One reconcile from the stored object takes server and status exactly to the next state of a run: cluster effects stay, status is stored only without error |
| Budget.TokenSplit | internal/budget/tracker.go:46-52 | Input plus output tokens equal the token estimate, or fall short by exactly one iff d mod 3 = 2 |
| Budget.SessionCostWithinUnit | internal/budget/tracker.go:82-93 | The rounded session cost is at most the exact one and below it by less than one input and one output token |
| Budget.SessionCostSuperadditive | internal/budget/tracker.go:82-93 | Splitting a session never costs more; cost is monotone in time |
| Budget.TeamCostMonotone | internal/budget/tracker.go:82-100 | The team cost never decreases in time |
| Budget.TeamCostGrowth | internal/budget/tracker.go:82-100 | Over d more seconds it grows by less than their exact price plus one unit per agent |
| Budget.OvershootBound | internal/budget/tracker.go:105-112 | The cost at the check that trips, when the previous check was within the limit |
| Budget.TotalCostOrderIndependent | internal/budget/tracker.go:82-100 | The total does not depend on the order of sessions |
| Budget.Tracker.RecordSession | internal/budget/tracker.go:82-93 | Adds exactly the session's cost to the running total |
| Budget.Tracker.IsOverBudget | internal/budget/tracker.go:105-112 | True iff the limit is positive and the total has reached it |
| Prices.SessionMinutes | internal/budget/tracker.go:8-59 | A session of whole minutes costs 37.5 cents a minute with opus and 22.5 with any other model |
| Prices.TeamMinutes | internal/controller/agentteam_controller.go:2340-2355 | Whole minutes of a team cost that many times the minute price of its lead and all its teammates |
| Prices.EstimateInMinutes | internal/controller/agentteam_controller.go:2331-2355 | The estimate of a started team lies between the prices of the whole minutes before and after |
| Prices.BudgetInMinutes | internal/controller/agentteam_controller.go:2321-2326 | Over every run a committed Running reconcile within the deadline stops a team whose positive limit the price of its whole minutes has reached, and none whose limit is above that of the next minute, not positive or not set |
| RunNames.RunNamesInjective | internal/controller/agentteamschedule_controller.go:258-260 | A Run name determines schedule and window, for all whole-second times and all names the API server accepts |
| ScheduleRuns.OncePerWindow | internal/controller/agentteamschedule_controller.go:91-169 | Over every run, whichever writes fail: no two Run creations are for the same window, and no name is created twice |
| ScheduleRuns.HistoryInOrder | internal/controller/agentteamschedule_controller.go:125-253 | Over every run stored entries have strictly increasing windows before the next one, and a non-empty ActiveRun names the last entry, which is in flight |
| ScheduleRuns.LastSurvives | internal/controller/agentteamschedule_controller.go:206-253 | A collection never deletes the Run of the newest entry, the only one a retry may ask for again |
| ScheduleRuns.RecordedOnce | internal/controller/agentteamschedule_controller.go:157-169 | Recording a Run that is on record already only makes it the active one |
| RunNames.DecimalIsTheNumber | internal/controller/agentteamschedule_controller.go:258-260 | The time in a Run name is written in decimal |
| PhaseTexts.FinishedRunsAreTerminalTeams | internal/controller/agentteamschedule_controller.go:264-270 | A Run counts as finished exactly in the phases in which its team is terminal |
| ScheduleRuns.RunKeeps | internal/controller/agentteamschedule_controller.go:56-120 | The invariant behind both |
| SchedulePunctuality.NoWindowMissed | internal/controller/agentteamschedule_controller.go:79-119 | With wake-ups no later than the returned delay, windows a minute apart and no API error: every window since the first reconcile has exactly one Run, in order, made less than 60 s after it |
| SchedulePunctuality.LateWakeFiresEarliest | internal/controller/agentteamschedule_controller.go:85-99 | After any outage one Run is made, for the stored window, which is the earliest missed; the others up to now are skipped |
| ScheduleTiming.DueExactly | internal/controller/agentteamschedule_controller.go:114-118 | After every wake-up of every run: it asks to be woken iff it returned no error, at the stored window when that is at least a minute away and a minute from now otherwise |
| ScheduleTiming.FiredOnTheDot | internal/controller/agentteamschedule_controller.go:79-119 | In a punctual run a window at least a minute after the last wake-up is fired exactly at its time when woken when asked |
| ScheduleTiming.FiringTimes | internal/controller/agentteamschedule_controller.go:79-119 | When every wake-up comes exactly when asked, each window is fired at the later of its own time and a minute after the firing before it |
| ScheduleTiming.StoresExactly | internal/controller/agentteamschedule_controller.go:91-119 | What a wake-up without error stores: the window fired and the next one from now; the active Run unless it has finished; of each entry whose Run is there the phase of the Run |
| ScheduleRetention.RetainedKeepsNewest | internal/controller/agentteamschedule_controller.go:212-226 | What is retained: everything in flight, and the newest terminal entries up to the limit, in order |
| ScheduleRetention.RetainedIdempotent | internal/controller/agentteamschedule_controller.go:206-253 | Collecting twice is collecting once |
| ScheduleRetention.SurplusDropped | internal/controller/agentteamschedule_controller.go:212-252 | The index computation drops exactly the entries not to be retained |
| ScheduleHistory.CollectionExact | internal/controller/agentteamschedule_controller.go:206-253 | A collection without a failed deletion keeps exactly those entries and deletes the Runs of exactly the others; without a positive limit it does nothing |
| ScheduleHistory.SecondCollectionFinishes | internal/controller/agentteamschedule_controller.go:228-252 | Collecting again the very history and Runs that a failed deletion left gives what one undisturbed collection would have |
| ScheduleCatchUp.PartialCollectionFinished | internal/controller/agentteamschedule_controller.go:104-119 | Over runs: a wake-up whose collection is cut short but whose status write succeeds, any progress of unfinished Runs, and an undisturbed wake-up leave the very state they would have left had no deletion failed |
| ScheduleStranding.LostWriteStrands | internal/controller/agentteamschedule_controller.go:104-119 | For every wake-up, due or not: an entry not stranded before (in flight on record, its Run gone) is stranded after iff it is stored in flight, its Run is gone and the reconcile returned an error |
| ScheduleStranding.StrandsExactly | internal/controller/agentteamschedule_controller.go:104-119 | The same in terms of what is there before: its Run is deleted before the first failing deletion, no due creation fails, and the call at the position of the status write does |
| ScheduleStranding.CommittedStrandsNobody | internal/controller/agentteamschedule_controller.go:104-119 | A wake-up whose status write succeeds strands nobody |
| ScheduleWitnesses.StrandingHappens | internal/controller/agentteamschedule_controller.go:104-119 | A run that strands an entry: two windows fire and are saved, both Runs complete, the next wake-up deletes one and fails to save |
| ScheduleStranding.StrandedForever | internal/controller/agentteamschedule_controller.go:174-188 | A stranded entry stays in the history, in flight, over every continuation |
| ScheduleControllers.AgentTeamSchedule.CreateRunForWindow | internal/controller/agentteamschedule_controller.go:125-169 | Create, with AlreadyExists as success, then the entry and ActiveRun |
| ScheduleControllers.AgentTeamSchedule.RefreshRunPhases | internal/controller/agentteamschedule_controller.go:174-200 | Every entry whose Run exists takes its phase; a finished ActiveRun is cleared |
| ScheduleControllers.AgentTeamSchedule.FindSurplus | internal/controller/agentteamschedule_controller.go:207-229 | The positions of the oldest terminal entries beyond the limit |
| ScheduleControllers.AgentTeamSchedule.GcOldRuns | internal/controller/agentteamschedule_controller.go:206-253 | Deletes, then compacts; a failed deletion leaves the history as it was, and is the only reason for an error |
| ScheduleControllers.AgentTeamSchedule.Reconcile | internal/controller/agentteamschedule_controller.go:79-119 | Bootstrap, fire, refresh, collect, save, with the collection's error not fatal |
| ScheduleControllers.ReconcileSchedule | internal/controller/agentteamschedule_controller.go:56-120 | One reconcile from the stored status is a wake-up of a run, and returns the delay the next one is due by |
| EventStreams.RoundTripExactly | internal/dashboard/sse.go:117-122 | Decoding any concatenation of written frames and heartbeats by sections 9.2.5 and 9.2.6 of the WHATWG HTML Living Standard gives exactly the events and payloads in order iff no payload has a CR and no event name a CR or LF |
| EventStreams.RoundTrip | internal/dashboard/sse.go:206-213 | The one direction, for all clean frames: empty payloads and leading spaces included |
| EventStreams.DecodedIsPlain | internal/dashboard/sse.go:206-213 | No stream at all decodes to a CR in data or a line break in an event type |
| EventStreams.SplitLinesJoin | internal/dashboard/sse.go:208-210 | The data lines join back to the payload and one line feed |
| EventStreams.HeartbeatIgnored | internal/dashboard/sse.go:119 | A heartbeat is a comment line and an empty line, and leaves the decoder as it was |
| EventStreams.StreamWriter.WriteFrame | internal/dashboard/sse.go:206-213 | Appends one event line, one data line per payload line and an empty line |
| EventStreams.StreamWriter.WriteHeartbeat | internal/dashboard/sse.go:117-122 | Appends a comment line and an empty line |
| StreamLoops.StreamUntilDone | internal/dashboard/sse.go:103-145 | The loop writes the frames of its step function for every sequence of polls, heartbeats and disconnects |
| StreamLoops.RefinesSendingAll | internal/dashboard/sse.go:123-143 | Updates sent are all renders with hash-repeats left out: consecutive ones differ in hash, the first render is sent, after each render the last update has its hash |
| StreamLoops.TransientSendsNothing | internal/dashboard/sse.go:132-134 | A transient error writes nothing and forgets nothing |
| StreamLoops.DeletedIsLast | internal/dashboard/sse.go:125-131 | A deleted frame is only ever last, and is there iff a poll found nothing |
| StreamLoops.EndsExactly | internal/dashboard/sse.go:103-145 | The loop has returned iff the client has gone, a heartbeat could not be written or the team was not found, and writes nothing after that |
| StreamLoops.HeartbeatsAreWritten | internal/dashboard/sse.go:115-122 | Exactly the heartbeats due before that are written |
| StreamLoops.ClientSeesChanges | internal/dashboard/sse.go:103-145 | End to end: the updates a client decodes from the bytes are the changes of the renders |
| TriggerRuns.AtMostOneInFlight | internal/trigger/handler.go:111-133 | With Forbid or Replace, a reconcile between any two POSTs and finished Runs staying finished, at most one Run is ever in flight, whichever API calls fail |
| TriggerRuns.ResponseExactly | internal/trigger/handler.go:111-133 | The answer to a POST in any state, under any policy and whichever calls fail: Conflict iff the policy is Forbid and a Run is active; else an internal error iff a call it makes fails, with no Run made; else the name of a Run that is there afterwards, with its payload; no Run but the replaced one is touched |
| TriggerRuns.PostExactly | internal/trigger/handler.go:111-133 | A POST in any state, under any policy and whichever calls fail: refused, it changes no Run; making a new Run, it leaves at most one in flight iff none is besides the Run it replaces; otherwise it only loses the Run it replaces |
| TriggerRuns.ExclusiveExactly | internal/trigger/handler.go:111-133 | For every run, reconciles between POSTs or not: at most one Run is in flight at all times iff no POST makes a new Run while one is in flight that it does not replace |
| TriggerRuns.TwoPostsWithoutReconcile | internal/trigger/handler.go:111-133 | Two POSTs on one cached status, each under a free name and with no failing call: with a non-empty ActiveRun Forbid refuses both; otherwise at most one Run is in flight after iff none was besides the Run replaced and the two names are the same or the stale cache makes the second replace the first |
| TriggerRuns.SecondsTellRunsApart | internal/trigger/handler.go:273-276 | Run names of one trigger differ whenever the seconds do |
| Triggers.ActiveIsNewest | internal/controller/agentteamtrigger_controller.go:65-97 | ActiveRun after a reconcile is an in-flight Run with no newer one in flight, even beyond the history, and empty iff none is in flight |
| Triggers.HistoryIsNewest | internal/controller/agentteamtrigger_controller.go:65-87 | The history is the newest Runs, as many as the limit, newest first |
| Triggers.TotalsAreExact | internal/controller/agentteamtrigger_controller.go:65-97 | The total is the number of Runs, the last time that of the newest, and 20 are kept when no limit is given |
| Triggers.SortNewestFirst | internal/controller/agentteamtrigger_controller.go:65-68 | A permutation in order of creation time, newest first |
| Triggers.AgentTeamTrigger.Reconcile | internal/controller/agentteamtrigger_controller.go:65-97 | The new status, as a function of the sorted listing |
| Triggers.ApiStore.ServeFire | internal/trigger/handler.go:111-133 | Conflict, replacement and creation in the order of the handler, with the response |
| Triggers.ApiStore.CreateTriggeredRun | internal/trigger/handler.go:214-267 | Payload first, then the Run, with AlreadyExists as success |
| Templates.ValidateTemplate | internal/controller/agentteamtemplate_controller.go:73-100 | Valid iff names are distinct, models allowed and dependencies known and not self; otherwise the first fault in checking order |
| Templates.CollectNames | internal/controller/agentteamtemplate_controller.go:74-80 | All names, or the first repeated one |
| Templates.ValidateTeammate | internal/controller/agentteamtemplate_controller.go:82-98 | One teammate: model first, then dependencies in order |
| Templates.ValidTemplateTeam | internal/controller/agentteamtemplate_controller.go:73-100 | A team made from a valid template, none of whose teammates is called lead (which is not checked), has distinct names and only known dependencies other than self |
| Templates.ValidExactly | internal/controller/agentteamtemplate_controller.go:73-100 | A template is valid iff names are distinct, every model is one of opus, sonnet and haiku or empty, and every dependency is known and another |
| Templates.CyclesPassValidation | internal/controller/agentteamtemplate_controller.go:82-100 | Two teammates waiting for each other pass, and no team made from them ever completes |
| Templates.CycleNeverCompletes | internal/controller/agentteamtemplate_controller.go:90-98 | The same for a cycle of any length |

## Left out

- Read errors that the code swallows: `dependenciesMet` answers no, `syncPodStatuses` and `refreshRunPhases` keep the old phase; a read error that ends a reconcile has the effect of a failed write at that point, which is covered.
- Stale cache reads, graceful pod deletion and pods deleted by others: assumed away, as stated above.
- PVCs, RBAC objects, ConfigMaps, pod and Job contents other than input staging: object building without decisions; a failure among them is a failed write before the pod or Job is created.
- Conditions, events, metrics, webhooks, budget warnings and log lines: written, never read back by the reconciler, except the budget warning's own marker.
- `executeCreatePR`, `notify` and the contents of deliveries: outside calls whose errors are logged and change no phase; a send is a given success or failure.
- Status fields `Message`, `TasksCompleted`, `TasksClaimed`, `Delivery.Error` and the pull request: copied or passed through.
- Text forms: a cron text that does not parse, on which the reconcile does nothing, is not modelled; durations, the budget limit, the branch template and `%.2f` costs are taken as already parsed, rendered or exact.
- Timestamps: the second-granularity of stored times is kept for schedules and triggers only where windows and creation times are whole seconds; the team's start time is exact, so deadline and cost may differ from the code by less than one second.
- Each reconcile reads the clock once; the code reads it again in places.
- Cost is over exact reals and token counts over unbounded integers; `float64` rounding and `int64` overflow are not modelled.
- The tracker's mutex: sessions are recorded one at a time.
- `sort.Slice` is modelled by an insertion sort; the trigger theorems hold for any order of Runs created in the same second.
- Trigger requests before the policy (path lookup, body limit, signature) and the workspace input added to a Run: no effect on which Runs exist.
- The Run controller, `mirrorTeamStatus` and `mergeRunIntoTemplate`: field copies. A Run marked Failed because its template is missing can leave that phase later, so that finished Runs stay finished is an assumption of `TriggerRuns.AtMostOneInFlight`.
- Run deletion by others: no step of a schedule's or trigger's run removes a Run except their own controllers.
- `setTemplateReady`, `trimMessage`, the CRD types, deep copies, HTML handlers, the dashboard API and harness adapters: only easy claims.
- TeamObjects.AgentTeam.SyncPodStatuses: every read succeeds; the code keeps a teammate's old phase when reading its pod fails for another reason than its absence.
- ScheduleControllers.AgentTeamSchedule.RefreshRunPhases: every read succeeds; the code skips an entry when reading its Run fails for another reason than its absence.
- SchedulePunctuality.NoWindowMissed: is for reconciles without API errors; with errors the retry delay is the framework's.
