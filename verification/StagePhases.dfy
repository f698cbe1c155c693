/** What a sync makes of each pipeline stage, in terms of the pods of its teammates, the approvals and the clock. */
module StagePhases {
  import opened Options
  import opened TeamSpecs
  import opened TeamStatuses
  import opened TeamReconcile
  import opened TeamRuns
  import opened Rosters
  import opened Frames
  import opened StageProgress
  import DS = DependencySafety
  import Lifecycles

  ghost predicate SomeFailed(stage: StageSpec, pods: Pods) {
    exists n :: n in stage.teammates && n in pods && pods[n].phase == PodFailed
  }

  ghost predicate AllSucceeded(stage: StageSpec, pods: Pods) {
    forall n :: n in stage.teammates ==> n in pods && pods[n].phase == PodSucceeded
  }

  ghost predicate SomePod(stage: StageSpec, pods: Pods) { exists n :: n in stage.teammates && n in pods }

  /** Some name the stage depends on is not that of an earlier stage whose teammates have all Succeeded without a failure. */
  ghost predicate UpstreamOpen(spec: TeamSpec, pods: Pods, i: int)
    requires 0 <= i < |Stages(spec)|
  {
    exists d :: d in Stages(spec)[i].dependsOn
                && forall j :: 0 <= j < i && Stages(spec)[j].name == d ==> !AllSucceeded(Stages(spec)[j], pods)
  }

  /** The phase of stage i: the first that applies. */
  ghost function PhaseSeen(spec: TeamSpec, pods: Pods, granted: set<string>, i: int): StagePhase
    requires 0 <= i < |Stages(spec)|
  {
    var stage := Stages(spec)[i];
    if SomeFailed(stage, pods) then StageFailed
    else if AllSucceeded(stage, pods) then StageCompleted
    else if UpstreamOpen(spec, pods, i) then StageWaiting
    else if stage.approvalRequired && "stage-" + stage.name !in granted then StagePendingApproval
    else if SomePod(stage, pods) then StageRunning
    else StageWaiting
  }

  function SucceededAt(names: seq<string>, pods: Pods): set<int> {
    set k | 0 <= k < |names| && names[k] in pods && pods[names[k]].phase == PodSucceeded
  }

  /** The stamp is set now when it is due and not set yet, and never changed. */
  ghost predicate Stamps(before: Option<int>, due: bool, now: int, after: Option<int>) {
    after == if before == None && due then Some(now) else before
  }

  ghost predicate StageShows(spec: TeamSpec, s: System, i: int, ss: StageStatus)
    requires 0 <= i < |Stages(spec)| && (s.st.pipeline.Some? ==> |s.st.pipeline.value.stages| == |Stages(spec)|)
  {
    var stage, phase := Stages(spec)[i], PhaseSeen(spec, s.cl.pods, s.cl.granted, i);
    var was := if s.st.pipeline.Some? then s.st.pipeline.value.stages[i] else StageStatus("", NoStagePhase, 0, 0, None, None);
    && ss.name == stage.name && ss.phase == phase
    && ss.ready == |SucceededAt(stage.teammates, s.cl.pods)| && ss.total == |stage.teammates|
    && Stamps(was.startedAt, phase == StageRunning, s.now, ss.startedAt)
    && Stamps(was.completedAt, phase == StageCompleted, s.now, ss.completedAt)
  }

  // ---- What a sync reads from the entries, in terms of pods ----

  ghost predicate Reads(stage: StageSpec, phases: Phases, pods: Pods) {
    && (AnyFailed(stage.teammates, phases) <==> SomeFailed(stage, pods))
    && (AnySpawned(stage.teammates, phases) <==> SomePod(stage, pods))
    && (StageDone(stage, phases) <==> !SomeFailed(stage, pods) && AllSucceeded(stage, pods))
    && CompletedCount(stage.teammates, phases) == |SucceededAt(stage.teammates, pods)|
  }

  lemma OneMore(names: seq<string>, pods: Pods)
    requires names != []
    ensures var n := |names| - 1;
      |SucceededAt(names, pods)| ==
        |SucceededAt(names[..n], pods)| + if names[n] in pods && pods[names[n]].phase == PodSucceeded then 1 else 0
  {
    var n := |names| - 1;
    assert SucceededAt(names, pods) ==
      SucceededAt(names[..n], pods) + if names[n] in pods && pods[names[n]].phase == PodSucceeded then {n} else {};
  }

  lemma {:induction false} CountsSucceeded(names: seq<string>, phases: Phases, pods: Pods)
    requires forall n :: n in names ==> (PhaseIn(phases, n).AgentCompleted? <==> n in pods && pods[n].phase == PodSucceeded)
    ensures CompletedCount(names, phases) == |SucceededAt(names, pods)|
  {
    hide PhaseIn, SucceededAt;
    if names == [] {
      assert |SucceededAt([], pods)| == 0 by { NoNames(pods); }
    } else {
      assert names[|names| - 1] in names;
      CountsSucceeded(names[..|names| - 1], phases, pods);
      OneMore(names, pods);
    }
  }

  lemma NoNames(pods: Pods)
    ensures |SucceededAt([], pods)| == 0
  {
  }

  lemma SyncReads(spec: TeamSpec, entries: seq<TeammateStatus>, pods: Pods, i: nat)
    requires WellFormed(spec) && DS.WellFormedPipeline(spec) && i < |Stages(spec)|
    ensures Reads(Stages(spec)[i], PhasesByName(SyncedEntries(spec, entries, pods)), pods)
  {
    hide PhasesByName, SyncedEntries, PhaseIn, WellFormed, StageDone, CompletedCount;
    var stage, phases := Stages(spec)[i], PhasesByName(SyncedEntries(spec, entries, pods));
    forall n | n in stage.teammates ensures PhaseIn(phases, n) == PodAgentPhase(pods, n) {
      SeenPhase(spec, entries, pods, n);
    }
    DoneMeansSucceeded(spec, entries, pods, i);
    CountsSucceeded(stage.teammates, phases, pods);
  }

  lemma DoneBeforeReads(spec: TeamSpec, entries: seq<TeammateStatus>, pods: Pods, i: nat)
    requires WellFormed(spec) && DS.WellFormedPipeline(spec) && i < |Stages(spec)|
    ensures var done := DoneBefore(Stages(spec), i, PhasesByName(SyncedEntries(spec, entries, pods)));
      (exists d :: d in Stages(spec)[i].dependsOn && d !in done) <==> UpstreamOpen(spec, pods, i)
  {
    hide PhasesByName, SyncedEntries, StageDone, WellFormed, AllSucceeded;
    var phases := PhasesByName(SyncedEntries(spec, entries, pods));
    forall j | 0 <= j < i ensures StageDone(Stages(spec)[j], phases) <==> AllSucceeded(Stages(spec)[j], pods) {
      DoneIsAllSucceeded(spec, entries, pods, j);
    }
  }

  lemma DoneIsAllSucceeded(spec: TeamSpec, entries: seq<TeammateStatus>, pods: Pods, j: nat)
    requires WellFormed(spec) && DS.WellFormedPipeline(spec) && j < |Stages(spec)|
    ensures StageDone(Stages(spec)[j], PhasesByName(SyncedEntries(spec, entries, pods))) <==> AllSucceeded(Stages(spec)[j], pods)
  {
    hide PhasesByName, SyncedEntries, StageDone, WellFormed;
    DoneMeansSucceeded(spec, entries, pods, j);
  }

  lemma PhaseIsSeen(spec: TeamSpec, entries: seq<TeammateStatus>, pods: Pods, granted: set<string>, i: nat)
    requires WellFormed(spec) && DS.WellFormedPipeline(spec) && i < |Stages(spec)|
    ensures var phases := PhasesByName(SyncedEntries(spec, entries, pods));
      StagePhaseFor(Stages(spec)[i], phases, DoneBefore(Stages(spec), i, phases), granted) == PhaseSeen(spec, pods, granted, i)
  {
    hide PhasesByName, SyncedEntries, StageDone, WellFormed, AllSucceeded, SomeFailed, SomePod, UpstreamOpen, AnyFailed, AnySpawned,
      DS.WellFormedPipeline, DoneBefore;
    SyncReads(spec, entries, pods, i);
    DoneBeforeReads(spec, entries, pods, i);
  }

  lemma SyncedStageShows(spec: TeamSpec, s: System, i: nat)
    requires WellFormed(spec) && Pipelined(spec) && i < |Stages(spec)|
    requires s.st.pipeline.Some? ==> Named(spec, s.st.pipeline.value)
    ensures Synced(spec, s).Some? && |Synced(spec, s).value.stages| == |Stages(spec)|
    ensures StageShows(spec, s, i, Synced(spec, s).value.stages[i])
  {
    hide PhasesByName, SyncedEntries, StageDone, WellFormed, PhaseSeen, StagePhaseFor, StagesByName, DS.WellFormedPipeline,
      CompletedCount, SucceededAt, UpdatedPipeline, DoneBefore;
    SyncedShape(spec, s, i);
    SyncReads(spec, s.st.teammates, s.cl.pods, i);
    PhaseIsSeen(spec, s.st.teammates, s.cl.pods, s.cl.granted, i);
    if s.st.pipeline.Some? {
      PreviousStage(spec, s.st.pipeline.value, i);
    }
  }

  /**
   Over every run of a team with a pipeline: a committed Running reconcile that does not stop the team stores of each stage
   the phase its teammates' pods and the approvals call for, how many of them have Succeeded, and the time of the first
   reconcile that saw it Running or Completed.
   */
  lemma StagesShowPods(spec: TeamSpec, steps: seq<Step>, env: Env, i: nat)
    requires WellFormed(spec) && Pipelined(spec) && i < |Stages(spec)| && Run(spec, steps).st.phase == Running
    requires var t := Run(spec, steps + [Reconciles(env)]);
      t.aborts == Run(spec, steps).aborts && t.st.phase !in [TimedOut, BudgetExceeded]
    ensures var s, t := Run(spec, steps), Run(spec, steps + [Reconciles(env)]);
      && (s.st.pipeline.Some? ==> |s.st.pipeline.value.stages| == |Stages(spec)|)
      && t.st.pipeline.Some? && |t.st.pipeline.value.stages| == |Stages(spec)|
      && StageShows(spec, s, i, t.st.pipeline.value.stages[i])
  {
    hide *;
    var s := Run(spec, steps);
    StageProgress.RunKeeps(spec, steps);
    Lifecycles.RunIsLive(spec, steps);
    Lifecycles.RunsOn(spec, steps, Reconciles(env));
    NamedBefore(spec, s);
    SyncedStageShows(spec, s, i);
    StoresSync(spec, s, env);
  }

  lemma NamedBefore(spec: TeamSpec, s: System)
    requires PipelineInv(spec, s)
    ensures s.st.pipeline.Some? ==> Named(spec, s.st.pipeline.value) && |s.st.pipeline.value.stages| == |Stages(spec)|
  {
  }

  lemma StoresSync(spec: TeamSpec, s: System, env: Env)
    requires WellFormed(spec) && DistinctEntries(s.st.teammates) && s.st.phase == Running
    requires var t := Next(spec, s, Reconciles(env)); t.aborts == s.aborts && t.st.phase !in [TimedOut, BudgetExceeded]
    ensures Next(spec, s, Reconciles(env)).st.pipeline == Synced(spec, s)
  {
    hide Supervise, Halt, Observe, DistinctEntries, IsTimedOut, IsBudgetExceeded, UpdatedPipeline, SyncedEntries;
    var m := Begin(s, env);
    Lifecycles.HaltWrites(spec, m, env, TimedOut);
    Lifecycles.HaltWrites(spec, m.(st := m.st.(estimatedCost := EstimatedCost(spec, m.st, s.now))), env, BudgetExceeded);
    SuperviseKeepsSync(spec, m, env, s.now);
    ObservedPipeline(spec, s, env);
  }

  lemma KeepsNone(spec: TeamSpec, s: System, step: Step)
    requires WellFormed(spec) && Stages(spec) == [] && s.st.pipeline == None && DistinctEntries(s.st.teammates)
    ensures Next(spec, s, step).st.pipeline == None
  {
    hide Supervise, Halt, Deploy, TerminateAllPods, Observe, DistinctEntries, IsTimedOut, IsBudgetExceeded, SyncedEntries;
    if step.Reconciles? {
      var m := Begin(s, step.env);
      Lifecycles.HaltWrites(spec, m, step.env, TimedOut);
      Lifecycles.HaltWrites(spec, m.(st := m.st.(estimatedCost := EstimatedCost(spec, m.st, s.now))), step.env, BudgetExceeded);
      Lifecycles.TerminateWrites(spec, m, step.env);
      DeployFrame(spec, m, s.now);
      SuperviseKeepsSync(spec, m, step.env, s.now);
      ObservedPipeline(spec, s, step.env);
    }
  }

  /** Over every run a team without stages has no pipeline status. */
  lemma {:induction false} NoStagesNoStatus(spec: TeamSpec, steps: seq<Step>)
    requires WellFormed(spec) && Stages(spec) == []
    ensures Run(spec, steps).st.pipeline == None
  {
    hide Next;
    if steps != [] {
      NoStagesNoStatus(spec, steps[..|steps| - 1]);
      Lifecycles.RunIsLive(spec, steps[..|steps| - 1]);
      KeepsNone(spec, Run(spec, steps[..|steps| - 1]), steps[|steps| - 1]);
    }
  }
}
