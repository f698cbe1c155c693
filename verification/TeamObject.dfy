/** The AgentTeam object a reconcile holds, whose status fields the reconciler's helpers update in place. */
module TeamObjects {
  import opened Options
  import opened TeamSpecs
  import opened TeamStatuses
  import opened Rosters
  import Budget

  class AgentTeam {
    const spec: TeamSpec
    const annotations: set<string>
    var phase: Phase
    var startedAt: Option<int>
    var completedAt: Option<int>
    var estimatedCost: real
    var lead: AgentPhase
    var ready: nat
    var teammates: seq<TeammateStatus>
    var artifacts: seq<ArtifactStatus>
    var pipeline: Option<PipelineStatus>
    var consolidatedBranch: string
    var delivery: seq<DeliveryStatus>

    /** The status fields as one record. */
    function View(): Status reads this {
      Status(phase, startedAt, completedAt, estimatedCost, lead, ready, teammates, artifacts, pipeline, consolidatedBranch, delivery)
    }

    constructor (spec: TeamSpec, annotations: set<string>, st: Status)
      ensures this.spec == spec && this.annotations == annotations && View() == st
    {
      this.spec, this.annotations := spec, annotations;
      phase, startedAt, completedAt, estimatedCost := st.phase, st.startedAt, st.completedAt, st.estimatedCost;
      lead, ready, teammates, artifacts := st.lead, st.ready, st.teammates, st.artifacts;
      pipeline, consolidatedBranch, delivery := st.pipeline, st.consolidatedBranch, st.delivery;
    }

    method TeammateRestartCount(name: string) returns (count: int)
      ensures count == RestartCount(teammates, name)
    {
      for i := 0 to |teammates|
        invariant forall k :: 0 <= k < i ==> teammates[k].name != name
      {
        if teammates[i].name == name {
          return teammates[i].restartCount;
        }
      }
      count := 0;
    }

    method SetTeammateRestartCount(name: string, count: int)
      modifies this`teammates
      ensures teammates == SetRestartCount(old(teammates), name, count)
    {
      for i := 0 to |teammates|
        invariant teammates == old(teammates) && forall k :: 0 <= k < i ==> teammates[k].name != name
      {
        if teammates[i].name == name {
          IndexIs(teammates, name, i);
          teammates := teammates[i := teammates[i].(restartCount := count)];
          return;
        }
      }
    }

    method SetTeammatePendingApproval(name: string, event: string)
      modifies this`teammates
      ensures teammates == SetPendingApproval(old(teammates), name, event)
    {
      for i := 0 to |teammates|
        invariant teammates == old(teammates) && forall k :: 0 <= k < i ==> teammates[k].name != name
      {
        if teammates[i].name == name {
          IndexIs(teammates, name, i);
          teammates := teammates[i := teammates[i].(pendingApproval := event)];
          return;
        }
      }
      teammates := teammates + [TeammateStatus(name, "", NoPhase, event, 0)];
    }

    method ClearTeammatePendingApproval(name: string)
      modifies this`teammates
      ensures teammates == ClearPendingApproval(old(teammates), name)
    {
      for i := 0 to |teammates|
        invariant teammates == old(teammates) && forall k :: 0 <= k < i ==> teammates[k].name != name
      {
        if teammates[i].name == name {
          IndexIs(teammates, name, i);
          teammates := teammates[i := teammates[i].(pendingApproval := "")];
          return;
        }
      }
    }

    method RecordTeammateArtifacts(tm: TeammateSpec, at: int)
      modifies this`artifacts
      ensures artifacts == RecordArtifacts(old(artifacts), tm, at)
    {
      if tm.outputs == [] {
        return;
      }
      var existing: set<string> := {};
      for i := 0 to |artifacts|
        invariant artifacts == old(artifacts) && existing == ArtifactKeys(artifacts[..i])
      {
        assert artifacts[..i + 1] == artifacts[..i] + [artifacts[i]];
        existing := existing + {ArtifactKey(artifacts[i].producedBy, artifacts[i].name)};
      }
      assert artifacts[..|artifacts|] == artifacts;
      for i := 0 to |tm.outputs|
        invariant artifacts == old(artifacts) + NewArtifacts(existing, tm.name, tm.outputs[..i], at)
      {
        assert tm.outputs[..i + 1][..i] == tm.outputs[..i];
        var out := tm.outputs[i];
        if ArtifactKey(tm.name, Base(out.path)) !in existing {
          artifacts := artifacts + [ArtifactStatus(Base(out.path), out.path, tm.name, at)];
        }
      }
      assert tm.outputs[..|tm.outputs|] == tm.outputs;
    }

    /** Indexes the entries by name, a later one replacing an earlier one. */
    static method IndexEntries(entries: seq<TeammateStatus>) returns (byName: map<string, TeammateStatus>)
      ensures byName == EntriesByName(entries)
    {
      byName := map[];
      for i := 0 to |entries|
        invariant byName == EntriesByName(entries[..i])
      {
        assert entries[..i + 1][..i] == entries[..i];
        byName := byName[entries[i].name := entries[i]];
      }
      assert entries[..|entries|] == entries;
    }

    /** The refreshed entry of one teammate; records its artifacts when its pod has Succeeded. */
    method SyncTeammate(prev: map<string, TeammateStatus>, tm: TeammateSpec, pods: Pods, now: int) returns (st: TeammateStatus)
      modifies this`artifacts
      ensures st == SyncedEntry(prev, tm.name, pods)
      ensures artifacts == if Succeeded(pods, tm.name) then RecordArtifacts(old(artifacts), tm, now) else old(artifacts)
    {
      st := if tm.name in prev then prev[tm.name] else TeammateStatus(tm.name, "", NoPhase, "", 0);
      if tm.name in pods {
        st := st.(name := tm.name, podName := tm.name, phase := AgentPhaseOf(pods[tm.name].phase));
        if pods[tm.name].phase.PodSucceeded? {
          RecordTeammateArtifacts(tm, now);
        }
      } else {
        st := st.(name := tm.name, podName := "", phase := AgentWaiting);
      }
    }

    /** Refreshes the lead's phase, the roster, the ready count and the artifact list from the pods. */
    method SyncPodStatuses(pods: Pods, now: int)
      modifies this`lead, this`teammates, this`ready, this`artifacts
      ensures lead == if LEAD in pods then AgentPhaseOf(pods[LEAD].phase) else old(lead)
      ensures teammates == SyncedEntries(spec, old(teammates), pods)
      ensures ready == ReadyCount(teammates)
      ensures artifacts == RecordSucceeded(spec.teammates, pods, old(artifacts), now)
    {
      hide AgentPhaseOf, RecordArtifacts, EntriesByName, SyncedEntry;
      if LEAD in pods {
        lead := AgentPhaseOf(pods[LEAD].phase);
      }
      var prev := IndexEntries(teammates);
      ghost var synced := SyncedEntries(spec, teammates, pods);
      var rebuilt := [];
      var count := 0;
      for i := 0 to |spec.teammates|
        modifies this`artifacts
        invariant rebuilt == synced[..i] && count == ReadyCount(rebuilt)
        invariant artifacts == RecordSucceeded(spec.teammates[..i], pods, old(artifacts), now)
      {
        assert spec.teammates[..i + 1][..i] == spec.teammates[..i];
        var st := SyncTeammate(prev, spec.teammates[i], pods, now);
        if st.phase.AgentRunning? || st.phase.AgentCompleted? {
          count := count + 1;
        }
        assert (rebuilt + [st])[..i] == rebuilt;
        rebuilt := rebuilt + [st];
      }
      assert spec.teammates[..|spec.teammates|] == spec.teammates;
      assert rebuilt == synced;
      teammates := rebuilt;
      ready := count;
    }

    /** Counts the Completed teammates of a stage and notes whether any failed or was spawned. */
    static method TallyStage(names: seq<string>, phases: Phases) returns (done: nat, anyFailed: bool, anySpawned: bool)
      ensures done == CompletedCount(names, phases)
      ensures anyFailed <==> AnyFailed(names, phases)
      ensures anySpawned <==> AnySpawned(names, phases)
    {
      done, anyFailed, anySpawned := 0, false, false;
      for i := 0 to |names|
        invariant done == CompletedCount(names[..i], phases)
        invariant anyFailed <==> AnyFailed(names[..i], phases)
        invariant anySpawned <==> AnySpawned(names[..i], phases)
      {
        assert names[..i + 1] == names[..i] + [names[i]];
        match PhaseIn(phases, names[i]) {
          case AgentCompleted => done, anySpawned := done + 1, true;
          case AgentFailed => anyFailed, anySpawned := true, true;
          case AgentRunning => anySpawned := true;
          case AgentPending => anySpawned := true;
          case _ =>
        }
      }
      assert names[..|names|] == names;
    }

    /** Recomputes every stage's phase, counts and stamps from the teammate entries, or clears the pipeline status. */
    method UpdatePipelineStatus(now: int)
      modifies this`pipeline
      ensures pipeline == UpdatedPipeline(spec, teammates, old(pipeline), annotations, now)
    {
      hide PhasesByName, StageStatusFor, PreviousStages, StageDone;
      if spec.pipeline.None? || spec.pipeline.value == [] {
        pipeline := None;
        return;
      }
      var specs := spec.pipeline.value;
      var phases := IndexPhases();
      var prev := IndexPrevious();
      ghost var updated := StageStatuses(prev, specs, phases, annotations, now);
      var stages: seq<StageStatus> := [];
      var stageCompleted: set<string> := {};
      var completed, currentStage := 0, "";
      for i := 0 to |specs|
        invariant stages == updated[..i] && stageCompleted == DoneBefore(specs, i, phases)
        invariant completed == CountCompleted(stages) && currentStage == FirstOpen(stages)
      {
        var ss, done := UpdateStage(prev, specs[i], phases, stageCompleted, now);
        DoneBeforeNext(specs, i, phases);
        if done {
          stageCompleted := stageCompleted + {specs[i].name};
        }
        if ss.phase.StageCompleted? {
          completed := completed + 1;
        } else if currentStage == "" {
          currentStage := ss.name;
        }
        assert (stages + [ss])[..i] == stages;
        stages := stages + [ss];
      }
      assert stages == updated;
      pipeline := Some(PipelineStatus(currentStage, completed, |specs|, stages));
    }

    /** The agent phases by teammate name. */
    method IndexPhases() returns (phases: Phases)
      ensures phases == PhasesByName(teammates)
    {
      phases := map[];
      for i := 0 to |teammates|
        invariant phases == PhasesByName(teammates[..i])
      {
        assert teammates[..i + 1][..i] == teammates[..i];
        phases := phases[teammates[i].name := teammates[i].phase];
      }
      assert teammates[..|teammates|] == teammates;
    }

    method IndexPrevious() returns (prev: map<string, StageStatus>)
      ensures prev == PreviousStages(pipeline)
    {
      prev := map[];
      if pipeline.Some? {
        var stages := pipeline.value.stages;
        for i := 0 to |stages|
          invariant prev == StagesByName(stages[..i])
        {
          assert stages[..i + 1][..i] == stages[..i];
          prev := prev[stages[i].name := stages[i]];
        }
        assert stages[..|stages|] == stages;
      }
    }

    /** The new status of one stage, given the stages Completed before it, and whether all its teammates are done. */
    method UpdateStage(prev: map<string, StageStatus>, stage: StageSpec, phases: Phases, stageCompleted: set<string>, now: int)
      returns (ss: StageStatus, done: bool)
      ensures ss == StageStatusFor(prev, stage, phases, stageCompleted, annotations, now)
      ensures done <==> StageDone(stage, phases)
    {
      ss := if stage.name in prev then prev[stage.name] else StageStatus(stage.name, NoStagePhase, 0, 0, None, None);
      var completed, anyFailed, anySpawned := TallyStage(stage.teammates, phases);
      ss := ss.(name := stage.name, ready := completed, total := |stage.teammates|);
      var upstreamReady := true;
      var i := 0;
      while i < |stage.dependsOn| && upstreamReady
        invariant i <= |stage.dependsOn|
        invariant upstreamReady <==> forall d :: d in stage.dependsOn[..i] ==> d in stageCompleted
      {
        assert stage.dependsOn[..i + 1] == stage.dependsOn[..i] + [stage.dependsOn[i]];
        upstreamReady := stage.dependsOn[i] in stageCompleted;
        i := i + 1;
      }
      assert upstreamReady ==> stage.dependsOn[..i] == stage.dependsOn;
      done := false;
      if anyFailed {
        ss := ss.(phase := StageFailed);
      } else if completed == |stage.teammates| && |stage.teammates| > 0 {
        done := true;
        ss := ss.(phase := StageCompleted, completedAt := if ss.completedAt.None? then Some(now) else ss.completedAt);
      } else if !upstreamReady {
        ss := ss.(phase := StageWaiting);
      } else if stage.approvalRequired && !StageApprovalGranted(annotations, stage) {
        ss := ss.(phase := StagePendingApproval);
      } else if anySpawned {
        ss := ss.(phase := StageRunning, startedAt := if ss.startedAt.None? then Some(now) else ss.startedAt);
      } else {
        ss := ss.(phase := StageWaiting);
      }
    }

    /** A tracker holding one session per agent for the time since the start, limited by the spec's budget. */
    method NewTeamTracker(now: int) returns (tracker: Budget.Tracker)
      ensures fresh(tracker) && tracker.Valid()
      ensures tracker.budgetLimit ==
        if spec.lifecycle.None? || spec.lifecycle.value.budgetLimit.None? then 0.0 else spec.lifecycle.value.budgetLimit.value
      ensures tracker.sessions ==
        if startedAt.None? then [] else Budget.SessionsFor(Models(spec), (now - startedAt.value) / SECOND)
    {
      var limit := 0.0;
      if spec.lifecycle.Some? && spec.lifecycle.value.budgetLimit.Some? {
        limit := spec.lifecycle.value.budgetLimit.value;
      }
      tracker := new Budget.Tracker(limit);
      if startedAt.None? {
        return;
      }
      var elapsed := (now - startedAt.value) / SECOND;
      tracker.RecordSession(spec.leadModel, elapsed);
      for i := 0 to |spec.teammates|
        invariant fresh(tracker) && tracker.Valid() && tracker.budgetLimit == limit
        invariant tracker.sessions == Budget.SessionsFor(Models(spec)[..i + 1], elapsed)
      {
        tracker.RecordSession(spec.teammates[i].model, elapsed);
      }
    }
  }

  lemma DoneBeforeNext(stages: seq<StageSpec>, i: nat, phases: Phases)
    requires i < |stages|
    ensures DoneBefore(stages, i + 1, phases) == DoneBefore(stages, i, phases) + (if StageDone(stages[i], phases) then {stages[i].name} else {})
  {
  }
}
