/** The pipeline status agrees with the stage graph, and its time stamps are set once and in order. */
module StageProgress {
  import opened Options
  import opened TeamSpecs
  import opened TeamStatuses
  import opened TeamReconcile
  import opened TeamRuns
  import opened LoopRules
  import opened Rosters
  import opened Frames
  import opened Intactness
  import opened ArtifactRouting
  import DS = DependencySafety
  import Lifecycles
  import Verdicts

  ghost predicate Pipelined(spec: TeamSpec) {
    DS.WellFormedPipeline(spec) && Stages(spec) != [] && forall i :: 0 <= i < |Stages(spec)| ==> Stages(spec)[i].name != ""
  }

  /** Stage j is an upstream of stage i. */
  ghost predicate Upstream(spec: TeamSpec, i: nat, j: nat)
    requires i < |Stages(spec)| && j < |Stages(spec)|
  {
    Stages(spec)[j].name in Stages(spec)[i].dependsOn
  }

  /** Every upstream name is declared, at an earlier position. */
  ghost predicate Topological(spec: TeamSpec) {
    forall i, d :: 0 <= i < |Stages(spec)| && d in Stages(spec)[i].dependsOn ==>
      exists j :: 0 <= j < i && Stages(spec)[j].name == d
  }

  ghost predicate Named(spec: TeamSpec, p: PipelineStatus) {
    |p.stages| == |Stages(spec)| && forall i :: 0 <= i < |p.stages| ==> p.stages[i].name == Stages(spec)[i].name
  }

  function CompletedIndices(p: PipelineStatus): set<int> {
    set i | 0 <= i < |p.stages| && p.stages[i].phase.StageCompleted?
  }

  /** Completed stages are closed under upstream, they are counted, and the current stage is the first other one. */
  ghost predicate Agrees(spec: TeamSpec, p: PipelineStatus) {
    && Named(spec, p)
    && (forall i: nat, j: nat :: i < |p.stages| && j < |p.stages| && p.stages[i].phase.StageCompleted? && Upstream(spec, i, j) ==>
      p.stages[j].phase.StageCompleted?)
    && p.stagesCompleted == |CompletedIndices(p)|
    && p.stagesTotal == |Stages(spec)|
    && (if forall i :: 0 <= i < |p.stages| ==> p.stages[i].phase.StageCompleted? then p.currentStage == ""
        else exists i :: 0 <= i < |p.stages| && p.stages[i].name == p.currentStage && !p.stages[i].phase.StageCompleted?
                         && forall k :: 0 <= k < i ==> p.stages[k].phase.StageCompleted?)
  }

  /** A Waiting stage has no spawned teammate. */
  ghost predicate WaitingIsIdle(spec: TeamSpec, p: PipelineStatus, entries: seq<TeammateStatus>) {
    && Named(spec, p) && Roster(spec, entries)
    && forall i, k :: 0 <= i < |p.stages| && 0 <= k < |entries| && p.stages[i].phase.StageWaiting? && spec.teammates[k].name in Stages(spec)[i].teammates ==>
      !IsSpawned(entries[k].phase)
  }

  /** The name is that of a stage listed before stage i. */
  ghost predicate DeclaredBefore(spec: TeamSpec, i: int, d: string) {
    exists j :: 0 <= j < i && j < |Stages(spec)| && Stages(spec)[j].name == d
  }

  ghost predicate InStage(spec: TeamSpec, i: int, k: int)
    requires 0 <= i < |Stages(spec)| && 0 <= k < |spec.teammates|
  {
    spec.teammates[k].name in Stages(spec)[i].teammates
  }

  /** Some teammate of the stage has been spawned. */
  ghost predicate HasSpawned(spec: TeamSpec, entries: seq<TeammateStatus>, i: int)
    requires 0 <= i < |Stages(spec)| && |entries| == |spec.teammates|
  {
    exists k :: 0 <= k < |entries| && InStage(spec, i, k) && IsSpawned(entries[k].phase)
  }

  /** No teammate of the stage Failed, not all are Completed, and some upstream name is not declared at an earlier position. */
  ghost predicate HeldUp(spec: TeamSpec, entries: seq<TeammateStatus>, i: int)
    requires 0 <= i < |Stages(spec)| && |entries| == |spec.teammates|
  {
    && (forall k :: 0 <= k < |entries| && InStage(spec, i, k) ==> !entries[k].phase.AgentFailed?)
    && (exists k :: 0 <= k < |entries| && InStage(spec, i, k) && !entries[k].phase.AgentCompleted?)
    && exists d :: d in Stages(spec)[i].dependsOn && !DeclaredBefore(spec, i, d)
  }

  /** A stage with a spawned teammate is reported Waiting exactly when it is held up. */
  ghost predicate WaitingIsExact(spec: TeamSpec, p: PipelineStatus, entries: seq<TeammateStatus>) {
    && Named(spec, p) && Roster(spec, entries)
    && forall i :: 0 <= i < |p.stages| && HasSpawned(spec, entries, i) ==> (p.stages[i].phase.StageWaiting? <==> HeldUp(spec, entries, i))
  }

  /** Stamps are past and ordered, and a completion stamp means all the stage's teammates have Succeeded. */
  ghost predicate Stamped(spec: TeamSpec, p: PipelineStatus, cl: Cluster, now: int) {
    && Named(spec, p)
    && forall i :: 0 <= i < |p.stages| ==> StageStamped(Stages(spec)[i], p.stages[i], cl, now)
  }

  ghost predicate StageStamped(stage: StageSpec, ss: StageStatus, cl: Cluster, now: int) {
    && (ss.startedAt.Some? ==> ss.startedAt.value <= now)
    && (ss.completedAt.Some? ==>
      && ss.completedAt.value <= now
      && (ss.startedAt.Some? ==> ss.startedAt.value <= ss.completedAt.value)
      && forall n :: n in stage.teammates ==> n in cl.succeeded)
  }

  /** Stamps set in one pipeline status are the same in the other. */
  ghost predicate StampsKept(p: Option<PipelineStatus>, q: Option<PipelineStatus>) {
    p.Some? ==>
      && q.Some? && |p.value.stages| == |q.value.stages|
      && forall i :: 0 <= i < |p.value.stages| ==>
        && (p.value.stages[i].startedAt.Some? ==> q.value.stages[i].startedAt == p.value.stages[i].startedAt)
        && (p.value.stages[i].completedAt.Some? ==> q.value.stages[i].completedAt == p.value.stages[i].completedAt)
  }

  // ---- Phases seen by a sync ----

  function PodAgentPhase(pods: Pods, name: string): AgentPhase {
    if name in pods then AgentPhaseOf(pods[name].phase) else AgentWaiting
  }

  lemma SeenPhase(spec: TeamSpec, entries: seq<TeammateStatus>, pods: Pods, name: string)
    requires WellFormed(spec) && Declared(spec, name)
    ensures PhaseIn(PhasesByName(SyncedEntries(spec, entries, pods)), name) == PodAgentPhase(pods, name)
  {
  }

  lemma DoneMeansAllCompleted(stage: StageSpec, phases: Phases)
    ensures StageDone(stage, phases) <==>
      stage.teammates != [] && forall n :: n in stage.teammates ==> PhaseIn(phases, n).AgentCompleted?
  {
  }

  lemma DoneMeansSucceeded(spec: TeamSpec, entries: seq<TeammateStatus>, pods: Pods, i: nat)
    requires WellFormed(spec) && DS.WellFormedPipeline(spec) && i < |Stages(spec)|
    ensures StageDone(Stages(spec)[i], PhasesByName(SyncedEntries(spec, entries, pods)))
      <==> forall n :: n in Stages(spec)[i].teammates ==> Succeeded(pods, n)
  {
    hide PhasesByName, SyncedEntries, PhaseIn, StageDone, WellFormed;
    var phases := PhasesByName(SyncedEntries(spec, entries, pods));
    forall n | n in Stages(spec)[i].teammates ensures PhaseIn(phases, n).AgentCompleted? <==> Succeeded(pods, n) {
      SeenPhase(spec, entries, pods, n);
    }
    DoneMeansAllCompleted(Stages(spec)[i], phases);
  }

  /** Stages whose teammates have all Succeeded are closed under upstream. */
  lemma DoneIsClosed(spec: TeamSpec, s: System, i: nat, j: nat)
    requires WellFormed(spec) && DS.WellFormedPipeline(spec) && Reachable(spec, s) && Alive(spec, s)
    requires i < |Stages(spec)| && j < |Stages(spec)| && Upstream(spec, i, j)
    requires exists n :: n in Stages(spec)[i].teammates && n in s.cl.pods
    ensures forall d :: d in Stages(spec)[j].teammates ==> Succeeded(s.cl.pods, d)
  {
    var n :| n in Stages(spec)[i].teammates && n in s.cl.pods;
    forall d | d in Stages(spec)[j].teammates ensures Succeeded(s.cl.pods, d) {
      DS.StageEdge(spec, i, j, n, d);
      BornDependenciesStand(spec, s, n, d);
    }
  }

  lemma {:induction false} CountIsCardinality(stages: seq<StageStatus>)
    ensures CountCompleted(stages) == |set i | 0 <= i < |stages| && stages[i].phase.StageCompleted?|
  {
    if stages != [] {
      var n := |stages| - 1;
      CountIsCardinality(stages[..n]);
      var before := set i | 0 <= i < n && stages[..n][i].phase.StageCompleted?;
      var all := set i | 0 <= i < |stages| && stages[i].phase.StageCompleted?;
      forall i ensures i in all <==> i in before || (i == n && stages[n].phase.StageCompleted?) {
        assert 0 <= i < n ==> stages[..n][i] == stages[i];
      }
      assert all == before + (if stages[n].phase.StageCompleted? then {n} else {});
    }
  }

  lemma {:induction false} FirstOpenIsFirst(stages: seq<StageStatus>)
    requires forall i :: 0 <= i < |stages| ==> stages[i].name != ""
    ensures if forall i :: 0 <= i < |stages| ==> stages[i].phase.StageCompleted? then FirstOpen(stages) == ""
      else exists i :: 0 <= i < |stages| && stages[i].name == FirstOpen(stages) && !stages[i].phase.StageCompleted?
                       && forall k :: 0 <= k < i ==> stages[k].phase.StageCompleted?
  {
    if stages != [] {
      var n := |stages| - 1;
      FirstOpenIsFirst(stages[..n]);
      if i :| 0 <= i < n && stages[..n][i].name == FirstOpen(stages[..n]) && !stages[..n][i].phase.StageCompleted?
              && forall k :: 0 <= k < i ==> stages[..n][k].phase.StageCompleted? {
        assert stages[i].name != "" && !stages[i].phase.StageCompleted?;
        assert forall k :: 0 <= k < i ==> stages[k].phase.StageCompleted? by {
          forall k | 0 <= k < i ensures stages[k].phase.StageCompleted? {
            assert stages[..n][k] == stages[k];
          }
        }
      } else {
        assert forall i :: 0 <= i < n ==> stages[i].phase.StageCompleted? by {
          forall i | 0 <= i < n ensures stages[i].phase.StageCompleted? {
            assert stages[..n][i] == stages[i];
          }
        }
      }
    }
  }

  lemma PreviousStage(spec: TeamSpec, p: PipelineStatus, i: nat)
    requires DS.WellFormedPipeline(spec) && Named(spec, p) && i < |p.stages|
    ensures Stages(spec)[i].name in StagesByName(p.stages) && StagesByName(p.stages)[Stages(spec)[i].name] == p.stages[i]
  {
    assert p.stages[i] in p.stages;
    var ss := StagesByName(p.stages)[Stages(spec)[i].name];
    var j :| 0 <= j < |p.stages| && p.stages[j] == ss;
  }

  // ---- One sync ----

  /** The pipeline status a live Running team's sync computes. */
  function Synced(spec: TeamSpec, s: System): Option<PipelineStatus> {
    UpdatedPipeline(spec, SyncedEntries(spec, s.st.teammates, s.cl.pods), s.st.pipeline, s.cl.granted, s.now)
  }

  lemma SyncedShape(spec: TeamSpec, s: System, i: nat)
    requires Pipelined(spec) && i < |Stages(spec)|
    ensures Synced(spec, s).Some? && Named(spec, Synced(spec, s).value)
    ensures var phases := PhasesByName(SyncedEntries(spec, s.st.teammates, s.cl.pods));
      var ss := Synced(spec, s).value.stages[i];
      && ss == StageStatusFor(PreviousStages(s.st.pipeline), Stages(spec)[i], phases, DoneBefore(Stages(spec), i, phases), s.cl.granted, s.now)
      && (ss.phase.StageCompleted? <==> StageDone(Stages(spec)[i], phases))
  {
    hide PhasesByName, SyncedEntries, StageDone, AnyFailed, AnySpawned;
    StagePhaseCompleted(Stages(spec)[i], PhasesByName(SyncedEntries(spec, s.st.teammates, s.cl.pods)),
      DoneBefore(Stages(spec), i, PhasesByName(SyncedEntries(spec, s.st.teammates, s.cl.pods))), s.cl.granted);
  }

  lemma StagePhaseCompleted(stage: StageSpec, phases: Phases, done: set<string>, granted: set<string>)
    ensures StagePhaseFor(stage, phases, done, granted).StageCompleted? <==> StageDone(stage, phases)
  {
  }

  lemma CompletedIsClosed(spec: TeamSpec, s: System, i: nat, j: nat)
    requires WellFormed(spec) && Pipelined(spec) && Reachable(spec, s) && s.st.phase == Running && Alive(spec, s)
    requires i < |Stages(spec)| && j < |Stages(spec)| && Upstream(spec, i, j)
    requires Synced(spec, s).Some? && Named(spec, Synced(spec, s).value) && Synced(spec, s).value.stages[i].phase.StageCompleted?
    ensures Synced(spec, s).value.stages[j].phase.StageCompleted?
  {
    hide PhasesByName, SyncedEntries, StageDone, StageStatusFor, UpdatedPipeline, Reachable, Upstream, WellFormed,
      Alive;
    SyncedShape(spec, s, i);
    SyncedShape(spec, s, j);
    DoneMeansSucceeded(spec, s.st.teammates, s.cl.pods, i);
    DoneMeansSucceeded(spec, s.st.teammates, s.cl.pods, j);
    assert Stages(spec)[i].teammates[0] in Stages(spec)[i].teammates && Succeeded(s.cl.pods, Stages(spec)[i].teammates[0]);
    DoneIsClosed(spec, s, i, j);
  }

  lemma SyncAgrees(spec: TeamSpec, s: System)
    requires WellFormed(spec) && Pipelined(spec) && Reachable(spec, s) && s.st.phase == Running && Alive(spec, s)
    ensures Synced(spec, s).Some? && Agrees(spec, Synced(spec, s).value)
  {
    hide PhasesByName, SyncedEntries, StageDone, StageStatusFor, Reachable, Upstream, WellFormed, Alive;
    SyncedShape(spec, s, 0);
    var p := Synced(spec, s).value;
    forall i: nat, j: nat | i < |p.stages| && j < |p.stages| && p.stages[i].phase.StageCompleted? && Upstream(spec, i, j)
      ensures p.stages[j].phase.StageCompleted?
    {
      CompletedIsClosed(spec, s, i, j);
    }
    CountIsCardinality(p.stages);
    FirstOpenIsFirst(p.stages);
  }

  lemma SyncIsIdle(spec: TeamSpec, s: System)
    requires WellFormed(spec) && Pipelined(spec) && Topological(spec) && Reachable(spec, s) && s.st.phase == Running && Alive(spec, s)
    ensures Synced(spec, s).Some? && WaitingIsIdle(spec, Synced(spec, s).value, SyncedEntries(spec, s.st.teammates, s.cl.pods))
  {
    SyncedShape(spec, s, 0);
    var p := Synced(spec, s).value;
    var entries := SyncedEntries(spec, s.st.teammates, s.cl.pods);
    forall i, k | 0 <= i < |p.stages| && 0 <= k < |entries| && p.stages[i].phase.StageWaiting? && spec.teammates[k].name in Stages(spec)[i].teammates
      ensures !IsSpawned(entries[k].phase)
    {
      WaitingTeammateIdle(spec, s, i, k);
    }
  }

  lemma WaitingTeammateIdle(spec: TeamSpec, s: System, i: nat, k: nat)
    requires WellFormed(spec) && Pipelined(spec) && Topological(spec) && Reachable(spec, s) && s.st.phase == Running && Alive(spec, s)
    requires i < |Stages(spec)| && k < |spec.teammates| && spec.teammates[k].name in Stages(spec)[i].teammates
    requires Synced(spec, s).Some? && Named(spec, Synced(spec, s).value) && Synced(spec, s).value.stages[i].phase.StageWaiting?
    ensures !IsSpawned(SyncedEntries(spec, s.st.teammates, s.cl.pods)[k].phase)
  {
    hide PhasesByName, StageDone, Reachable, Topological;
    var name := spec.teammates[k].name;
    var entries := SyncedEntries(spec, s.st.teammates, s.cl.pods);
    var phases := PhasesByName(entries);
    SyncedShape(spec, s, i);
    assert Declared(spec, name);
    SeenPhase(spec, s.st.teammates, s.cl.pods, name);
    assert entries[k].phase == PodAgentPhase(s.cl.pods, name);
    if name in s.cl.pods {
      UpstreamDone(spec, s, i, name);
      SpawnedIsNotWaiting(Stages(spec)[i], phases, DoneBefore(Stages(spec), i, phases), s.cl.granted, name);
    }
  }

  lemma SpawnedIsNotWaiting(stage: StageSpec, phases: Phases, done: set<string>, granted: set<string>, name: string)
    requires name in stage.teammates && IsSpawned(PhaseIn(phases, name)) && forall d :: d in stage.dependsOn ==> d in done
    ensures !StagePhaseFor(stage, phases, done, granted).StageWaiting?
  {
  }

  lemma UpstreamDone(spec: TeamSpec, s: System, i: nat, name: string)
    requires WellFormed(spec) && Pipelined(spec) && Topological(spec) && Reachable(spec, s) && Alive(spec, s)
    requires i < |Stages(spec)| && name in Stages(spec)[i].teammates && name in s.cl.pods
    ensures var phases := PhasesByName(SyncedEntries(spec, s.st.teammates, s.cl.pods));
      forall d :: d in Stages(spec)[i].dependsOn ==> d in DoneBefore(Stages(spec), i, phases)
  {
    hide PhasesByName, StageDone, Reachable, SyncedEntries;
    var phases := PhasesByName(SyncedEntries(spec, s.st.teammates, s.cl.pods));
    forall d | d in Stages(spec)[i].dependsOn ensures d in DoneBefore(Stages(spec), i, phases) {
      var j :| 0 <= j < i && Stages(spec)[j].name == d;
      DoneIsClosed(spec, s, i, j);
      DoneMeansSucceeded(spec, s.st.teammates, s.cl.pods, j);
    }
  }

  lemma SpawnedStageWaits(stage: StageSpec, phases: Phases, done: set<string>, granted: set<string>)
    requires AnySpawned(stage.teammates, phases)
    ensures StagePhaseFor(stage, phases, done, granted).StageWaiting? <==>
      !AnyFailed(stage.teammates, phases) && !StageDone(stage, phases) && exists d :: d in stage.dependsOn && d !in done
  {
    hide StageDone, AnyFailed, AnySpawned, StageApprovalGranted;
  }

  /** For a stage with a pod, the upstream stages counted as done are exactly those declared before it. */
  lemma DoneIsDeclaredBefore(spec: TeamSpec, s: System, i: nat, name: string, d: string)
    requires WellFormed(spec) && Pipelined(spec) && Reachable(spec, s) && Alive(spec, s)
    requires i < |Stages(spec)| && name in Stages(spec)[i].teammates && name in s.cl.pods && d in Stages(spec)[i].dependsOn
    ensures d in DoneBefore(Stages(spec), i, PhasesByName(SyncedEntries(spec, s.st.teammates, s.cl.pods))) <==> DeclaredBefore(spec, i, d)
  {
    hide PhasesByName, StageDone, Reachable, SyncedEntries, Alive;
    if DeclaredBefore(spec, i, d) {
      var j :| 0 <= j < i && Stages(spec)[j].name == d;
      DoneIsClosed(spec, s, i, j);
      DoneMeansSucceeded(spec, s.st.teammates, s.cl.pods, j);
    }
  }

  /** What the sync sees of a teammate is its entry's phase. */
  lemma SeenInEntry(spec: TeamSpec, entries: seq<TeammateStatus>, pods: Pods, k: nat)
    requires WellFormed(spec) && k < |spec.teammates|
    ensures var synced, name := SyncedEntries(spec, entries, pods), spec.teammates[k].name;
      synced[k].phase == PhaseIn(PhasesByName(synced), name) == PodAgentPhase(pods, name)
  {
    hide PhasesByName, PhaseIn;
    SeenPhase(spec, entries, pods, spec.teammates[k].name);
  }

  lemma MemberEntry(spec: TeamSpec, i: nat, n: string) returns (k: nat)
    requires DS.WellFormedPipeline(spec) && i < |Stages(spec)| && n in Stages(spec)[i].teammates
    ensures k < |spec.teammates| && spec.teammates[k].name == n && InStage(spec, i, k)
  {
    assert Declared(spec, n);
    k :| 0 <= k < |spec.teammates| && spec.teammates[k].name == n;
  }

  /** Tallies over a stage's names are tallies over its teammates' entries. */
  lemma TalliesOfEntries(spec: TeamSpec, entries: seq<TeammateStatus>, pods: Pods, i: nat)
    requires WellFormed(spec) && DS.WellFormedPipeline(spec) && i < |Stages(spec)|
    ensures var synced := SyncedEntries(spec, entries, pods);
      var names, phases := Stages(spec)[i].teammates, PhasesByName(synced);
      && (AnySpawned(names, phases) <==> HasSpawned(spec, synced, i))
      && (AnyFailed(names, phases) <==> exists k :: 0 <= k < |synced| && InStage(spec, i, k) && synced[k].phase.AgentFailed?)
      && (StageDone(Stages(spec)[i], phases) <==>
          forall k :: 0 <= k < |synced| && InStage(spec, i, k) ==> synced[k].phase.AgentCompleted?)
  {
    hide PhasesByName, PhaseIn, SyncedEntries, StageDone, WellFormed, DS.WellFormedPipeline;
    var synced := SyncedEntries(spec, entries, pods);
    var names, phases := Stages(spec)[i].teammates, PhasesByName(synced);
    DoneMeansAllCompleted(Stages(spec)[i], phases);
    StageHasTeammates(spec, i);
    forall k | 0 <= k < |spec.teammates| ensures synced[k].phase == PhaseIn(phases, spec.teammates[k].name) {
      SeenInEntry(spec, entries, pods, k);
    }
    forall n | n in names ensures exists k :: 0 <= k < |synced| && InStage(spec, i, k) && spec.teammates[k].name == n {
      var k := MemberEntry(spec, i, n);
    }
  }

  lemma StageHasTeammates(spec: TeamSpec, i: nat)
    requires DS.WellFormedPipeline(spec) && i < |Stages(spec)|
    ensures Stages(spec)[i].teammates != []
  {
  }

  /**
   In every live Running state a sync reports a stage with a spawned teammate as Waiting if and only if none of its
   teammates Failed, not all Succeeded, and some dependsOn name is not declared at an earlier position.
   */
  lemma SyncWaitsExactly(spec: TeamSpec, s: System, i: nat)
    requires WellFormed(spec) && Pipelined(spec) && Reachable(spec, s) && s.st.phase == Running && Alive(spec, s)
    requires i < |Stages(spec)| && Synced(spec, s).Some? && Named(spec, Synced(spec, s).value)
    requires HasSpawned(spec, SyncedEntries(spec, s.st.teammates, s.cl.pods), i)
    ensures Synced(spec, s).value.stages[i].phase.StageWaiting? <==> HeldUp(spec, SyncedEntries(spec, s.st.teammates, s.cl.pods), i)
  {
    hide PhasesByName, SyncedEntries, StageDone, AnyFailed, AnySpawned, StagePhaseFor, UpdatedPipeline, Reachable, Alive, WellFormed,
      IsSpawned, DeclaredBefore;
    var synced := SyncedEntries(spec, s.st.teammates, s.cl.pods);
    var phases := PhasesByName(synced);
    SyncedShape(spec, s, i);
    TalliesOfEntries(spec, s.st.teammates, s.cl.pods, i);
    SpawnedStageWaits(Stages(spec)[i], phases, DoneBefore(Stages(spec), i, phases), s.cl.granted);
    var k :| 0 <= k < |synced| && InStage(spec, i, k) && IsSpawned(synced[k].phase);
    SeenInEntry(spec, s.st.teammates, s.cl.pods, k);
    SpawnedHasPod(s.cl.pods, spec.teammates[k].name);
    forall d | d in Stages(spec)[i].dependsOn
      ensures d in DoneBefore(Stages(spec), i, phases) <==> DeclaredBefore(spec, i, d)
    {
      DoneIsDeclaredBefore(spec, s, i, spec.teammates[k].name, d);
    }
  }

  lemma SpawnedHasPod(pods: Pods, name: string)
    ensures IsSpawned(PodAgentPhase(pods, name)) <==> name in pods
  {
  }

  lemma SyncIsExact(spec: TeamSpec, s: System)
    requires WellFormed(spec) && Pipelined(spec) && Reachable(spec, s) && s.st.phase == Running && Alive(spec, s)
    ensures Synced(spec, s).Some? && WaitingIsExact(spec, Synced(spec, s).value, SyncedEntries(spec, s.st.teammates, s.cl.pods))
  {
    hide HasSpawned, HeldUp, Reachable, Alive, UpdatedPipeline;
    SyncedShape(spec, s, 0);
    var p := Synced(spec, s).value;
    forall i | 0 <= i < |p.stages| && HasSpawned(spec, SyncedEntries(spec, s.st.teammates, s.cl.pods), i)
      ensures p.stages[i].phase.StageWaiting? <==> HeldUp(spec, SyncedEntries(spec, s.st.teammates, s.cl.pods), i)
    {
      SyncWaitsExactly(spec, s, i);
    }
  }

  lemma SyncStamps(spec: TeamSpec, s: System)
    requires WellFormed(spec) && Pipelined(spec) && Reachable(spec, s) && s.st.phase == Running && Alive(spec, s)
    requires s.st.pipeline.Some? ==> Stamped(spec, s.st.pipeline.value, s.cl, s.now)
    ensures Synced(spec, s).Some? && Stamped(spec, Synced(spec, s).value, s.cl, s.now)
    ensures StampsKept(s.st.pipeline, Synced(spec, s))
  {
    hide StageStamped;
    SyncedShape(spec, s, 0);
    forall i | 0 <= i < |Stages(spec)|
      ensures StageStamped(Stages(spec)[i], Synced(spec, s).value.stages[i], s.cl, s.now)
      ensures s.st.pipeline.Some? ==>
        && (s.st.pipeline.value.stages[i].startedAt.Some? ==> Synced(spec, s).value.stages[i].startedAt == s.st.pipeline.value.stages[i].startedAt)
        && (s.st.pipeline.value.stages[i].completedAt.Some? ==> Synced(spec, s).value.stages[i].completedAt == s.st.pipeline.value.stages[i].completedAt)
    {
      SyncStampsStage(spec, s, i);
    }
  }

  lemma SyncStampsStage(spec: TeamSpec, s: System, i: nat)
    requires WellFormed(spec) && Pipelined(spec) && Reachable(spec, s) && s.st.phase == Running && Alive(spec, s)
    requires s.st.pipeline.Some? ==> Stamped(spec, s.st.pipeline.value, s.cl, s.now)
    requires i < |Stages(spec)| && Synced(spec, s).Some? && Named(spec, Synced(spec, s).value)
    ensures StageStamped(Stages(spec)[i], Synced(spec, s).value.stages[i], s.cl, s.now)
    ensures s.st.pipeline.Some? ==>
      && (s.st.pipeline.value.stages[i].startedAt.Some? ==> Synced(spec, s).value.stages[i].startedAt == s.st.pipeline.value.stages[i].startedAt)
      && (s.st.pipeline.value.stages[i].completedAt.Some? ==> Synced(spec, s).value.stages[i].completedAt == s.st.pipeline.value.stages[i].completedAt)
  {
    hide PhasesByName, StageDone, SyncedEntries, StagePhaseFor, DS.ClusterInv, Lifecycles.LifeInv, WellFormed;
    SyncedShape(spec, s, i);
    DoneMeansSucceeded(spec, s.st.teammates, s.cl.pods, i);
    SucceededAreRemembered(spec, s);
    if s.st.pipeline.Some? {
      PreviousStage(spec, s.st.pipeline.value, i);
    }
  }

  lemma SucceededAreRemembered(spec: TeamSpec, s: System)
    requires DS.ClusterInv(spec, s.cl)
    ensures forall n :: Succeeded(s.cl.pods, n) ==> n in s.cl.succeeded
  {
  }

  // ---- Phases of entries through the rest of the reconcile ----

  ghost predicate SamePhases(a: seq<TeammateStatus>, b: seq<TeammateStatus>) {
    |a| == |b| && forall i :: 0 <= i < |a| ==> a[i].name == b[i].name && a[i].phase == b[i].phase && a[i].podName == b[i].podName
  }

  lemma LateSpawnKeepsPhases(spec: TeamSpec, x: Mem, k: nat, now: int)
    requires WellFormed(spec) && Roster(spec, x.st.teammates) && k < |spec.teammates|
    ensures SamePhases(x.st.teammates, LateSpawn(spec, x, spec.teammates[k], now).st.teammates)
  {
    hide DependenciesMet, HeldAt, EffectiveDependencies, StagedInputs;
    RosterIndex(spec, x.st.teammates, k);
  }

  lemma RespawnKeepsPhases(spec: TeamSpec, x: Mem, k: nat, now: int)
    requires WellFormed(spec) && Roster(spec, x.st.teammates) && k < |spec.teammates|
    ensures SamePhases(x.st.teammates, Respawn(spec, x, spec.teammates[k], now).m.st.teammates)
  {
    RosterIndex(spec, x.st.teammates, k);
  }

  lemma LateSpawnsKeepPhases(spec: TeamSpec, m: Mem, now: int)
    requires WellFormed(spec) && Roster(spec, m.st.teammates) && m.ok
    ensures SamePhases(m.st.teammates, LateSpawns(spec, m, |spec.teammates|, now).st.teammates)
  {
    hide LateSpawn;
    var P := (k: int, x: Mem) => SamePhases(m.st.teammates, x.st.teammates);
    var Q := (x: Mem) => SamePhases(m.st.teammates, x.st.teammates);
    forall k, x: Mem | 0 <= k < |spec.teammates| && x.ok && P(k, x) ensures LateSpawnPass(spec, now, P, Q, k, x) {
      LateSpawnKeepsPhases(spec, x, k, now);
    }
    LateSpawnsRule(spec, m, |spec.teammates|, now, P, Q);
  }

  lemma RespawnsKeepPhases(spec: TeamSpec, m: Mem, now: int)
    requires WellFormed(spec) && Roster(spec, m.st.teammates) && m.ok
    ensures SamePhases(m.st.teammates, Respawns(spec, m, |spec.teammates|, now).m.st.teammates)
  {
    hide Respawn;
    var P := (k: int, x: Mem) => SamePhases(m.st.teammates, x.st.teammates);
    var Q := (c: Checked) => SamePhases(m.st.teammates, c.m.st.teammates);
    forall k, x: Mem | 0 <= k < |spec.teammates| && x.ok && P(k, x) ensures RespawnPass(spec, now, P, Q, k, x) {
      RespawnKeepsPhases(spec, x, k, now);
    }
    RespawnsRule(spec, m, |spec.teammates|, now, P, Q);
  }

  lemma SuperviseKeepsSync(spec: TeamSpec, m: Mem, env: Env, now: int)
    requires WellFormed(spec) && m.ok && DistinctEntries(m.st.teammates)
    ensures var r, o := Supervise(spec, m, env, now), Observe(spec, m, now);
      r.st.pipeline == o.st.pipeline && SamePhases(o.st.teammates, r.st.teammates)
  {
    hide Observe, Respawns, LateSpawns, AnyAgentFailed, AllAgentsSucceeded, DistinctEntries, WellFormed;
    var o := Observe(spec, m, now);
    Verdicts.ObserveFacts(spec, m, now);
    var c := Respawns(spec, o, |spec.teammates|, now);
    RespawnsFrame(spec, o, now);
    RespawnsKeepPhases(spec, o, now);
    if GoesOn(c) {
      LateSpawnsFrame(spec, c.m, now);
      LateSpawnsKeepPhases(spec, c.m, now);
    }
  }

  // ---- Runs ----

  ghost predicate PipelineInv(spec: TeamSpec, s: System) {
    s.st.pipeline.Some? ==>
      && Agrees(spec, s.st.pipeline.value)
      && Stamped(spec, s.st.pipeline.value, s.cl, s.now)
      && WaitingIsExact(spec, s.st.pipeline.value, s.st.teammates)
      && (Topological(spec) ==> WaitingIsIdle(spec, s.st.pipeline.value, s.st.teammates))
  }

  lemma PhasesDecideIdle(spec: TeamSpec, p: PipelineStatus, a: seq<TeammateStatus>, b: seq<TeammateStatus>)
    requires WaitingIsIdle(spec, p, a) && SamePhases(a, b)
    ensures WaitingIsIdle(spec, p, b)
  {
  }

  lemma PhasesDecideWaiting(spec: TeamSpec, p: PipelineStatus, a: seq<TeammateStatus>, b: seq<TeammateStatus>)
    requires WaitingIsExact(spec, p, a) && SamePhases(a, b)
    ensures WaitingIsExact(spec, p, b)
  {
    hide IsSpawned, DeclaredBefore;
    forall i | 0 <= i < |p.stages|
      ensures (HasSpawned(spec, a, i) <==> HasSpawned(spec, b, i)) && (HeldUp(spec, a, i) <==> HeldUp(spec, b, i))
    {
    }
  }

  lemma SuperviseKeeps(spec: TeamSpec, s: System, env: Env)
    requires WellFormed(spec) && Pipelined(spec) && Reachable(spec, s) && PipelineInv(spec, s)
    requires s.st.phase == Running && Alive(spec, s)
    ensures PipelineInv(spec, Next(spec, s, Reconciles(env))) && StampsKept(s.st.pipeline, Next(spec, s, Reconciles(env)).st.pipeline)
  {
    hide Supervise, Agrees, WaitingIsIdle, WaitingIsExact, Topological, IsTimedOut, IsBudgetExceeded, DS.ClusterInv, StageStamped,
      Synced, SyncedEntries, Pipelined;
    var m := Begin(s, env);
    var r := Supervise(spec, m, env, s.now);
    GrowsOnly(spec, m, env, s.now);
    if r.ok {
      SyncAgrees(spec, s);
      SyncStamps(spec, s);
      SyncIsExact(spec, s);
      SuperviseKeepsSync(spec, m, env, s.now);
      ObservedPipeline(spec, s, env);
      StampedStays(spec, Synced(spec, s).value, s.cl, r.cl, s.now, s.now);
      PhasesDecideWaiting(spec, Synced(spec, s).value, Observe(spec, m, s.now).st.teammates, r.st.teammates);
      if Topological(spec) {
        SyncIsIdle(spec, s);
        PhasesDecideIdle(spec, Synced(spec, s).value, Observe(spec, m, s.now).st.teammates, r.st.teammates);
      }
    } else {
      KeptRefl(s.st.pipeline);
      if s.st.pipeline.Some? {
        StampedStays(spec, s.st.pipeline.value, s.cl, r.cl, s.now, s.now);
      }
    }
  }

  lemma ObservedPipeline(spec: TeamSpec, s: System, env: Env)
    ensures Observe(spec, Begin(s, env), s.now).st.pipeline == Synced(spec, s)
    ensures Observe(spec, Begin(s, env), s.now).st.teammates == SyncedEntries(spec, s.st.teammates, s.cl.pods)
  {
  }

  lemma KeptRefl(p: Option<PipelineStatus>)
    ensures StampsKept(p, p)
  {
  }

  lemma StampedStays(spec: TeamSpec, p: PipelineStatus, before: Cluster, after: Cluster, now: int, later: int)
    requires Stamped(spec, p, before, now) && before.succeeded <= after.succeeded && now <= later
    ensures Stamped(spec, p, after, later)
  {
  }

  lemma UntouchedKeeps(spec: TeamSpec, s: System, t: System)
    requires PipelineInv(spec, s) && t.st.pipeline == s.st.pipeline && s.cl.succeeded <= t.cl.succeeded && s.now <= t.now
    requires t.st.pipeline.Some? ==> t.st.teammates == s.st.teammates
    ensures PipelineInv(spec, t) && StampsKept(s.st.pipeline, t.st.pipeline)
  {
  }

  ghost predicate NotYetRunning(s: System) { s.st.phase in [Unset, Initializing] ==> s.st.pipeline.None? }

  lemma NextKeeps(spec: TeamSpec, s: System, step: Step)
    requires WellFormed(spec) && Pipelined(spec) && Reachable(spec, s) && PipelineInv(spec, s) && NotYetRunning(s)
    ensures PipelineInv(spec, Next(spec, s, step)) && NotYetRunning(Next(spec, s, step))
    ensures StampsKept(s.st.pipeline, Next(spec, s, step).st.pipeline)
  {
    hide Supervise, Deploy, Halt, TerminateAllPods, IsTimedOut, IsBudgetExceeded, DS.ClusterInv, PipelineInv,
      StampsKept, DistinctEntries;
    var t := Next(spec, s, step);
    if step.Reconciles? {
      var m := Begin(s, step.env);
      GrowsOnly(spec, m, step.env, s.now);
      Lifecycles.PhaseStep(spec, s, step);
      if s.st.phase == Running && !Doomed(spec, s.st, s.now) {
        SuperviseKeeps(spec, s, step.env);
      } else if s.st.phase == Running {
        Lifecycles.HaltWrites(spec, m, step.env, TimedOut);
        Lifecycles.HaltWrites(spec, m.(st := m.st.(estimatedCost := EstimatedCost(spec, m.st, s.now))), step.env, BudgetExceeded);
        UntouchedKeeps(spec, s, t);
      } else if s.st.phase == Initializing {
        DeployFrame(spec, m, s.now);
        UntouchedKeeps(spec, s, t);
      } else {
        Lifecycles.TerminateWrites(spec, m, step.env);
        UntouchedKeeps(spec, s, t);
      }
    } else {
      UntouchedKeeps(spec, s, t);
    }
  }

  lemma {:induction false} RunKeeps(spec: TeamSpec, steps: seq<Step>)
    requires WellFormed(spec) && Pipelined(spec)
    ensures PipelineInv(spec, Run(spec, steps)) && NotYetRunning(Run(spec, steps))
  {
    hide PipelineInv, Reachable, Next;
    if steps != [] {
      RunKeeps(spec, steps[..|steps| - 1]);
      RunIsReachable(spec, steps[..|steps| - 1]);
      NextKeeps(spec, Run(spec, steps[..|steps| - 1]), steps[|steps| - 1]);
    } else {
      FreshPipeline(spec);
    }
  }

  lemma FreshPipeline(spec: TeamSpec)
    ensures PipelineInv(spec, FreshSystem)
  {
  }

  /**
   In every reachable state the pipeline status on record agrees with the stage graph; a stage with a spawned teammate is
   reported Waiting exactly when it is held up, so never if stages are listed in topological order; and a stage's start
   is no later than its completion.
   */
  lemma PipelineStatusAgrees(spec: TeamSpec, steps: seq<Step>)
    requires WellFormed(spec) && Pipelined(spec) && Run(spec, steps).st.pipeline.Some?
    ensures var s := Run(spec, steps);
      && Agrees(spec, s.st.pipeline.value)
      && WaitingIsExact(spec, s.st.pipeline.value, s.st.teammates)
      && (Topological(spec) ==> WaitingIsIdle(spec, s.st.pipeline.value, s.st.teammates))
      && forall i :: 0 <= i < |s.st.pipeline.value.stages| ==>
        var ss := s.st.pipeline.value.stages[i];
        ss.startedAt.Some? && ss.completedAt.Some? ==> ss.startedAt.value <= ss.completedAt.value
  {
    var s := Run(spec, steps);
    RunKeeps(spec, steps);
    forall i | 0 <= i < |s.st.pipeline.value.stages| ensures StageStamped(Stages(spec)[i], s.st.pipeline.value.stages[i], s.cl, s.now) {
    }
  }

  /** A stage stamp on record never changes, whatever happens next. */
  lemma {:induction false} StampsAreFinal(spec: TeamSpec, steps: seq<Step>, more: seq<Step>)
    requires WellFormed(spec) && Pipelined(spec)
    ensures StampsKept(Run(spec, steps).st.pipeline, Run(spec, steps + more).st.pipeline)
  {
    hide PipelineInv, Reachable, Next, NotYetRunning;
    if more == [] {
      assert steps + more == steps;
    } else {
      var n := |more| - 1;
      assert (steps + more)[..|steps + more| - 1] == steps + more[..n];
      StampsAreFinal(spec, steps, more[..n]);
      RunKeeps(spec, steps + more[..n]);
      RunIsReachable(spec, steps + more[..n]);
      NextKeeps(spec, Run(spec, steps + more[..n]), more[n]);
    }
  }
}
