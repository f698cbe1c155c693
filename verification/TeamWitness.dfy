/** Three short runs that reach the states where the status of a team falls short. */
module TeamWitnesses {
  import opened Options
  import opened TeamSpecs
  import opened TeamStatuses
  import opened TeamReconcile
  import opened TeamRuns
  import opened Intactness
  import opened Rosters
  import A = Approvals
  import R = ArtifactRouting
  import P = StageProgress

  /** An environment in which this many writes succeed. */
  function Writes(n: nat): Env { Env(n, [], None, NoFault, []) }

  const Idle := Pod(PodPending, [])

  const Started := FreshStatus.(phase := Initializing, startedAt := Some(0))

  lemma StartsUp(spec: TeamSpec, story: seq<Step>)
    requires !spec.hasRepository && |story| > 0 && story[0] == Reconciles(Writes(9))
    ensures Run(spec, story[..1]) == System(FreshCluster, Started, 0, 0)
  {
    assert story[..1][..0] == [];
  }

  lemma StepTo(spec: TeamSpec, story: seq<Step>, n: nat)
    requires n < |story|
    ensures Run(spec, story[..n + 1]) == Next(spec, Run(spec, story[..n]), story[n])
  {
    hide Next;
    assert story[..n + 1][..n] == story[..n];
  }

  ghost predicate Unfailed(pods: Pods) { forall a :: a in pods ==> !pods[a].phase.PodFailed? }

  lemma {:induction false} NobodyRestarts(spec: TeamSpec, m: Mem, n: nat, now: int)
    requires n <= |spec.teammates| && Unfailed(m.cl.pods)
    ensures Respawns(spec, m, n, now) == Checked(m, "")
  {
    if n > 0 {
      NobodyRestarts(spec, m, n - 1, now);
    }
  }

  lemma NobodyDone(spec: TeamSpec, x: Mem, env: Env, now: int)
    requires Unfailed(x.cl.pods) && !Succeeded(x.cl.pods, LEAD)
    ensures Conclude(spec, x, env, now) == Commit(x)
  {
    assert !AnyAgentFailed(spec, x.cl.pods);
    assert !AllAgentsSucceeded(spec, x.cl.pods);
  }

  /** A Running reconcile of a team nobody of which Failed and whose lead has not finished. */
  lemma Supervises(spec: TeamSpec, m: Mem, env: Env, now: int, x: Mem)
    requires m.st.phase == Running && !Doomed(spec, m.st, now) && m.ok && Unfailed(m.cl.pods)
    requires x == LateSpawns(spec, Observe(spec, m, now), |spec.teammates|, now)
    requires !Succeeded(x.cl.pods, LEAD) && Unfailed(x.cl.pods)
    ensures Reconcile(spec, m, env, now) == if x.ok then Commit(x) else x
  {
    hide LateSpawns, IsTimedOut, IsBudgetExceeded, Conclude, Unfailed, Respawns, Commit;
    NobodyRestarts(spec, Observe(spec, m, now), |spec.teammates|, now);
    NobodyDone(spec, x, env, now);
  }

  lemma ObserveOnly(spec: TeamSpec, m: Mem, now: int)
    ensures var o := Observe(spec, m, now); o.cl == m.cl && o.fuel == m.fuel && o.ok == m.ok
    ensures var o := Observe(spec, m, now); o.st.phase == m.st.phase && o.st.startedAt == m.st.startedAt
  {
  }

  lemma Moves(spec: TeamSpec, s: System, agent: string)
    requires agent in s.cl.pods && !Finished(s.cl.pods[agent].phase)
    ensures var t := Next(spec, s, PodMoves(agent, PodSucceeded));
      && t.cl.pods == s.cl.pods[agent := s.cl.pods[agent].(phase := PodSucceeded)] && t.cl.births == s.cl.births
      && t.cl.granted == s.cl.granted && t.st == s.st && t.now == s.now
  {
  }

  // ---- A stale approval ----

  const Gated := TeamSpec("", [TeammateSpec("w", "", [], [], [])], None,
    Some(Lifecycle(Default, None, None, [SpawnEvent("w")], "", [])), false, false)

  /** The teammate is held at its gate; once approved, its pod is made by a reconcile that then fails to commit. */
  const LostClearing := [
    Reconciles(Writes(9)), Reconciles(Writes(9)), Approve(SpawnEvent("w")), Reconciles(Writes(1)), Reconciles(Writes(9))]

  const HeldStatus := Started.(phase := Running, teammates := [TeammateStatus("w", "", NoPhase, SpawnEvent("w"), 0)])

  lemma GateOfW(granted: set<string>)
    ensures EffectiveDependencies(Gated, Gated.teammates[0]) == [] && StagedInputs(Gated, []) == []
    ensures HeldAt(Gated, granted, "w") == (if SpawnEvent("w") in granted then "" else SpawnEvent("w")) && SpawnEvent("w") != ""
  {
    assert |SpawnEvent("w")| > 0;
    hide SpawnEvent;
    assert StageForTeammate(Gated, "w").None?;
  }

  lemma HeldAtGate()
    ensures var s := Next(Gated, System(FreshCluster, Started, 0, 0), Reconciles(Writes(9)));
      s.cl == FreshCluster.(pods := map[LEAD := Idle], births := s.cl.births) && s.st == HeldStatus && s.now == 0 && s.aborts == 0
  {
    hide SpawnEvent, HeldAt, EffectiveDependencies, StagedInputs;
    GateOfW({});
    var m1 := EnsureAgentPod(Gated, Begin(System(FreshCluster, Started, 0, 0), Writes(9)), LEAD, [], 0);
    assert FirstSpawns(Gated, m1, 0, 0) == m1;
    assert FirstSpawns(Gated, m1, 1, 0) == Hold(m1, "w", SpawnEvent("w"));
  }

  lemma GatedSync(m: Mem, now: int)
    requires m.st.teammates == HeldStatus.teammates && "w" !in m.cl.pods
    ensures Observe(Gated, m, now).st.teammates == [TeammateStatus("w", "", AgentWaiting, SpawnEvent("w"), 0)]
  {
    hide SpawnEvent;
    assert EntriesByName(m.st.teammates)["w"] == m.st.teammates[0];
  }

  /** The approved teammate gets its pod, and the reconcile has no write left. */
  lemma ClearingLost(s: System)
    requires s.cl.pods == map[LEAD := Idle] && SpawnEvent("w") in s.cl.granted && s.st == HeldStatus && s.now == 0 && s.aborts == 0
    ensures var t := Next(Gated, s, Reconciles(Writes(1)));
      && t.cl.pods == map[LEAD := Idle, "w" := Idle] && t.now == 0 && t.aborts == 1
      && t.st == HeldStatus
  {
    hide SpawnEvent, HeldAt, EffectiveDependencies, StagedInputs, Observe, Reconcile;
    GateOfW(s.cl.granted);
    var m := Begin(s, Writes(1));
    GatedSync(m, 0);
    var o := Observe(Gated, m, 0);
    ObserveOnly(Gated, m, 0);
    assert LateSpawns(Gated, o, 0, 0) == o;
    var x := LateSpawn(Gated, o, Gated.teammates[0], 0);
    assert LateSpawns(Gated, o, 1, 0) == x;
    Supervises(Gated, m, Writes(1), 0, x);
  }

  lemma Approves(spec: TeamSpec, s: System, event: string)
    ensures var t := Next(spec, s, Approve(event));
      t.cl.pods == s.cl.pods && event in t.cl.granted && t.st == s.st && t.now == s.now && t.aborts == s.aborts
  {
  }

  /** The next reconcile finds the pod in place and leaves the entry alone. */
  lemma NothingToDo(s: System)
    requires s.cl.pods == map[LEAD := Idle, "w" := Idle] && s.st == HeldStatus && s.now == 0
    ensures var t := Next(Gated, s, Reconciles(Writes(9)));
      t.st.phase == Running && t.st.startedAt == Some(0) && t.now == 0 && t.aborts == s.aborts
  {
    hide EffectiveDependencies, Observe, Reconcile;
    var m := Begin(s, Writes(9));
    ObserveOnly(Gated, m, 0);
    var o := Observe(Gated, m, 0);
    assert LateSpawns(Gated, o, 0, 0) == o;
    assert LateSpawns(Gated, o, 1, 0) == o;
    Supervises(Gated, m, Writes(9), 0, o);
  }

  /** In a live team the entry of an approved teammate that has its pod still names the gate, and a reconcile keeps it so. */
  lemma StaleApprovalHappens()
    ensures WellFormed(Gated)
    ensures var s := Run(Gated, LostClearing);
      s.st.phase == Running && Alive(Gated, s) && s.aborts == 1 && A.Stale(Gated, s.st.teammates, s.cl.pods, 0)
  {
    hide Run, Next, SpawnEvent, EffectiveDependencies;
    StartsUp(Gated, LostClearing);
    StepTo(Gated, LostClearing, 1);
    HeldAtGate();
    StepTo(Gated, LostClearing, 2);
    var s := Run(Gated, LostClearing[..3]);
    Approves(Gated, Run(Gated, LostClearing[..2]), SpawnEvent("w"));
    StepTo(Gated, LostClearing, 3);
    ClearingLost(s);
    assert LostClearing[..4] + [Reconciles(Writes(9))] == LostClearing && LostClearing[..5] == LostClearing;
    StepTo(Gated, LostClearing, 4);
    NothingToDo(Run(Gated, LostClearing[..4]));
    GateOfW({});
    assert A.Stale(Gated, HeldStatus.teammates, map[LEAD := Idle, "w" := Idle], 0);
    A.StaleExactly(Gated, LostClearing[..4], Reconciles(Writes(9)), 0);
  }

  // ---- An input staged from an output that is not on record ----

  const Fed := TeamSpec("", [
    TeammateSpec("p", "", [], [], [OutputSpec("x")]),
    TeammateSpec("c", "", [], [InputSpec("p", "x", "in")], [])], None, None, false, true)

  /** A deployment that fails to commit; the producer it started succeeds; the next one starts the consumer. */
  const LateDeployment := [
    Reconciles(Writes(9)), Reconciles(Writes(2)), PodMoves("p", PodSucceeded), Reconciles(Writes(9))]

  const Copy := StagedInput("p", "x", "x", "in")

  lemma FedFacts()
    ensures EffectiveDependencies(Fed, Fed.teammates[0]) == [] && EffectiveDependencies(Fed, Fed.teammates[1]) == ["p"]
    ensures HeldAt(Fed, {}, "p") == "" && HeldAt(Fed, {}, "c") == ""
    ensures StagedInputs(Fed, []) == [] && StagedInputs(Fed, Fed.teammates[1].inputs) == [Copy]
    ensures FindProducerOutputPath(Fed.teammates, "p", "x") == "x"
  {
    var inputs := Fed.teammates[1].inputs;
    assert AfterLastSlash("x"[..0]) == "";
    assert Base("x") == "x";
    assert inputs[..0] == [];
    assert StagedInputs(Fed, inputs[..0]) == [];
    assert InputSources(inputs) == ["p"];
    assert ["p"][..0] == [];
    assert AddAll([], []) == [] && AddAll([], ["p"]) == ["p"];
  }

  /** The lead and the producer get their pods; the consumer waits; no write is left for the status. */
  lemma DeploysHalf()
    ensures var t := Next(Fed, System(FreshCluster, Started, 0, 0), Reconciles(Writes(2)));
      && t.cl.pods == map[LEAD := Idle, "p" := Idle] && |t.cl.births| == 2 && t.cl.granted == {}
      && t.st == Started && t.now == 0 && t.aborts == 1
  {
    hide HeldAt, EffectiveDependencies, StagedInputs;
    FedFacts();
    var m := EnsureAgentPod(Fed, Begin(System(FreshCluster, Started, 0, 0), Writes(2)), LEAD, [], 0);
    var x := EnsureAgentPod(Fed, m, "p", [], 0);
    assert FirstSpawns(Fed, m, 0, 0) == m;
    assert FirstSpawns(Fed, m, 1, 0) == x;
    assert "p" in ["p"] && !Succeeded(x.cl.pods, "p");
    assert FirstSpawns(Fed, m, 2, 0) == x;
  }

  /** Every dependency of the consumer has Succeeded, so it gets its pod while the team is still Initializing. */
  lemma DeploysRest(s: System)
    requires s.cl.pods == map[LEAD := Idle, "p" := Pod(PodSucceeded, [])] && |s.cl.births| == 2 && s.cl.granted == {}
    requires s.st == Started && s.now == 0
    ensures var t := Next(Fed, s, Reconciles(Writes(9)));
      |t.cl.births| == 3 && var b := t.cl.births[2]; b.agent == "c" && b.during == Initializing && b.staged == [Copy]
  {
    hide HeldAt, EffectiveDependencies, StagedInputs;
    FedFacts();
    var m := Begin(s, Writes(9));
    assert FirstSpawns(Fed, m, 0, 0) == m;
    assert FirstSpawns(Fed, m, 1, 0) == m;
    assert FirstSpawns(Fed, m, 2, 0) == EnsureAgentPod(Fed, m, "c", Fed.teammates[1].inputs, 0);
  }

  /** A pod has an output staged that is not on record at its creation. */
  lemma UnrecordedInputHappens()
    ensures WellFormed(Fed)
    ensures var births := Run(Fed, LateDeployment).cl.births;
      |births| == 3 && var b := births[2]; b.agent == "c" && Copy in b.staged && R.FirstArtifact(b.artifacts, "p", "x") != Some("x")
  {
    hide Run, Next, R.FirstArtifact;
    StartsUp(Fed, LateDeployment);
    StepTo(Fed, LateDeployment, 1);
    DeploysHalf();
    StepTo(Fed, LateDeployment, 2);
    Moves(Fed, Run(Fed, LateDeployment[..2]), "p");
    StepTo(Fed, LateDeployment, 3);
    DeploysRest(Run(Fed, LateDeployment[..3]));
    assert LateDeployment[..4] == LateDeployment;
    FedFacts();
    assert Fed.teammates[1].inputs[0] == InputSpec("p", "x", "in");
    R.InputsAreRouted(Fed, LateDeployment, 2, InputSpec("p", "x", "in"), "x");
  }

  // ---- A stage that is reported Waiting while its teammate runs ----

  const Research := StageSpec("research", ["reader"], [], false)
  const Report := StageSpec("report", ["writer"], ["research"], false)

  /** The dependent stage is listed first. */
  const Backwards := TeamSpec("", [
    TeammateSpec("reader", "", [], [], []), TeammateSpec("writer", "", [], [], [])],
    Some([Report, Research]), None, false, false)

  const OutOfOrder := [
    Reconciles(Writes(9)), Reconciles(Writes(9)), PodMoves("reader", PodSucceeded), Reconciles(Writes(9)), Reconciles(Writes(9))]

  lemma BackwardsFacts()
    ensures EffectiveDependencies(Backwards, Backwards.teammates[0]) == []
    ensures EffectiveDependencies(Backwards, Backwards.teammates[1]) == ["reader"]
    ensures HeldAt(Backwards, {}, "reader") == "" && HeldAt(Backwards, {}, "writer") == "" && StagedInputs(Backwards, []) == []
  {
    BackwardsStages();
    hide StageListing, StageIndex;
    assert ["research"][..0] == [] && ["reader"][..0] == [];
    assert TeammatesOf(StageIndex([Report, Research]), ["research"]) == ["reader"];
    assert AddAll([], []) == [] && AddAll([], ["reader"]) == ["reader"];
  }

  lemma BackwardsStages()
    ensures StageIndex([Report, Research]) == map["report" := Report, "research" := Research]
    ensures StageForTeammate(Backwards, "reader") == Some(Research) && StageForTeammate(Backwards, "writer") == Some(Report)
  {
    var stages := [Report, Research];
    assert stages[..1] == [Report] && stages[..1][..0] == [];
    assert StageIndex(stages[..1][..0]) == map[];
    assert StageIndex(stages[..1]) == map["report" := Report];
    assert StageIndex(stages) == map["report" := Report, "research" := Research];
    assert stages[1..] == [Research];
    assert "reader"[0] != "writer"[0] && StageListing(stages[1..], "reader") == Some(Research);
  }

  /** The reader is spawned, the writer waits. */
  lemma ReaderFirst()
    ensures var t := Next(Backwards, System(FreshCluster, Started, 0, 0), Reconciles(Writes(9)));
      t.cl.pods == map[LEAD := Idle, "reader" := Idle] && t.cl.granted == {} && t.st == Started.(phase := Running) && t.now == 0
  {
    hide HeldAt, EffectiveDependencies, StagedInputs;
    BackwardsFacts();
    var m := EnsureAgentPod(Backwards, Begin(System(FreshCluster, Started, 0, 0), Writes(9)), LEAD, [], 0);
    var x := EnsureAgentPod(Backwards, m, "reader", [], 0);
    assert FirstSpawns(Backwards, m, 0, 0) == m;
    assert FirstSpawns(Backwards, m, 1, 0) == x;
    assert "reader" in ["reader"] && !Succeeded(x.cl.pods, "reader");
    assert FirstSpawns(Backwards, m, 2, 0) == x;
  }

  const ReaderDone := map[LEAD := Idle, "reader" := Pod(PodSucceeded, [])]

  /** The reader has Succeeded, so the writer is spawned. */
  lemma WriterSecond(s: System)
    requires s.cl.pods == ReaderDone && s.cl.granted == {} && s.st == Started.(phase := Running) && s.now == 0
    ensures var t := Next(Backwards, s, Reconciles(Writes(9)));
      && t.cl.pods == ReaderDone["writer" := Idle] && t.cl.granted == {}
      && t.st.phase == Running && t.st.startedAt == Some(0) && t.now == 0
  {
    hide HeldAt, EffectiveDependencies, StagedInputs, Observe, Reconcile;
    BackwardsFacts();
    var m := Begin(s, Writes(9));
    ObserveOnly(Backwards, m, 0);
    var o := Observe(Backwards, m, 0);
    var x := LateSpawn(Backwards, o, Backwards.teammates[1], 0);
    assert LateSpawns(Backwards, o, 0, 0) == o;
    assert LateSpawns(Backwards, o, 1, 0) == o;
    assert LateSpawns(Backwards, o, 2, 0) == x;
    Supervises(Backwards, m, Writes(9), 0, x);
  }

  lemma SeesPods(m: Mem)
    requires m.cl.pods == ReaderDone["writer" := Idle]
    ensures var o := Observe(Backwards, m, 0); o.st.pipeline.Some? && |o.st.teammates| == 2 && o.st.teammates[1].phase == AgentPending
  {
    hide EntriesByName, RecordSucceeded, EstimatedCost, ReadyCount, StageStatuses, PhasesByName;
  }

  lemma EveryoneIsThere(o: Mem)
    requires o.cl.pods == ReaderDone["writer" := Idle] && o.ok
    ensures LateSpawns(Backwards, o, 2, 0) == o
  {
    hide EffectiveDependencies;
    assert LateSpawns(Backwards, o, 0, 0) == o;
    assert LateSpawns(Backwards, o, 1, 0) == o;
  }

  /** The next sync sees the writer's pod. */
  lemma WriterSeen(s: System)
    requires s.cl.pods == ReaderDone["writer" := Idle] && s.st.phase == Running && s.st.startedAt == Some(0) && s.now == 0
    ensures var t := Next(Backwards, s, Reconciles(Writes(9)));
      t.st.pipeline.Some? && |t.st.teammates| == 2 && t.st.teammates[1].phase == AgentPending
  {
    hide LateSpawns, Observe, Reconcile;
    var m := Begin(s, Writes(9));
    var o := Observe(Backwards, m, 0);
    SeesPods(m);
    ObserveOnly(Backwards, m, 0);
    EveryoneIsThere(o);
    Supervises(Backwards, m, Writes(9), 0, o);
  }

  lemma BackwardsIsPipelined()
    ensures WellFormed(Backwards) && P.Pipelined(Backwards)
  {
    assert Backwards.teammates[0].name == "reader" && Declared(Backwards, "reader");
    assert Backwards.teammates[1].name == "writer" && Declared(Backwards, "writer");
    assert "report"[2] != "research"[2] && "reader"[0] != "writer"[0];
  }

  lemma WriterRuns()
    ensures var st := Run(Backwards, OutOfOrder).st;
      st.pipeline.Some? && |st.teammates| == 2 && st.teammates[1].phase == AgentPending
  {
    hide Run, Next;
    StartsUp(Backwards, OutOfOrder);
    StepTo(Backwards, OutOfOrder, 1);
    ReaderFirst();
    StepTo(Backwards, OutOfOrder, 2);
    Moves(Backwards, Run(Backwards, OutOfOrder[..2]), "reader");
    StepTo(Backwards, OutOfOrder, 3);
    WriterSecond(Run(Backwards, OutOfOrder[..3]));
    StepTo(Backwards, OutOfOrder, 4);
    WriterSeen(Run(Backwards, OutOfOrder[..4]));
    assert OutOfOrder[..5] == OutOfOrder;
  }

  /** A stage is on record as Waiting while its teammate's entry shows a pod. */
  lemma WaitingWhileSpawnedHappens()
    ensures WellFormed(Backwards) && P.Pipelined(Backwards)
    ensures var st := Run(Backwards, OutOfOrder).st;
      && st.pipeline.Some? && |st.pipeline.value.stages| == 2 && st.pipeline.value.stages[0].phase == StageWaiting
      && Roster(Backwards, st.teammates) && P.HasSpawned(Backwards, st.teammates, 0)
  {
    hide Run, P.Agrees, P.WaitingIsIdle, P.Topological, DistinctEntries, P.Pipelined;
    BackwardsIsPipelined();
    WriterRuns();
    P.PipelineStatusAgrees(Backwards, OutOfOrder);
    var st := Run(Backwards, OutOfOrder).st;
    assert P.InStage(Backwards, 0, 1) && P.HasSpawned(Backwards, st.teammates, 0);
    assert !P.DeclaredBefore(Backwards, 0, "research");
    assert "research" in Stages(Backwards)[0].dependsOn;
    assert P.HeldUp(Backwards, st.teammates, 0);
  }
}
