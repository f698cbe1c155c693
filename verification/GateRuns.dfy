/** Approvals over whole runs: the step that gave each one before a creation, and who exactly is spawned or held. */
module GateRuns {
  import opened TeamSpecs
  import opened TeamStatuses
  import opened TeamReconcile
  import opened TeamRuns
  import opened Rosters
  import opened Approvals
  import DS = DependencySafety
  import Lifecycles

  // ---- When an approval was given ----

  lemma {:induction false} ApprovalsAreSteps(spec: TeamSpec, steps: seq<Step>, event: string)
    requires WellFormed(spec)
    ensures event in Run(spec, steps).cl.everGranted <==> Approve(event) in steps
  {
    if steps != [] {
      var n := |steps| - 1;
      var s := Run(spec, steps[..n]);
      ApprovalsAreSteps(spec, steps[..n], event);
      assert steps == steps[..n] + [steps[n]];
      if steps[n].Reconciles? {
        hide Reconcile;
        DS.RunKeeps(spec, steps[..n]);
        DS.ReconcileKeeps(spec, Begin(s, steps[n].env), steps[n].env, s.now);
      }
    }
  }

  /** An Approve step for the event came while fewer than i + 1 pods had been created. */
  ghost predicate ApprovedBefore(spec: TeamSpec, steps: seq<Step>, i: nat, event: string) {
    exists k :: 0 <= k < |steps| && steps[k] == Approve(event) && |Run(spec, steps[..k]).cl.births| <= i
  }

  lemma ApprovedAt(spec: TeamSpec, steps: seq<Step>, k: nat, i: nat, event: string)
    requires k < |steps| && steps[k] == Approve(event) && |Run(spec, steps[..k]).cl.births| <= i
    ensures ApprovedBefore(spec, steps, i, event)
  {
  }

  lemma LaterApproved(spec: TeamSpec, steps: seq<Step>, n: nat, i: nat, event: string)
    requires n <= |steps| && ApprovedBefore(spec, steps[..n], i, event)
    ensures ApprovedBefore(spec, steps, i, event)
  {
    hide Run;
    var k :| 0 <= k < n && steps[..n][k] == Approve(event) && |Run(spec, steps[..n][..k]).cl.births| <= i;
    assert steps[..n][..k] == steps[..k] && steps[k] == Approve(event);
  }

  lemma BirthsGrow(spec: TeamSpec, steps: seq<Step>, k: nat)
    requires WellFormed(spec) && k <= |steps|
    ensures |Run(spec, steps[..k]).cl.births| <= |Run(spec, steps).cl.births|
    decreases |steps|
  {
    if k == |steps| {
      assert steps[..k] == steps;
    } else {
      hide Reconcile;
      var n := |steps| - 1;
      var s := Run(spec, steps[..n]);
      assert steps[..n][..k] == steps[..k];
      BirthsGrow(spec, steps[..n], k);
      DS.RunKeeps(spec, steps[..n]);
      if steps[n].Reconciles? {
        DS.ReconcileKeeps(spec, Begin(s, steps[n].env), steps[n].env, s.now);
      }
    }
  }

  /** What counted as granted at a creation had been approved by an earlier step. */
  lemma {:induction false} GrantedMeansApproved(spec: TeamSpec, steps: seq<Step>, i: nat, event: string)
    requires WellFormed(spec) && i < |Run(spec, steps).cl.births| && event in Run(spec, steps).cl.births[i].granted
    ensures ApprovedBefore(spec, steps, i, event)
  {
    hide Reconcile, ApprovedBefore;
    var n := |steps| - 1;
    var s := Run(spec, steps[..n]);
    DS.RunKeeps(spec, steps[..n]);
    if steps[n].Reconciles? {
      DS.ReconcileKeeps(spec, Begin(s, steps[n].env), steps[n].env, s.now);
    }
    if i < |s.cl.births| {
      GrantedMeansApproved(spec, steps[..n], i, event);
      LaterApproved(spec, steps, n, i, event);
    } else {
      DS.RunKeeps(spec, steps);
      assert DS.HistoryOk(spec, Run(spec, steps).cl, i);
      ApprovalsAreSteps(spec, steps[..n], event);
      var k :| 0 <= k < n && steps[..n][k] == Approve(event);
      BirthsGrow(spec, steps[..n], k);
      assert steps[..n][..k] == steps[..k];
      ApprovedAt(spec, steps, k, i, event);
    }
  }

  /**
   Over every run, for each annotation the stage of a created teammate or a declared spawn gate of its own asks for: it
   counted as granted at the creation, and a step of the run had approved it before.
   */
  lemma CreationWasApproved(spec: TeamSpec, steps: seq<Step>, i: nat, event: string)
    requires WellFormed(spec) && i < |Run(spec, steps).cl.births| && Run(spec, steps).cl.births[i].agent != LEAD
    requires var name := Run(spec, steps).cl.births[i].agent;
      || (exists j :: FirstToList(spec, j, name) && Stages(spec)[j].approvalRequired && event == "stage-" + Stages(spec)[j].name)
      || (spec.lifecycle.Some? && event in spec.lifecycle.value.approvalGates && event == "spawn-" + name)
    ensures event in Run(spec, steps).cl.births[i].granted && ApprovedBefore(spec, steps, i, event)
  {
    hide Run, ApprovedBefore;
    DS.RunKeeps(spec, steps);
    assert DS.HistoryOk(spec, Run(spec, steps).cl, i);
    var name := Run(spec, steps).cl.births[i].agent;
    assert StageAsks(spec, name, event) || SpawnAsks(spec, name, event);
    GrantedMeansApproved(spec, steps, i, event);
  }

  // ---- Who is spawned ----

  /** Everything the teammate waits for has Succeeded. */
  ghost predicate NeedsMet(spec: TeamSpec, pods: Pods, name: string) {
    forall d :: WaitsFor(spec, name, d) ==> d in pods && pods[d].phase == PodSucceeded
  }

  /** Every annotation asked for before the teammate's pod may be made is there. */
  ghost predicate Approved(spec: TeamSpec, granted: set<string>, name: string) {
    forall event ::
      || (exists j :: FirstToList(spec, j, name) && Stages(spec)[j].approvalRequired && event == "stage-" + Stages(spec)[j].name)
      || (spec.lifecycle.Some? && event in spec.lifecycle.value.approvalGates && event == "spawn-" + name)
      ==> event in granted
  }

  /** The annotation is asked for and missing; it is the stage's if that one is missing. */
  ghost predicate FirstMissing(spec: TeamSpec, granted: set<string>, name: string, event: string) {
    && event !in granted
    && (StageAsks(spec, name, event) || (SpawnAsks(spec, name, event) && forall e :: StageAsks(spec, name, e) ==> e in granted))
  }

  lemma HeldMeans(spec: TeamSpec, granted: set<string>, k: nat)
    requires k < |spec.teammates|
    ensures var name := spec.teammates[k].name;
      && (HeldAt(spec, granted, name) == "" <==> Approved(spec, granted, name))
      && (HeldAt(spec, granted, name) != "" ==> FirstMissing(spec, granted, name, HeldAt(spec, granted, name)))
  {
    hide HeldAt;
    var name := spec.teammates[k].name;
    HeldAtMeansClosed(spec, granted, name);
    forall event ensures StageAsks(spec, name, event) <==>
      exists j :: FirstToList(spec, j, name) && Stages(spec)[j].approvalRequired && event == "stage-" + Stages(spec)[j].name
    {
    }
  }

  lemma NeedsAreDependencies(spec: TeamSpec, pods: Pods, k: nat)
    requires WellFormed(spec) && k < |spec.teammates|
    ensures NeedsMet(spec, pods, spec.teammates[k].name) <==> DependenciesDone(spec, pods, k)
  {
    hide EffectiveDependencies, WaitsFor;
    forall d ensures WaitsFor(spec, spec.teammates[k].name, d) <==> d in EffectiveDependencies(spec, spec.teammates[k]) {
      DS.WaitsForDependencies(spec, k, d);
    }
  }

  /** One pass of the Running spawn loop over a teammate without a pod whose needs are met: its pod, or what is missing. */
  lemma SpawnPassExactly(spec: TeamSpec, x: Mem, k: nat, now: int)
    requires WellFormed(spec) && k < |spec.teammates| && x.ok && Roster(spec, x.st.teammates)
    requires spec.teammates[k].name !in x.cl.pods && NeedsMet(spec, x.cl.pods, spec.teammates[k].name)
    ensures var r, name := LateSpawn(spec, x, spec.teammates[k], now), spec.teammates[k].name;
      if Approved(spec, x.cl.granted, name) then (r.ok <==> x.fuel > 0) && (r.ok ==> name in r.cl.pods)
      else r.ok && r.cl == x.cl && FirstMissing(spec, x.cl.granted, name, PendingApproval(r.st.teammates, name))
  {
    hide HeldAt, NeedsMet, Approved, FirstMissing, EffectiveDependencies, StagedInputs, WellFormed, PendingApproval, DependenciesMet;
    NeedsAreDependencies(spec, x.cl.pods, k);
    HeldMeans(spec, x.cl.granted, k);
    LateSpawnPending(spec, x, k, now, k);
  }

  /** What a spawn loop makes of a teammate that had no pod. */
  ghost predicate Spawned(spec: TeamSpec, s: System, t: System, k: int)
    requires 0 <= k < |spec.teammates|
  {
    var name := spec.teammates[k].name;
    && (name in t.cl.pods <==> NeedsMet(spec, s.cl.pods, name) && Approved(spec, s.cl.granted, name))
    && (NeedsMet(spec, s.cl.pods, name) && name !in t.cl.pods ==>
          FirstMissing(spec, s.cl.granted, name, PendingApproval(t.st.teammates, name)))
  }

  lemma SettledSpawns(spec: TeamSpec, s: System, t: System, k: nat)
    requires k < |spec.teammates| && spec.teammates[k].name !in s.cl.pods
    requires AllSettled(spec, s.cl.granted, s.st.teammates, s.cl.pods, t.st.teammates, t.cl.pods)
    ensures var name := spec.teammates[k].name;
      var held := HeldAt(spec, s.cl.granted, name);
      && (name in t.cl.pods <==> DependenciesDone(spec, s.cl.pods, k) && held == "")
      && (DependenciesDone(spec, s.cl.pods, k) ==> PendingApproval(t.st.teammates, name) == held)
  {
    hide HeldAt;
    assert Settled(spec, s.cl.granted, s.st.teammates, s.cl.pods, t.st.teammates, t.cl.pods, k);
  }

  lemma DeployedSpawns(spec: TeamSpec, s: System, env: Env, k: nat)
    requires WellFormed(spec) && ApprovalInv(spec, s) && s.st.phase == Initializing && k < |spec.teammates|
    requires spec.teammates[k].name !in s.cl.pods && Next(spec, s, Reconciles(env)).st.phase == Running
    ensures var t, name := Next(spec, s, Reconciles(env)), spec.teammates[k].name;
      var held := HeldAt(spec, s.cl.granted, name);
      && (name in t.cl.pods <==> DependenciesDone(spec, s.cl.pods, k) && held == "")
      && (DependenciesDone(spec, s.cl.pods, k) ==> PendingApproval(t.st.teammates, name) == held)
  {
    hide Deploy, DependenciesDone, HeldAt, IsTimedOut, AllMet, WellFormed;
    DeploySettles(spec, Begin(s, env), s.now);
  }

  /**
   Over every run, of a teammate without a pod: a committed reconcile that takes or leaves the team Running makes its pod if
   and only if everything it waits for has Succeeded and every annotation asked for is there; when only an annotation is
   missing, its entry names it.
   */
  lemma SpawnsExactly(spec: TeamSpec, steps: seq<Step>, env: Env, k: nat)
    requires WellFormed(spec) && k < |spec.teammates| && spec.teammates[k].name !in Run(spec, steps).cl.pods
    requires var t := Run(spec, steps + [Reconciles(env)]); t.st.phase == Running && t.aborts == Run(spec, steps).aborts
    ensures Spawned(spec, Run(spec, steps), Run(spec, steps + [Reconciles(env)]), k)
  {
    hide Run, Reconcile, Lifecycles.LifeInv, ApprovalInv, WellFormed, HeldAt, NeedsMet, Approved, FirstMissing, DependenciesDone,
      Roster, AllSettled, FirstSettled;
    var s, t := Run(spec, steps), Run(spec, steps + [Reconciles(env)]);
    Lifecycles.RunsOn(spec, steps, Reconciles(env));
    Lifecycles.RunKeeps(spec, steps);
    Approvals.RunKeeps(spec, steps);
    FromInitializingOrRunning(spec, s, env);
    HeldMeans(spec, s.cl.granted, k);
    NeedsAreDependencies(spec, s.cl.pods, k);
    if s.st.phase == Running {
      CommittedSettles(spec, s, env);
      SettledSpawns(spec, s, t, k);
    } else {
      DeployedSpawns(spec, s, env, k);
    }
  }
}
