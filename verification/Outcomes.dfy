/**
 What a committed Running reconcile decides and records, over whole runs, in terms of what the pods, the Job, the spec and
 the clock were.
 */
module Outcomes {
  import opened Options
  import opened TeamSpecs
  import opened TeamStatuses
  import opened TeamReconcile
  import opened TeamRuns
  import opened Rosters
  import opened Verdicts
  import DS = DependencySafety
  import Lifecycles
  import LoopRules
  import StageProgress

  /** The estimated cost has reached a positive limit the spec sets. */
  ghost predicate Overspent(spec: TeamSpec, s: System) {
    exists limit :: spec.lifecycle.Some? && spec.lifecycle.value.budgetLimit == Some(limit)
                    && 0.0 < limit <= EstimatedCost(spec, s.st, s.now)
  }

  /** The restarts recorded for the teammate have reached what the spec allows, three if it does not say. */
  ghost predicate OutOfRestarts(spec: TeamSpec, entries: seq<TeammateStatus>, name: string) {
    var recorded := RestartCount(entries, name);
    if spec.lifecycle.Some? && spec.lifecycle.value.maxRestarts.Some? then recorded >= spec.lifecycle.value.maxRestarts.value
    else recorded >= 3
  }

  ghost predicate PodIs(pods: Pods, name: string, phase: PodPhase) { name in pods && pods[name].phase == phase }

  ghost predicate EveryoneSucceeded(spec: TeamSpec, pods: Pods) {
    forall name :: name == LEAD || Declared(spec, name) ==> PodIs(pods, name, PodSucceeded)
  }

  /** The spec asks for a branch to be pushed at completion, and none is recorded yet. */
  ghost predicate BranchDue(spec: TeamSpec, st: Status) {
    && spec.hasRepository && spec.lifecycle.Some? && st.consolidatedBranch == ""
    && (spec.lifecycle.value.onComplete == "push-branch" || spec.lifecycle.value.onComplete == "create-pr")
  }

  /** A Failed agent that is not restarted, or a branch that cannot be pushed. */
  ghost predicate Lost(spec: TeamSpec, s: System, env: Env) {
    || PodIs(s.cl.pods, LEAD, PodFailed)
    || (exists name :: Declared(spec, name) && PodIs(s.cl.pods, name, PodFailed) && OutOfRestarts(spec, s.st.teammates, name))
    || (EveryoneSucceeded(spec, s.cl.pods) && BranchDue(spec, s.st)
        && (env.branch.None? || env.jobFault != NoFault || s.cl.pushJob == Some(JobFailed)))
  }

  ghost predicate Won(spec: TeamSpec, s: System, env: Env) {
    EveryoneSucceeded(spec, s.cl.pods)
    && (BranchDue(spec, s.st) ==> env.branch.Some? && env.jobFault == NoFault && s.cl.pushJob == Some(JobSucceeded))
  }

  lemma EveryoneIsAllAgents(spec: TeamSpec, pods: Pods)
    ensures EveryoneSucceeded(spec, pods) <==> AllAgentsSucceeded(spec, pods)
  {
    if EveryoneSucceeded(spec, pods) {
      assert PodIs(pods, LEAD, PodSucceeded);
      forall i | 0 <= i < |spec.teammates| ensures Succeeded(pods, spec.teammates[i].name) {
        assert Declared(spec, spec.teammates[i].name);
      }
    }
  }

  lemma ExhaustedMeans(spec: TeamSpec, entries: seq<TeammateStatus>, pods: Pods)
    ensures SomeExhausted(spec, entries, pods) <==>
      exists name :: Declared(spec, name) && PodIs(pods, name, PodFailed) && OutOfRestarts(spec, entries, name)
  {
    hide RestartCount;
    if k :| 0 <= k < |spec.teammates| && Exhausted(spec, entries, pods, k) {
      assert Declared(spec, spec.teammates[k].name) && PodIs(pods, spec.teammates[k].name, PodFailed);
    }
    if name :| Declared(spec, name) && PodIs(pods, name, PodFailed) && OutOfRestarts(spec, entries, name) {
      var k :| 0 <= k < |spec.teammates| && spec.teammates[k].name == name;
      assert Exhausted(spec, entries, pods, k);
    }
  }

  lemma BudgetMeans(spec: TeamSpec, s: System)
    ensures IsBudgetExceeded(spec, s.st, s.now) <==> Overspent(spec, s)
  {
    hide EstimatedCost;
  }

  lemma PushMeans(spec: TeamSpec, st: Status)
    ensures NeedsPush(spec, st) <==> BranchDue(spec, st)
  {
  }

  lemma ShouldMeans(spec: TeamSpec, s: System, env: Env)
    ensures ShouldFail(spec, s.st, s.cl, env) <==> Lost(spec, s, env)
    ensures ShouldComplete(spec, s.st, s.cl, env) <==> Won(spec, s, env)
  {
    hide SomeExhausted, EveryoneSucceeded, AllAgentsSucceeded, NeedsPush, BranchDue, OutOfRestarts;
    EveryoneIsAllAgents(spec, s.cl.pods);
    ExhaustedMeans(spec, s.st.teammates, s.cl.pods);
    PushMeans(spec, s.st);
  }

  /**
   A committed Running reconcile of any run, within the deadline, ends the team for its budget if and only if it is
   overspent; otherwise it fails or completes it exactly as the pods, restarts, push Job and spec say.
   */
  lemma DecisionExact(spec: TeamSpec, steps: seq<Step>, env: Env)
    requires WellFormed(spec) && Run(spec, steps).st.phase == Running
    requires Run(spec, steps + [Reconciles(env)]).aborts == Run(spec, steps).aborts
    requires var s := Run(spec, steps); s.st.startedAt.Some? && !Lifecycles.Overdue(spec, s.now - s.st.startedAt.value)
    ensures var s, p := Run(spec, steps), Run(spec, steps + [Reconciles(env)]).st.phase;
      && (p == BudgetExceeded <==> Overspent(spec, s))
      && (p == Failed <==> !Overspent(spec, s) && Lost(spec, s, env))
      && (p == Completed <==> !Overspent(spec, s) && Won(spec, s, env))
      && p in [BudgetExceeded, Failed, Completed, Running]
  {
    hide *;
    var s := Run(spec, steps);
    Lifecycles.RunningOutcomeExact(spec, steps, env);
    Lifecycles.TimedOutMeansOverdue(spec, s.st, s.now);
    BudgetMeans(spec, s);
    ShouldMeans(spec, s, env);
    Lifecycles.RunsOn(spec, steps, Reconciles(env));
    Lifecycles.RunIsLive(spec, steps);
    RunningPhases(spec, s, env);
  }

  lemma RunningPhases(spec: TeamSpec, s: System, env: Env)
    requires WellFormed(spec) && DistinctEntries(s.st.teammates) && s.st.phase == Running
    ensures Next(spec, s, Reconciles(env)).st.phase in [TimedOut, BudgetExceeded, Failed, Completed, Running]
  {
    hide Supervise, Halt, DistinctEntries, IsTimedOut, IsBudgetExceeded;
    var m := Begin(s, env);
    Lifecycles.HaltWrites(spec, m, env, TimedOut);
    Lifecycles.HaltWrites(spec, m.(st := m.st.(estimatedCost := EstimatedCost(spec, m.st, s.now))), env, BudgetExceeded);
    if !IsTimedOut(spec, s.st, s.now) && !IsBudgetExceeded(spec, s.st, s.now) && Outcome(spec, s, env).ok {
      Lifecycles.SuperviseWrites(spec, m, env, s.now);
    }
  }

  // ---- What completion records ----

  /** Each target in order, at this time, with the outcome of its send. */
  ghost predicate RecordsSends(targets: seq<DeliveryTarget>, sends: seq<bool>, now: int, r: seq<DeliveryStatus>) {
    |r| == |targets| && forall i :: 0 <= i < |r| ==>
      r[i] == DeliveryStatus(targets[i].kind, targets[i].address, now, i < |sends| && sends[i])
  }

  lemma BranchRecorded(spec: TeamSpec, m: Mem, env: Env, now: int)
    requires Conclude(spec, m, env, now).ok && m.st.phase == Running && m.ok
    ensures var r := Conclude(spec, m, env, now);
      r.st.consolidatedBranch ==
        if r.st.phase == Completed && NeedsPush(spec, m.st) then (if env.branch.Some? then env.branch.value else "")
        else m.st.consolidatedBranch
  {
    hide AnyAgentFailed, AllAgentsSucceeded, Deliveries;
  }

  lemma SuperviseRecords(spec: TeamSpec, m: Mem, env: Env, now: int)
    requires WellFormed(spec) && m.ok && DistinctEntries(m.st.teammates) && m.st.phase == Running
    requires Supervise(spec, m, env, now).ok
    ensures var r := Supervise(spec, m, env, now);
      r.st.consolidatedBranch ==
        if r.st.phase == Completed && NeedsPush(spec, m.st) then (if env.branch.Some? then env.branch.value else "")
        else m.st.consolidatedBranch
  {
    hide Supervise, Observe, SomeExhausted, DistinctEntries, Conclude, AnyAgentFailed, AllAgentsSucceeded;
    ObserveFacts(spec, m, now);
    if SomeExhausted(spec, m.st.teammates, m.cl.pods) {
      ExhaustedStops(spec, m, env, now);
    } else {
      var y := SupervisePrepares(spec, m, env, now);
      BranchRecorded(spec, y, env, now);
    }
  }

  /**
   What the reconcile that completes a team of any run puts on record: in deliver mode one entry per target with the time
   and the outcome of its send, otherwise none; and in a push mode with a repository the branch as rendered.
   */
  lemma CompletionRecords(spec: TeamSpec, steps: seq<Step>, env: Env)
    requires WellFormed(spec) && Run(spec, steps).st.phase == Running
    requires Run(spec, steps + [Reconciles(env)]).st.phase == Completed
    ensures var s, t := Run(spec, steps), Run(spec, steps + [Reconciles(env)]);
      && (if spec.lifecycle.Some? && spec.lifecycle.value.onComplete == "deliver" then
            RecordsSends(spec.lifecycle.value.delivery, env.sends, s.now, t.st.delivery)
          else t.st.delivery == [])
      && t.st.consolidatedBranch ==
        (if BranchDue(spec, s.st) then (if env.branch.Some? then env.branch.value else "") else s.st.consolidatedBranch)
  {
    hide *;
    Lifecycles.RunKeeps(spec, steps);
    Lifecycles.RunsOn(spec, steps, Reconciles(env));
    CompletingRecords(spec, Run(spec, steps), env);
  }

  lemma CompletingRecords(spec: TeamSpec, s: System, env: Env)
    requires WellFormed(spec) && Lifecycles.LifeInv(spec, s)
    requires s.st.phase == Running && Next(spec, s, Reconciles(env)).st.phase == Completed
    ensures var t := Next(spec, s, Reconciles(env));
      && (if spec.lifecycle.Some? && spec.lifecycle.value.onComplete == "deliver" then
            RecordsSends(spec.lifecycle.value.delivery, env.sends, s.now, t.st.delivery)
          else t.st.delivery == [])
      && t.st.consolidatedBranch ==
        (if BranchDue(spec, s.st) then (if env.branch.Some? then env.branch.value else "") else s.st.consolidatedBranch)
  {
    hide Supervise, Halt, DistinctEntries, IsTimedOut, IsBudgetExceeded, BranchDue, NeedsPush, Lifecycles.AllInTime,
      Lifecycles.DeliveredOnce, Lifecycles.PhaseInv, Deliveries;
    var m := Begin(s, env);
    Lifecycles.HaltWrites(spec, m, env, TimedOut);
    Lifecycles.HaltWrites(spec, m.(st := m.st.(estimatedCost := EstimatedCost(spec, m.st, s.now))), env, BudgetExceeded);
    Lifecycles.SuperviseWrites(spec, m, env, s.now);
    SuperviseRecords(spec, m, env, s.now);
    PushMeans(spec, s.st);
    if spec.lifecycle.Some? {
      DeliveriesRecord(spec.lifecycle.value.delivery, env.sends, s.now);
    }
  }

  lemma DeliveriesRecord(targets: seq<DeliveryTarget>, sends: seq<bool>, now: int)
    ensures RecordsSends(targets, sends, now, [] + Deliveries(targets, sends, now))
  {
  }

  // ---- What a stop leaves ----

  /** The reconcile that stops a Running team of any run for its deadline or budget leaves no pod. */
  lemma StopLeavesNoPods(spec: TeamSpec, steps: seq<Step>, env: Env)
    requires WellFormed(spec) && Run(spec, steps).st.phase == Running
    requires Run(spec, steps + [Reconciles(env)]).st.phase in [TimedOut, BudgetExceeded]
    ensures Run(spec, steps + [Reconciles(env)]).cl.pods == map[]
  {
    hide Run, Supervise, IsTimedOut, IsBudgetExceeded, TerminateAllPods, DS.HistoryOk, DistinctEntries;
    var s := Run(spec, steps);
    var m := Begin(s, env);
    DS.RunKeeps(spec, steps);
    Lifecycles.RunIsLive(spec, steps);
    Lifecycles.RunsOn(spec, steps, Reconciles(env));
    TerminateLeavesNone(spec, m, env);
    TerminateLeavesNone(spec, m.(st := m.st.(estimatedCost := EstimatedCost(spec, m.st, s.now))), env);
    if !IsTimedOut(spec, s.st, s.now) && !IsBudgetExceeded(spec, s.st, s.now) && Outcome(spec, s, env).ok {
      Lifecycles.SuperviseWrites(spec, m, env, s.now);
    }
  }

  lemma TerminateLeavesNone(spec: TeamSpec, m: Mem, env: Env)
    requires m.ok && forall a :: a in m.cl.pods ==> IsAgent(spec, a)
    ensures TerminateAllPods(spec, m, env).ok ==> TerminateAllPods(spec, m, env).cl.pods == map[]
  {
    hide Listing;
    Lifecycles.AllPodsListed(spec, m.cl.pods, env);
    LoopRules.DeletePodsDone(m, Listing(spec, env));
    var pods := TerminateAllPods(spec, m, env).cl.pods;
    assert TerminateAllPods(spec, m, env).ok ==> pods.Keys == {};
  }

  // ---- What the status shows ----

  /** Each agent phase stands for one pod phase, Pending also for one that is not known. */
  ghost predicate Shows(a: AgentPhase, p: PodPhase) {
    && (a == AgentCompleted <==> p == PodSucceeded)
    && (a == AgentFailed <==> p == PodFailed)
    && (a == AgentRunning <==> p == PodRunning)
    && (a == AgentPending <==> p == PodPending || p == PodUnknown)
  }

  /** The entry shows the pod, or that there is none. */
  ghost predicate EntryShows(e: TeammateStatus, pods: Pods) {
    if e.name in pods then e.podName == e.name && Shows(e.phase, pods[e.name].phase) else e.podName == "" && e.phase == AgentWaiting
  }

  lemma SyncShows(spec: TeamSpec, entries: seq<TeammateStatus>, pods: Pods)
    ensures forall e :: e in SyncedEntries(spec, entries, pods) ==> EntryShows(e, pods)
  {
    hide EntriesByName;
  }

  lemma ObserveShows(spec: TeamSpec, m: Mem, now: int)
    ensures var o := Observe(spec, m, now);
      && o.st.estimatedCost == EstimatedCost(spec, m.st, now)
      && (if LEAD in m.cl.pods then Shows(o.st.lead, m.cl.pods[LEAD].phase) else o.st.lead == m.st.lead)
      && o.st.teammates == SyncedEntries(spec, m.st.teammates, m.cl.pods)
  {
    hide EstimatedCost, SyncedEntries, RecordSucceeded, UpdatedPipeline, ReadyCount;
  }

  lemma SuperviseStores(spec: TeamSpec, m: Mem, env: Env, now: int)
    requires WellFormed(spec) && m.ok && DistinctEntries(m.st.teammates) && m.st.phase == Running
    requires Supervise(spec, m, env, now).ok
    ensures var r, o := Supervise(spec, m, env, now), Observe(spec, m, now);
      r.st.estimatedCost == o.st.estimatedCost && r.st.lead == o.st.lead && r.st.artifacts == o.st.artifacts
  {
    hide Supervise, Observe, SomeExhausted, DistinctEntries, AnyAgentFailed, AllAgentsSucceeded;
    if SomeExhausted(spec, m.st.teammates, m.cl.pods) {
      ExhaustedStops(spec, m, env, now);
    } else {
      var y := SupervisePrepares(spec, m, env, now);
    }
  }

  ghost predicate EntriesShow(entries: seq<TeammateStatus>, pods: Pods) {
    forall i :: 0 <= i < |entries| ==> EntryShows(entries[i], pods)
  }

  /**
   A committed Running reconcile of any run that does not stop the team stores the cost estimated now, the phase of the
   lead's pod, and for every teammate what its pod was when the reconcile began.
   */
  lemma StatusShowsPods(spec: TeamSpec, steps: seq<Step>, env: Env)
    requires WellFormed(spec) && Run(spec, steps).st.phase == Running
    requires var t := Run(spec, steps + [Reconciles(env)]);
      t.aborts == Run(spec, steps).aborts && t.st.phase !in [TimedOut, BudgetExceeded]
    ensures var s, t := Run(spec, steps), Run(spec, steps + [Reconciles(env)]);
      && t.st.estimatedCost == EstimatedCost(spec, s.st, s.now)
      && (LEAD in s.cl.pods ==> Shows(t.st.lead, s.cl.pods[LEAD].phase))
      && |t.st.teammates| == |spec.teammates|
      && EntriesShow(t.st.teammates, s.cl.pods)
  {
    hide Run, Supervise, Halt, Observe, DistinctEntries, IsTimedOut, IsBudgetExceeded, EntryShows, Shows, EstimatedCost, SyncedEntries;
    var s := Run(spec, steps);
    var m := Begin(s, env);
    Lifecycles.RunIsLive(spec, steps);
    Lifecycles.RunsOn(spec, steps, Reconciles(env));
    Lifecycles.HaltWrites(spec, m, env, TimedOut);
    Lifecycles.HaltWrites(spec, m.(st := m.st.(estimatedCost := EstimatedCost(spec, m.st, s.now))), env, BudgetExceeded);
    SuperviseStores(spec, m, env, s.now);
    ObserveShows(spec, m, s.now);
    StageProgress.SuperviseKeepsSync(spec, m, env, s.now);
    SyncShows(spec, s.st.teammates, s.cl.pods);
    SamePhasesShow(SyncedEntries(spec, s.st.teammates, s.cl.pods), Supervise(spec, m, env, s.now).st.teammates, s.cl.pods);
  }

  lemma SamePhasesShow(a: seq<TeammateStatus>, b: seq<TeammateStatus>, pods: Pods)
    requires StageProgress.SamePhases(a, b) && forall e :: e in a ==> EntryShows(e, pods)
    ensures EntriesShow(b, pods)
  {
    forall i | 0 <= i < |b| ensures EntryShows(b[i], pods) {
      assert a[i] in a;
    }
  }
}
