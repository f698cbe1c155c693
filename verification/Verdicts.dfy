/** The phase a Running reconcile decides on, from what it found before it did anything. */
module Verdicts {
  import opened Options
  import opened TeamSpecs
  import opened TeamStatuses
  import opened TeamReconcile
  import opened LoopRules
  import opened Rosters
  import opened Frames

  /** A teammate whose pod has Failed and whose restarts are used up. */
  ghost predicate Exhausted(spec: TeamSpec, entries: seq<TeammateStatus>, pods: Pods, k: int)
    requires 0 <= k < |spec.teammates|
  {
    HasFailed(pods, spec.teammates[k].name) && RestartCount(entries, spec.teammates[k].name) >= MaxRestarts(spec)
  }

  ghost predicate SomeExhausted(spec: TeamSpec, entries: seq<TeammateStatus>, pods: Pods) {
    exists k :: 0 <= k < |spec.teammates| && Exhausted(spec, entries, pods, k)
  }

  /** The push step cannot succeed in this reconcile: no branch name, an API error, or a Job out of retries. */
  ghost predicate FinalizationErrors(spec: TeamSpec, st: Status, cl: Cluster, env: Env) {
    NeedsPush(spec, st) && (env.branch.None? || !env.jobFault.NoFault? || cl.pushJob == Some(JobFailed))
  }

  ghost predicate FinalizationDone(spec: TeamSpec, st: Status, cl: Cluster, env: Env) {
    NeedsPush(spec, st) ==> env.branch.Some? && env.jobFault.NoFault? && cl.pushJob == Some(JobSucceeded)
  }

  ghost predicate ShouldFail(spec: TeamSpec, st: Status, cl: Cluster, env: Env) {
    || SomeExhausted(spec, st.teammates, cl.pods)
    || HasFailed(cl.pods, LEAD)
    || (AllAgentsSucceeded(spec, cl.pods) && FinalizationErrors(spec, st, cl, env))
  }

  ghost predicate ShouldComplete(spec: TeamSpec, st: Status, cl: Cluster, env: Env) {
    AllAgentsSucceeded(spec, cl.pods) && FinalizationDone(spec, st, cl, env)
  }

  // ---- The restart loop ----

  ghost predicate CheckedUpTo(spec: TeamSpec, m: Mem, x: Mem, k: int) {
    && Roster(spec, x.st.teammates)
    && (forall j :: 0 <= j < |spec.teammates| && j < k ==>
      !HasFailed(x.cl.pods, spec.teammates[j].name) && !Exhausted(spec, m.st.teammates, m.cl.pods, j))
    && (forall j :: 0 <= j < |spec.teammates| && j >= k ==>
      && SamePod(m.cl.pods, x.cl.pods, spec.teammates[j].name)
      && RestartCount(x.st.teammates, spec.teammates[j].name) == RestartCount(m.st.teammates, spec.teammates[j].name))
    && SamePod(m.cl.pods, x.cl.pods, LEAD)
  }

  ghost predicate StoppedRightly(spec: TeamSpec, m: Mem, c: Checked) {
    c.m.ok ==> exists k :: 0 <= k < |spec.teammates| && Exhausted(spec, m.st.teammates, m.cl.pods, k) && c.fatal == spec.teammates[k].name
  }

  lemma RestartedChecks(spec: TeamSpec, m: Mem, x: Mem, k: nat, r: Mem)
    requires WellFormed(spec) && k < |spec.teammates| && CheckedUpTo(spec, m, x, k)
    requires RestartCount(m.st.teammates, spec.teammates[k].name) < MaxRestarts(spec)
    requires exists pod: Pod :: pod.phase == PodPending && r.cl.pods == x.cl.pods[spec.teammates[k].name := pod]
    requires exists count :: r.st.teammates == SetRestartCount(x.st.teammates, spec.teammates[k].name, count)
    ensures CheckedUpTo(spec, m, r, k + 1)
  {
    RosterIndex(spec, x.st.teammates, k);
    forall j | 0 <= j < |spec.teammates| && j >= k + 1
      ensures RestartCount(r.st.teammates, spec.teammates[j].name) == RestartCount(x.st.teammates, spec.teammates[j].name)
    {
      RosterIndex(spec, x.st.teammates, j);
      RosterIndex(spec, r.st.teammates, j);
    }
  }

  lemma RespawnChecks(spec: TeamSpec, m: Mem, x: Mem, k: nat, now: int)
    requires WellFormed(spec) && k < |spec.teammates| && x.ok && CheckedUpTo(spec, m, x, k)
    ensures var r := Respawn(spec, x, spec.teammates[k], now);
      if GoesOn(r) then CheckedUpTo(spec, m, r.m, k + 1) else StoppedRightly(spec, m, r)
  {
    var tm := spec.teammates[k];
    var r := Respawn(spec, x, tm, now);
    if !HasFailed(x.cl.pods, tm.name) {
      assert r == Checked(x, "");
    } else if RestartCount(x.st.teammates, tm.name) >= MaxRestarts(spec) {
      assert r == Checked(x, tm.name);
      assert Exhausted(spec, m.st.teammates, m.cl.pods, k);
    } else {
      hide Respawn, CheckedUpTo, WellFormed;
      RespawnEffect(spec, x, tm, now);
      SameCountAt(spec, m, x, k);
      if r.m.ok {
        RestartedChecks(spec, m, x, k, r.m);
      }
    }
  }

  lemma SameCountAt(spec: TeamSpec, m: Mem, x: Mem, k: nat)
    requires k < |spec.teammates| && CheckedUpTo(spec, m, x, k)
    ensures RestartCount(x.st.teammates, spec.teammates[k].name) == RestartCount(m.st.teammates, spec.teammates[k].name)
  {
  }

  /** The loop stops with a name exactly when some teammate is exhausted; otherwise no teammate is left Failed. */
  lemma RespawnsVerdict(spec: TeamSpec, m: Mem, now: int)
    requires WellFormed(spec) && m.ok && Roster(spec, m.st.teammates)
    ensures var r := Respawns(spec, m, |spec.teammates|, now);
      if GoesOn(r) then CheckedUpTo(spec, m, r.m, |spec.teammates|) else StoppedRightly(spec, m, r)
  {
    hide Respawn, CheckedUpTo, StoppedRightly;
    CheckedStart(spec, m);
    var P := (k: int, x: Mem) => CheckedUpTo(spec, m, x, k);
    var Q := (c: Checked) => StoppedRightly(spec, m, c);
    forall k, x: Mem | 0 <= k < |spec.teammates| && x.ok && P(k, x) ensures RespawnPass(spec, now, P, Q, k, x) {
      RespawnChecks(spec, m, x, k, now);
    }
    RespawnsRule(spec, m, |spec.teammates|, now, P, Q);
  }

  lemma CheckedStart(spec: TeamSpec, m: Mem)
    requires Roster(spec, m.st.teammates)
    ensures CheckedUpTo(spec, m, m, 0)
  {
  }

  /**
   When the restart check finds nobody exhausted, no declared teammate's pod is Failed afterwards, so the failure test
   later in the same reconcile answers for the lead alone.
   */
  lemma NoTeammateLeftFailed(spec: TeamSpec, m: Mem, now: int)
    requires WellFormed(spec) && m.ok && Roster(spec, m.st.teammates)
    requires GoesOn(Respawns(spec, m, |spec.teammates|, now))
    ensures var x := Respawns(spec, m, |spec.teammates|, now).m;
      && (forall j :: 0 <= j < |spec.teammates| ==> !HasFailed(x.cl.pods, spec.teammates[j].name))
      && (AnyAgentFailed(spec, LateSpawns(spec, x, |spec.teammates|, now).cl.pods) <==> HasFailed(m.cl.pods, LEAD))
  {
    RespawnsVerdict(spec, m, now);
    LateSpawnsAddPods(spec, Respawns(spec, m, |spec.teammates|, now).m, now);
  }

  /** Whether all agents have Succeeded is not changed by restarting and spawning. */
  lemma SuccessUnchanged(spec: TeamSpec, m: Mem, now: int)
    requires m.ok && GoesOn(Respawns(spec, m, |spec.teammates|, now))
    ensures var x := Respawns(spec, m, |spec.teammates|, now).m;
      AllAgentsSucceeded(spec, LateSpawns(spec, x, |spec.teammates|, now).cl.pods) <==> AllAgentsSucceeded(spec, m.cl.pods)
  {
    var x := Respawns(spec, m, |spec.teammates|, now).m;
    var y := LateSpawns(spec, x, |spec.teammates|, now);
    RespawnsReplace(spec, m, now);
    LateSpawnsAddPods(spec, x, now);
    forall a ensures Succeeded(y.cl.pods, a) <==> Succeeded(m.cl.pods, a) {
    }
  }

  lemma ObserveFacts(spec: TeamSpec, m: Mem, now: int)
    requires WellFormed(spec) && DistinctEntries(m.st.teammates)
    ensures var o := Observe(spec, m, now);
      && o.cl == m.cl && o.ok == m.ok && o.fuel == m.fuel
      && Roster(spec, o.st.teammates)
      && o.st.phase == m.st.phase && o.st.consolidatedBranch == m.st.consolidatedBranch && o.st.delivery == m.st.delivery
      && o.st.startedAt == m.st.startedAt && o.st.completedAt == m.st.completedAt
      && (SomeExhausted(spec, o.st.teammates, o.cl.pods) <==> SomeExhausted(spec, m.st.teammates, m.cl.pods))
  {
    var o := Observe(spec, m, now);
    forall k | 0 <= k < |spec.teammates|
      ensures RestartCount(o.st.teammates, spec.teammates[k].name) == RestartCount(m.st.teammates, spec.teammates[k].name)
    {
      SyncKeepsEntries(spec, m.st.teammates, m.cl.pods, k);
      RosterIndex(spec, o.st.teammates, k);
    }
    forall k | 0 <= k < |spec.teammates|
      ensures Exhausted(spec, o.st.teammates, o.cl.pods, k) <==> Exhausted(spec, m.st.teammates, m.cl.pods, k)
    {
    }
  }

  /** What a Running reconcile has before it draws its conclusion. */
  ghost predicate Prepared(spec: TeamSpec, m: Mem, y: Mem, now: int) {
    && y.ok && Frame(Observe(spec, m, now), y, now)
    && (AnyAgentFailed(spec, y.cl.pods) <==> HasFailed(m.cl.pods, LEAD))
    && (AllAgentsSucceeded(spec, y.cl.pods) <==> AllAgentsSucceeded(spec, m.cl.pods))
  }

  lemma SupervisePrepares(spec: TeamSpec, m: Mem, env: Env, now: int) returns (y: Mem)
    requires WellFormed(spec) && m.ok && DistinctEntries(m.st.teammates)
    requires Supervise(spec, m, env, now).ok && !SomeExhausted(spec, m.st.teammates, m.cl.pods)
    ensures Prepared(spec, m, y, now) && Supervise(spec, m, env, now) == Conclude(spec, y, env, now)
  {
    hide Observe, Respawns, LateSpawns, Conclude, Frame, SomeExhausted, CheckedUpTo, AnyAgentFailed,
      AllAgentsSucceeded, DistinctEntries, Roster;
    var o := Observe(spec, m, now);
    ObserveFacts(spec, m, now);
    var c := Respawns(spec, o, |spec.teammates|, now);
    RespawnsVerdict(spec, o, now);
    if !GoesOn(c) {
      StoppedMeansExhausted(spec, o, c);
    }
    y := LateSpawns(spec, c.m, |spec.teammates|, now);
    NoTeammateLeftFailed(spec, o, now);
    SuccessUnchanged(spec, o, now);
    RespawnsFrame(spec, o, now);
    LateSpawnsFrame(spec, c.m, now);
    FrameComposes(o, c.m, y, now);
  }

  lemma StoppedMeansExhausted(spec: TeamSpec, m: Mem, c: Checked)
    requires StoppedRightly(spec, m, c) && c.m.ok
    ensures SomeExhausted(spec, m.st.teammates, m.cl.pods)
  {
  }

  lemma ExhaustedStops(spec: TeamSpec, m: Mem, env: Env, now: int)
    requires WellFormed(spec) && m.ok && DistinctEntries(m.st.teammates)
    requires Supervise(spec, m, env, now).ok && SomeExhausted(spec, m.st.teammates, m.cl.pods)
    ensures var r := Supervise(spec, m, env, now);
      r.st.phase == Failed && Frame(Observe(spec, m, now), r.(st := r.st.(phase := m.st.phase)), now)
  {
    hide Observe, Respawns, LateSpawns, Conclude, CheckedUpTo, SomeExhausted, DistinctEntries, Roster;
    var o := Observe(spec, m, now);
    ObserveFacts(spec, m, now);
    var c := Respawns(spec, o, |spec.teammates|, now);
    RespawnsVerdict(spec, o, now);
    RespawnsFrame(spec, o, now);
    if GoesOn(c) {
      NobodyExhausted(spec, o, c.m);
    }
  }

  lemma NobodyExhausted(spec: TeamSpec, m: Mem, x: Mem)
    requires CheckedUpTo(spec, m, x, |spec.teammates|)
    ensures !SomeExhausted(spec, m.st.teammates, m.cl.pods)
  {
  }

  /**
   A committed Running reconcile within its limits fails the team if and only if a Failed teammate has no restarts
   left, the lead has Failed, or finalization errors; it completes the team if and only if every agent has Succeeded
   and nothing remains to push; and otherwise the team stays Running.
   */
  lemma VerdictExact(spec: TeamSpec, m: Mem, env: Env, now: int)
    requires WellFormed(spec) && m.ok && DistinctEntries(m.st.teammates) && m.st.phase == Running
    requires Supervise(spec, m, env, now).ok
    ensures var p := Supervise(spec, m, env, now).st.phase;
      && (p == Failed <==> ShouldFail(spec, m.st, m.cl, env))
      && (p == Completed <==> ShouldComplete(spec, m.st, m.cl, env))
      && p in [Failed, Completed, Running]
  {
    hide Supervise, DistinctEntries, SomeExhausted;
    if SomeExhausted(spec, m.st.teammates, m.cl.pods) {
      ExhaustedStops(spec, m, env, now);
      ExhaustedNotDone(spec, m.st.teammates, m.cl.pods);
    } else {
      var y := SupervisePrepares(spec, m, env, now);
      ObserveFacts(spec, m, now);
      SucceededNotFailed(spec, m.cl.pods);
      ConcludeVerdict(spec, Observe(spec, m, now), y, env, now);
    }
  }

  lemma ExhaustedNotDone(spec: TeamSpec, entries: seq<TeammateStatus>, pods: Pods)
    requires SomeExhausted(spec, entries, pods)
    ensures !AllAgentsSucceeded(spec, pods)
  {
  }

  lemma SucceededNotFailed(spec: TeamSpec, pods: Pods)
    ensures AllAgentsSucceeded(spec, pods) ==> !HasFailed(pods, LEAD)
  {
  }

  lemma ConcludeVerdict(spec: TeamSpec, o: Mem, y: Mem, env: Env, now: int)
    requires Frame(o, y, now) && o.st.phase == Running && Conclude(spec, y, env, now).ok
    ensures var p := Conclude(spec, y, env, now).st.phase;
      if AnyAgentFailed(spec, y.cl.pods) then p == Failed
      else if AllAgentsSucceeded(spec, y.cl.pods) then
        if FinalizationErrors(spec, o.st, o.cl, env) then p == Failed
        else if FinalizationDone(spec, o.st, o.cl, env) then p == Completed else p == Running
      else p == Running
  {
    assert NeedsPush(spec, y.st) == NeedsPush(spec, o.st) && y.cl.pushJob == o.cl.pushJob;
    assert y.cl.pushJob.Some? ==> y.cl.pushJob.value.JobActive? || y.cl.pushJob.value.JobSucceeded? || y.cl.pushJob.value.JobFailed?;
  }
}
