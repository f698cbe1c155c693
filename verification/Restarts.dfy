/** Restart accounting: pod creations are bounded by recorded restarts plus lost status writes. */
module Restarts {
  import opened TeamSpecs
  import opened TeamStatuses
  import opened TeamReconcile
  import opened TeamRuns
  import opened LoopRules
  import opened Rosters
  import opened Frames

  function Creations(births: seq<Birth>, agent: string): nat {
    if births == [] then 0
    else Creations(births[..|births| - 1], agent) + if births[|births| - 1].agent == agent then 1 else 0
  }

  /** Creations so far, plus the one still owed while the pod is missing. */
  function Claims(cl: Cluster, agent: string): nat {
    Creations(cl.births, agent) + if agent in cl.pods then 0 else 1
  }

  function RestartLimit(spec: TeamSpec): int { if MaxRestarts(spec) < 0 then 0 else MaxRestarts(spec) }

  ghost predicate Accounted(spec: TeamSpec, s: System, k: nat)
    requires k < |spec.teammates|
  {
    var name := spec.teammates[k].name;
    var restarts := RestartCount(s.st.teammates, name);
    && 0 <= restarts <= RestartLimit(spec)
    && Creations(s.cl.births, name) <= 1 + restarts + s.aborts
    && (!Terminal(s.st.phase) ==> Claims(s.cl, name) <= 1 + restarts + s.aborts)
  }

  ghost predicate RestartInv(spec: TeamSpec, s: System) {
    && DistinctEntries(s.st.teammates)
    && forall k :: 0 <= k < |spec.teammates| ==> Accounted(spec, s, k)
  }

  /** Creating a missing pod settles a claim. */
  lemma EnsureKeepsClaims(spec: TeamSpec, m: Mem, agent: string, inputs: seq<InputSpec>, now: int, name: string)
    ensures Claims(EnsureAgentPod(spec, m, agent, inputs, now).cl, name) == Claims(m.cl, name)
  {
  }

  lemma FirstSpawnKeepsClaims(spec: TeamSpec, m: Mem, tm: TeammateSpec, now: int, name: string)
    ensures Claims(FirstSpawn(spec, m, tm, now).cl, name) == Claims(m.cl, name)
  {
  }

  lemma LateSpawnKeepsClaims(spec: TeamSpec, m: Mem, tm: TeammateSpec, now: int, name: string)
    ensures Claims(LateSpawn(spec, m, tm, now).cl, name) == Claims(m.cl, name)
  {
  }

  /** Each teammate's claims and restart count have grown by the same amount, at most one, and not at all from k on. */
  ghost predicate Balanced(spec: TeamSpec, before: Mem, after: Mem, k: int) {
    && Roster(spec, after.st.teammates)
    && forall j :: 0 <= j < |spec.teammates| ==>
      var name := spec.teammates[j].name;
      var more := Claims(after.cl, name) - Claims(before.cl, name);
      && more == after.st.teammates[j].restartCount - RestartCount(before.st.teammates, name)
      && 0 <= more <= (if j < k then 1 else 0)
      && 0 <= after.st.teammates[j].restartCount <= RestartLimit(spec)
  }

  /** No teammate's claims have grown by more than one. */
  ghost predicate AtMostOneMore(spec: TeamSpec, before: Mem, after: Mem) {
    forall j :: 0 <= j < |spec.teammates| ==> Claims(after.cl, spec.teammates[j].name) <= Claims(before.cl, spec.teammates[j].name) + 1
  }

  lemma RestartedBalances(spec: TeamSpec, before: Mem, x: Mem, k: nat, r: Mem)
    requires WellFormed(spec) && k < |spec.teammates| && Balanced(spec, before, x, k)
    requires var name := spec.teammates[k].name;
      && name in x.cl.pods && r.cl.pods.Keys == x.cl.pods.Keys
      && RestartCount(x.st.teammates, name) < MaxRestarts(spec)
      && r.st.teammates == SetRestartCount(x.st.teammates, name, RestartCount(x.st.teammates, name) + 1)
      && |r.cl.births| == |x.cl.births| + 1 && r.cl.births[..|x.cl.births|] == x.cl.births && r.cl.births[|x.cl.births|].agent == name
    ensures Balanced(spec, before, r, k + 1)
  {
    RosterIndex(spec, x.st.teammates, k);
    forall j | 0 <= j < |spec.teammates|
      ensures Claims(r.cl, spec.teammates[j].name) == Claims(x.cl, spec.teammates[j].name) + if j == k then 1 else 0
    {
      assert (spec.teammates[j].name in x.cl.pods.Keys) == (spec.teammates[j].name in r.cl.pods.Keys);
    }
  }

  lemma FailedRestartAddsOne(spec: TeamSpec, before: Mem, x: Mem, k: nat, r: Mem)
    requires WellFormed(spec) && k < |spec.teammates| && Balanced(spec, before, x, k)
    requires r.cl.births == x.cl.births && forall a :: a in x.cl.pods && a != spec.teammates[k].name ==> a in r.cl.pods
    ensures AtMostOneMore(spec, before, r)
  {
  }

  lemma RespawnBalances(spec: TeamSpec, before: Mem, m: Mem, k: nat, now: int)
    requires WellFormed(spec) && k < |spec.teammates| && m.ok && Balanced(spec, before, m, k)
    ensures var r := Respawn(spec, m, spec.teammates[k], now);
      if r.m.ok then Balanced(spec, before, r.m, k + 1) else AtMostOneMore(spec, before, r.m)
  {
    var tm := spec.teammates[k];
    var r := Respawn(spec, m, tm, now);
    if HasFailed(m.cl.pods, tm.name) && RestartCount(m.st.teammates, tm.name) < MaxRestarts(spec) {
      hide Respawn, Balanced, AtMostOneMore, WellFormed;
      RespawnEffect(spec, m, tm, now);
      if r.m.ok {
        RestartedBalances(spec, before, m, k, r.m);
      } else {
        FailedRestartAddsOne(spec, before, m, k, r.m);
      }
    }
  }

  lemma RespawnsBalance(spec: TeamSpec, m: Mem, now: int)
    requires WellFormed(spec) && m.ok && Balanced(spec, m, m, 0)
    ensures var r := Respawns(spec, m, |spec.teammates|, now);
      if r.m.ok then Balanced(spec, m, r.m, |spec.teammates|) else AtMostOneMore(spec, m, r.m)
  {
    var n := |spec.teammates|;
    var P := (k: int, x: Mem) => Balanced(spec, m, x, k);
    var Q := (c: Checked) => if c.m.ok then Balanced(spec, m, c.m, n) else AtMostOneMore(spec, m, c.m);
    forall k, x: Mem | 0 <= k < n && x.ok && P(k, x) ensures RespawnPass(spec, now, P, Q, k, x) {
      RespawnBalances(spec, m, x, k, now);
    }
    RespawnsRule(spec, m, n, now, P, Q);
  }

  /** Spawning settles claims and leaves restart counts alone. */
  ghost predicate Settled(spec: TeamSpec, before: Mem, after: Mem) {
    && Roster(spec, after.st.teammates)
    && SameCounts(before.st.teammates, after.st.teammates)
    && forall name :: Claims(after.cl, name) == Claims(before.cl, name)
  }

  lemma LateSpawnsSettle(spec: TeamSpec, m: Mem, now: int)
    requires WellFormed(spec) && m.ok && Roster(spec, m.st.teammates)
    ensures Settled(spec, m, LateSpawns(spec, m, |spec.teammates|, now))
  {
    var P := (k: int, x: Mem) => Settled(spec, m, x);
    var Q := (x: Mem) => Settled(spec, m, x);
    forall k, x: Mem | 0 <= k < |spec.teammates| && x.ok && P(k, x) ensures LateSpawnPass(spec, now, P, Q, k, x) {
      LateSpawnKeepsRoster(spec, x, k, now);
      forall name ensures Claims(LateSpawn(spec, x, spec.teammates[k], now).cl, name) == Claims(x.cl, name) {
        LateSpawnKeepsClaims(spec, x, spec.teammates[k], now, name);
      }
    }
    LateSpawnsRule(spec, m, |spec.teammates|, now, P, Q);
  }

  ghost predicate FirstSettled(before: Mem, after: Mem) {
    && DistinctEntries(after.st.teammates)
    && forall name :: Claims(after.cl, name) == Claims(before.cl, name) && RestartCount(after.st.teammates, name) == RestartCount(before.st.teammates, name)
  }

  lemma DeploySettles(spec: TeamSpec, m: Mem, now: int)
    requires m.ok && DistinctEntries(m.st.teammates)
    ensures FirstSettled(m, Deploy(spec, m, now))
  {
    var m1 := EnsureAgentPod(spec, m, LEAD, [], now);
    forall name ensures Claims(m1.cl, name) == Claims(m.cl, name) {
      EnsureKeepsClaims(spec, m, LEAD, [], now, name);
    }
    if m1.ok {
      var P := (k: int, x: Mem) => FirstSettled(m, x);
      var Q := (x: Mem) => FirstSettled(m, x);
      forall k, x: Mem | 0 <= k < |spec.teammates| && x.ok && P(k, x) ensures FirstSpawnPass(spec, now, P, Q, k, x) {
        var r := FirstSpawn(spec, x, spec.teammates[k], now);
        forall name
          ensures Claims(r.cl, name) == Claims(x.cl, name) && RestartCount(r.st.teammates, name) == RestartCount(x.st.teammates, name)
        {
          FirstSpawnKeepsClaims(spec, x, spec.teammates[k], now, name);
          FirstSpawnKeepsEntries(spec, x, spec.teammates[k], now, name);
        }
        FirstSpawnKeepsEntries(spec, x, spec.teammates[k], now, "");
      }
      FirstSpawnsRule(spec, m1, |spec.teammates|, now, P, Q);
    }
  }

  ghost predicate CountsInRange(spec: TeamSpec, entries: seq<TeammateStatus>) {
    forall j :: 0 <= j < |spec.teammates| ==> 0 <= RestartCount(entries, spec.teammates[j].name) <= RestartLimit(spec)
  }

  lemma ObserveBalances(spec: TeamSpec, m: Mem, now: int)
    requires WellFormed(spec) && DistinctEntries(m.st.teammates) && CountsInRange(spec, m.st.teammates)
    ensures Observe(spec, m, now).cl == m.cl && Observe(spec, m, now).ok == m.ok
    ensures Balanced(spec, m, Observe(spec, m, now), 0)
    ensures Balanced(spec, Observe(spec, m, now), Observe(spec, m, now), 0)
  {
    var entries := SyncedEntries(spec, m.st.teammates, m.cl.pods);
    assert Observe(spec, m, now).st.teammates == entries && Observe(spec, m, now).cl == m.cl;
    assert Roster(spec, entries);
    forall j | 0 <= j < |spec.teammates|
      ensures entries[j].restartCount == RestartCount(m.st.teammates, spec.teammates[j].name) == RestartCount(entries, spec.teammates[j].name)
    {
      SyncKeepsEntries(spec, m.st.teammates, m.cl.pods, j);
      RosterIndex(spec, entries, j);
    }
  }

  /** Balance composes: observing first, then respawning. */
  lemma BalanceFromObserved(spec: TeamSpec, m: Mem, m1: Mem, r: Mem)
    requires WellFormed(spec) && Balanced(spec, m, m1, 0) && m1.cl == m.cl && Balanced(spec, m1, r, |spec.teammates|)
    ensures Balanced(spec, m, r, |spec.teammates|)
  {
  }

  lemma BalanceMeansAtMostOne(spec: TeamSpec, before: Mem, after: Mem, k: int)
    requires Balanced(spec, before, after, k)
    ensures AtMostOneMore(spec, before, after)
  {
  }

  lemma BalanceIgnoresPhase(spec: TeamSpec, before: Mem, m: Mem, after: Mem)
    requires Balanced(spec, before, m, |spec.teammates|) && after.cl == m.cl && after.st.teammates == m.st.teammates
    ensures Balanced(spec, before, after, |spec.teammates|)
  {
  }

  lemma AtMostOneFrom(spec: TeamSpec, m: Mem, m1: Mem, after: Mem)
    requires m1.cl == m.cl && AtMostOneMore(spec, m1, after)
    ensures AtMostOneMore(spec, m, after)
  {
  }

  lemma BalanceSettles(spec: TeamSpec, before: Mem, m: Mem, after: Mem, k: int)
    requires Balanced(spec, before, m, k) && Settled(spec, m, after)
    ensures Balanced(spec, before, after, k)
  {
  }

  /** The rest of a Running reconcile, once restarts are done, keeps the balance. */
  lemma FinishKeepsBalance(spec: TeamSpec, before: Mem, m: Mem, env: Env, now: int)
    requires WellFormed(spec) && m.ok && Balanced(spec, before, m, |spec.teammates|)
    ensures var m3 := LateSpawns(spec, m, |spec.teammates|, now);
      Balanced(spec, before, if m3.ok then Conclude(spec, m3, env, now) else m3, |spec.teammates|)
  {
    LateSpawnsSettle(spec, m, now);
    var m3 := LateSpawns(spec, m, |spec.teammates|, now);
    BalanceSettles(spec, before, m, m3, |spec.teammates|);
    ConcludeKeepsCounts(spec, m3, env, now);
  }

  /** A committed Running reconcile: claims and restart counts grow together; an aborted one: by at most one each. */
  lemma SuperviseBalances(spec: TeamSpec, m: Mem, env: Env, now: int)
    requires WellFormed(spec) && m.ok && DistinctEntries(m.st.teammates) && CountsInRange(spec, m.st.teammates)
    ensures AtMostOneMore(spec, m, Supervise(spec, m, env, now))
    ensures Supervise(spec, m, env, now).ok ==> Balanced(spec, m, Supervise(spec, m, env, now), |spec.teammates|)
  {
    hide Balanced, AtMostOneMore, Observe, Respawns, LateSpawns, Conclude, WellFormed, DistinctEntries, CountsInRange;
    var m1 := Observe(spec, m, now);
    ObserveBalances(spec, m, now);
    RespawnsBalance(spec, m1, now);
    var checked := Respawns(spec, m1, |spec.teammates|, now);
    if checked.m.ok {
      BalanceFromObserved(spec, m, m1, checked.m);
      FinishKeepsBalance(spec, m, checked.m, env, now);
      BalanceIgnoresPhase(spec, m, checked.m, Commit(checked.m.(st := checked.m.st.(phase := Failed))));
      BalanceMeansAtMostOne(spec, m, Supervise(spec, m, env, now), |spec.teammates|);
    } else {
      AtMostOneFrom(spec, m, m1, checked.m);
    }
  }

  lemma ConcludeKeepsCounts(spec: TeamSpec, m: Mem, env: Env, now: int)
    ensures var r := Conclude(spec, m, env, now);
      r.st.teammates == m.st.teammates && r.cl.births == m.cl.births && r.cl.pods == m.cl.pods
  {
  }

  /** Only the pods of a delete loop change, so nobody's claims grow by more than one. */
  lemma DeletingKeepsCounts(spec: TeamSpec, m: Mem, env: Env)
    requires m.ok
    ensures var r := TerminateAllPods(spec, m, env);
      r.st == m.st && r.cl.births == m.cl.births && AtMostOneMore(spec, m, r)
  {
    DeletePodsDone(m, Listing(spec, env));
  }

  lemma HaltKeepsCounts(spec: TeamSpec, m: Mem, env: Env, reason: Phase)
    requires m.ok
    ensures var r := Halt(spec, m, env, reason);
      r.st.teammates == m.st.teammates && r.cl.births == m.cl.births && AtMostOneMore(spec, m, r) && (r.ok ==> r.st.phase == reason)
  {
    DeletingKeepsCounts(spec, m, env);
  }

  /** A change that records no restart keeps the account if it makes claims only when it aborts or ends the team. */
  lemma UnrecordedKeeps(spec: TeamSpec, s: System, t: System)
    requires RestartInv(spec, s) && DistinctEntries(t.st.teammates) && t.aborts >= s.aborts
    requires forall k :: 0 <= k < |spec.teammates| ==>
      var name := spec.teammates[k].name;
      && RestartCount(t.st.teammates, name) == RestartCount(s.st.teammates, name)
      && (!Terminal(t.st.phase) ==> !Terminal(s.st.phase) && Claims(t.cl, name) <= Claims(s.cl, name) + t.aborts - s.aborts)
      && (Creations(t.cl.births, name) <= Creations(s.cl.births, name)
          || (!Terminal(s.st.phase) && Claims(t.cl, name) <= Claims(s.cl, name) + t.aborts - s.aborts))
    ensures RestartInv(spec, t)
  {
    forall k | 0 <= k < |spec.teammates| ensures Accounted(spec, t, k) {
      assert Accounted(spec, s, k);
    }
  }

  lemma BalancedKeeps(spec: TeamSpec, s: System, r: Mem, fuel: nat)
    requires WellFormed(spec) && RestartInv(spec, s) && !Terminal(s.st.phase)
    requires Balanced(spec, Mem(s.cl, s.st, fuel, true), r, |spec.teammates|)
    ensures RestartInv(spec, s.(cl := r.cl, st := r.st))
  {
    RosterIsDistinct(spec, r.st.teammates);
    forall k | 0 <= k < |spec.teammates| ensures Accounted(spec, s.(cl := r.cl, st := r.st), k) {
      assert Accounted(spec, s, k);
      RosterIndex(spec, r.st.teammates, k);
    }
  }

  lemma AbortKeeps(spec: TeamSpec, s: System, r: Mem, fuel: nat)
    requires RestartInv(spec, s) && !Terminal(s.st.phase) && AtMostOneMore(spec, Mem(s.cl, s.st, fuel, true), r)
    ensures RestartInv(spec, s.(cl := r.cl, aborts := s.aborts + 1))
  {
    UnrecordedKeeps(spec, s, s.(cl := r.cl, aborts := s.aborts + 1));
  }

  lemma RestartsInRange(spec: TeamSpec, s: System)
    requires RestartInv(spec, s)
    ensures CountsInRange(spec, s.st.teammates)
  {
    forall k | 0 <= k < |spec.teammates| ensures 0 <= RestartCount(s.st.teammates, spec.teammates[k].name) <= RestartLimit(spec) {
      assert Accounted(spec, s, k);
    }
  }

  lemma RunningKeeps(spec: TeamSpec, s: System, env: Env)
    requires WellFormed(spec) && RestartInv(spec, s) && s.st.phase == Running
    ensures RestartInv(spec, Next(spec, s, Reconciles(env)))
  {
    hide Halt, Supervise, Balanced, AtMostOneMore, Accounted, CountsInRange;
    var m := Begin(s, env);
    var after := Next(spec, s, Reconciles(env));
    var r := Outcome(spec, s, env);
    if IsTimedOut(spec, s.st, s.now) {
      HaltKeeps(spec, s, m, env, TimedOut);
    } else if IsBudgetExceeded(spec, s.st, s.now) {
      HaltKeeps(spec, s, m.(st := m.st.(estimatedCost := EstimatedCost(spec, m.st, s.now))), env, BudgetExceeded);
    } else {
      RestartsInRange(spec, s);
      SuperviseBalances(spec, m, env, s.now);
      if r.ok {
        BalancedKeeps(spec, s, r, env.fuel);
      } else {
        AbortKeeps(spec, s, r, env.fuel);
      }
    }
  }

  lemma HaltKeeps(spec: TeamSpec, s: System, m: Mem, env: Env, reason: Phase)
    requires RestartInv(spec, s) && !Terminal(s.st.phase) && Terminal(reason) && m.ok
    requires m.cl == s.cl && m.st.teammates == s.st.teammates
    ensures var r := Halt(spec, m, env, reason);
      RestartInv(spec, if r.ok then s.(cl := r.cl, st := r.st) else s.(cl := r.cl, aborts := s.aborts + 1))
  {
    var r := Halt(spec, m, env, reason);
    HaltKeepsCounts(spec, m, env, reason);
    UnrecordedKeeps(spec, s, if r.ok then s.(cl := r.cl, st := r.st) else s.(cl := r.cl, aborts := s.aborts + 1));
  }

  lemma InitializingKeeps(spec: TeamSpec, s: System, env: Env)
    requires RestartInv(spec, s) && s.st.phase == Initializing
    ensures RestartInv(spec, Next(spec, s, Reconciles(env)))
  {
    hide Deploy, Accounted;
    var m := Begin(s, env);
    DeploySettles(spec, m, s.now);
    UnrecordedKeeps(spec, s, Next(spec, s, Reconciles(env)));
  }

  lemma TerminalKeeps(spec: TeamSpec, s: System, env: Env)
    requires RestartInv(spec, s) && Terminal(s.st.phase)
    ensures RestartInv(spec, Next(spec, s, Reconciles(env)))
  {
    hide TerminateAllPods, Accounted;
    DeletingKeepsCounts(spec, Begin(s, env), env);
    UnrecordedKeeps(spec, s, Next(spec, s, Reconciles(env)));
  }

  lemma ReconcilesKeeps(spec: TeamSpec, s: System, env: Env)
    requires WellFormed(spec) && RestartInv(spec, s)
    ensures RestartInv(spec, Next(spec, s, Reconciles(env)))
  {
    if s.st.phase == Running {
      RunningKeeps(spec, s, env);
    } else if s.st.phase == Initializing {
      InitializingKeeps(spec, s, env);
    } else if Terminal(s.st.phase) {
      TerminalKeeps(spec, s, env);
    } else {
      hide Accounted;
      UnrecordedKeeps(spec, s, Next(spec, s, Reconciles(env)));
    }
  }

  lemma NextKeeps(spec: TeamSpec, s: System, step: Step)
    requires WellFormed(spec) && RestartInv(spec, s)
    ensures RestartInv(spec, Next(spec, s, step))
  {
    if step.Reconciles? {
      ReconcilesKeeps(spec, s, step.env);
    } else {
      UnrecordedKeeps(spec, s, Next(spec, s, step));
    }
  }

  lemma {:induction false} RunKeeps(spec: TeamSpec, steps: seq<Step>)
    requires WellFormed(spec)
    ensures RestartInv(spec, Run(spec, steps))
  {
    if steps != [] {
      RunKeeps(spec, steps[..|steps| - 1]);
      NextKeeps(spec, Run(spec, steps[..|steps| - 1]), steps[|steps| - 1]);
    }
  }

  /** Over every run: creations are at most one, plus the recorded restarts, plus the aborted reconciles. */
  lemma CreationsBounded(spec: TeamSpec, steps: seq<Step>, k: nat)
    requires WellFormed(spec) && k < |spec.teammates|
    ensures var s := Run(spec, steps);
      var restarts := RestartCount(s.st.teammates, spec.teammates[k].name);
      && restarts <= RestartLimit(spec)
      && Creations(s.cl.births, spec.teammates[k].name) <= 1 + restarts + s.aborts
      && (s.aborts == 0 ==> Creations(s.cl.births, spec.teammates[k].name) <= 1 + RestartLimit(spec))
    ensures RestartLimit(spec) ==
      if spec.lifecycle.None? || spec.lifecycle.value.maxRestarts.None? then 3
      else if spec.lifecycle.value.maxRestarts.value <= 0 then 0 else spec.lifecycle.value.maxRestarts.value
  {
    RunKeeps(spec, steps);
    assert Accounted(spec, Run(spec, steps), k);
  }
}
