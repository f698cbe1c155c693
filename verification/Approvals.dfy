/** The approval and readiness book-keeping of a Running team matches what its last reconcile saw. */
module Approvals {
  import opened TeamSpecs
  import opened TeamStatuses
  import opened TeamReconcile
  import opened TeamRuns
  import opened LoopRules
  import opened Rosters
  import opened Frames
  import opened Intactness
  import Lifecycles
  import Verdicts

  function PendingOf(spec: TeamSpec, entries: seq<TeammateStatus>, k: int): string
    requires 0 <= k < |spec.teammates|
  {
    PendingApproval(entries, spec.teammates[k].name)
  }

  /** The teammate has no pod and everything it waits for has Succeeded. */
  ghost predicate Eligible(spec: TeamSpec, pods: Pods, k: int)
    requires 0 <= k < |spec.teammates|
  {
    spec.teammates[k].name !in pods && DependenciesMet(pods, EffectiveDependencies(spec, spec.teammates[k]))
  }

  /** A pending approval is recorded of a teammate that has a pod or waits for something else. */
  ghost predicate Stale(spec: TeamSpec, entries: seq<TeammateStatus>, pods: Pods, k: int)
    requires 0 <= k < |spec.teammates|
  {
    PendingOf(spec, entries, k) != "" && !Eligible(spec, pods, k)
  }

  /** The entry names the gate the teammate is held at when approval is all it waits for, and nothing otherwise. */
  ghost predicate Exact(spec: TeamSpec, entries: seq<TeammateStatus>, pods: Pods, granted: set<string>, k: int)
    requires 0 <= k < |spec.teammates|
  {
    PendingOf(spec, entries, k) == if Eligible(spec, pods, k) then HeldAt(spec, granted, spec.teammates[k].name) else ""
  }

  ghost predicate NoneStale(spec: TeamSpec, entries: seq<TeammateStatus>, pods: Pods) {
    forall k :: 0 <= k < |spec.teammates| ==> !Stale(spec, entries, pods, k)
  }

  /** Same pods, and the same ones Succeeded. */
  ghost predicate SameStanding(a: Pods, b: Pods) {
    && (forall n :: n in a <==> n in b)
    && (forall n :: Succeeded(a, n) <==> Succeeded(b, n))
  }

  lemma StandingDecides(spec: TeamSpec, a: Pods, b: Pods, k: nat)
    requires k < |spec.teammates| && SameStanding(a, b)
    ensures Eligible(spec, a, k) <==> Eligible(spec, b, k)
  {
  }

  // ---- Status sync and restarts ----

  ghost predicate SamePending(spec: TeamSpec, a: seq<TeammateStatus>, b: seq<TeammateStatus>) {
    forall k :: 0 <= k < |spec.teammates| ==> PendingOf(spec, a, k) == PendingOf(spec, b, k)
  }

  lemma SyncKeepsPending(spec: TeamSpec, entries: seq<TeammateStatus>, pods: Pods)
    requires WellFormed(spec) && DistinctEntries(entries)
    ensures SamePending(spec, entries, SyncedEntries(spec, entries, pods))
  {
    hide EntriesByName;
    forall k | 0 <= k < |spec.teammates| ensures PendingOf(spec, entries, k) == PendingOf(spec, SyncedEntries(spec, entries, pods), k) {
      SyncKeepsEntries(spec, entries, pods, k);
      RosterIndex(spec, SyncedEntries(spec, entries, pods), k);
    }
  }

  ghost predicate Restarted(spec: TeamSpec, m: Mem, x: Mem) {
    && Roster(spec, x.st.teammates)
    && SamePending(spec, m.st.teammates, x.st.teammates)
    && SameStanding(m.cl.pods, x.cl.pods)
  }

  lemma CountKeepsPending(spec: TeamSpec, entries: seq<TeammateStatus>, name: string, count: int, k: nat)
    requires k < |spec.teammates|
    ensures PendingOf(spec, SetRestartCount(entries, name, count), k) == PendingOf(spec, entries, k)
  {
    var after := SetRestartCount(entries, name, count);
    IndexIs(after, spec.teammates[k].name, EntryIndex(entries, spec.teammates[k].name));
  }

  /** Replacing a Failed pod and counting the restart leaves approvals and standing alone. */
  lemma RestartKeeps(spec: TeamSpec, m: Mem, x: Mem, name: string, count: int, staged: seq<StagedInput>, r: Mem)
    requires Restarted(spec, m, x) && HasFailed(x.cl.pods, name)
    requires r.cl.pods == x.cl.pods[name := Pod(PodPending, staged)] && r.st.teammates == SetRestartCount(x.st.teammates, name, count)
    ensures Restarted(spec, m, r)
  {
    hide PendingOf;
    forall j | 0 <= j < |spec.teammates| ensures PendingOf(spec, r.st.teammates, j) == PendingOf(spec, x.st.teammates, j) {
      CountKeepsPending(spec, x.st.teammates, name, count, j);
    }
  }

  lemma RespawnRestarts(spec: TeamSpec, m: Mem, x: Mem, k: nat, now: int)
    requires k < |spec.teammates| && x.ok && Restarted(spec, m, x)
    ensures var r := Respawn(spec, x, spec.teammates[k], now).m; r.ok ==> Restarted(spec, m, r)
  {
    hide Restarted, StagedInputs, SetRestartCount, RestartCount;
    var tm := spec.teammates[k];
    if HasFailed(x.cl.pods, tm.name) && RestartCount(x.st.teammates, tm.name) < MaxRestarts(spec) {
      RespawnEffect(spec, x, tm, now);
      var r := Respawn(spec, x, tm, now).m;
      if r.ok {
        RestartKeeps(spec, m, x, tm.name, RestartCount(x.st.teammates, tm.name) + 1, StagedInputs(spec, tm.inputs), r);
      }
    }
  }

  lemma RespawnsRestart(spec: TeamSpec, m: Mem, now: int)
    requires m.ok && Roster(spec, m.st.teammates)
    ensures var c := Respawns(spec, m, |spec.teammates|, now); c.m.ok ==> Restarted(spec, m, c.m)
  {
    hide Respawn;
    var P := (k: int, x: Mem) => Restarted(spec, m, x);
    var Q := (c: Checked) => c.m.ok ==> Restarted(spec, m, c.m);
    forall k, x: Mem | 0 <= k < |spec.teammates| && x.ok && P(k, x) ensures RespawnPass(spec, now, P, Q, k, x) {
      RespawnRestarts(spec, m, x, k, now);
    }
    RespawnsRule(spec, m, |spec.teammates|, now, P, Q);
  }

  // ---- The spawn loop ----

  /** What one spawn pass does: to its own entry and pod only. */
  lemma LateSpawnPending(spec: TeamSpec, x: Mem, k: nat, now: int, j: nat)
    requires WellFormed(spec) && k < |spec.teammates| && j < |spec.teammates| && Roster(spec, x.st.teammates)
    ensures var r := LateSpawn(spec, x, spec.teammates[k], now);
      && r.cl.granted == x.cl.granted
      && (r.ok ==>
            if j != k || !Eligible(spec, x.cl.pods, k) then PendingOf(spec, r.st.teammates, j) == PendingOf(spec, x.st.teammates, j)
            else PendingOf(spec, r.st.teammates, j) == HeldAt(spec, x.cl.granted, spec.teammates[k].name))
  {
    hide EffectiveDependencies, DependenciesMet, HeldAt, StagedInputs;
    RosterIndex(spec, x.st.teammates, k);
    RosterIndex(spec, x.st.teammates, j);
    var r := LateSpawn(spec, x, spec.teammates[k], now);
    LateSpawnKeepsRoster(spec, x, k, now);
    RosterIndex(spec, r.st.teammates, j);
  }

  lemma LateSpawnPods(spec: TeamSpec, x: Mem, k: nat, now: int, j: nat)
    requires WellFormed(spec) && k < |spec.teammates| && j < |spec.teammates| && x.ok
    ensures var r := LateSpawn(spec, x, spec.teammates[k], now);
      r.ok ==> (Eligible(spec, r.cl.pods, j) <==>
                Eligible(spec, x.cl.pods, j) && (j == k ==> HeldAt(spec, x.cl.granted, spec.teammates[k].name) != ""))
    ensures var r := LateSpawn(spec, x, spec.teammates[k], now);
      r.ok ==> (spec.teammates[j].name in r.cl.pods <==>
                spec.teammates[j].name in x.cl.pods
                || (j == k && Eligible(spec, x.cl.pods, k) && HeldAt(spec, x.cl.granted, spec.teammates[k].name) == ""))
  {
    hide HeldAt, EffectiveDependencies, StagedInputs;
  }

  /** What a spawn loop makes of a teammate: an eligible one's entry names its gate, or it gets a pod; another's stays, and it gets none. */
  ghost predicate Settled(
    spec: TeamSpec, granted: set<string>, before: seq<TeammateStatus>, pods: Pods, after: seq<TeammateStatus>, later: Pods, k: int)
    requires 0 <= k < |spec.teammates|
  {
    var held := HeldAt(spec, granted, spec.teammates[k].name);
    && PendingOf(spec, after, k) == (if Eligible(spec, pods, k) then held else PendingOf(spec, before, k))
    && (Eligible(spec, later, k) <==> Eligible(spec, pods, k) && held != "")
    && (spec.teammates[k].name in later <==> spec.teammates[k].name in pods || (Eligible(spec, pods, k) && held == ""))
  }

  ghost predicate AllSettled(
    spec: TeamSpec, granted: set<string>, before: seq<TeammateStatus>, pods: Pods, after: seq<TeammateStatus>, later: Pods)
  {
    forall k :: 0 <= k < |spec.teammates| ==> Settled(spec, granted, before, pods, after, later, k)
  }

  /** An entry is stale afterwards exactly if it was before, and exact otherwise. */
  lemma SettledMeans(
    spec: TeamSpec, granted: set<string>, before: seq<TeammateStatus>, pods: Pods, after: seq<TeammateStatus>, later: Pods, k: nat)
    requires k < |spec.teammates| && Settled(spec, granted, before, pods, after, later, k)
    ensures Stale(spec, after, later, k) <==> Stale(spec, before, pods, k)
    ensures Exact(spec, after, later, granted, k) <==> !Stale(spec, before, pods, k)
  {
    hide Eligible, PendingOf, HeldAt;
  }

  /** The first k passes of a spawn loop are done. */
  ghost predicate SettledUpTo(spec: TeamSpec, m: Mem, x: Mem, k: int) {
    && Roster(spec, x.st.teammates) && x.cl.granted == m.cl.granted
    && forall j :: 0 <= j < |spec.teammates| ==>
      if j < k then Settled(spec, m.cl.granted, m.st.teammates, m.cl.pods, x.st.teammates, x.cl.pods, j)
      else PendingOf(spec, x.st.teammates, j) == PendingOf(spec, m.st.teammates, j)
           && (Eligible(spec, x.cl.pods, j) <==> Eligible(spec, m.cl.pods, j))
           && (spec.teammates[j].name in x.cl.pods <==> spec.teammates[j].name in m.cl.pods)
  }

  lemma LateSpawnSettles(spec: TeamSpec, m: Mem, x: Mem, k: nat, now: int)
    requires WellFormed(spec) && k < |spec.teammates| && x.ok && SettledUpTo(spec, m, x, k)
    ensures var r := LateSpawn(spec, x, spec.teammates[k], now); r.ok ==> SettledUpTo(spec, m, r, k + 1)
  {
    hide LateSpawn, WellFormed, Eligible, PendingOf, HeldAt;
    var r := LateSpawn(spec, x, spec.teammates[k], now);
    if r.ok {
      LateSpawnKeepsRoster(spec, x, k, now);
      LateSpawnPending(spec, x, k, now, k);
      forall j | 0 <= j < |spec.teammates|
        ensures if j < k + 1 then Settled(spec, m.cl.granted, m.st.teammates, m.cl.pods, r.st.teammates, r.cl.pods, j)
          else PendingOf(spec, r.st.teammates, j) == PendingOf(spec, m.st.teammates, j)
               && (Eligible(spec, r.cl.pods, j) <==> Eligible(spec, m.cl.pods, j))
               && (spec.teammates[j].name in r.cl.pods <==> spec.teammates[j].name in m.cl.pods)
      {
        LateSpawnPending(spec, x, k, now, j);
        LateSpawnPods(spec, x, k, now, j);
        assert j < k ==> Settled(spec, m.cl.granted, m.st.teammates, m.cl.pods, x.st.teammates, x.cl.pods, j);
      }
    }
  }

  lemma LateSpawnsSettle(spec: TeamSpec, m: Mem, now: int)
    requires WellFormed(spec) && m.ok && Roster(spec, m.st.teammates)
    ensures var y := LateSpawns(spec, m, |spec.teammates|, now);
      y.ok ==>
        && Roster(spec, y.st.teammates)
        && AllSettled(spec, m.cl.granted, m.st.teammates, m.cl.pods, y.st.teammates, y.cl.pods)
  {
    hide LateSpawn, Settled, Eligible, PendingOf, WellFormed;
    var P := (k: int, x: Mem) => SettledUpTo(spec, m, x, k);
    var Q := (x: Mem) => !x.ok;
    forall k, x: Mem | 0 <= k < |spec.teammates| && x.ok && P(k, x) ensures LateSpawnPass(spec, now, P, Q, k, x) {
      LateSpawnSettles(spec, m, x, k, now);
    }
    LateSpawnsRule(spec, m, |spec.teammates|, now, P, Q);
  }

  // ---- Initial spawning ----

  predicate DependenciesDone(spec: TeamSpec, pods: Pods, k: int)
    requires 0 <= k < |spec.teammates|
  {
    DependenciesMet(pods, EffectiveDependencies(spec, spec.teammates[k]))
  }

  /** The first k passes of the initial spawn loop are done: a held teammate's entry names its gate, whether it has a pod or not. */
  ghost predicate FirstSettled(spec: TeamSpec, m: Mem, x: Mem, k: int) {
    && DistinctEntries(x.st.teammates) && x.cl.granted == m.cl.granted
    && (forall n :: Succeeded(x.cl.pods, n) <==> Succeeded(m.cl.pods, n))
    && forall j :: 0 <= j < |spec.teammates| ==>
      var name := spec.teammates[j].name;
      var held := HeldAt(spec, m.cl.granted, name);
      var reached := j < k && DependenciesDone(spec, m.cl.pods, j);
      && PendingOf(spec, x.st.teammates, j) == (if reached then held else "")
      && (name in x.cl.pods <==> name in m.cl.pods || (reached && held == ""))
  }

  lemma FirstSpawnPending(spec: TeamSpec, x: Mem, k: nat, now: int, j: nat)
    requires WellFormed(spec) && k < |spec.teammates| && j < |spec.teammates| && DistinctEntries(x.st.teammates)
    ensures var r, held := FirstSpawn(spec, x, spec.teammates[k], now), HeldAt(spec, x.cl.granted, spec.teammates[k].name);
      PendingOf(spec, r.st.teammates, j) ==
        if j == k && DependenciesDone(spec, x.cl.pods, k) && held != "" then held else PendingOf(spec, x.st.teammates, j)
  {
    hide EffectiveDependencies, DependenciesMet, HeldAt, StagedInputs, SetPendingApproval;
    HoldKeeps(x.st.teammates, spec.teammates[k].name, HeldAt(spec, x.cl.granted, spec.teammates[k].name), spec.teammates[j].name);
  }

  lemma FirstSpawnPods(spec: TeamSpec, x: Mem, k: nat, now: int)
    requires k < |spec.teammates| && x.ok
    ensures var r, held := FirstSpawn(spec, x, spec.teammates[k], now), HeldAt(spec, x.cl.granted, spec.teammates[k].name);
      r.ok ==>
        && r.cl.granted == x.cl.granted
        && (forall n :: Succeeded(r.cl.pods, n) <==> Succeeded(x.cl.pods, n))
        && forall n :: n in r.cl.pods <==>
          n in x.cl.pods || (n == spec.teammates[k].name && DependenciesDone(spec, x.cl.pods, k) && held == "")
  {
    hide EffectiveDependencies, DependenciesMet, HeldAt, StagedInputs, SetPendingApproval;
  }

  lemma SameDone(spec: TeamSpec, a: Pods, b: Pods, k: nat)
    requires k < |spec.teammates| && forall n :: Succeeded(a, n) <==> Succeeded(b, n)
    ensures DependenciesDone(spec, a, k) <==> DependenciesDone(spec, b, k)
  {
    hide EffectiveDependencies, Succeeded;
  }

  lemma FirstSpawnSettles(spec: TeamSpec, m: Mem, x: Mem, k: nat, now: int)
    requires WellFormed(spec) && k < |spec.teammates| && x.ok && FirstSettled(spec, m, x, k)
    ensures var r := FirstSpawn(spec, x, spec.teammates[k], now); r.ok ==> FirstSettled(spec, m, r, k + 1)
  {
    hide FirstSpawn, DependenciesDone, HeldAt, PendingOf, Succeeded, DistinctEntries;
    FirstSpawnKeepsEntries(spec, x, spec.teammates[k], now, "");
    FirstSpawnPods(spec, x, k, now);
    SameDone(spec, x.cl.pods, m.cl.pods, k);
    forall j | 0 <= j < |spec.teammates|
      ensures spec.teammates[j].name == spec.teammates[k].name <==> j == k
      ensures PendingOf(spec, FirstSpawn(spec, x, spec.teammates[k], now).st.teammates, j) ==
        if j == k && DependenciesDone(spec, x.cl.pods, k) && HeldAt(spec, x.cl.granted, spec.teammates[k].name) != ""
        then HeldAt(spec, x.cl.granted, spec.teammates[k].name) else PendingOf(spec, x.st.teammates, j)
    {
      FirstSpawnPending(spec, x, k, now, j);
    }
  }

  lemma DeploySettles(spec: TeamSpec, m: Mem, now: int)
    requires WellFormed(spec) && m.ok && m.st.teammates == []
    ensures var r := Deploy(spec, m, now);
      r.ok ==> r.cl.granted == m.cl.granted && FirstSettled(spec, m, r, |spec.teammates|)
  {
    hide FirstSpawn, FirstSettled;
    var m1 := EnsureAgentPod(spec, m, LEAD, [], now);
    if m1.ok {
      NoEntriesYet(spec, m, m1);
      var P := (k: int, x: Mem) => FirstSettled(spec, m, x, k);
      var Q := (x: Mem) => !x.ok;
      forall k, x: Mem | 0 <= k < |spec.teammates| && x.ok && P(k, x) ensures FirstSpawnPass(spec, now, P, Q, k, x) {
        FirstSpawnSettles(spec, m, x, k, now);
      }
      FirstSpawnsRule(spec, m1, |spec.teammates|, now, P, Q);
      FirstIgnoresRest(spec, m, FirstSpawns(spec, m1, |spec.teammates|, now), Deploy(spec, m, now));
    }
  }

  lemma FirstIgnoresRest(spec: TeamSpec, m: Mem, x: Mem, r: Mem)
    requires r.cl == x.cl && r.st.teammates == x.st.teammates
    ensures FirstSettled(spec, m, x, |spec.teammates|) ==>
      FirstSettled(spec, m, r, |spec.teammates|) && r.cl.granted == m.cl.granted
  {
  }

  lemma NoEntriesYet(spec: TeamSpec, m: Mem, m1: Mem)
    requires WellFormed(spec) && m.st.teammates == [] && m1.st == m.st && m1.cl.granted == m.cl.granted
    requires OnlyNewPods(m.cl.pods, m1.cl.pods) && forall a :: a in m1.cl.pods && a !in m.cl.pods ==> a == LEAD
    ensures FirstSettled(spec, m, m1, 0)
  {
  }

  // ---- A Running reconcile ----

  lemma ConcludeKeepsEntries(spec: TeamSpec, y: Mem, env: Env, now: int)
    ensures var r := Conclude(spec, y, env, now);
      r.st.teammates == y.st.teammates && r.st.ready == y.st.ready && r.cl.pods == y.cl.pods && r.cl.granted == y.cl.granted
  {
    hide AnyAgentFailed, AllAgentsSucceeded;
  }

  lemma SettledFrom(
    spec: TeamSpec, granted: set<string>, entries: seq<TeammateStatus>, pods: Pods, o: Mem, x: Mem,
    after: seq<TeammateStatus>, later: Pods)
    requires SamePending(spec, entries, o.st.teammates) && o.cl.pods == pods && Restarted(spec, o, x)
    requires AllSettled(spec, granted, x.st.teammates, x.cl.pods, after, later)
    ensures AllSettled(spec, granted, entries, pods, after, later)
  {
    hide Eligible, PendingOf, HeldAt, Succeeded;
    forall k | 0 <= k < |spec.teammates| ensures Settled(spec, granted, entries, pods, after, later, k) {
      assert Settled(spec, granted, x.st.teammates, x.cl.pods, after, later, k);
      StandingDecides(spec, pods, x.cl.pods, k);
    }
  }

  lemma SuperviseSettles(spec: TeamSpec, s: System, env: Env)
    requires WellFormed(spec) && DistinctEntries(s.st.teammates)
    requires Supervise(spec, Begin(s, env), env, s.now).ok && Supervise(spec, Begin(s, env), env, s.now).st.phase == s.st.phase == Running
    ensures var r := Supervise(spec, Begin(s, env), env, s.now);
      && Roster(spec, r.st.teammates)
      && r.st.ready == ReadyCount(SyncedEntries(spec, s.st.teammates, s.cl.pods))
      && AllSettled(spec, s.cl.granted, s.st.teammates, s.cl.pods, r.st.teammates, r.cl.pods)
  {
    hide Respawns, LateSpawns, Conclude, WellFormed, DistinctEntries, AllSettled, SamePending, SameStanding, Roster,
      SyncedEntries, ReadyCount;
    var o := Observe(spec, Begin(s, env), s.now);
    Verdicts.ObserveFacts(spec, Begin(s, env), s.now);
    SyncKeepsPending(spec, s.st.teammates, s.cl.pods);
    var c := Respawns(spec, o, |spec.teammates|, s.now);
    RespawnsRestart(spec, o, s.now);
    RespawnsFrame(spec, o, s.now);
    if GoesOn(c) {
      LateSpawnsSettle(spec, c.m, s.now);
      LateSpawnsFrame(spec, c.m, s.now);
      var y := LateSpawns(spec, c.m, |spec.teammates|, s.now);
      ConcludeKeepsEntries(spec, y, env, s.now);
      SettledFrom(spec, s.cl.granted, s.st.teammates, s.cl.pods, o, c.m, y.st.teammates, y.cl.pods);
    }
  }

  // ---- Runs ----

  /** Whoever has a pending approval recorded has everything it waits for. */
  ghost predicate AllMet(spec: TeamSpec, entries: seq<TeammateStatus>, pods: Pods) {
    forall k :: 0 <= k < |spec.teammates| && PendingOf(spec, entries, k) != "" ==> DependenciesDone(spec, pods, k)
  }

  /** Nothing is recorded before Running; while the team lives whoever is pending has its dependencies. */
  ghost predicate ApprovalInv(spec: TeamSpec, s: System) {
    && (s.st.phase in [Unset, Initializing] ==> s.st.teammates == [])
    && (s.st.phase == Running && Alive(spec, s) ==> AllMet(spec, s.st.teammates, s.cl.pods))
  }

  ghost predicate MoreSucceeded(before: Pods, after: Pods) { forall n :: Succeeded(before, n) ==> Succeeded(after, n) }

  lemma MetStays(spec: TeamSpec, entries: seq<TeammateStatus>, before: Pods, after: Pods)
    requires AllMet(spec, entries, before) && MoreSucceeded(before, after)
    ensures AllMet(spec, entries, after)
  {
    hide EffectiveDependencies, PendingOf;
  }

  lemma SettledIsMet(
    spec: TeamSpec, granted: set<string>, before: seq<TeammateStatus>, pods: Pods, after: seq<TeammateStatus>, later: Pods)
    requires AllSettled(spec, granted, before, pods, after, later) && AllMet(spec, before, pods) && MoreSucceeded(pods, later)
    ensures AllMet(spec, after, later)
  {
    hide EffectiveDependencies, PendingOf, HeldAt;
    forall k | 0 <= k < |spec.teammates| && PendingOf(spec, after, k) != "" ensures DependenciesDone(spec, later, k) {
      assert Settled(spec, granted, before, pods, after, later, k);
    }
  }

  lemma FirstIsMet(spec: TeamSpec, m: Mem, r: Mem)
    requires FirstSettled(spec, m, r, |spec.teammates|)
    ensures AllMet(spec, r.st.teammates, r.cl.pods)
  {
    hide EffectiveDependencies, PendingOf, HeldAt;
  }

  lemma RunningKeeps(spec: TeamSpec, s: System, env: Env)
    requires WellFormed(spec) && ApprovalInv(spec, s) && Lifecycles.LifeInv(spec, s) && s.st.phase == Running
    ensures ApprovalInv(spec, Next(spec, s, Reconciles(env)))
  {
    hide Supervise, Halt, IsTimedOut, IsBudgetExceeded, AllMet, AllSettled, DistinctEntries, Lifecycles.OutcomeInv,
      Lifecycles.AllInTime, WellFormed, Roster;
    var m := Begin(s, env);
    var r := Outcome(spec, s, env);
    if Doomed(spec, s.st, s.now) {
      Lifecycles.HaltWrites(spec, m, env, TimedOut);
      Lifecycles.HaltWrites(spec, m.(st := m.st.(estimatedCost := EstimatedCost(spec, m.st, s.now))), env, BudgetExceeded);
    } else {
      SuperviseSpares(spec, m, env, s.now);
      if r.ok {
        Lifecycles.SuperviseWrites(spec, m, env, s.now);
        if r.st.phase == Running {
          SuperviseSettles(spec, s, env);
          SettledIsMet(spec, s.cl.granted, s.st.teammates, s.cl.pods, r.st.teammates, r.cl.pods);
        }
      } else {
        MetStays(spec, s.st.teammates, s.cl.pods, r.cl.pods);
      }
    }
  }

  lemma ReconcileKeeps(spec: TeamSpec, s: System, env: Env)
    requires WellFormed(spec) && ApprovalInv(spec, s) && Lifecycles.LifeInv(spec, s)
    ensures ApprovalInv(spec, Next(spec, s, Reconciles(env)))
  {
    hide ReconcileRunning, Deploy, TerminateAllPods, IsTimedOut, IsBudgetExceeded, AllMet, DistinctEntries, Lifecycles.OutcomeInv,
      Lifecycles.AllInTime, WellFormed, FirstSettled;
    var m := Begin(s, env);
    var r := Outcome(spec, s, env);
    if s.st.phase == Running {
      RunningKeeps(spec, s, env);
    } else if s.st.phase == Initializing {
      DeploySettles(spec, m, s.now);
      DeployFrame(spec, m, s.now);
      if Deploy(spec, m, s.now).ok {
        FirstIsMet(spec, m, Deploy(spec, m, s.now));
      }
    } else if Terminal(s.st.phase) {
      Lifecycles.TerminateWrites(spec, m, env);
    }
  }

  lemma MovesKeep(spec: TeamSpec, s: System, step: Step)
    requires ApprovalInv(spec, s) && !step.Reconciles?
    ensures ApprovalInv(spec, Next(spec, s, step))
  {
    hide IsTimedOut, IsBudgetExceeded, AllMet;
    var t := Next(spec, s, step);
    if t.st.phase == Running && Alive(spec, t) {
      if step.Tick? && Doomed(spec, s.st, s.now) {
        DoomIsForever(spec, s.st, s.now, t.now);
      }
      MetStays(spec, s.st.teammates, s.cl.pods, t.cl.pods);
    }
  }

  lemma {:induction false} RunKeeps(spec: TeamSpec, steps: seq<Step>)
    requires WellFormed(spec)
    ensures ApprovalInv(spec, Run(spec, steps))
  {
    hide Next, ApprovalInv;
    if steps == [] {
      FreshApprovals(spec);
    } else {
      var n := |steps| - 1;
      RunKeeps(spec, steps[..n]);
      Lifecycles.RunKeeps(spec, steps[..n]);
      if steps[n].Reconciles? {
        ReconcileKeeps(spec, Run(spec, steps[..n]), steps[n].env);
      } else {
        MovesKeep(spec, Run(spec, steps[..n]), steps[n]);
      }
    }
  }

  lemma FreshApprovals(spec: TeamSpec)
    ensures ApprovalInv(spec, FreshSystem)
  {
  }

  // ---- Where stale entries come from ----

  /** A pending teammate of a live team is stale exactly if it has a pod. */
  lemma StaleMeansPod(spec: TeamSpec, s: System, k: nat)
    requires ApprovalInv(spec, s) && s.st.phase == Running && Alive(spec, s) && k < |spec.teammates|
    ensures Stale(spec, s.st.teammates, s.cl.pods, k) <==>
      PendingOf(spec, s.st.teammates, k) != "" && spec.teammates[k].name in s.cl.pods
  {
    hide PendingOf, EffectiveDependencies;
  }

  lemma FirstStale(spec: TeamSpec, m: Mem, r: Mem, k: nat)
    requires FirstSettled(spec, m, r, |spec.teammates|) && k < |spec.teammates|
    ensures Stale(spec, r.st.teammates, r.cl.pods, k) <==>
      && spec.teammates[k].name in m.cl.pods && DependenciesDone(spec, m.cl.pods, k)
      && HeldAt(spec, m.cl.granted, spec.teammates[k].name) != ""
  {
    hide PendingOf, EffectiveDependencies, HeldAt;
  }

  /**
   Over every run, whatever was aborted, the exact origin of stale entries in a live Running team: a committed reconcile
   leaves stale exactly what was stale; any other step, aborted reconciles included, the pending teammates that have a pod
   by then; and the committed deployment, the teammates held at a gate whose pod an aborted one had made.
   */
  lemma StaleExactly(spec: TeamSpec, steps: seq<Step>, step: Step, k: nat)
    requires WellFormed(spec) && k < |spec.teammates|
    requires var t := Run(spec, steps + [step]); t.st.phase == Running && Alive(spec, t)
    ensures var s, t := Run(spec, steps), Run(spec, steps + [step]);
      && s.st.phase in [Initializing, Running]
      && (Stale(spec, t.st.teammates, t.cl.pods, k) <==>
          if s.st.phase == Initializing then
            && spec.teammates[k].name in s.cl.pods && DependenciesDone(spec, s.cl.pods, k)
            && HeldAt(spec, s.cl.granted, spec.teammates[k].name) != ""
          else if step.Reconciles? && t.aborts == s.aborts then Stale(spec, s.st.teammates, s.cl.pods, k)
          else PendingOf(spec, s.st.teammates, k) != "" && spec.teammates[k].name in t.cl.pods)
  {
    hide Run, ApprovalInv, Reconcile, Stale, PendingOf, DependenciesDone, HeldAt, Alive, Lifecycles.LifeInv;
    var s, t := Run(spec, steps), Run(spec, steps + [step]);
    Lifecycles.RunsOn(spec, steps, step);
    RunKeeps(spec, steps);
    RunKeeps(spec, steps + [step]);
    Lifecycles.RunKeeps(spec, steps);
    if step.Reconciles? {
      FromInitializingOrRunning(spec, s, step.env);
      if s.st.phase == Initializing {
        DeployStale(spec, s, step.env, k);
      } else if t.aborts == s.aborts {
        CommittedStale(spec, s, step.env, k);
      } else {
        StaleMeansPod(spec, t, k);
      }
    } else {
      StaleMeansPod(spec, t, k);
    }
  }

  lemma FromInitializingOrRunning(spec: TeamSpec, s: System, env: Env)
    requires Lifecycles.LifeInv(spec, s) && Next(spec, s, Reconciles(env)).st.phase == Running
    ensures s.st.phase in [Initializing, Running]
  {
    hide Supervise, Deploy, Halt, TerminateAllPods, DistinctEntries, Lifecycles.OutcomeInv, Lifecycles.AllInTime;
    if Terminal(s.st.phase) {
      Lifecycles.TerminateWrites(spec, Begin(s, env), env);
    }
  }

  lemma DeployStale(spec: TeamSpec, s: System, env: Env, k: nat)
    requires WellFormed(spec) && ApprovalInv(spec, s) && s.st.phase == Initializing && k < |spec.teammates|
    requires Next(spec, s, Reconciles(env)).st.phase == Running
    ensures var t := Next(spec, s, Reconciles(env));
      Stale(spec, t.st.teammates, t.cl.pods, k) <==>
        && spec.teammates[k].name in s.cl.pods && DependenciesDone(spec, s.cl.pods, k)
        && HeldAt(spec, s.cl.granted, spec.teammates[k].name) != ""
  {
    hide Deploy, FirstSettled, Stale, DependenciesDone, HeldAt, IsTimedOut, AllMet, WellFormed;
    var m := Begin(s, env);
    DeploySettles(spec, m, s.now);
    FirstStale(spec, m, Deploy(spec, m, s.now), k);
  }

  lemma CommittedSettles(spec: TeamSpec, s: System, env: Env)
    requires WellFormed(spec) && Lifecycles.LifeInv(spec, s) && s.st.phase == Running
    requires var t := Next(spec, s, Reconciles(env)); t.st.phase == Running && t.aborts == s.aborts
    ensures var t := Next(spec, s, Reconciles(env));
      && Roster(spec, t.st.teammates)
      && t.st.ready == ReadyCount(SyncedEntries(spec, s.st.teammates, s.cl.pods))
      && AllSettled(spec, s.cl.granted, s.st.teammates, s.cl.pods, t.st.teammates, t.cl.pods)
  {
    hide Supervise, Halt, IsTimedOut, IsBudgetExceeded, AllSettled, DistinctEntries, WellFormed, Roster, ReadyCount, SyncedEntries,
      Lifecycles.OutcomeInv, Lifecycles.AllInTime, Lifecycles.PhaseInv;
    var m := Begin(s, env);
    Lifecycles.HaltWrites(spec, m, env, TimedOut);
    Lifecycles.HaltWrites(spec, m.(st := m.st.(estimatedCost := EstimatedCost(spec, m.st, s.now))), env, BudgetExceeded);
    SuperviseSettles(spec, s, env);
  }

  lemma CommittedStale(spec: TeamSpec, s: System, env: Env, k: nat)
    requires WellFormed(spec) && Lifecycles.LifeInv(spec, s) && s.st.phase == Running && k < |spec.teammates|
    requires var t := Next(spec, s, Reconciles(env)); t.st.phase == Running && t.aborts == s.aborts
    ensures var t := Next(spec, s, Reconciles(env));
      Stale(spec, t.st.teammates, t.cl.pods, k) <==> Stale(spec, s.st.teammates, s.cl.pods, k)
  {
    hide Next, Settled, Stale, Lifecycles.LifeInv, WellFormed;
    var t := Next(spec, s, Reconciles(env));
    CommittedSettles(spec, s, env);
    SettledMeans(spec, s.cl.granted, s.st.teammates, s.cl.pods, t.st.teammates, t.cl.pods, k);
  }

  // ---- Ready ----

  function SeenReady(spec: TeamSpec, pods: Pods): set<int> {
    set k | 0 <= k < |spec.teammates| && spec.teammates[k].name in pods
            && (pods[spec.teammates[k].name].phase.PodRunning? || pods[spec.teammates[k].name].phase.PodSucceeded?)
  }

  lemma {:induction false} ReadyIsCount(entries: seq<TeammateStatus>)
    ensures ReadyCount(entries) == |set k | 0 <= k < |entries| && CountsAsReady(entries[k])|
  {
    if entries != [] {
      var n := |entries| - 1;
      ReadyIsCount(entries[..n]);
      var before := set k | 0 <= k < n && CountsAsReady(entries[..n][k]);
      var all := set k | 0 <= k < |entries| && CountsAsReady(entries[k]);
      forall k ensures k in all <==> k in before || (k == n && CountsAsReady(entries[n])) {
        assert 0 <= k < n ==> entries[..n][k] == entries[k];
      }
      assert all == before + (if CountsAsReady(entries[n]) then {n} else {});
    }
  }

  lemma ReadyAsSeen(spec: TeamSpec, entries: seq<TeammateStatus>, pods: Pods)
    ensures ReadyCount(SyncedEntries(spec, entries, pods)) == |SeenReady(spec, pods)|
  {
    var synced := SyncedEntries(spec, entries, pods);
    ReadyIsCount(synced);
    var all := set k | 0 <= k < |synced| && CountsAsReady(synced[k]);
    forall k | 0 <= k < |spec.teammates| ensures k in all <==> k in SeenReady(spec, pods) {
    }
    assert all == SeenReady(spec, pods);
  }

  /** What a committed Running reconcile from s to t makes of a teammate's entry. */
  ghost predicate Booked(spec: TeamSpec, s: System, t: System, k: int)
    requires 0 <= k < |spec.teammates|
  {
    && PendingOf(spec, t.st.teammates, k) == (if Eligible(spec, s.cl.pods, k) then HeldAt(spec, s.cl.granted, spec.teammates[k].name)
                                              else PendingOf(spec, s.st.teammates, k))
    && (Exact(spec, t.st.teammates, t.cl.pods, s.cl.granted, k) <==> !Stale(spec, s.st.teammates, s.cl.pods, k))
    && (Stale(spec, t.st.teammates, t.cl.pods, k) <==> Stale(spec, s.st.teammates, s.cl.pods, k))
  }

  /**
   Over every run, whatever was aborted before, after each committed Running reconcile that leaves the team Running: the
   entries are the declared teammates in order; ready counts those the sync saw Running or Succeeded; the pending approval
   of a teammate that had no pod and everything it waits for names the gate it is held at, if any, and any other's is what
   it was; so an entry is exact unless it was stale before, and stale exactly if it was.
   */
  lemma ApprovalsUpdated(spec: TeamSpec, steps: seq<Step>, env: Env)
    requires WellFormed(spec) && Run(spec, steps).st.phase == Running
    requires var t := Run(spec, steps + [Reconciles(env)]); t.st.phase == Running && t.aborts == Run(spec, steps).aborts
    ensures var s, t := Run(spec, steps), Run(spec, steps + [Reconciles(env)]);
      && Roster(spec, t.st.teammates)
      && t.st.ready == |SeenReady(spec, s.cl.pods)|
      && forall k :: 0 <= k < |spec.teammates| ==> Booked(spec, s, t, k)
  {
    hide Run, Next, Exact, Stale, Eligible, PendingOf, HeldAt, Lifecycles.LifeInv, WellFormed;
    var s, t := Run(spec, steps), Run(spec, steps + [Reconciles(env)]);
    Lifecycles.RunsOn(spec, steps, Reconciles(env));
    Lifecycles.RunKeeps(spec, steps);
    CommittedSettles(spec, s, env);
    ReadyAsSeen(spec, s.st.teammates, s.cl.pods);
    forall k | 0 <= k < |spec.teammates| ensures Booked(spec, s, t, k) {
      assert Settled(spec, s.cl.granted, s.st.teammates, s.cl.pods, t.st.teammates, t.cl.pods, k);
      SettledMeans(spec, s.cl.granted, s.st.teammates, s.cl.pods, t.st.teammates, t.cl.pods, k);
    }
  }

  /** In a run without aborts there are no pods before Running and, while the team lives, no stale entries. */
  ghost predicate Unaborted(spec: TeamSpec, s: System) {
    && (s.st.phase in [Unset, Initializing] ==> s.cl.pods == map[])
    && (s.st.phase == Running && Alive(spec, s) ==> NoneStale(spec, s.st.teammates, s.cl.pods))
  }

  lemma EarlyPodsKept(spec: TeamSpec, s: System, step: Step)
    requires s.st.phase in [Unset, Initializing] && s.cl.pods == map[]
    requires var t := Next(spec, s, step); t.st.phase in [Unset, Initializing] && t.aborts == s.aborts
    ensures Next(spec, s, step).cl.pods == map[]
  {
    hide Deploy, IsTimedOut;
    if step.Reconciles? {
      DeployFrame(spec, Begin(s, step.env), s.now);
    }
  }

  lemma LiveBefore(spec: TeamSpec, s: System, step: Step)
    requires WellFormed(spec) && Lifecycles.LifeInv(spec, s) && s.st.phase == Running
    requires var t := Next(spec, s, step); t.st.phase == Running && Alive(spec, t) && t.aborts == s.aborts
    ensures Alive(spec, s)
    ensures !step.Reconciles? ==> forall n :: n in Next(spec, s, step).cl.pods <==> n in s.cl.pods
  {
    hide Supervise, Halt, IsTimedOut, IsBudgetExceeded, DistinctEntries, Lifecycles.OutcomeInv, Lifecycles.AllInTime;
    if step.Reconciles? {
      CommittedWasAlive(spec, s, step.env);
    } else if step.Tick? && Doomed(spec, s.st, s.now) {
      DoomIsForever(spec, s.st, s.now, s.now + step.elapsed);
    }
  }

  lemma StepStaysUnstale(spec: TeamSpec, steps: seq<Step>, step: Step)
    requires WellFormed(spec) && Unaborted(spec, Run(spec, steps))
    requires var t := Run(spec, steps + [step]); t.st.phase == Running && Alive(spec, t) && t.aborts == Run(spec, steps).aborts
    ensures NoneStale(spec, Run(spec, steps + [step]).st.teammates, Run(spec, steps + [step]).cl.pods)
  {
    hide Run, Next, Stale, PendingOf, DependenciesDone, HeldAt, Alive, WellFormed, Lifecycles.LifeInv, ApprovalInv;
    var s, t := Run(spec, steps), Run(spec, steps + [step]);
    Lifecycles.RunsOn(spec, steps, step);
    RunKeeps(spec, steps);
    Lifecycles.RunKeeps(spec, steps);
    forall k | 0 <= k < |spec.teammates| ensures !Stale(spec, t.st.teammates, t.cl.pods, k) {
      StaleExactly(spec, steps, step, k);
      if s.st.phase == Running {
        LiveBefore(spec, s, step);
        StaleMeansPod(spec, s, k);
      }
    }
  }

  lemma {:induction false} UnabortedRuns(spec: TeamSpec, steps: seq<Step>)
    requires WellFormed(spec) && Run(spec, steps).aborts == 0
    ensures Unaborted(spec, Run(spec, steps))
  {
    hide Next, NoneStale, Alive, Lifecycles.LifeInv, WellFormed;
    if steps != [] {
      var front, step := steps[..|steps| - 1], steps[|steps| - 1];
      var s, t := Run(spec, front), Run(spec, steps);
      assert steps == front + [step];
      AbortsGrow(spec, s, step);
      UnabortedRuns(spec, front);
      Lifecycles.RunIsLive(spec, front);
      Lifecycles.PhaseStep(spec, s, step);
      if t.st.phase in [Unset, Initializing] {
        EarlyPodsKept(spec, s, step);
      } else if t.st.phase == Running && Alive(spec, t) {
        StepStaysUnstale(spec, front, step);
      }
    }
  }

  lemma AbortsGrow(spec: TeamSpec, s: System, step: Step)
    ensures s.aborts <= Next(spec, s, step).aborts
  {
    hide Reconcile;
  }

  /**
   In a run without aborts no entry is ever stale, so after each Running reconcile that leaves the team Running an entry's
   pending approval names the gate the teammate is held at exactly when it has no pod and all it waits for has
   Succeeded, and is empty otherwise.
   */
  lemma ApprovalsAreExact(spec: TeamSpec, steps: seq<Step>, env: Env)
    requires WellFormed(spec) && Run(spec, steps).st.phase == Running
    requires Run(spec, steps + [Reconciles(env)]).st.phase == Running && Run(spec, steps + [Reconciles(env)]).aborts == 0
    ensures var s, t := Run(spec, steps), Run(spec, steps + [Reconciles(env)]);
      && Roster(spec, t.st.teammates)
      && (forall k :: 0 <= k < |spec.teammates| ==> Exact(spec, t.st.teammates, t.cl.pods, s.cl.granted, k))
      && t.st.ready == |SeenReady(spec, s.cl.pods)|
  {
    hide Run, Next, Exact, Stale, Alive, WellFormed, Lifecycles.LifeInv, Eligible, PendingOf;
    var s, t := Run(spec, steps), Run(spec, steps + [Reconciles(env)]);
    Lifecycles.RunsOn(spec, steps, Reconciles(env));
    AbortsGrow(spec, s, Reconciles(env));
    Lifecycles.RunKeeps(spec, steps);
    UnabortedRuns(spec, steps);
    ApprovalsUpdated(spec, steps, env);
    CommittedWasAlive(spec, s, env);
    forall k | 0 <= k < |spec.teammates| ensures Exact(spec, t.st.teammates, t.cl.pods, s.cl.granted, k) {
      assert Booked(spec, s, t, k) && !Stale(spec, s.st.teammates, s.cl.pods, k);
    }
  }

  lemma CommittedWasAlive(spec: TeamSpec, s: System, env: Env)
    requires WellFormed(spec) && Lifecycles.LifeInv(spec, s) && s.st.phase == Running
    requires var t := Next(spec, s, Reconciles(env)); t.st.phase == Running && t.aborts == s.aborts
    ensures Alive(spec, s)
  {
    hide Supervise, Halt, IsTimedOut, IsBudgetExceeded, DistinctEntries, Lifecycles.OutcomeInv, Lifecycles.AllInTime;
    var m := Begin(s, env);
    Lifecycles.HaltWrites(spec, m, env, TimedOut);
    Lifecycles.HaltWrites(spec, m.(st := m.st.(estimatedCost := EstimatedCost(spec, m.st, s.now))), env, BudgetExceeded);
  }
}
