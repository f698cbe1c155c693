/** Which teams can finish: a team gets stuck exactly when some teammates wait only on each other or on undeclared names. */
module Progress {
  import opened Options
  import opened TeamSpecs
  import opened TeamStatuses
  import opened TeamReconcile
  import opened TeamRuns
  import opened LoopRules
  import opened Rosters
  import opened Frames
  import opened Verdicts
  import opened Intactness
  import opened DS = DependencySafety
  import Lifecycles

  /** Teammates each of which waits for another of them or for a name that is no agent. */
  ghost predicate Blocked(spec: TeamSpec, names: set<string>) {
    && names != {}
    && (forall a :: a in names ==> Declared(spec, a))
    && (forall a :: a in names ==> exists d :: WaitsFor(spec, a, d) && (d in names || !IsAgent(spec, d)))
  }

  ghost predicate NothingBlocked(spec: TeamSpec) { forall names :: !Blocked(spec, names) }

  // ---- Blocked teammates never start ----

  lemma {:induction false} BlockedHasNoBirth(spec: TeamSpec, cl: Cluster, names: set<string>, i: nat)
    requires ClusterInv(spec, cl) && Blocked(spec, names) && i < |cl.births|
    ensures cl.births[i].agent !in names
  {
    assert HistoryOk(spec, cl, i);
    var a := cl.births[i].agent;
    if a in names {
      var d :| WaitsFor(spec, a, d) && (d in names || !IsAgent(spec, d));
      var j :| 0 <= j < i && cl.births[j].agent == d;
      assert HistoryOk(spec, cl, j);
      BlockedHasNoBirth(spec, cl, names, j);
    }
  }

  /** Over every run: a blocked teammate never gets a pod, and its team never completes. */
  lemma BlockedNeverCompletes(spec: TeamSpec, steps: seq<Step>, names: set<string>, a: string)
    requires WellFormed(spec) && Blocked(spec, names) && a in names
    ensures var s := Run(spec, steps);
      && (forall i :: 0 <= i < |s.cl.births| ==> s.cl.births[i].agent != a)
      && a !in s.cl.pods
      && s.st.phase != Completed
  {
    var s := Run(spec, steps);
    DS.RunKeeps(spec, steps);
    Lifecycles.CompletedIsSound(spec, steps);
    forall i | 0 <= i < |s.cl.births| ensures s.cl.births[i].agent != a {
      BlockedHasNoBirth(spec, s.cl, names, i);
    }
    assert IsAgent(spec, a);
  }

  /** The agents of a path all but its last. */
  ghost function Walked(path: seq<string>): set<string>
    requires path != []
  {
    set k | 0 <= k < |path| - 1 :: path[k]
  }

  /** A dependency path that comes back to itself, or ends at an undeclared name, blocks everything on it. */
  lemma DeadEndBlocks(spec: TeamSpec, path: seq<string>)
    requires |path| >= 2 && DependencyPath(spec, path)
    requires path[|path| - 1] in Walked(path) || !IsAgent(spec, path[|path| - 1])
    ensures Blocked(spec, Walked(path))
  {
    assert path[0] in Walked(path);
    forall a | a in Walked(path)
      ensures Declared(spec, a) && exists d :: WaitsFor(spec, a, d) && (d in Walked(path) || !IsAgent(spec, d))
    {
      var k :| 0 <= k < |path| - 1 && path[k] == a;
      assert WaitsFor(spec, path[k], path[k + 1]);
    }
  }

  lemma ExtendPath(spec: TeamSpec, path: seq<string>, d: string)
    requires path != [] && DependencyPath(spec, path) && WaitsFor(spec, path[|path| - 1], d)
    ensures DependencyPath(spec, path + [d])
    ensures d in path ==> d in Walked(path + [d])
    ensures d !in path && NoRepeats(path) ==> NoRepeats(path + [d])
  {
    var longer := path + [d];
    forall k | 0 <= k < |longer| - 1 ensures WaitsFor(spec, longer[k], longer[k + 1]) {
      assert k < |path| - 1 ==> WaitsFor(spec, path[k], path[k + 1]);
    }
    if d in path {
      var k :| 0 <= k < |path| && path[k] == d;
      assert longer[k] in Walked(longer);
    }
  }

  lemma NextHop(spec: TeamSpec, names: set<string>, a: string) returns (d: string)
    requires Blocked(spec, names) && a in names
    ensures WaitsFor(spec, a, d) && (d in names || !IsAgent(spec, d))
  {
    hide WaitsFor, IsAgent, Declared;
    d :| WaitsFor(spec, a, d) && (d in names || !IsAgent(spec, d));
  }

  /** Conversely, from any blocked teammate such a path starts: following the waits cannot go on without repeating. */
  lemma BlockedHasDeadEnd(spec: TeamSpec, names: set<string>, path: seq<string>) returns (longer: seq<string>)
    requires Blocked(spec, names) && path != [] && DependencyPath(spec, path)
    requires (forall a :: a in path ==> a in names) && NoRepeats(path)
    ensures |longer| >= 2 && DependencyPath(spec, longer) && longer[0] == path[0]
    ensures longer[|longer| - 1] in Walked(longer) || !IsAgent(spec, longer[|longer| - 1])
    decreases |names| - |path|
  {
    hide Blocked, WaitsFor, IsAgent, Declared, DependencyPath, NoRepeats, Walked;
    var d := NextHop(spec, names, path[|path| - 1]);
    longer := path + [d];
    ExtendPath(spec, path, d);
    if d !in path && IsAgent(spec, d) {
      RepeatFreeFits(longer, names);
      longer := BlockedHasDeadEnd(spec, names, longer);
    }
  }

  lemma {:induction false} RepeatFreeFits(path: seq<string>, names: set<string>)
    requires NoRepeats(path) && forall a :: a in path ==> a in names
    ensures |path| <= |names|
  {
    if path != [] {
      var n := |path| - 1;
      RepeatFreeFits(path[..n], names - {path[n]});
    }
  }

  /** Dependencies that name only agents and strictly descend in some ranking block nobody. */
  lemma RankedIsUnblocked(spec: TeamSpec, rank: string -> nat)
    requires forall a, d :: WaitsFor(spec, a, d) ==> IsAgent(spec, d) && (d == LEAD || rank(d) < rank(a))
    requires WellFormed(spec)
    ensures NothingBlocked(spec)
  {
    forall names ensures !Blocked(spec, names) {
      if Blocked(spec, names) {
        var a :| a in names;
        Descend(spec, rank, names, a);
      }
    }
  }

  lemma Descend(spec: TeamSpec, rank: string -> nat, names: set<string>, a: string)
    requires forall a, d :: WaitsFor(spec, a, d) ==> IsAgent(spec, d) && (d == LEAD || rank(d) < rank(a))
    requires WellFormed(spec) && Blocked(spec, names) && a in names
    ensures false
    decreases rank(a)
  {
    var d :| WaitsFor(spec, a, d) && (d in names || !IsAgent(spec, d));
    assert Declared(spec, d);
    Descend(spec, rank, names, d);
  }

  // ---- Otherwise every round makes progress ----

  ghost function Missing(spec: TeamSpec, pods: Pods): set<string> {
    set k | 0 <= k < |spec.teammates| && spec.teammates[k].name !in pods :: spec.teammates[k].name
  }

  /** A Running team with all gates open, all its pods Succeeded, and the lead among them. */
  ghost predicate Calm(spec: TeamSpec, s: System) {
    && s.st.phase == Running
    && DistinctEntries(s.st.teammates)
    && (forall a :: a in s.cl.pods ==> Succeeded(s.cl.pods, a))
    && LEAD in s.cl.pods
    && (forall k :: 0 <= k < |spec.teammates| ==> GatesOpen(spec, s.cl.granted, spec.teammates[k].name))
  }

  /** Such a team within deadline and budget. */
  ghost predicate Quiet(spec: TeamSpec, s: System) { Calm(spec, s) && !Doomed(spec, s.st, s.now) }

  /** If teammates are missing and nothing is blocked, one of them has everything it waits for. */
  lemma SomeoneIsReady(spec: TeamSpec, pods: Pods) returns (k: nat)
    requires WellFormed(spec) && NothingBlocked(spec) && Missing(spec, pods) != {}
    requires LEAD in pods && forall a :: a in pods ==> Succeeded(pods, a)
    ensures k < |spec.teammates| && spec.teammates[k].name !in pods
    ensures DependenciesMet(pods, EffectiveDependencies(spec, spec.teammates[k]))
  {
    hide WaitsFor, EffectiveDependencies;
    var missing := Missing(spec, pods);
    assert !Blocked(spec, missing);
    var a :| a in missing && !exists d :: WaitsFor(spec, a, d) && (d in missing || !IsAgent(spec, d));
    k :| 0 <= k < |spec.teammates| && spec.teammates[k].name == a && a !in pods;
    forall d | d in EffectiveDependencies(spec, spec.teammates[k]) ensures Succeeded(pods, d) {
      WaitsForDependencies(spec, k, d);
      NotMissing(spec, pods, d);
    }
  }

  lemma NotMissing(spec: TeamSpec, pods: Pods, d: string)
    requires LEAD in pods && (forall a :: a in pods ==> Succeeded(pods, a)) && IsAgent(spec, d) && d !in Missing(spec, pods)
    ensures Succeeded(pods, d)
  {
  }

  lemma NothingToRestart(spec: TeamSpec, m: Mem, n: nat, now: int)
    requires n <= |spec.teammates| && m.ok && forall a :: a in m.cl.pods ==> Succeeded(m.cl.pods, a)
    ensures Respawns(spec, m, n, now) == Checked(m, "")
  {
  }

  /** A spawn pass over quiet pods: no error while writes last, new pods only, and teammate r once its turn has come. */
  ghost predicate Spawning(spec: TeamSpec, m: Mem, r: nat, x: Mem, k: int)
    requires r < |spec.teammates|
  {
    && OnlyNewPods(m.cl.pods, x.cl.pods)
    && x.cl.granted == m.cl.granted
    && (forall a :: a in x.cl.pods && a !in m.cl.pods ==> Declared(spec, a))
    && x.fuel + k >= m.fuel
    && (k > r ==> spec.teammates[r].name in x.cl.pods)
  }

  lemma LateSpawnSpawns(spec: TeamSpec, m: Mem, r: nat, x: Mem, k: nat, now: int)
    requires WellFormed(spec) && k < |spec.teammates| && r < |spec.teammates| && x.ok && m.fuel > |spec.teammates|
    requires Spawning(spec, m, r, x, k)
    requires DependenciesMet(m.cl.pods, EffectiveDependencies(spec, spec.teammates[r]))
    requires GatesOpen(spec, m.cl.granted, spec.teammates[r].name)
    ensures LateSpawn(spec, x, spec.teammates[k], now).ok
    ensures Spawning(spec, m, r, LateSpawn(spec, x, spec.teammates[k], now), k + 1)
  {
    HeldAtMeansClosed(spec, m.cl.granted, spec.teammates[r].name);
    assert Declared(spec, spec.teammates[k].name);
    if k == r {
      assert DependenciesMet(x.cl.pods, EffectiveDependencies(spec, spec.teammates[r]));
    }
  }

  lemma LateSpawnsSpawn(spec: TeamSpec, m: Mem, r: nat, now: int)
    requires WellFormed(spec) && r < |spec.teammates| && m.ok && m.fuel > |spec.teammates|
    requires DependenciesMet(m.cl.pods, EffectiveDependencies(spec, spec.teammates[r]))
    requires GatesOpen(spec, m.cl.granted, spec.teammates[r].name)
    ensures var y := LateSpawns(spec, m, |spec.teammates|, now); y.ok && Spawning(spec, m, r, y, |spec.teammates|)
  {
    hide LateSpawn, DependenciesMet, GatesOpen, WellFormed, EffectiveDependencies;
    var P := (k: int, x: Mem) => Spawning(spec, m, r, x, k);
    var Q := (x: Mem) => false;
    forall k, x: Mem | 0 <= k < |spec.teammates| && x.ok && P(k, x) ensures LateSpawnPass(spec, now, P, Q, k, x) {
      LateSpawnSpawns(spec, m, r, x, k, now);
    }
    LateSpawnsRule(spec, m, |spec.teammates|, now, P, Q);
  }

  lemma NobodyMissing(spec: TeamSpec, s: System)
    requires Calm(spec, s) && Missing(spec, s.cl.pods) == {}
    ensures AllAgentsSucceeded(spec, s.cl.pods)
  {
    forall i | 0 <= i < |spec.teammates| ensures Succeeded(s.cl.pods, spec.teammates[i].name) {
      assert spec.teammates[i].name !in Missing(spec, s.cl.pods);
    }
  }

  /**
   From a reachable quiet state in which nothing is blocked, either every agent has Succeeded or the next reconcile
   (with writes to spare) stays Running and creates at least one missing teammate's pod.
   */
  lemma RoundSpawns(spec: TeamSpec, s: System, env: Env)
    requires WellFormed(spec) && NothingBlocked(spec) && Quiet(spec, s) && env.fuel > |spec.teammates| + 1
    requires !AllAgentsSucceeded(spec, s.cl.pods)
    ensures var t := Next(spec, s, Reconciles(env));
      && t.st.phase == Running && t.st.startedAt == s.st.startedAt && t.aborts == s.aborts && t.now == s.now
      && DistinctEntries(t.st.teammates)
      && t.cl.granted == s.cl.granted && t.cl.pushJob == s.cl.pushJob
      && OnlyNewPods(s.cl.pods, t.cl.pods)
      && (forall a :: a in t.cl.pods && a !in s.cl.pods ==> Declared(spec, a))
      && Missing(spec, t.cl.pods) < Missing(spec, s.cl.pods)
  {
    hide Observe, Respawns, LateSpawns, AnyAgentFailed, AllAgentsSucceeded, DistinctEntries, Roster, IsTimedOut,
      IsBudgetExceeded, ShouldFail, ShouldComplete, GatesOpen, DependenciesMet, NothingBlocked, WellFormed;
    var m := Begin(s, env);
    var o := Observe(spec, m, s.now);
    ObserveFacts(spec, m, s.now);
    NothingToRestart(spec, o, |spec.teammates|, s.now);
    if Missing(spec, s.cl.pods) == {} {
      NobodyMissing(spec, s);
    }
    var r := SomeoneIsReady(spec, s.cl.pods);
    LateSpawnsSpawn(spec, o, r, s.now);
    LateSpawnsFrame(spec, o, s.now);
    LateSpawnsKeepRoster(spec, o, s.now);
    var y := LateSpawns(spec, o, |spec.teammates|, s.now);
    NotConcluding(spec, s.cl.pods, y.cl.pods);
    RosterIsDistinct(spec, y.st.teammates);
    MissingShrinks(spec, s.cl.pods, y.cl.pods, r);
  }

  lemma LateSpawnsKeepRoster(spec: TeamSpec, m: Mem, now: int)
    requires WellFormed(spec) && m.ok && Roster(spec, m.st.teammates)
    ensures Roster(spec, LateSpawns(spec, m, |spec.teammates|, now).st.teammates)
  {
    hide LateSpawn;
    var P := (k: int, x: Mem) => Roster(spec, x.st.teammates);
    var Q := (x: Mem) => Roster(spec, x.st.teammates);
    forall k, x: Mem | 0 <= k < |spec.teammates| && x.ok && P(k, x) ensures LateSpawnPass(spec, now, P, Q, k, x) {
      LateSpawnKeepsRoster(spec, x, k, now);
    }
    LateSpawnsRule(spec, m, |spec.teammates|, now, P, Q);
  }

  lemma NotConcluding(spec: TeamSpec, before: Pods, after: Pods)
    requires OnlyNewPods(before, after) && (forall a :: a in before ==> Succeeded(before, a)) && !AllAgentsSucceeded(spec, before)
    ensures !AnyAgentFailed(spec, after) && !AllAgentsSucceeded(spec, after)
  {
  }

  lemma MissingShrinks(spec: TeamSpec, before: Pods, after: Pods, r: nat)
    requires r < |spec.teammates| && OnlyNewPods(before, after)
    requires spec.teammates[r].name !in before && spec.teammates[r].name in after
    ensures Missing(spec, after) < Missing(spec, before)
  {
    assert spec.teammates[r].name in Missing(spec, before);
    assert spec.teammates[r].name !in Missing(spec, after);
  }

  // ---- Rounds ----

  function Successes(names: seq<string>): (steps: seq<Step>)
    ensures |steps| == |names| && forall i :: 0 <= i < |names| ==> steps[i] == PodMoves(names[i], PodSucceeded)
  {
    seq(|names|, i requires 0 <= i < |names| => PodMoves(names[i], PodSucceeded))
  }

  /** Some time passes, a reconcile comes in its environment, more time passes, and every pod still going Succeeds. */
  datatype Lap = Lap(rest: nat, env: Env, work: nat)

  function LapSteps(spec: TeamSpec, lap: Lap): seq<Step> {
    [Tick(lap.rest), Reconciles(lap.env), Tick(lap.work)] + Successes(AgentNames(spec))
  }

  function LapsSteps(spec: TeamSpec, laps: seq<Lap>): seq<Step> {
    if laps == [] then [] else LapSteps(spec, laps[0]) + LapsSteps(spec, laps[1..])
  }

  function Elapsed(laps: seq<Lap>): nat {
    if laps == [] then 0 else laps[0].rest + laps[0].work + Elapsed(laps[1..])
  }

  /** The team is within deadline and budget at each reconcile of the laps. */
  ghost predicate WithinLimits(spec: TeamSpec, st: Status, now: int, laps: seq<Lap>)
    decreases |laps|
  {
    laps == [] ||
    (!Doomed(spec, st, now + laps[0].rest) && WithinLimits(spec, st, now + laps[0].rest + laps[0].work, laps[1..]))
  }

  /** Each reconcile has writes to spare, and where a branch is pushed its name renders and no Job call fails. */
  ghost predicate Equipped(spec: TeamSpec, env: Env) {
    env.fuel > |spec.teammates| + 1 && (Lifecycles.PushesOnComplete(spec) ==> env.branch.Some? && env.jobFault.NoFault?)
  }

  ghost predicate AllEquipped(spec: TeamSpec, laps: seq<Lap>) {
    forall i :: 0 <= i < |laps| ==> Equipped(spec, laps[i].env)
  }

  /** Running further steps from a given state. */
  function RunFrom(spec: TeamSpec, s: System, steps: seq<Step>): System {
    if steps == [] then s else Next(spec, RunFrom(spec, s, steps[..|steps| - 1]), steps[|steps| - 1])
  }

  lemma {:induction false} RunSplits(spec: TeamSpec, steps: seq<Step>, more: seq<Step>)
    ensures Run(spec, steps + more) == RunFrom(spec, Run(spec, steps), more)
  {
    if more == [] {
      assert steps + more == steps;
    } else {
      RunSplits(spec, steps, more[..|more| - 1]);
      assert (steps + more)[..|steps + more| - 1] == steps + more[..|more| - 1];
    }
  }

  lemma {:induction false} RunFromSplits(spec: TeamSpec, s: System, a: seq<Step>, b: seq<Step>)
    ensures RunFrom(spec, s, a + b) == RunFrom(spec, RunFrom(spec, s, a), b)
  {
    if b == [] {
      assert a + b == a;
    } else {
      RunFromSplits(spec, s, a, b[..|b| - 1]);
      assert (a + b)[..|a + b| - 1] == a + b[..|b| - 1];
    }
  }

  /** The named pods that exist Succeed unless they Failed; nothing else changes. */
  lemma {:induction false} SuccessesSucceed(spec: TeamSpec, s: System, names: seq<string>)
    ensures var t := RunFrom(spec, s, Successes(names));
      && t.st == s.st && t.now == s.now && t.aborts == s.aborts && t.cl.granted == s.cl.granted && t.cl.pushJob == s.cl.pushJob
      && t.cl.pods.Keys == s.cl.pods.Keys
      && forall a :: a in s.cl.pods ==>
        if !Finished(s.cl.pods[a].phase) && a in names then t.cl.pods[a].phase == PodSucceeded
        else t.cl.pods[a].phase == s.cl.pods[a].phase
  {
    if names != [] {
      var n := |names| - 1;
      SuccessesSucceed(spec, s, names[..n]);
      assert Successes(names)[..n] == Successes(names[..n]);
      assert names == names[..n] + [names[n]];
    }
  }

  lemma AgentsAreNamed(spec: TeamSpec, a: string)
    requires Declared(spec, a)
    ensures a in AgentNames(spec)
  {
  }

  lemma LapUnfolds(spec: TeamSpec, s: System, lap: Lap)
    ensures var u := Next(spec, s.(now := s.now + lap.rest), Reconciles(lap.env));
      RunFrom(spec, s, LapSteps(spec, lap)) == RunFrom(spec, u.(now := u.now + lap.work), Successes(AgentNames(spec)))
  {
    hide Successes, Reconcile;
    var first := [Tick(lap.rest), Reconciles(lap.env), Tick(lap.work)];
    var s1 := s.(now := s.now + lap.rest);
    assert first[..2][..1] == first[..1] && first[..1][..0] == [];
    assert RunFrom(spec, s, first[..1]) == s1;
    assert RunFrom(spec, s, first[..2]) == Next(spec, s1, Reconciles(lap.env));
    RunFromSplits(spec, s, first, Successes(AgentNames(spec)));
  }

  /** The end of a lap: time passes and the pods still going Succeed, which leaves the team calm. */
  lemma LapEnds(spec: TeamSpec, u: System, work: nat)
    requires u.st.phase == Running && DistinctEntries(u.st.teammates) && LEAD in u.cl.pods
    requires forall k :: 0 <= k < |spec.teammates| ==> GatesOpen(spec, u.cl.granted, spec.teammates[k].name)
    requires forall a :: a in u.cl.pods ==> Succeeded(u.cl.pods, a) || (a in AgentNames(spec) && u.cl.pods[a].phase.PodPending?)
    ensures var t := RunFrom(spec, u.(now := u.now + work), Successes(AgentNames(spec)));
      && Calm(spec, t) && t.st == u.st && t.now == u.now + work && t.cl.pushJob == u.cl.pushJob
      && Missing(spec, t.cl.pods) == Missing(spec, u.cl.pods)
      && (AllAgentsSucceeded(spec, u.cl.pods) ==> AllAgentsSucceeded(spec, t.cl.pods))
  {
    hide GatesOpen, Successes, AgentNames, DistinctEntries, RunFrom;
    SuccessesSucceed(spec, u.(now := u.now + work), AgentNames(spec));
    SameMissing(spec, RunFrom(spec, u.(now := u.now + work), Successes(AgentNames(spec))).cl.pods, u.cl.pods);
  }

  lemma LapAdvances(spec: TeamSpec, s: System, lap: Lap)
    requires WellFormed(spec) && NothingBlocked(spec) && Calm(spec, s) && Equipped(spec, lap.env)
    requires !Doomed(spec, s.st, s.now + lap.rest) && !AllAgentsSucceeded(spec, s.cl.pods)
    ensures var t := RunFrom(spec, s, LapSteps(spec, lap));
      && Calm(spec, t) && Missing(spec, t.cl.pods) < Missing(spec, s.cl.pods) && t.cl.pushJob == s.cl.pushJob
      && t.st.startedAt == s.st.startedAt && t.now == s.now + lap.rest + lap.work
  {
    hide NothingBlocked, WellFormed, IsTimedOut, IsBudgetExceeded, GatesOpen, Next, AllAgentsSucceeded,
      DistinctEntries, AgentNames, Declared, RunFrom, LapSteps, Missing;
    var s1 := s.(now := s.now + lap.rest);
    var u := Next(spec, s1, Reconciles(lap.env));
    LapUnfolds(spec, s, lap);
    RoundSpawns(spec, s1, lap.env);
    forall a | a in u.cl.pods ensures Succeeded(u.cl.pods, a) || (a in AgentNames(spec) && u.cl.pods[a].phase.PodPending?) {
      if a !in s.cl.pods {
        AgentsAreNamed(spec, a);
      }
    }
    LapEnds(spec, u, lap.work);
  }

  lemma SameMissing(spec: TeamSpec, a: Pods, b: Pods)
    requires a.Keys == b.Keys
    ensures Missing(spec, a) == Missing(spec, b)
  {
  }

  lemma {:induction false} LimitsSameStart(spec: TeamSpec, a: Status, b: Status, now: int, laps: seq<Lap>)
    requires a.startedAt == b.startedAt && WithinLimits(spec, a, now, laps)
    ensures WithinLimits(spec, b, now, laps)
    decreases |laps|
  {
    if laps != [] {
      SameStartSameDoom(spec, a, b, now + laps[0].rest);
      LimitsSameStart(spec, a, b, now + laps[0].rest + laps[0].work, laps[1..]);
    }
  }

  lemma LapsFirst(spec: TeamSpec, s: System, laps: seq<Lap>)
    requires laps != []
    ensures RunFrom(spec, s, LapsSteps(spec, laps)) == RunFrom(spec, RunFrom(spec, s, LapSteps(spec, laps[0])), LapsSteps(spec, laps[1..]))
  {
    hide RunFrom, LapSteps;
    RunFromSplits(spec, s, LapSteps(spec, laps[0]), LapsSteps(spec, laps[1..]));
  }

  /**
   After some number of laps, at most as many as teammates were missing, every agent has Succeeded, however long the laps
   take and whatever their environments, while the team is within deadline and budget at each reconcile.
   */
  lemma {:induction false} LapsReachSuccess(spec: TeamSpec, s: System, laps: seq<Lap>) returns (n: nat)
    requires WellFormed(spec) && NothingBlocked(spec) && Calm(spec, s)
    requires |laps| >= |Missing(spec, s.cl.pods)| && AllEquipped(spec, laps) && WithinLimits(spec, s.st, s.now, laps)
    ensures n <= |Missing(spec, s.cl.pods)|
    ensures var t := RunFrom(spec, s, LapsSteps(spec, laps[..n])); Calm(spec, t) && AllAgentsSucceeded(spec, t.cl.pods)
    decreases |laps|
  {
    hide Next, Calm, Missing, AllAgentsSucceeded, NothingBlocked, WellFormed, LapSteps, Doomed, Equipped, RunFrom;
    if AllAgentsSucceeded(spec, s.cl.pods) {
      n := 0;
      NoStep(spec, s);
    } else {
      EmptyMissing(spec, s);
      LapAdvances(spec, s, laps[0]);
      var t := RunFrom(spec, s, LapSteps(spec, laps[0]));
      SmallerSet(Missing(spec, t.cl.pods), Missing(spec, s.cl.pods));
      LimitsSameStart(spec, s.st, t.st, t.now, laps[1..]);
      var k := LapsReachSuccess(spec, t, laps[1..]);
      n := k + 1;
      assert laps[..n][0] == laps[0] && laps[..n][1..] == laps[1..][..k];
      LapsFirst(spec, s, laps[..n]);
    }
  }

  lemma NoStep(spec: TeamSpec, s: System)
    ensures RunFrom(spec, s, []) == s
  {
  }

  lemma EmptyMissing(spec: TeamSpec, s: System)
    requires Calm(spec, s) && !AllAgentsSucceeded(spec, s.cl.pods)
    ensures |Missing(spec, s.cl.pods)| > 0
  {
    if Missing(spec, s.cl.pods) == {} {
      NobodyMissing(spec, s);
    }
  }

  lemma {:induction false} SmallerSet(a: set<string>, b: set<string>)
    requires a < b
    ensures |a| < |b|
  {
    var x :| x in b && x !in a;
    Lifecycles.SubsetSize(a, b - {x});
  }

  lemma MissingAtMostAll(spec: TeamSpec, pods: Pods)
    ensures |Missing(spec, pods)| <= |spec.teammates|
  {
    var names := TeammateNames(spec.teammates);
    Lifecycles.SetOfSeq(names);
    forall a | a in Missing(spec, pods) ensures a in names {
      var k :| 0 <= k < |spec.teammates| && spec.teammates[k].name == a;
      assert names[k] == a;
    }
    Lifecycles.SubsetSize(Missing(spec, pods), set a | a in names);
  }

  // ---- Finishing ----

  /** All agents have Succeeded and only the push Job is still going. */
  ghost predicate Pushing(spec: TeamSpec, s: System) {
    && Lifecycles.PushesOnComplete(spec) && Calm(spec, s) && AllAgentsSucceeded(spec, s.cl.pods)
    && s.cl.pushJob == Some(JobActive)
  }

  /** Once all agents have Succeeded a reconcile completes the team, or, where a branch is to be pushed, sees to the Job. */
  lemma ClosingReconcile(spec: TeamSpec, t: System, env: Env)
    requires WellFormed(spec) && Quiet(spec, t) && AllAgentsSucceeded(spec, t.cl.pods) && Equipped(spec, env)
    requires Lifecycles.PushesOnComplete(spec) ==> t.cl.pushJob != Some(JobFailed)
    ensures var u := Next(spec, t, Reconciles(env));
      && (u.st.phase == Completed || (Pushing(spec, u) && t.cl.pushJob != Some(JobSucceeded)))
      && u.st.startedAt == t.st.startedAt && u.now == t.now && u.cl.pods == t.cl.pods && u.cl.granted == t.cl.granted
  {
    hide Observe, Respawns, LateSpawns, DistinctEntries, Roster, IsTimedOut, IsBudgetExceeded, GatesOpen, WellFormed;
    var o := Observe(spec, Begin(t, env), t.now);
    ObserveFacts(spec, Begin(t, env), t.now);
    RosterIsDistinct(spec, o.st.teammates);
    NothingToRestart(spec, o, |spec.teammates|, t.now);
    NothingToSpawn(spec, o, |spec.teammates|, t.now);
    assert t.cl.pushJob.Some? ==> t.cl.pushJob.value.JobActive? || t.cl.pushJob.value.JobSucceeded? || t.cl.pushJob.value.JobFailed?;
  }

  lemma TerminalStays(spec: TeamSpec, s: System, step: Step)
    requires s.st.phase == Completed
    ensures Next(spec, s, step).st.phase == Completed
  {
    if step.Reconciles? {
      hide TerminateAllPods;
      Lifecycles.TerminateWrites(spec, Begin(s, step.env), step.env);
    }
  }

  lemma {:induction false} CompletedStays(spec: TeamSpec, s: System, steps: seq<Step>)
    requires s.st.phase == Completed
    ensures RunFrom(spec, s, steps).st.phase == Completed
  {
    hide Next;
    if steps != [] {
      CompletedStays(spec, s, steps[..|steps| - 1]);
      TerminalStays(spec, RunFrom(spec, s, steps[..|steps| - 1]), steps[|steps| - 1]);
    }
  }

  lemma ClosingLap(spec: TeamSpec, s: System, lap: Lap)
    requires WellFormed(spec) && Calm(spec, s) && AllAgentsSucceeded(spec, s.cl.pods) && Equipped(spec, lap.env)
    requires !Doomed(spec, s.st, s.now + lap.rest) && (Lifecycles.PushesOnComplete(spec) ==> s.cl.pushJob != Some(JobFailed))
    ensures var t := RunFrom(spec, s, LapSteps(spec, lap));
      t.st.phase == Completed || (Pushing(spec, t) && t.st.startedAt == s.st.startedAt && t.now == s.now + lap.rest + lap.work)
  {
    hide WellFormed, IsTimedOut, IsBudgetExceeded, GatesOpen, Next, AllAgentsSucceeded, DistinctEntries, AgentNames, RunFrom, LapSteps,
      Missing, Successes, Equipped, Lifecycles.PushesOnComplete;
    var s1 := s.(now := s.now + lap.rest);
    var u := Next(spec, s1, Reconciles(lap.env));
    LapUnfolds(spec, s, lap);
    ClosingReconcile(spec, s1, lap.env);
    if u.st.phase == Completed {
      CompletedStays(spec, u.(now := u.now + lap.work), Successes(AgentNames(spec)));
    } else {
      LapEnds(spec, u, lap.work);
    }
  }

  /** One lap more than teammates were missing: the team is Completed, or only the push Job is still going. */
  lemma {:induction false} LapsFinish(spec: TeamSpec, s: System, laps: seq<Lap>)
    requires WellFormed(spec) && NothingBlocked(spec) && Calm(spec, s)
    requires |laps| > |Missing(spec, s.cl.pods)| && AllEquipped(spec, laps) && WithinLimits(spec, s.st, s.now, laps)
    requires Lifecycles.PushesOnComplete(spec) ==> s.cl.pushJob != Some(JobFailed)
    ensures var t := RunFrom(spec, s, LapsSteps(spec, laps));
      t.st.phase == Completed || (Pushing(spec, t) && t.st.startedAt == s.st.startedAt && t.now == s.now + Elapsed(laps))
    decreases |laps|
  {
    hide Next, Calm, Missing, AllAgentsSucceeded, NothingBlocked, WellFormed, LapSteps, LapsSteps, Doomed, Equipped, RunFrom,
      Lifecycles.PushesOnComplete;
    var t := RunFrom(spec, s, LapSteps(spec, laps[0]));
    LapsFirst(spec, s, laps);
    if !AllAgentsSucceeded(spec, s.cl.pods) {
      LapAdvances(spec, s, laps[0]);
      SmallerSet(Missing(spec, t.cl.pods), Missing(spec, s.cl.pods));
      LimitsSameStart(spec, s.st, t.st, t.now, laps[1..]);
      LapsFinish(spec, t, laps[1..]);
    } else {
      ClosingLap(spec, s, laps[0]);
      if t.st.phase == Completed {
        CompletedStays(spec, t, LapsSteps(spec, laps[1..]));
      } else if laps[1..] == [] {
        NoLaps(spec, t);
      } else {
        NobodyLeft(spec, t.cl.pods);
        LimitsSameStart(spec, s.st, t.st, t.now, laps[1..]);
        LapsFinish(spec, t, laps[1..]);
      }
    }
  }

  lemma NoLaps(spec: TeamSpec, s: System)
    ensures RunFrom(spec, s, LapsSteps(spec, [])) == s
  {
  }

  lemma NobodyLeft(spec: TeamSpec, pods: Pods)
    requires AllAgentsSucceeded(spec, pods)
    ensures |Missing(spec, pods)| == 0
  {
    assert Missing(spec, pods) == {};
  }

  /** What remains after the laps where a branch is pushed: the Job Succeeds, and after some time a reconcile comes. */
  function PushSteps(rest: nat, env: Env): seq<Step> { [PushJobMoves(JobSucceeded), Tick(rest), Reconciles(env)] }

  lemma PushCloses(spec: TeamSpec, t: System, rest: nat, env: Env)
    requires WellFormed(spec) && Equipped(spec, env)
    requires t.st.phase == Completed || (Pushing(spec, t) && !Doomed(spec, t.st, t.now + rest))
    ensures RunFrom(spec, t, PushSteps(rest, env)).st.phase == Completed
  {
    if t.st.phase == Completed {
      CompletedStays(spec, t, PushSteps(rest, env));
    } else {
      hide *;
      JobDone(spec, t, rest);
      PushStepsUnfold(spec, t, rest, env);
      ClosingReconcile(spec, t.(now := t.now + rest, cl := t.cl.(pushJob := Some(JobSucceeded))), env);
    }
  }

  lemma JobDone(spec: TeamSpec, t: System, rest: nat)
    requires Pushing(spec, t) && !Doomed(spec, t.st, t.now + rest)
    ensures t.cl.pushJob == Some(JobActive)
    ensures var u := t.(now := t.now + rest, cl := t.cl.(pushJob := Some(JobSucceeded)));
      Quiet(spec, u) && AllAgentsSucceeded(spec, u.cl.pods)
  {
    hide GatesOpen, IsTimedOut, IsBudgetExceeded, AllAgentsSucceeded, DistinctEntries;
  }

  lemma PushStepsUnfold(spec: TeamSpec, t: System, rest: nat, env: Env)
    requires t.cl.pushJob == Some(JobActive)
    ensures RunFrom(spec, t, PushSteps(rest, env)) ==
      Next(spec, t.(now := t.now + rest, cl := t.cl.(pushJob := Some(JobSucceeded))), Reconciles(env))
  {
    hide Reconcile;
    var steps := PushSteps(rest, env);
    assert steps[..2] == [PushJobMoves(JobSucceeded), Tick(rest)];
    assert steps[..2][..1] == [PushJobMoves(JobSucceeded)] && steps[..2][..1][..0] == [];
    assert RunFrom(spec, t, steps[..2][..1]) == t.(cl := t.cl.(pushJob := Some(JobSucceeded)));
  }

  /**
   A reachable Running team whose pods have all Succeeded, whose gates are open and in which nothing is blocked: after any
   number of laps above the number of teammates, of any length and each in an environment of its own, during which the
   team is within deadline and budget at each reconcile, it is Completed; where a branch is pushed, once the Job has
   Succeeded too and one more reconcile has come.
   */
  lemma UnblockedCompletes(spec: TeamSpec, steps: seq<Step>, laps: seq<Lap>, rest: nat, last: Env)
    requires WellFormed(spec) && NothingBlocked(spec)
    requires var s := Run(spec, steps);
      && s.st.phase == Running
      && (forall a :: a in s.cl.pods ==> Succeeded(s.cl.pods, a))
      && (forall k :: 0 <= k < |spec.teammates| ==> GatesOpen(spec, s.cl.granted, spec.teammates[k].name))
      && (Lifecycles.PushesOnComplete(spec) ==> s.cl.pushJob != Some(JobFailed))
    requires |laps| > |spec.teammates| && AllEquipped(spec, laps) && Equipped(spec, last)
    requires WithinLimits(spec, Run(spec, steps).st, Run(spec, steps).now, laps)
    requires Lifecycles.PushesOnComplete(spec) ==> !Doomed(spec, Run(spec, steps).st, Run(spec, steps).now + Elapsed(laps) + rest)
    ensures Run(spec, steps + LapsSteps(spec, laps) + if Lifecycles.PushesOnComplete(spec) then PushSteps(rest, last) else []).st.phase
            == Completed
  {
    hide Next, Run, WellFormed, IsTimedOut, IsBudgetExceeded, GatesOpen, NothingBlocked, AllAgentsSucceeded, RunFrom, LapsSteps,
      PushSteps, Equipped, Missing, Lifecycles.PushesOnComplete;
    var s := Run(spec, steps);
    ReachedIsCalm(spec, steps, laps);
    MissingAtMostAll(spec, s.cl.pods);
    LapsFinish(spec, s, laps);
    RunSplits(spec, steps, LapsSteps(spec, laps));
    var t := Run(spec, steps + LapsSteps(spec, laps));
    if Lifecycles.PushesOnComplete(spec) {
      if t.st.phase != Completed {
        SameStartSameDoom(spec, s.st, t.st, t.now + rest);
      }
      PushCloses(spec, t, rest, last);
      RunSplits(spec, steps + LapsSteps(spec, laps), PushSteps(rest, last));
    } else {
      assert steps + LapsSteps(spec, laps) + [] == steps + LapsSteps(spec, laps);
      NeverPushing(spec, t);
    }
  }

  lemma NeverPushing(spec: TeamSpec, t: System)
    requires !Lifecycles.PushesOnComplete(spec)
    ensures !Pushing(spec, t)
  {
  }

  lemma ReachedIsCalm(spec: TeamSpec, steps: seq<Step>, laps: seq<Lap>)
    requires WellFormed(spec) && laps != [] && WithinLimits(spec, Run(spec, steps).st, Run(spec, steps).now, laps)
    requires var s := Run(spec, steps);
      && s.st.phase == Running
      && (forall a :: a in s.cl.pods ==> Succeeded(s.cl.pods, a))
      && (forall k :: 0 <= k < |spec.teammates| ==> GatesOpen(spec, s.cl.granted, spec.teammates[k].name))
    ensures Calm(spec, Run(spec, steps))
  {
    hide Run, IsTimedOut, IsBudgetExceeded, GatesOpen, WellFormed, DistinctEntries;
    var s := Run(spec, steps);
    Lifecycles.RunIsLive(spec, steps);
    Intactness.RunKeeps(spec, steps);
    if Doomed(spec, s.st, s.now) {
      DoomIsForever(spec, s.st, s.now, s.now + laps[0].rest);
    }
  }

  lemma NothingToSpawn(spec: TeamSpec, m: Mem, n: nat, now: int)
    requires n <= |spec.teammates| && m.ok && AllAgentsSucceeded(spec, m.cl.pods)
    ensures LateSpawns(spec, m, n, now) == m
  {
  }
}
