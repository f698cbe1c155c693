/** The artifact record over whole runs: what it names, where each entry comes from, and that nothing is left out. */
module ArtifactRecords {
  import opened TeamSpecs
  import opened TeamStatuses
  import opened TeamReconcile
  import opened TeamRuns
  import opened Rosters
  import opened Frames
  import opened ArtifactRouting
  import DS = DependencySafety
  import Lifecycles
  import Outcomes

  // ---- Base names ----

  function Slashes(n: nat): string { if n == 0 then "" else Slashes(n - 1) + "/" }

  lemma {:induction false} AfterSlash(dir: string, name: string)
    requires '/' !in name && (dir == "" || dir[|dir| - 1] == '/')
    ensures AfterLastSlash(dir + name) == name
  {
    if name == "" {
      assert dir + name == dir;
    } else {
      var front := name[..|name| - 1];
      assert (dir + name)[..|dir + name| - 1] == dir + front;
      assert name == front + [name[|name| - 1]];
      AfterSlash(dir, front);
    }
  }

  /** The base name of a path is its last component, whatever directory is before it and however many slashes are after it. */
  lemma {:induction false} BaseIsLastComponent(dir: string, name: string, n: nat)
    requires name != "" && '/' !in name && (dir == "" || dir[|dir| - 1] == '/')
    ensures Base(dir + name + Slashes(n)) == name
  {
    var path := dir + name + Slashes(n);
    if n == 0 {
      assert path == dir + name && path[|path| - 1] == name[|name| - 1];
      AfterSlash(dir, name);
    } else {
      assert path[..|path| - 1] == dir + name + Slashes(n - 1);
      assert |path| > 1 && path[|path| - 1] == '/';
      BaseIsLastComponent(dir, name, n - 1);
    }
  }

  /** A path without a last component is the current directory or the root. */
  lemma {:induction false} BaseOfNothing(n: nat)
    ensures Base(Slashes(n)) == if n == 0 then "." else "/"
  {
    if n > 1 {
      assert Slashes(n)[..|Slashes(n)| - 1] == Slashes(n - 1);
      assert |Slashes(n - 1)| > 0;
      BaseOfNothing(n - 1);
    }
  }

  // ---- One recording ----

  /** The entry is of an output this teammate declares. */
  ghost predicate OutputOf(tm: TeammateSpec, a: ArtifactStatus) {
    a.producedBy == tm.name && a.name == Base(a.path) && OutputSpec(a.path) in tm.outputs
  }

  /** What a sync appends: outputs of teammates whose pod it sees Succeeded, at its time. */
  ghost predicate RecordedNow(spec: TeamSpec, pods: Pods, at: int, a: ArtifactStatus) {
    && a.producedAt == at
    && exists k :: 0 <= k < |spec.teammates| && OutputOf(spec.teammates[k], a) && Succeeded(pods, spec.teammates[k].name)
  }

  lemma {:induction false} NewAreOutputs(existing: set<string>, tm: TeammateSpec, outputs: seq<OutputSpec>, at: int)
    requires forall o :: o in outputs ==> o in tm.outputs
    ensures forall a :: a in NewArtifacts(existing, tm.name, outputs, at) ==> OutputOf(tm, a) && a.producedAt == at
  {
    hide Base, ArtifactKey;
    if outputs != [] {
      NewAreOutputs(existing, tm, outputs[..|outputs| - 1], at);
    }
  }

  lemma {:induction false} SyncAppends(spec: TeamSpec, n: nat, pods: Pods, artifacts: seq<ArtifactStatus>, at: int)
    requires n <= |spec.teammates|
    ensures var r := RecordSucceeded(spec.teammates[..n], pods, artifacts, at);
      && artifacts <= r
      && forall a :: a in r[|artifacts|..] ==> RecordedNow(spec, pods, at, a)
  {
    hide OutputOf, NewArtifacts;
    if n > 0 {
      SyncAppends(spec, n - 1, pods, artifacts, at);
      var before := RecordSucceeded(spec.teammates[..n - 1], pods, artifacts, at);
      assert spec.teammates[..n][..n - 1] == spec.teammates[..n - 1];
      var tm := spec.teammates[n - 1];
      if Succeeded(pods, tm.name) {
        var added := NewArtifacts(ArtifactKeys(before), tm.name, tm.outputs, at);
        NewAreOutputs(ArtifactKeys(before), tm, tm.outputs, at);
        assert (before + added)[|artifacts|..] == before[|artifacts|..] + added;
      }
    }
  }

  /** The artifacts after a committed Running reconcile that does not stop the team. */
  lemma StoresRecord(spec: TeamSpec, s: System, env: Env)
    requires WellFormed(spec) && DistinctEntries(s.st.teammates) && s.st.phase == Running
    requires Outcome(spec, s, env).ok
    ensures var r := Outcome(spec, s, env);
      r.st.artifacts == if r.st.phase in [TimedOut, BudgetExceeded] then s.st.artifacts
                        else RecordSucceeded(spec.teammates, s.cl.pods, s.st.artifacts, s.now)
  {
    hide Supervise, Halt, Observe, DistinctEntries, IsTimedOut, IsBudgetExceeded, RecordSucceeded;
    var m := Begin(s, env);
    Lifecycles.HaltWrites(spec, m, env, TimedOut);
    Lifecycles.HaltWrites(spec, m.(st := m.st.(estimatedCost := EstimatedCost(spec, m.st, s.now))), env, BudgetExceeded);
    if !IsTimedOut(spec, s.st, s.now) && !IsBudgetExceeded(spec, s.st, s.now) {
      Outcomes.SuperviseStores(spec, m, env, s.now);
      Lifecycles.SuperviseWrites(spec, m, env, s.now);
      ObserveRecord(spec, m, s.now);
    }
  }

  lemma ObserveRecord(spec: TeamSpec, m: Mem, now: int)
    ensures Observe(spec, m, now).st.artifacts == RecordSucceeded(spec.teammates, m.cl.pods, m.st.artifacts, now)
  {
  }

  // ---- Runs ----

  /** The entry is of a declared output of a teammate that has Succeeded, made between the start and now. */
  ghost predicate Sound(spec: TeamSpec, s: System, a: ArtifactStatus) {
    && s.st.startedAt.Some? && s.st.startedAt.value <= a.producedAt <= s.now
    && a.producedBy in s.cl.succeeded
    && exists k :: 0 <= k < |spec.teammates| && OutputOf(spec.teammates[k], a)
  }

  ghost predicate AllSound(spec: TeamSpec, s: System) { forall a :: a in s.st.artifacts ==> Sound(spec, s, a) }

  lemma SoundStays(spec: TeamSpec, s: System, t: System)
    requires AllSound(spec, s) && t.st.artifacts == s.st.artifacts
    requires s.st.artifacts == [] || t.st.startedAt == s.st.startedAt
    requires s.now <= t.now && s.cl.succeeded <= t.cl.succeeded
    ensures AllSound(spec, t)
  {
  }

  lemma RunningStaysSound(spec: TeamSpec, s: System, env: Env)
    requires WellFormed(spec) && Lifecycles.LifeInv(spec, s) && DS.ClusterInv(spec, s.cl) && AllSound(spec, s)
    requires s.st.phase == Running && Outcome(spec, s, env).ok
    ensures AllSound(spec, Next(spec, s, Reconciles(env)))
  {
    hide Reconcile, DistinctEntries, Lifecycles.OutcomeInv, Lifecycles.AllInTime, RecordSucceeded, RecordedNow, Sound, DS.HistoryOk;
    var t := Next(spec, s, Reconciles(env));
    StoresRecord(spec, s, env);
    DS.ReconcileKeeps(spec, Begin(s, env), env, s.now);
    Lifecycles.PhaseStep(spec, s, Reconciles(env));
    SyncAppends(spec, |spec.teammates|, s.cl.pods, s.st.artifacts, s.now);
    assert spec.teammates[..|spec.teammates|] == spec.teammates;
    forall a | a in t.st.artifacts ensures Sound(spec, t, a) {
      if a in s.st.artifacts {
        KeptSound(spec, s, t, a);
      } else {
        FreshSound(spec, s, t, a);
      }
    }
  }

  lemma KeptSound(spec: TeamSpec, s: System, t: System, a: ArtifactStatus)
    requires Sound(spec, s, a) && t.st.startedAt == s.st.startedAt && s.now <= t.now && s.cl.succeeded <= t.cl.succeeded
    ensures Sound(spec, t, a)
  {
  }

  lemma FreshSound(spec: TeamSpec, s: System, t: System, a: ArtifactStatus)
    requires RecordedNow(spec, s.cl.pods, s.now, a) && t.st.startedAt.Some? && t.st.startedAt.value <= s.now == t.now
    requires forall n :: Succeeded(s.cl.pods, n) ==> n in t.cl.succeeded
    ensures Sound(spec, t, a)
  {
  }

  lemma OthersStaySound(spec: TeamSpec, s: System, step: Step)
    requires WellFormed(spec) && Lifecycles.LifeInv(spec, s) && DS.ClusterInv(spec, s.cl) && AllSound(spec, s)
    requires s.st.phase in [Unset, Initializing] ==> s.st.artifacts == []
    requires !(step.Reconciles? && s.st.phase == Running && Outcome(spec, s, step.env).ok)
    ensures AllSound(spec, Next(spec, s, step))
  {
    hide ReconcileRunning, Deploy, TerminateAllPods, IsTimedOut, DistinctEntries, Lifecycles.OutcomeInv, Lifecycles.AllInTime, DS.HistoryOk;
    var t := Next(spec, s, step);
    if step.Reconciles? {
      var m := Begin(s, step.env);
      DS.ReconcileKeeps(spec, m, step.env, s.now);
      DeployFrame(spec, m, s.now);
      Lifecycles.TerminateWrites(spec, m, step.env);
    }
    SoundStays(spec, s, t);
  }

  lemma {:induction false} RunIsSound(spec: TeamSpec, steps: seq<Step>)
    requires WellFormed(spec)
    ensures AllSound(spec, Run(spec, steps))
  {
    hide Next, AllSound, Lifecycles.LifeInv, DS.ClusterInv, RoutingInv;
    if steps == [] {
      FreshIsSound(spec);
    } else {
      var front, step := steps[..|steps| - 1], steps[|steps| - 1];
      var s := Run(spec, front);
      RunIsSound(spec, front);
      Lifecycles.RunKeeps(spec, front);
      DS.RunKeeps(spec, front);
      ArtifactRouting.RunKeeps(spec, front);
      NothingEarly(spec, s);
      if step.Reconciles? && s.st.phase == Running && Outcome(spec, s, step.env).ok {
        RunningStaysSound(spec, s, step.env);
      } else {
        OthersStaySound(spec, s, step);
      }
    }
  }

  lemma FreshIsSound(spec: TeamSpec)
    ensures AllSound(spec, FreshSystem)
  {
  }

  lemma NothingEarly(spec: TeamSpec, s: System)
    requires RoutingInv(spec, s)
    ensures s.st.phase in [Unset, Initializing] ==> s.st.artifacts == []
  {
  }

  /** Over every run each artifact on record is a declared output of a teammate that had Succeeded, dated within the run. */
  lemma RecordIsSound(spec: TeamSpec, steps: seq<Step>, a: ArtifactStatus)
    requires WellFormed(spec) && a in Run(spec, steps).st.artifacts
    ensures Sound(spec, Run(spec, steps), a)
  {
    hide Run, Sound;
    RunIsSound(spec, steps);
  }

  /**
   After a committed Running reconcile of any run that does not stop the team, each output of each teammate it saw Succeeded
   is on record, and what it added is dated now.
   */
  lemma RecordIsComplete(spec: TeamSpec, steps: seq<Step>, env: Env, k: nat, o: OutputSpec)
    requires WellFormed(spec) && Run(spec, steps).st.phase == Running
    requires var t := Run(spec, steps + [Reconciles(env)]);
      t.aborts == Run(spec, steps).aborts && t.st.phase !in [TimedOut, BudgetExceeded]
    requires k < |spec.teammates| && o in spec.teammates[k].outputs
    requires Outcomes.PodIs(Run(spec, steps).cl.pods, spec.teammates[k].name, PodSucceeded)
    ensures var s, t := Run(spec, steps), Run(spec, steps + [Reconciles(env)]);
      && (exists a :: a in t.st.artifacts && a.producedBy == spec.teammates[k].name && a.name == Base(o.path))
      && s.st.artifacts <= t.st.artifacts
      && forall a :: a in t.st.artifacts[|s.st.artifacts|..] ==> a.producedAt == s.now
  {
    hide Run, Reconcile, DistinctEntries, RecordSucceeded, Base, OutputOf, RecordInv, OnRecord;
    var s, t := Run(spec, steps), Run(spec, steps + [Reconciles(env)]);
    Lifecycles.RunIsLive(spec, steps);
    Lifecycles.RunsOn(spec, steps, Reconciles(env));
    ArtifactRouting.RunKeeps(spec, steps);
    StoresRecord(spec, s, env);
    assert spec.teammates[..|spec.teammates|] == spec.teammates;
    SyncAppends(spec, |spec.teammates|, s.cl.pods, s.st.artifacts, s.now);
    SyncRecords(spec, |spec.teammates|, s.cl.pods, s.st.artifacts, s.now);
    OnRecordHas(t.st.artifacts, spec.teammates[k], o);
  }

  lemma OnRecordHas(artifacts: seq<ArtifactStatus>, tm: TeammateSpec, o: OutputSpec)
    requires OnRecord(artifacts, tm) && o in tm.outputs && '/' !in tm.name
    requires forall i :: 0 <= i < |artifacts| ==> '/' !in artifacts[i].producedBy
    ensures exists a :: a in artifacts && a.producedBy == tm.name && a.name == Base(o.path)
  {
    hide Base, ArtifactKey;
    var i :| 0 <= i < |tm.outputs| && tm.outputs[i] == o;
    var a :| a in artifacts && ArtifactKey(a.producedBy, a.name) == ArtifactKey(tm.name, Base(o.path));
    KeyInjective(a.producedBy, a.name, tm.name, Base(o.path));
  }
}
