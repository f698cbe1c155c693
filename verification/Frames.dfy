/** What the loops of a reconcile leave alone, and what they do to existing pods. */
module Frames {
  import opened TeamSpecs
  import opened TeamStatuses
  import opened TeamReconcile
  import opened LoopRules

  /** A birth of this reconcile: now, in this phase, with these artifacts on record. */
  ghost predicate FreshBirth(m: Mem, b: Birth, now: int) {
    && b.at == now && b.during == m.st.phase && b.artifacts == m.st.artifacts
    && b.succeeded == m.cl.succeeded && b.granted == m.cl.everGranted
  }

  /** Only teammate entries, pods and births change, and births only by appending fresh ones. */
  ghost predicate Frame(m: Mem, x: Mem, now: int) {
    && x.st == m.st.(teammates := x.st.teammates)
    && x.cl == m.cl.(pods := x.cl.pods, births := x.cl.births)
    && m.cl.births <= x.cl.births
    && forall i :: |m.cl.births| <= i < |x.cl.births| ==> FreshBirth(m, x.cl.births[i], now)
  }

  lemma FrameComposes(m: Mem, x: Mem, y: Mem, now: int)
    requires Frame(m, x, now) && Frame(x, y, now)
    ensures Frame(m, y, now)
  {
  }

  lemma EnsureFrame(spec: TeamSpec, m: Mem, agent: string, inputs: seq<InputSpec>, now: int)
    ensures Frame(m, EnsureAgentPod(spec, m, agent, inputs, now), now)
  {
  }

  lemma FirstSpawnFrame(spec: TeamSpec, m: Mem, tm: TeammateSpec, now: int)
    ensures Frame(m, FirstSpawn(spec, m, tm, now), now)
  {
  }

  lemma LateSpawnFrame(spec: TeamSpec, m: Mem, tm: TeammateSpec, now: int)
    ensures Frame(m, LateSpawn(spec, m, tm, now), now)
  {
  }

  lemma RespawnFrame(spec: TeamSpec, m: Mem, tm: TeammateSpec, now: int)
    ensures Frame(m, Respawn(spec, m, tm, now).m, now)
  {
  }

  lemma FirstSpawnsFrame(spec: TeamSpec, m: Mem, now: int)
    requires m.ok
    ensures Frame(m, FirstSpawns(spec, m, |spec.teammates|, now), now)
  {
    hide FirstSpawn, Frame;
    FrameRefl(m, now);
    var P := (k: int, x: Mem) => Frame(m, x, now);
    var Q := (x: Mem) => Frame(m, x, now);
    forall k, x: Mem | 0 <= k < |spec.teammates| && x.ok && P(k, x) ensures FirstSpawnPass(spec, now, P, Q, k, x) {
      FirstSpawnFrame(spec, x, spec.teammates[k], now);
      FrameComposes(m, x, FirstSpawn(spec, x, spec.teammates[k], now), now);
    }
    FirstSpawnsRule(spec, m, |spec.teammates|, now, P, Q);
  }

  lemma LateSpawnsFrame(spec: TeamSpec, m: Mem, now: int)
    requires m.ok
    ensures Frame(m, LateSpawns(spec, m, |spec.teammates|, now), now)
  {
    hide LateSpawn, Frame;
    FrameRefl(m, now);
    var P := (k: int, x: Mem) => Frame(m, x, now);
    var Q := (x: Mem) => Frame(m, x, now);
    forall k, x: Mem | 0 <= k < |spec.teammates| && x.ok && P(k, x) ensures LateSpawnPass(spec, now, P, Q, k, x) {
      LateSpawnFrame(spec, x, spec.teammates[k], now);
      FrameComposes(m, x, LateSpawn(spec, x, spec.teammates[k], now), now);
    }
    LateSpawnsRule(spec, m, |spec.teammates|, now, P, Q);
  }

  lemma RespawnsFrame(spec: TeamSpec, m: Mem, now: int)
    requires m.ok
    ensures Frame(m, Respawns(spec, m, |spec.teammates|, now).m, now)
  {
    hide Respawn, Frame;
    FrameRefl(m, now);
    var P := (k: int, x: Mem) => Frame(m, x, now);
    var Q := (c: Checked) => Frame(m, c.m, now);
    forall k, x: Mem | 0 <= k < |spec.teammates| && x.ok && P(k, x) ensures RespawnPass(spec, now, P, Q, k, x) {
      RespawnFrame(spec, x, spec.teammates[k], now);
      FrameComposes(m, x, Respawn(spec, x, spec.teammates[k], now).m, now);
    }
    RespawnsRule(spec, m, |spec.teammates|, now, P, Q);
  }

  lemma FrameRefl(m: Mem, now: int)
    ensures Frame(m, m, now)
  {
  }

  /** Of the cluster a Running reconcile changes pods, creations, the push Job and the sends only. */
  lemma SuperviseTouches(spec: TeamSpec, m: Mem, env: Env, now: int)
    requires m.ok
    ensures var r := Supervise(spec, m, env, now);
      r.cl == m.cl.(pods := r.cl.pods, births := r.cl.births, pushJob := r.cl.pushJob, sent := r.cl.sent)
  {
    hide Observe, Respawns, LateSpawns, Conclude;
    var o := Observe(spec, m, now);
    assert o.cl == m.cl && o.ok == m.ok by { ObserveLooks(spec, m, now); }
    RespawnsFrame(spec, o, now);
    var c := Respawns(spec, o, |spec.teammates|, now);
    if GoesOn(c) {
      LateSpawnsFrame(spec, c.m, now);
      ConcludeTouches(spec, LateSpawns(spec, c.m, |spec.teammates|, now), env, now);
    }
  }

  lemma ObserveLooks(spec: TeamSpec, m: Mem, now: int)
    ensures Observe(spec, m, now).cl == m.cl && Observe(spec, m, now).ok == m.ok
  {
  }

  lemma ConcludeTouches(spec: TeamSpec, m: Mem, env: Env, now: int)
    ensures var r := Conclude(spec, m, env, now); r.cl == m.cl.(pushJob := r.cl.pushJob, sent := r.cl.sent)
  {
    hide AnyAgentFailed, AllAgentsSucceeded, Deliveries;
  }

  lemma DeployFrame(spec: TeamSpec, m: Mem, now: int)
    requires m.ok
    ensures var r := Deploy(spec, m, now); Frame(m, r.(st := r.st.(phase := m.st.phase)), now)
    ensures Deploy(spec, m, now).ok ==> Deploy(spec, m, now).st.phase == Running
  {
    var m1 := EnsureAgentPod(spec, m, LEAD, [], now);
    EnsureFrame(spec, m, LEAD, [], now);
    if m1.ok {
      FirstSpawnsFrame(spec, m1, now);
      FrameComposes(m, m1, FirstSpawns(spec, m1, |spec.teammates|, now), now);
    }
  }

  // ---- Existing pods ----

  /** The phase of a present pod, PodUnknown standing in for an absent one. */
  ghost predicate SamePod(before: Pods, after: Pods, a: string) {
    (a in before <==> a in after) && (a in before ==> after[a] == before[a])
  }

  /** Pods are only added, and a new pod is Pending. */
  ghost predicate OnlyNewPods(before: Pods, after: Pods) {
    && (forall a :: a in before ==> a in after && after[a] == before[a])
    && (forall a :: a in after && a !in before ==> after[a].phase.PodPending?)
  }

  lemma LateSpawnsAddPods(spec: TeamSpec, m: Mem, now: int)
    requires m.ok
    ensures OnlyNewPods(m.cl.pods, LateSpawns(spec, m, |spec.teammates|, now).cl.pods)
  {
    hide DependenciesMet, HeldAt, EffectiveDependencies, StagedInputs, SetPendingApproval, ClearPendingApproval;
    var P := (k: int, x: Mem) => OnlyNewPods(m.cl.pods, x.cl.pods);
    var Q := (x: Mem) => OnlyNewPods(m.cl.pods, x.cl.pods);
    forall k, x: Mem | 0 <= k < |spec.teammates| && x.ok && P(k, x) ensures LateSpawnPass(spec, now, P, Q, k, x) {
    }
    LateSpawnsRule(spec, m, |spec.teammates|, now, P, Q);
  }

  lemma FirstSpawnsAddPods(spec: TeamSpec, m: Mem, now: int)
    requires m.ok
    ensures OnlyNewPods(m.cl.pods, FirstSpawns(spec, m, |spec.teammates|, now).cl.pods)
  {
    hide DependenciesMet, HeldAt, EffectiveDependencies, StagedInputs, SetPendingApproval;
    var P := (k: int, x: Mem) => OnlyNewPods(m.cl.pods, x.cl.pods);
    var Q := (x: Mem) => OnlyNewPods(m.cl.pods, x.cl.pods);
    forall k, x: Mem | 0 <= k < |spec.teammates| && x.ok && P(k, x) ensures FirstSpawnPass(spec, now, P, Q, k, x) {
    }
    FirstSpawnsRule(spec, m, |spec.teammates|, now, P, Q);
  }

  /** Restarts touch Failed teammates only: each of those is replaced by a Pending pod, or, on an error, may be gone. */
  ghost predicate OnlyFailedReplaced(before: Pods, after: Pods) {
    && (forall a :: a in after ==> a in before)
    && (forall a :: a in before && !before[a].phase.PodFailed? ==> a in after && after[a] == before[a])
    && (forall a :: a in after ==> after[a] == before[a] || after[a].phase.PodPending?)
  }

  lemma RespawnReplaces(spec: TeamSpec, before: Pods, m: Mem, tm: TeammateSpec, now: int)
    requires OnlyFailedReplaced(before, m.cl.pods)
    ensures OnlyFailedReplaced(before, Respawn(spec, m, tm, now).m.cl.pods)
  {
  }

  lemma RespawnsReplace(spec: TeamSpec, m: Mem, now: int)
    requires m.ok
    ensures OnlyFailedReplaced(m.cl.pods, Respawns(spec, m, |spec.teammates|, now).m.cl.pods)
  {
    hide Respawn, OnlyFailedReplaced;
    ReplacedRefl(m.cl.pods);
    var P := (k: int, x: Mem) => OnlyFailedReplaced(m.cl.pods, x.cl.pods);
    var Q := (c: Checked) => OnlyFailedReplaced(m.cl.pods, c.m.cl.pods);
    forall k, x: Mem | 0 <= k < |spec.teammates| && x.ok && P(k, x) ensures RespawnPass(spec, now, P, Q, k, x) {
      RespawnReplaces(spec, m.cl.pods, x, spec.teammates[k], now);
    }
    RespawnsRule(spec, m, |spec.teammates|, now, P, Q);
  }

  lemma ReplacedRefl(pods: Pods)
    ensures OnlyFailedReplaced(pods, pods)
  {
  }

  /** The restart of a Failed teammate with restarts left: no stop, a Pending pod in place of the Failed one, one more restart. */
  lemma RespawnEffect(spec: TeamSpec, x: Mem, tm: TeammateSpec, now: int)
    requires x.ok && HasFailed(x.cl.pods, tm.name) && RestartCount(x.st.teammates, tm.name) < MaxRestarts(spec)
    ensures var r := Respawn(spec, x, tm, now);
      && r.fatal == ""
      && (r.m.ok ==>
        && r.m.cl.pods == x.cl.pods[tm.name := Pod(PodPending, StagedInputs(spec, tm.inputs))]
        && |r.m.cl.births| == |x.cl.births| + 1 && r.m.cl.births[..|x.cl.births|] == x.cl.births
        && r.m.cl.births[|x.cl.births|].agent == tm.name
        && r.m.st.teammates == SetRestartCount(x.st.teammates, tm.name, RestartCount(x.st.teammates, tm.name) + 1))
      && (!r.m.ok ==> r.m.cl.births == x.cl.births && (forall a :: a in x.cl.pods && a != tm.name ==> a in r.m.cl.pods))
  {
  }
}
