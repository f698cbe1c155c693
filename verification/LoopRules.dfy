/** Induction over the reconciler's loops, once for all invariants: P is kept by every pass that goes on, Q holds when a pass stops the loop. */
module LoopRules {
  import opened TeamSpecs
  import opened TeamReconcile

  predicate GoesOn(c: Checked) { c.m.ok && c.fatal == "" }

  ghost predicate FirstSpawnPass(spec: TeamSpec, now: int, P: (int, Mem) -> bool, Q: Mem -> bool, k: int, x: Mem)
    requires 0 <= k < |spec.teammates|
  {
    var r := FirstSpawn(spec, x, spec.teammates[k], now);
    if r.ok then P(k + 1, r) else Q(r)
  }

  lemma {:induction false} FirstSpawnsRule(spec: TeamSpec, m: Mem, n: nat, now: int, P: (int, Mem) -> bool, Q: Mem -> bool)
    requires n <= |spec.teammates| && m.ok && P(0, m)
    requires forall k, x: Mem :: 0 <= k < |spec.teammates| && x.ok && P(k, x) ==> FirstSpawnPass(spec, now, P, Q, k, x)
    ensures var r := FirstSpawns(spec, m, n, now); if r.ok then P(n, r) else Q(r)
  {
    hide FirstSpawn;
    if n > 0 {
      FirstSpawnsRule(spec, m, n - 1, now, P, Q);
      var before := FirstSpawns(spec, m, n - 1, now);
      if before.ok {
        assert FirstSpawnPass(spec, now, P, Q, n - 1, before);
      }
    }
  }

  ghost predicate LateSpawnPass(spec: TeamSpec, now: int, P: (int, Mem) -> bool, Q: Mem -> bool, k: int, x: Mem)
    requires 0 <= k < |spec.teammates|
  {
    var r := LateSpawn(spec, x, spec.teammates[k], now);
    if r.ok then P(k + 1, r) else Q(r)
  }

  lemma {:induction false} LateSpawnsRule(spec: TeamSpec, m: Mem, n: nat, now: int, P: (int, Mem) -> bool, Q: Mem -> bool)
    requires n <= |spec.teammates| && m.ok && P(0, m)
    requires forall k, x: Mem :: 0 <= k < |spec.teammates| && x.ok && P(k, x) ==> LateSpawnPass(spec, now, P, Q, k, x)
    ensures var r := LateSpawns(spec, m, n, now); if r.ok then P(n, r) else Q(r)
  {
    hide LateSpawn;
    if n > 0 {
      LateSpawnsRule(spec, m, n - 1, now, P, Q);
      var before := LateSpawns(spec, m, n - 1, now);
      if before.ok {
        assert LateSpawnPass(spec, now, P, Q, n - 1, before);
      }
    }
  }

  ghost predicate RespawnPass(spec: TeamSpec, now: int, P: (int, Mem) -> bool, Q: Checked -> bool, k: int, x: Mem)
    requires 0 <= k < |spec.teammates|
  {
    var r := Respawn(spec, x, spec.teammates[k], now);
    if GoesOn(r) then P(k + 1, r.m) else Q(r)
  }

  lemma {:induction false} RespawnsRule(spec: TeamSpec, m: Mem, n: nat, now: int, P: (int, Mem) -> bool, Q: Checked -> bool)
    requires n <= |spec.teammates| && m.ok && P(0, m)
    requires forall k, x: Mem :: 0 <= k < |spec.teammates| && x.ok && P(k, x) ==> RespawnPass(spec, now, P, Q, k, x)
    ensures var r := Respawns(spec, m, n, now); if GoesOn(r) then P(n, r.m) else Q(r)
  {
    hide Respawn;
    if n > 0 {
      RespawnsRule(spec, m, n - 1, now, P, Q);
      var before := Respawns(spec, m, n - 1, now);
      if GoesOn(before) {
        assert RespawnPass(spec, now, P, Q, n - 1, before.m);
      }
    }
  }

  lemma {:induction false} DeletePodsRule(m: Mem, names: seq<string>, P: Mem -> bool)
    requires P(m)
    requires forall x: Mem, a :: x.ok && P(x) && a in x.cl.pods ==> P(DeletePod(x, a))
    ensures P(DeletePods(m, names))
  {
    if names != [] {
      DeletePodsRule(m, names[..|names| - 1], P);
    }
  }

  /** A delete loop leaves every pod that is not listed as it was and, if it returns no error, no listed one. */
  lemma {:induction false} DeletePodsDone(m: Mem, names: seq<string>)
    requires m.ok
    ensures DeletePods(m, names).st == m.st
    ensures DeletePods(m, names).cl == m.cl.(pods := DeletePods(m, names).cl.pods)
    ensures forall a :: a in DeletePods(m, names).cl.pods ==> a in m.cl.pods && DeletePods(m, names).cl.pods[a] == m.cl.pods[a]
    ensures forall a :: a in m.cl.pods && a !in names ==> a in DeletePods(m, names).cl.pods
    ensures DeletePods(m, names).ok ==> forall a :: a in names ==> a !in DeletePods(m, names).cl.pods
  {
    if names != [] {
      DeletePodsDone(m, names[..|names| - 1]);
      assert names == names[..|names| - 1] + [names[|names| - 1]];
    }
  }
}
