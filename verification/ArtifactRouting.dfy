/** Outputs recorded once and in order, and inputs staged only from Succeeded, recorded producers. */
module ArtifactRouting {
  import opened Options
  import opened TeamSpecs
  import opened TeamStatuses
  import opened TeamReconcile
  import opened TeamRuns
  import opened LoopRules
  import opened Rosters
  import opened Frames
  import opened Intactness
  import DS = DependencySafety
  import Lifecycles

  /** The path of the first artifact on record with this producer and name. */
  function FirstArtifact(artifacts: seq<ArtifactStatus>, producer: string, name: string): Option<string> {
    if artifacts == [] then None
    else if artifacts[0].producedBy == producer && artifacts[0].name == name then Some(artifacts[0].path)
    else FirstArtifact(artifacts[1..], producer, name)
  }

  ghost predicate NoneBy(artifacts: seq<ArtifactStatus>, producer: string) {
    forall i :: 0 <= i < |artifacts| ==> artifacts[i].producedBy != producer
  }

  /** Every output of the teammate is on record, and the first record of a name is the first output of that name. */
  ghost predicate OnRecord(artifacts: seq<ArtifactStatus>, tm: TeammateSpec) {
    && (forall i :: 0 <= i < |tm.outputs| ==> ArtifactKey(tm.name, Base(tm.outputs[i].path)) in ArtifactKeys(artifacts))
    && (forall name :: OutputNamed(tm.outputs, name).Some? ==> FirstArtifact(artifacts, tm.name, name) == OutputNamed(tm.outputs, name))
  }

  ghost predicate RecordInv(spec: TeamSpec, artifacts: seq<ArtifactStatus>) {
    && (forall i :: 0 <= i < |artifacts| ==> '/' !in artifacts[i].producedBy)
    && (forall k :: 0 <= k < |spec.teammates| ==> NoneBy(artifacts, spec.teammates[k].name) || OnRecord(artifacts, spec.teammates[k]))
  }

  lemma KeyInjective(p: string, n: string, q: string, m: string)
    requires '/' !in p && '/' !in q && ArtifactKey(p, n) == ArtifactKey(q, m)
    ensures p == q && n == m
  {
    var a, b := ArtifactKey(p, n), ArtifactKey(q, m);
    assert a[|p|] == '/' && b[|q|] == '/';
    assert a[..|p|] == p && b[..|q|] == q && a[|p| + 1..] == n && b[|q| + 1..] == m;
  }

  lemma {:induction false} FirstOfAppended(a: seq<ArtifactStatus>, b: seq<ArtifactStatus>, producer: string, name: string)
    ensures FirstArtifact(a + b, producer, name) ==
      if FirstArtifact(a, producer, name).Some? then FirstArtifact(a, producer, name) else FirstArtifact(b, producer, name)
  {
    if a == [] {
      assert a + b == b;
    } else {
      FirstOfAppended(a[1..], b, producer, name);
      assert (a + b)[1..] == a[1..] + b;
    }
  }

  lemma {:induction false} NoneByFindsNothing(artifacts: seq<ArtifactStatus>, producer: string, name: string)
    requires NoneBy(artifacts, producer)
    ensures FirstArtifact(artifacts, producer, name).None?
  {
    if artifacts != [] {
      NoneByFindsNothing(artifacts[1..], producer, name);
    }
  }

  /** A key already on record keeps its output out; only this producer is added. */
  lemma {:induction false} NewArtifactsShape(existing: set<string>, producer: string, outputs: seq<OutputSpec>, at: int)
    ensures var r := NewArtifacts(existing, producer, outputs, at);
      && (forall i :: 0 <= i < |r| ==> r[i].producedBy == producer)
      && ((forall i :: 0 <= i < |outputs| ==> ArtifactKey(producer, Base(outputs[i].path)) in existing) ==> r == [])
  {
    hide Base, ArtifactKey;
    if outputs != [] {
      var n := |outputs| - 1;
      NewArtifactsShape(existing, producer, outputs[..n], at);
      assert forall i :: 0 <= i < n ==> outputs[..n][i] == outputs[i];
    }
  }

  /** When none of the producer's keys is on record, all its outputs are added, in order. */
  lemma {:induction false} AllOutputsAreNew(existing: set<string>, producer: string, outputs: seq<OutputSpec>, at: int)
    requires forall i :: 0 <= i < |outputs| ==> ArtifactKey(producer, Base(outputs[i].path)) !in existing
    ensures var r := NewArtifacts(existing, producer, outputs, at);
      && |r| == |outputs|
      && forall i :: 0 <= i < |outputs| ==> r[i] == ArtifactStatus(Base(outputs[i].path), outputs[i].path, producer, at)
  {
    hide Base, ArtifactKey;
    if outputs != [] {
      AllOutputsAreNew(existing, producer, outputs[..|outputs| - 1], at);
    }
  }

  /** Looking up an artifact among one producer's outputs is looking up the output. */
  lemma {:induction false} FirstAmongOutputs(r: seq<ArtifactStatus>, producer: string, outputs: seq<OutputSpec>, at: int, name: string)
    requires |r| == |outputs|
    requires forall i :: 0 <= i < |outputs| ==> r[i] == ArtifactStatus(Base(outputs[i].path), outputs[i].path, producer, at)
    ensures FirstArtifact(r, producer, name) == OutputNamed(outputs, name)
  {
    hide Base;
    if outputs != [] {
      FirstAmongOutputs(r[1..], producer, outputs[1..], at, name);
    }
  }

  lemma AllNewOnRecord(existing: set<string>, tm: TeammateSpec, at: int)
    requires forall i :: 0 <= i < |tm.outputs| ==> ArtifactKey(tm.name, Base(tm.outputs[i].path)) !in existing
    ensures var r := NewArtifacts(existing, tm.name, tm.outputs, at);
      && (forall name :: FirstArtifact(r, tm.name, name) == OutputNamed(tm.outputs, name))
      && forall i :: 0 <= i < |tm.outputs| ==> ArtifactKey(tm.name, Base(tm.outputs[i].path)) in ArtifactKeys(r)
  {
    hide Base, ArtifactKey, FirstArtifact, OutputNamed;
    var r := NewArtifacts(existing, tm.name, tm.outputs, at);
    AllOutputsAreNew(existing, tm.name, tm.outputs, at);
    forall name ensures FirstArtifact(r, tm.name, name) == OutputNamed(tm.outputs, name) {
      FirstAmongOutputs(r, tm.name, tm.outputs, at, name);
    }
    forall i | 0 <= i < |tm.outputs| ensures ArtifactKey(tm.name, Base(tm.outputs[i].path)) in ArtifactKeys(r) {
      assert r[i] in r;
    }
  }

  lemma KeysByOthers(artifacts: seq<ArtifactStatus>, producer: string, name: string)
    requires '/' !in producer && NoneBy(artifacts, producer) && forall i :: 0 <= i < |artifacts| ==> '/' !in artifacts[i].producedBy
    ensures ArtifactKey(producer, name) !in ArtifactKeys(artifacts)
  {
    if ArtifactKey(producer, name) in ArtifactKeys(artifacts) {
      var a :| a in artifacts && ArtifactKey(a.producedBy, a.name) == ArtifactKey(producer, name);
      KeyInjective(a.producedBy, a.name, producer, name);
    }
  }

  /** Recording a teammate again changes nothing. */
  lemma RecordingAgainIsNoOp(artifacts: seq<ArtifactStatus>, tm: TeammateSpec, at: int)
    requires OnRecord(artifacts, tm)
    ensures RecordArtifacts(artifacts, tm, at) == artifacts
  {
    NewArtifactsShape(ArtifactKeys(artifacts), tm.name, tm.outputs, at);
  }

  lemma RecordingPutsOnRecord(spec: TeamSpec, artifacts: seq<ArtifactStatus>, k: nat, at: int)
    requires WellFormed(spec) && RecordInv(spec, artifacts) && k < |spec.teammates|
    ensures RecordInv(spec, RecordArtifacts(artifacts, spec.teammates[k], at))
    ensures OnRecord(RecordArtifacts(artifacts, spec.teammates[k], at), spec.teammates[k])
  {
    var tm := spec.teammates[k];
    var after := RecordArtifacts(artifacts, tm, at);
    if OnRecord(artifacts, tm) {
      RecordingAgainIsNoOp(artifacts, tm, at);
    } else {
      var added := NewArtifacts(ArtifactKeys(artifacts), tm.name, tm.outputs, at);
      forall i | 0 <= i < |tm.outputs| ensures ArtifactKey(tm.name, Base(tm.outputs[i].path)) !in ArtifactKeys(artifacts) {
        KeysByOthers(artifacts, tm.name, Base(tm.outputs[i].path));
      }
      NewArtifactsShape(ArtifactKeys(artifacts), tm.name, tm.outputs, at);
      AllNewOnRecord(ArtifactKeys(artifacts), tm, at);
      AppendedRecords(artifacts, added, tm);
      forall j | 0 <= j < |spec.teammates| ensures NoneBy(after, spec.teammates[j].name) || OnRecord(after, spec.teammates[j]) {
        if j != k {
          assert spec.teammates[j].name != tm.name;
          if OnRecord(artifacts, spec.teammates[j]) {
            AppendingKeepsRecord(artifacts, added, spec.teammates[j]);
          }
        }
      }
    }
  }

  lemma AppendedRecords(artifacts: seq<ArtifactStatus>, added: seq<ArtifactStatus>, tm: TeammateSpec)
    requires NoneBy(artifacts, tm.name)
    requires forall name :: FirstArtifact(added, tm.name, name) == OutputNamed(tm.outputs, name)
    requires forall i :: 0 <= i < |tm.outputs| ==> ArtifactKey(tm.name, Base(tm.outputs[i].path)) in ArtifactKeys(added)
    ensures OnRecord(artifacts + added, tm)
  {
    forall name ensures FirstArtifact(artifacts + added, tm.name, name) == OutputNamed(tm.outputs, name) {
      NoneByFindsNothing(artifacts, tm.name, name);
      FirstOfAppended(artifacts, added, tm.name, name);
    }
    KeysGrow(artifacts, added);
  }

  lemma KeysGrow(a: seq<ArtifactStatus>, b: seq<ArtifactStatus>)
    ensures ArtifactKeys(a) <= ArtifactKeys(a + b) && ArtifactKeys(b) <= ArtifactKeys(a + b)
  {
  }

  lemma AppendingKeepsRecord(artifacts: seq<ArtifactStatus>, added: seq<ArtifactStatus>, tm: TeammateSpec)
    requires OnRecord(artifacts, tm)
    ensures OnRecord(artifacts + added, tm)
  {
    KeysGrow(artifacts, added);
    forall name | OutputNamed(tm.outputs, name).Some?
      ensures FirstArtifact(artifacts + added, tm.name, name) == OutputNamed(tm.outputs, name)
    {
      FirstOfAppended(artifacts, added, tm.name, name);
    }
  }

  /** After a sync every Succeeded teammate is on record, and the list has only grown. */
  lemma {:induction false} SyncRecords(spec: TeamSpec, n: nat, pods: Pods, artifacts: seq<ArtifactStatus>, at: int)
    requires WellFormed(spec) && RecordInv(spec, artifacts) && n <= |spec.teammates|
    ensures var r := RecordSucceeded(spec.teammates[..n], pods, artifacts, at);
      && RecordInv(spec, r) && artifacts <= r
      && forall k :: 0 <= k < n && Succeeded(pods, spec.teammates[k].name) ==> OnRecord(r, spec.teammates[k])
  {
    if n > 0 {
      SyncRecords(spec, n - 1, pods, artifacts, at);
      var before := RecordSucceeded(spec.teammates[..n - 1], pods, artifacts, at);
      assert spec.teammates[..n][..n - 1] == spec.teammates[..n - 1];
      var tm := spec.teammates[n - 1];
      if Succeeded(pods, tm.name) {
        RecordingPutsOnRecord(spec, before, n - 1, at);
        var added := NewArtifacts(ArtifactKeys(before), tm.name, tm.outputs, at);
        forall k | 0 <= k < n - 1 && Succeeded(pods, spec.teammates[k].name) ensures OnRecord(before + added, spec.teammates[k]) {
          AppendingKeepsRecord(before, added, spec.teammates[k]);
        }
      }
    }
  }

  // ---- Routing ----

  /** The first output whose base name is the artifact's, if there is one. */
  lemma {:induction false} OutputFound(outputs: seq<OutputSpec>, artifact: string)
    ensures match OutputNamed(outputs, artifact)
      case None => forall i :: 0 <= i < |outputs| ==> Base(outputs[i].path) != artifact
      case Some(path) => exists i :: 0 <= i < |outputs| && outputs[i].path == path && Base(path) == artifact
                                     && forall j :: 0 <= j < i ==> Base(outputs[j].path) != artifact
  {
    hide Base;
    if outputs != [] && Base(outputs[0].path) != artifact {
      var rest := outputs[1..];
      OutputFound(rest, artifact);
      if OutputNamed(outputs, artifact).Some? {
        var path := OutputNamed(outputs, artifact).value;
        var i :| 0 <= i < |rest| && rest[i].path == path && Base(path) == artifact
                 && forall j :: 0 <= j < i ==> Base(rest[j].path) != artifact;
        assert outputs[i + 1] == rest[i];
        forall j | 0 <= j < i + 1 ensures Base(outputs[j].path) != artifact {
          assert j > 0 ==> outputs[j] == rest[j - 1];
        }
      } else {
        forall i | 0 <= i < |outputs| ensures Base(outputs[i].path) != artifact {
          assert i > 0 ==> outputs[i] == rest[i - 1];
        }
      }
    }
  }

  predicate Produces(tm: TeammateSpec, from: string, artifact: string) {
    tm.name == from && OutputNamed(tm.outputs, artifact).Some?
  }

  /** The path of the first teammate of that name with such an output; "" exactly if there is none, or its path is empty. */
  lemma {:induction false} ProducerFound(tms: seq<TeammateSpec>, from: string, artifact: string)
    ensures if exists k :: 0 <= k < |tms| && Produces(tms[k], from, artifact)
      then exists k :: 0 <= k < |tms| && Produces(tms[k], from, artifact)
                       && (forall j :: 0 <= j < k ==> !Produces(tms[j], from, artifact))
                       && OutputNamed(tms[k].outputs, artifact) == Some(FindProducerOutputPath(tms, from, artifact))
      else FindProducerOutputPath(tms, from, artifact) == ""
  {
    hide OutputNamed;
    if tms != [] {
      if Produces(tms[0], from, artifact) {
        assert OutputNamed(tms[0].outputs, artifact) == Some(FindProducerOutputPath(tms, from, artifact));
      } else {
        var rest := tms[1..];
        ProducerFound(rest, from, artifact);
        if j :| 0 <= j < |tms| && Produces(tms[j], from, artifact) {
          assert rest[j - 1] == tms[j];
          var k :| 0 <= k < |rest| && Produces(rest[k], from, artifact)
                   && (forall j :: 0 <= j < k ==> !Produces(rest[j], from, artifact))
                   && OutputNamed(rest[k].outputs, artifact) == Some(FindProducerOutputPath(rest, from, artifact));
          assert tms[k + 1] == rest[k];
          forall j | 0 <= j < k + 1 ensures !Produces(tms[j], from, artifact) {
            assert j > 0 ==> tms[j] == rest[j - 1];
          }
        } else {
          forall j | 0 <= j < |rest| ensures !Produces(rest[j], from, artifact) {
            assert tms[j + 1] == rest[j];
          }
        }
      }
    }
  }

  /** The input resolves and is staged as this. */
  predicate StagedAs(spec: TeamSpec, input: InputSpec, staged: StagedInput) {
    var source := FindProducerOutputPath(spec.teammates, input.from, input.artifact);
    spec.hasOutputVolume && source != "" && staged == StagedInput(input.from, input.artifact, source, input.mountPath)
  }

  /** What is staged is exactly what the resolving inputs ask for. */
  lemma {:induction false} StagedIff(spec: TeamSpec, inputs: seq<InputSpec>, staged: StagedInput)
    ensures staged in StagedInputs(spec, inputs) <==> exists i :: 0 <= i < |inputs| && StagedAs(spec, inputs[i], staged)
  {
    hide FindProducerOutputPath;
    if inputs != [] {
      var n := |inputs| - 1;
      StagedIff(spec, inputs[..n], staged);
      assert forall i :: 0 <= i < n ==> inputs[..n][i] == inputs[i];
      if i :| 0 <= i < n && StagedAs(spec, inputs[..n][i], staged) {
        assert StagedAs(spec, inputs[i], staged);
      }
    }
  }

  lemma Producer(spec: TeamSpec, input: InputSpec) returns (j: nat)
    requires FindProducerOutputPath(spec.teammates, input.from, input.artifact) != ""
    ensures j < |spec.teammates| && spec.teammates[j].name == input.from
    ensures OutputNamed(spec.teammates[j].outputs, input.artifact) == Some(FindProducerOutputPath(spec.teammates, input.from, input.artifact))
  {
    hide FindProducerOutputPath, OutputNamed;
    ProducerFound(spec.teammates, input.from, input.artifact);
    j :| 0 <= j < |spec.teammates| && Produces(spec.teammates[j], input.from, input.artifact)
         && OutputNamed(spec.teammates[j].outputs, input.artifact) == Some(FindProducerOutputPath(spec.teammates, input.from, input.artifact));
  }

  /** What is staged is exactly what the agent's resolving inputs ask for, and their producers' pods were Succeeded. */
  ghost predicate Staged(spec: TeamSpec, b: Birth) {
    forall k :: 0 <= k < |spec.teammates| && spec.teammates[k].name == b.agent ==>
      && (forall staged :: staged in b.staged <==>
            exists i :: 0 <= i < |spec.teammates[k].inputs| && StagedAs(spec, spec.teammates[k].inputs[i], staged))
      && (forall staged :: staged in b.staged ==> Succeeded(b.pods, staged.from))
  }

  lemma EnsureStages(spec: TeamSpec, m: Mem, k: nat, now: int)
    requires WellFormed(spec) && k < |spec.teammates|
    requires forall d :: WaitsFor(spec, spec.teammates[k].name, d) ==> Succeeded(m.cl.pods, d)
    ensures Staged(spec, Birthing(m, spec.teammates[k].name, StagedInputs(spec, spec.teammates[k].inputs), now))
  {
    hide FindProducerOutputPath, StagedInputs;
    var tm := spec.teammates[k];
    var b := Birthing(m, tm.name, StagedInputs(spec, tm.inputs), now);
    forall staged
      ensures staged in b.staged <==> exists i :: 0 <= i < |tm.inputs| && StagedAs(spec, tm.inputs[i], staged)
      ensures staged in b.staged ==> Succeeded(b.pods, staged.from)
    {
      StagedIff(spec, tm.inputs, staged);
      if staged in b.staged {
        var i :| 0 <= i < |tm.inputs| && StagedAs(spec, tm.inputs[i], staged);
        var j := Producer(spec, tm.inputs[i]);
        DependenciesMeaning(spec, tm);
        assert WaitsFor(spec, tm.name, tm.inputs[i].from);
      }
    }
  }

  /**
   Each input of the new pod that resolves to a producer's output is staged from the path of the first such artifact
   on record, and its producer's pod was Succeeded.
   */
  ghost predicate Routed(spec: TeamSpec, b: Birth) {
    Staged(spec, b) && forall k, i :: 0 <= k < |spec.teammates| && spec.teammates[k].name == b.agent && 0 <= i < |spec.teammates[k].inputs| ==>
      InputRouted(spec, b, spec.teammates[k].inputs[i])
  }

  ghost predicate InputRouted(spec: TeamSpec, b: Birth, input: InputSpec) {
    var source := FindProducerOutputPath(spec.teammates, input.from, input.artifact);
    spec.hasOutputVolume && source != "" ==>
      && StagedInput(input.from, input.artifact, source, input.mountPath) in b.staged
      && Succeeded(b.pods, input.from)
      && FirstArtifact(b.artifacts, input.from, input.artifact) == Some(source)
  }

  /** Succeeded teammates are on record. */
  ghost predicate SucceededOnRecord(spec: TeamSpec, m: Mem) {
    forall j :: 0 <= j < |spec.teammates| && Succeeded(m.cl.pods, spec.teammates[j].name) ==> OnRecord(m.st.artifacts, spec.teammates[j])
  }

  lemma EnsureRoutes(spec: TeamSpec, m: Mem, k: nat, now: int)
    requires WellFormed(spec) && k < |spec.teammates| && SucceededOnRecord(spec, m)
    requires forall d :: WaitsFor(spec, spec.teammates[k].name, d) ==> Succeeded(m.cl.pods, d)
    ensures Routed(spec, Birthing(m, spec.teammates[k].name, StagedInputs(spec, spec.teammates[k].inputs), now))
  {
    var tm := spec.teammates[k];
    var b := Birthing(m, tm.name, StagedInputs(spec, tm.inputs), now);
    EnsureStages(spec, m, k, now);
    hide Staged;
    forall i | 0 <= i < |tm.inputs| ensures InputRouted(spec, b, tm.inputs[i]) {
      var input := tm.inputs[i];
      var source := FindProducerOutputPath(spec.teammates, input.from, input.artifact);
      if spec.hasOutputVolume && source != "" {
        StagedIff(spec, tm.inputs, StagedInput(input.from, input.artifact, source, input.mountPath));
        assert StagedAs(spec, input, StagedInput(input.from, input.artifact, source, input.mountPath));
        var j := Producer(spec, input);
        DependenciesMeaning(spec, tm);
        DS.WaitsForDependencies(spec, k, input.from);
        assert WaitsFor(spec, tm.name, input.from);
        assert OnRecord(m.st.artifacts, spec.teammates[j]);
      }
    }
  }

  /** The births of this reconcile so far are routed; success and records stand as they were. */
  ghost predicate RoutedSince(spec: TeamSpec, m: Mem, x: Mem) {
    && x.st.artifacts == m.st.artifacts
    && m.cl.births <= x.cl.births
    && (forall a :: Succeeded(x.cl.pods, a) <==> Succeeded(m.cl.pods, a))
    && (forall i :: |m.cl.births| <= i < |x.cl.births| ==> Routed(spec, x.cl.births[i]))
  }

  lemma EnsureRoutesSince(spec: TeamSpec, m: Mem, x: Mem, k: nat, now: int)
    requires WellFormed(spec) && k < |spec.teammates| && SucceededOnRecord(spec, m) && RoutedSince(spec, m, x)
    requires forall d :: WaitsFor(spec, spec.teammates[k].name, d) ==> Succeeded(m.cl.pods, d)
    ensures RoutedSince(spec, m, EnsureAgentPod(spec, x, spec.teammates[k].name, spec.teammates[k].inputs, now))
  {
    EnsureRoutes(spec, x, k, now);
    hide Routed;
  }

  lemma LateSpawnRoutes(spec: TeamSpec, m: Mem, x: Mem, k: nat, now: int)
    requires WellFormed(spec) && k < |spec.teammates| && SucceededOnRecord(spec, m) && RoutedSince(spec, m, x)
    ensures RoutedSince(spec, m, LateSpawn(spec, x, spec.teammates[k], now))
  {
    hide Routed, EnsureAgentPod, SucceededOnRecord, WellFormed;
    var tm := spec.teammates[k];
    if DependenciesMet(x.cl.pods, EffectiveDependencies(spec, tm)) {
      forall d | WaitsFor(spec, tm.name, d) ensures Succeeded(m.cl.pods, d) {
        DS.WaitsForDependencies(spec, k, d);
      }
      EnsureRoutesSince(spec, m, x.(st := x.st.(teammates := ClearPendingApproval(x.st.teammates, tm.name))), k, now);
    }
  }

  lemma RespawnRoutes(spec: TeamSpec, m: Mem, x: Mem, k: nat, now: int)
    requires WellFormed(spec) && k < |spec.teammates| && SucceededOnRecord(spec, m) && RoutedSince(spec, m, x)
    requires HasFailed(x.cl.pods, spec.teammates[k].name) ==>
      forall d :: WaitsFor(spec, spec.teammates[k].name, d) ==> Succeeded(m.cl.pods, d)
    ensures RoutedSince(spec, m, Respawn(spec, x, spec.teammates[k], now).m)
  {
    hide Routed, EnsureAgentPod, SucceededOnRecord, WellFormed;
    var tm := spec.teammates[k];
    if HasFailed(x.cl.pods, tm.name) && RestartCount(x.st.teammates, tm.name) < MaxRestarts(spec) {
      var x1 := DeletePod(x, tm.name);
      var entries := SetRestartCount(x1.st.teammates, tm.name, RestartCount(x.st.teammates, tm.name) + 1);
      EnsureRoutesSince(spec, m, x1.(st := x1.st.(teammates := entries)), k, now);
    }
  }

  /** Every pod there is has what it waits for Succeeded. */
  ghost predicate PodsCleared(spec: TeamSpec, pods: Pods) {
    forall a, d :: a in pods && WaitsFor(spec, a, d) ==> Succeeded(pods, d)
  }

  lemma RespawnsRoute(spec: TeamSpec, m: Mem, now: int)
    requires WellFormed(spec) && m.ok && SucceededOnRecord(spec, m) && PodsCleared(spec, m.cl.pods)
    ensures RoutedSince(spec, m, Respawns(spec, m, |spec.teammates|, now).m)
  {
    hide Respawn, RoutedSince, OnlyFailedReplaced, SucceededOnRecord, WellFormed, HasFailed;
    RoutedRefl(spec, m);
    ReplacedRefl(m.cl.pods);
    var P := (k: int, x: Mem) => RoutedSince(spec, m, x) && OnlyFailedReplaced(m.cl.pods, x.cl.pods);
    var Q := (c: Checked) => RoutedSince(spec, m, c.m);
    forall k, x: Mem | 0 <= k < |spec.teammates| && x.ok && P(k, x) ensures RespawnPass(spec, now, P, Q, k, x) {
      RespawnReplaces(spec, m.cl.pods, x, spec.teammates[k], now);
      FailedWasThere(m.cl.pods, x.cl.pods, spec.teammates[k].name);
      RespawnRoutes(spec, m, x, k, now);
    }
    RespawnsRule(spec, m, |spec.teammates|, now, P, Q);
  }

  lemma FailedWasThere(before: Pods, after: Pods, a: string)
    requires OnlyFailedReplaced(before, after)
    ensures HasFailed(after, a) ==> a in before
  {
  }

  lemma RoutedRefl(spec: TeamSpec, m: Mem)
    ensures RoutedSince(spec, m, m)
  {
  }

  lemma LateSpawnsRoute(spec: TeamSpec, o: Mem, m: Mem, now: int)
    requires WellFormed(spec) && m.ok && SucceededOnRecord(spec, o) && RoutedSince(spec, o, m)
    ensures RoutedSince(spec, o, LateSpawns(spec, m, |spec.teammates|, now))
  {
    hide LateSpawn, RoutedSince, SucceededOnRecord, WellFormed;
    var P := (k: int, x: Mem) => RoutedSince(spec, o, x);
    var Q := (x: Mem) => RoutedSince(spec, o, x);
    forall k, x: Mem | 0 <= k < |spec.teammates| && x.ok && P(k, x) ensures LateSpawnPass(spec, now, P, Q, k, x) {
      LateSpawnRoutes(spec, o, x, k, now);
    }
    LateSpawnsRule(spec, m, |spec.teammates|, now, P, Q);
  }

  ghost predicate NewBirthsRouted(spec: TeamSpec, before: Cluster, after: Cluster) {
    before.births <= after.births && forall i :: |before.births| <= i < |after.births| ==> Routed(spec, after.births[i])
  }

  lemma ObserveRecords(spec: TeamSpec, m: Mem, now: int)
    requires WellFormed(spec) && RecordInv(spec, m.st.artifacts)
    ensures var o := Observe(spec, m, now);
      o.cl == m.cl && o.ok == m.ok && RecordInv(spec, o.st.artifacts) && m.st.artifacts <= o.st.artifacts && SucceededOnRecord(spec, o)
  {
    SyncRecords(spec, |spec.teammates|, m.cl.pods, m.st.artifacts, now);
    assert spec.teammates[..|spec.teammates|] == spec.teammates;
  }

  lemma SuperviseRoutes(spec: TeamSpec, m: Mem, env: Env, now: int)
    requires WellFormed(spec) && m.ok && RecordInv(spec, m.st.artifacts) && PodsCleared(spec, m.cl.pods)
    ensures var r := Supervise(spec, m, env, now);
      && NewBirthsRouted(spec, m.cl, r.cl)
      && RecordInv(spec, r.st.artifacts) && m.st.artifacts <= r.st.artifacts
  {
    hide Observe, Respawns, LateSpawns, RecordInv, WellFormed, PodsCleared, SucceededOnRecord, Routed,
      AnyAgentFailed, AllAgentsSucceeded;
    var o := Observe(spec, m, now);
    ObserveRecords(spec, m, now);
    RespawnsRoute(spec, o, now);
    var c := Respawns(spec, o, |spec.teammates|, now);
    if GoesOn(c) {
      LateSpawnsRoute(spec, o, c.m, now);
    }
  }

  // ---- Initial spawning ----

  /** The births of this deployment so far are staged from Succeeded producers. */
  ghost predicate StagedSince(spec: TeamSpec, m: Mem, x: Mem) {
    && m.cl.births <= x.cl.births
    && (forall i :: |m.cl.births| <= i < |x.cl.births| ==> Staged(spec, x.cl.births[i]))
  }

  lemma FirstSpawnStages(spec: TeamSpec, m: Mem, x: Mem, k: nat, now: int)
    requires WellFormed(spec) && k < |spec.teammates| && StagedSince(spec, m, x)
    ensures StagedSince(spec, m, FirstSpawn(spec, x, spec.teammates[k], now))
  {
    hide Staged, WellFormed, StagedInputs, EffectiveDependencies, HeldAt, SetPendingApproval;
    var tm := spec.teammates[k];
    if DependenciesMet(x.cl.pods, EffectiveDependencies(spec, tm)) {
      forall d | WaitsFor(spec, tm.name, d) ensures Succeeded(x.cl.pods, d) {
        DS.WaitsForDependencies(spec, k, d);
      }
      EnsureStages(spec, x, k, now);
    }
  }

  lemma LeadIsStaged(spec: TeamSpec, b: Birth)
    requires WellFormed(spec) && b.agent == LEAD
    ensures Staged(spec, b)
  {
  }

  lemma DeployStages(spec: TeamSpec, m: Mem, now: int)
    requires WellFormed(spec) && m.ok
    ensures StagedSince(spec, m, Deploy(spec, m, now))
  {
    hide FirstSpawn, Staged, WellFormed;
    var m1 := EnsureAgentPod(spec, m, LEAD, [], now);
    LeadIsStaged(spec, Birthing(m, LEAD, StagedInputs(spec, []), now));
    if m1.ok {
      var P := (k: int, x: Mem) => StagedSince(spec, m, x);
      var Q := (x: Mem) => StagedSince(spec, m, x);
      forall k, x: Mem | 0 <= k < |spec.teammates| && x.ok && P(k, x) ensures FirstSpawnPass(spec, now, P, Q, k, x) {
        FirstSpawnStages(spec, m, x, k, now);
      }
      FirstSpawnsRule(spec, m1, |spec.teammates|, now, P, Q);
    }
  }

  // ---- Runs ----

  ghost predicate BirthRouted(spec: TeamSpec, aborts: nat, b: Birth) {
    && (b.during == Running ==> Routed(spec, b))
    && (b.during == Initializing ==> Staged(spec, b) && b.artifacts == [] && (aborts == 0 ==> b.succeeded == {}))
  }

  ghost predicate RoutingInv(spec: TeamSpec, s: System) {
    && RecordInv(spec, s.st.artifacts)
    && (s.st.phase in [Unset, Initializing] ==> s.st.artifacts == [])
    && (s.aborts == 0 && s.st.phase in [Unset, Initializing] ==> s.cl.births == [])
    && forall i :: 0 <= i < |s.cl.births| ==> BirthRouted(spec, s.aborts, s.cl.births[i])
  }

  lemma LivePodsCleared(spec: TeamSpec, s: System)
    requires DS.ClusterInv(spec, s.cl) && IntactInv(spec, s) && Alive(spec, s)
    ensures PodsCleared(spec, s.cl.pods)
  {
    forall a, d | a in s.cl.pods && WaitsFor(spec, a, d) ensures Succeeded(s.cl.pods, d) {
      BornDependenciesStand(spec, s, a, d);
    }
  }

  /** All the invariants this module builds on. */
  ghost predicate Reachable(spec: TeamSpec, s: System) {
    DS.ClusterInv(spec, s.cl) && Lifecycles.LifeInv(spec, s) && IntactInv(spec, s)
  }

  lemma RunIsReachable(spec: TeamSpec, steps: seq<Step>)
    requires WellFormed(spec)
    ensures Reachable(spec, Run(spec, steps))
  {
    DS.RunKeeps(spec, steps);
    Lifecycles.RunKeeps(spec, steps);
    Intactness.RunKeeps(spec, steps);
  }

  lemma SameBirthsRouted(spec: TeamSpec, s: System, t: System)
    requires RoutingInv(spec, s) && t.cl.births == s.cl.births && RecordInv(spec, t.st.artifacts) && t.aborts >= s.aborts
    requires t.st.phase in [Unset, Initializing] ==> s.st.phase in [Unset, Initializing] && t.st.artifacts == s.st.artifacts
    ensures RoutingInv(spec, t)
  {
  }

  lemma RunningKeeps(spec: TeamSpec, s: System, env: Env)
    requires WellFormed(spec) && RoutingInv(spec, s) && Reachable(spec, s) && s.st.phase == Running
    ensures RoutingInv(spec, Next(spec, s, Reconciles(env))) && s.st.artifacts <= Next(spec, s, Reconciles(env)).st.artifacts
  {
    hide Halt, Supervise, RecordInv, Routed, WellFormed, IsTimedOut, IsBudgetExceeded, DS.ClusterInv, DistinctEntries;
    var m := Begin(s, env);
    var t := Next(spec, s, Reconciles(env));
    if Doomed(spec, s.st, s.now) {
      Lifecycles.HaltWrites(spec, m, env, TimedOut);
      Lifecycles.HaltWrites(spec, m.(st := m.st.(estimatedCost := EstimatedCost(spec, m.st, s.now))), env, BudgetExceeded);
      SameBirthsRouted(spec, s, t);
    } else {
      LivePodsCleared(spec, s);
      SuperviseRoutes(spec, m, env, s.now);
      if Outcome(spec, s, env).ok {
        Lifecycles.SuperviseWrites(spec, m, env, s.now);
      }
      Lifecycles.SuperviseExtends(spec, m, env, s.now);
      RoutedRunning(spec, s, t);
    }
  }

  lemma RoutedRunning(spec: TeamSpec, s: System, t: System)
    requires RoutingInv(spec, s) && NewBirthsRouted(spec, s.cl, t.cl) && RecordInv(spec, t.st.artifacts)
    requires t.aborts >= s.aborts && t.st.phase !in [Unset, Initializing]
    requires forall i :: |s.cl.births| <= i < |t.cl.births| ==> t.cl.births[i].during == Running
    ensures RoutingInv(spec, t)
  {
  }

  lemma InitializingKeeps(spec: TeamSpec, s: System, env: Env)
    requires WellFormed(spec) && RoutingInv(spec, s) && Reachable(spec, s) && s.st.phase == Initializing
    ensures RoutingInv(spec, Next(spec, s, Reconciles(env))) && s.st.artifacts <= Next(spec, s, Reconciles(env)).st.artifacts
  {
    hide Deploy, RecordInv, Routed, Staged, WellFormed, IsTimedOut, DistinctEntries;
    var m := Begin(s, env);
    var t := Next(spec, s, Reconciles(env));
    DeployFrame(spec, m, s.now);
    DeployStages(spec, m, s.now);
    if t.cl.births == s.cl.births {
      SameBirthsRouted(spec, s, t);
    } else {
      var r := Deploy(spec, m, s.now);
      assert s.aborts == 0 ==> s.cl.succeeded == {};
      forall i | 0 <= i < |t.cl.births| ensures BirthRouted(spec, t.aborts, t.cl.births[i]) {
        if i < |s.cl.births| {
          assert BirthRouted(spec, s.aborts, s.cl.births[i]);
          assert t.cl.births[i] == s.cl.births[i];
        } else {
          assert FreshBirth(m, r.cl.births[i], s.now);
        }
      }
    }
  }

  lemma NextKeeps(spec: TeamSpec, s: System, step: Step)
    requires WellFormed(spec) && RoutingInv(spec, s) && Reachable(spec, s)
    ensures RoutingInv(spec, Next(spec, s, step)) && s.st.artifacts <= Next(spec, s, step).st.artifacts
  {
    if step.Reconciles? && s.st.phase == Running {
      RunningKeeps(spec, s, step.env);
    } else if step.Reconciles? && s.st.phase == Initializing {
      InitializingKeeps(spec, s, step.env);
    } else {
      hide TerminateAllPods, RecordInv;
      if step.Reconciles? {
        Lifecycles.TerminateWrites(spec, Begin(s, step.env), step.env);
      }
      SameBirthsRouted(spec, s, Next(spec, s, step));
    }
  }

  lemma {:induction false} RunKeeps(spec: TeamSpec, steps: seq<Step>)
    requires WellFormed(spec)
    ensures RoutingInv(spec, Run(spec, steps))
  {
    if steps != [] {
      RunKeeps(spec, steps[..|steps| - 1]);
      RunIsReachable(spec, steps[..|steps| - 1]);
      NextKeeps(spec, Run(spec, steps[..|steps| - 1]), steps[|steps| - 1]);
    } else {
      assert FreshStatus.artifacts == [];
    }
  }

  /** A teammate waits for the producer of each of its inputs that resolves. */
  lemma WaitsForProducer(spec: TeamSpec, k: nat, i: nat)
    requires WellFormed(spec) && k < |spec.teammates| && i < |spec.teammates[k].inputs|
    ensures var input := spec.teammates[k].inputs[i];
      FindProducerOutputPath(spec.teammates, input.from, input.artifact) != "" ==> WaitsFor(spec, spec.teammates[k].name, input.from)
  {
    hide EffectiveDependencies;
    var input := spec.teammates[k].inputs[i];
    if FindProducerOutputPath(spec.teammates, input.from, input.artifact) != "" {
      var j := Producer(spec, input);
      DependenciesMeaning(spec, spec.teammates[k]);
    }
  }

  /** A pod created while nothing has Succeeded has no input that resolves. */
  lemma UndependentIsRouted(spec: TeamSpec, b: Birth)
    requires WellFormed(spec) && DS.SafeBirth(spec, b) && b.succeeded == {}
    requires Staged(spec, b)
    ensures Routed(spec, b)
  {
    hide Staged, FindProducerOutputPath, WaitsFor;
    forall k, i | 0 <= k < |spec.teammates| && spec.teammates[k].name == b.agent && 0 <= i < |spec.teammates[k].inputs|
      ensures InputRouted(spec, b, spec.teammates[k].inputs[i])
    {
      WaitsForProducer(spec, k, i);
    }
  }

  /** The teammate of the new pod has this input, and it resolves to the producer's output at source. */
  ghost predicate Resolves(spec: TeamSpec, b: Birth, input: InputSpec, source: string) {
    && (exists k :: 0 <= k < |spec.teammates| && spec.teammates[k].name == b.agent && input in spec.teammates[k].inputs)
    && spec.hasOutputVolume && source != "" && source == FindProducerOutputPath(spec.teammates, input.from, input.artifact)
  }

  lemma ResolvingIsStaged(spec: TeamSpec, b: Birth, input: InputSpec, source: string)
    requires Staged(spec, b) && Resolves(spec, b, input, source)
    ensures StagedInput(input.from, input.artifact, source, input.mountPath) in b.staged && Succeeded(b.pods, input.from)
  {
    hide FindProducerOutputPath;
    var k :| 0 <= k < |spec.teammates| && spec.teammates[k].name == b.agent && input in spec.teammates[k].inputs;
    var i :| 0 <= i < |spec.teammates[k].inputs| && spec.teammates[k].inputs[i] == input;
    assert StagedAs(spec, spec.teammates[k].inputs[i], StagedInput(input.from, input.artifact, source, input.mountPath));
  }

  lemma RoutedResolves(spec: TeamSpec, b: Birth, input: InputSpec, source: string)
    requires Routed(spec, b) && Resolves(spec, b, input, source)
    ensures FirstArtifact(b.artifacts, input.from, input.artifact) == Some(source)
  {
    hide FindProducerOutputPath, FirstArtifact, Staged;
    var k :| 0 <= k < |spec.teammates| && spec.teammates[k].name == b.agent && input in spec.teammates[k].inputs;
    var i :| 0 <= i < |spec.teammates[k].inputs| && spec.teammates[k].inputs[i] == input;
    assert InputRouted(spec, b, spec.teammates[k].inputs[i]);
  }

  /**
   Over every run, aborted reconciles included: whatever a created pod has staged comes from resolving inputs of its
   teammate whose producers' pods were Succeeded; each resolving input is staged from the producer's path; and that path
   is on record, as that of the first such artifact, if and only if the pod was created while Running.
   */
  lemma InputsAreRouted(spec: TeamSpec, steps: seq<Step>, i: nat, input: InputSpec, source: string)
    requires WellFormed(spec) && i < |Run(spec, steps).cl.births|
    requires Resolves(spec, Run(spec, steps).cl.births[i], input, source)
    ensures var b := Run(spec, steps).cl.births[i];
      && Staged(spec, b)
      && StagedInput(input.from, input.artifact, source, input.mountPath) in b.staged
      && Succeeded(b.pods, input.from)
      && (FirstArtifact(b.artifacts, input.from, input.artifact) == Some(source) <==> b.during == Running)
  {
    hide Run, Resolves, Staged, RecordInv, DS.ClusterInv, IntactInv;
    var s := Run(spec, steps);
    var b := s.cl.births[i];
    RunKeeps(spec, steps);
    RunIsReachable(spec, steps);
    assert BirthRouted(spec, s.aborts, b) && Lifecycles.InTime(spec, s.st, s.now, b);
    ResolvingIsStaged(spec, b, input, source);
    if b.during == Running {
      RoutedResolves(spec, b, input, source);
    }
  }

  /** Over every run of committed reconciles no pod created before Running has an input that resolves. */
  lemma CommittedRunsRoute(spec: TeamSpec, steps: seq<Step>, i: nat)
    requires WellFormed(spec) && i < |Run(spec, steps).cl.births| && Run(spec, steps).aborts == 0
    ensures Routed(spec, Run(spec, steps).cl.births[i])
  {
    hide Run, Routed, Staged, RecordInv, IntactInv;
    var s := Run(spec, steps);
    RunKeeps(spec, steps);
    RunIsReachable(spec, steps);
    assert BirthRouted(spec, s.aborts, s.cl.births[i]);
    assert Lifecycles.InTime(spec, s.st, s.now, s.cl.births[i]);
    assert DS.HistoryOk(spec, s.cl, i);
    if s.cl.births[i].during == Initializing {
      UndependentIsRouted(spec, s.cl.births[i]);
    }
  }

  /** Along any run the stored artifact list only grows; no entry is ever rewritten. */
  lemma {:induction false} ArtifactsOnlyGrow(spec: TeamSpec, steps: seq<Step>, more: seq<Step>)
    requires WellFormed(spec)
    ensures Run(spec, steps).st.artifacts <= Run(spec, steps + more).st.artifacts
  {
    if more == [] {
      assert steps + more == steps;
    } else {
      var n := |more| - 1;
      assert (steps + more)[..|steps + more| - 1] == steps + more[..n];
      ArtifactsOnlyGrow(spec, steps, more[..n]);
      RunKeeps(spec, steps + more[..n]);
      RunIsReachable(spec, steps + more[..n]);
      NextKeeps(spec, Run(spec, steps + more[..n]), more[n]);
    }
  }
}
