/** The loops that derive a teammate's dependencies, gates and input paths from the spec, against their definitions. */
module TeamGraph {
  import opened Options
  import opened TeamSpecs
  import opened TeamStatuses

  method FindStageForTeammate(spec: TeamSpec, name: string) returns (found: Option<StageSpec>)
    ensures found == StageForTeammate(spec, name)
  {
    if spec.pipeline.None? {
      return None;
    }
    var stages := spec.pipeline.value;
    var i := 0;
    while i < |stages|
      invariant i <= |stages| && StageListing(stages, name) == StageListing(stages[i..], name)
    {
      var j := 0;
      while j < |stages[i].teammates|
        invariant j <= |stages[i].teammates| && name !in stages[i].teammates[..j]
      {
        if stages[i].teammates[j] == name {
          return Some(stages[i]);
        }
        j := j + 1;
      }
      assert stages[i..][1..] == stages[i + 1..];
      i := i + 1;
    }
    found := None;
  }

  method CollectPipelineDependencies(spec: TeamSpec, name: string) returns (deps: seq<string>)
    ensures deps == PipelineDependencies(spec, name)
  {
    var stage := FindStageForTeammate(spec, name);
    deps := [];
    if stage.None? || stage.value.dependsOn == [] {
      return;
    }
    var stages := spec.pipeline.value;
    var byName: map<string, StageSpec> := map[];
    for i := 0 to |stages|
      invariant byName == StageIndex(stages[..i])
    {
      assert stages[..i + 1][..i] == stages[..i];
      byName := byName[stages[i].name := stages[i]];
    }
    assert stages[..|stages|] == stages;
    var upstream := stage.value.dependsOn;
    for i := 0 to |upstream|
      invariant deps == TeammatesOf(byName, upstream[..i])
    {
      assert upstream[..i + 1][..i] == upstream[..i];
      if upstream[i] in byName {
        deps := deps + byName[upstream[i]].teammates;
      }
    }
    assert upstream[..|upstream|] == upstream;
  }

  /** Appends the names not seen before, in order, skipping empty ones. */
  method Add(seen: set<string>, out: seq<string>, names: seq<string>) returns (seen': set<string>, out': seq<string>)
    requires seen == set d | d in out
    ensures out' == AddAll(out, names) && seen' == set d | d in out'
  {
    seen', out' := seen, out;
    for i := 0 to |names|
      invariant out' == AddAll(out, names[..i]) && seen' == set d | d in out'
    {
      assert names[..i + 1][..i] == names[..i];
      if names[i] != "" && names[i] !in seen' {
        seen' := seen' + {names[i]};
        out' := out' + [names[i]];
      }
    }
    assert names[..|names|] == names;
  }

  method CollectEffectiveDependencies(spec: TeamSpec, tm: TeammateSpec) returns (deps: seq<string>)
    ensures deps == EffectiveDependencies(spec, tm)
  {
    var seen := {};
    deps := [];
    if spec.pipeline.Some? {
      var upstream := CollectPipelineDependencies(spec, tm.name);
      seen, deps := Add(seen, deps, upstream);
    } else {
      seen, deps := Add(seen, deps, tm.dependsOn);
    }
    seen, deps := Add(seen, deps, InputSources(tm.inputs));
  }

  /** Whether the event's gate, if there is one, carries its approval annotation. */
  method CheckApprovalGate(spec: TeamSpec, annotations: set<string>, event: string) returns (open: bool)
    ensures open <==> ApprovalGate(spec, annotations, event)
  {
    if spec.lifecycle.None? || |spec.lifecycle.value.approvalGates| == 0 {
      return true;
    }
    var gates := spec.lifecycle.value.approvalGates;
    var gated := false;
    var i := 0;
    while i < |gates| && !gated
      invariant i <= |gates| && (gated <==> event in gates[..i])
    {
      gated := gates[i] == event;
      i := i + 1;
    }
    if !gated {
      return true;
    }
    open := event in annotations;
  }

  /** The gate a teammate is held at, in the order the reconciler asks: the stage's first, then the teammate's own. */
  method FindGate(spec: TeamSpec, annotations: set<string>, name: string) returns (held: string)
    ensures held == HeldAt(spec, annotations, name)
  {
    var stage := FindStageForTeammate(spec, name);
    if stage.Some? && !StageApprovalGranted(annotations, stage.value) {
      return StageEvent(stage.value);
    }
    var open := CheckApprovalGate(spec, annotations, SpawnEvent(name));
    held := if open then "" else SpawnEvent(name);
  }

  method LookUpProducerOutputPath(tms: seq<TeammateSpec>, from: string, artifact: string) returns (path: string)
    ensures path == FindProducerOutputPath(tms, from, artifact)
  {
    var i := 0;
    while i < |tms|
      invariant i <= |tms| && FindProducerOutputPath(tms, from, artifact) == FindProducerOutputPath(tms[i..], from, artifact)
    {
      if tms[i].name == from {
        var outputs := tms[i].outputs;
        var j := 0;
        while j < |outputs|
          invariant j <= |outputs| && OutputNamed(outputs, artifact) == OutputNamed(outputs[j..], artifact)
        {
          if Base(outputs[j].path) == artifact {
            return outputs[j].path;
          }
          assert outputs[j..][1..] == outputs[j + 1..];
          j := j + 1;
        }
      }
      assert tms[i..][1..] == tms[i + 1..];
      i := i + 1;
    }
    path := "";
  }

  /** The init containers of a pod: one staged copy per input whose producer declares the artifact. */
  method StageInputs(spec: TeamSpec, inputs: seq<InputSpec>) returns (staged: seq<StagedInput>)
    ensures staged == StagedInputs(spec, inputs)
  {
    staged := [];
    if !spec.hasOutputVolume || |inputs| == 0 {
      return;
    }
    for i := 0 to |inputs|
      invariant staged == StagedInputs(spec, inputs[..i])
    {
      assert inputs[..i + 1][..i] == inputs[..i];
      var path := LookUpProducerOutputPath(spec.teammates, inputs[i].from, inputs[i].artifact);
      if path != "" {
        staged := staged + [StagedInput(inputs[i].from, inputs[i].artifact, path, inputs[i].mountPath)];
      }
    }
    assert inputs[..|inputs|] == inputs;
  }
}
