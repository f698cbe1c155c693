/** The declared side of an AgentTeam: its spec and the dependency graph derived from it. */
module TeamSpecs {
  import opened Options

  datatype InputSpec = InputSpec(from: string, artifact: string, mountPath: string)

  datatype OutputSpec = OutputSpec(path: string)

  datatype TeammateSpec = TeammateSpec(
    name: string, model: string, dependsOn: seq<string>, inputs: seq<InputSpec>, outputs: seq<OutputSpec>)

  datatype StageSpec = StageSpec(name: string, teammates: seq<string>, dependsOn: seq<string>, approvalRequired: bool)

  datatype DeliveryTarget = DeliveryTarget(kind: string, address: string)

  /** A duration field: absent, not accepted by the duration parser, or a length in nanoseconds. */
  datatype Timeout = Default | Unparsable | Parsed(nanos: int)

  /** budgetLimit holds the number scanned from the text, 0.0 when the text is not a number. */
  datatype Lifecycle = Lifecycle(
    timeout: Timeout, maxRestarts: Option<int>, budgetLimit: Option<real>, approvalGates: seq<string>,
    onComplete: string, delivery: seq<DeliveryTarget>)

  datatype TeamSpec = TeamSpec(
    leadModel: string, teammates: seq<TeammateSpec>, pipeline: Option<seq<StageSpec>>,
    lifecycle: Option<Lifecycle>, hasRepository: bool, hasOutputVolume: bool)

  const LEAD: string := "lead"
  const SECOND: int := 1_000_000_000
  const DEFAULT_MAX_RESTARTS: int := 3

  /**
   Teammate names are not empty and have no slash, as the schema's name pattern demands. That they are distinct, which only
   template validation checks, and that none is called lead, which nothing forbids, are assumptions.
   */
  ghost predicate WellFormed(spec: TeamSpec) {
    && (forall i, j :: 0 <= i < j < |spec.teammates| ==> spec.teammates[i].name != spec.teammates[j].name)
    && (forall i :: 0 <= i < |spec.teammates| ==> spec.teammates[i].name !in [LEAD, ""] && '/' !in spec.teammates[i].name)
  }

  predicate Declared(spec: TeamSpec, name: string) {
    exists i :: 0 <= i < |spec.teammates| && spec.teammates[i].name == name
  }

  ghost predicate IsAgent(spec: TeamSpec, name: string) { name == LEAD || Declared(spec, name) }

  function TeammateNames(tms: seq<TeammateSpec>): (names: seq<string>)
    ensures |names| == |tms| && forall i :: 0 <= i < |tms| ==> names[i] == tms[i].name
  {
    seq(|tms|, i requires 0 <= i < |tms| => tms[i].name)
  }

  function AgentNames(spec: TeamSpec): seq<string> { [LEAD] + TeammateNames(spec.teammates) }

  function Models(spec: TeamSpec): seq<string> {
    [spec.leadModel] + seq(|spec.teammates|, i requires 0 <= i < |spec.teammates| => spec.teammates[i].model)
  }

  function MaxRestarts(spec: TeamSpec): int {
    if spec.lifecycle.None? || spec.lifecycle.value.maxRestarts.None? then DEFAULT_MAX_RESTARTS
    else spec.lifecycle.value.maxRestarts.value
  }

  function OnComplete(spec: TeamSpec): string {
    if spec.lifecycle.None? then "" else spec.lifecycle.value.onComplete
  }

  function Stages(spec: TeamSpec): seq<StageSpec> {
    if spec.pipeline.None? then [] else spec.pipeline.value
  }

  // ---- Stage lookup ----

  /** The first stage that lists the teammate. */
  function StageListing(stages: seq<StageSpec>, name: string): Option<StageSpec> {
    if stages == [] then None
    else if name in stages[0].teammates then Some(stages[0])
    else StageListing(stages[1..], name)
  }

  lemma {:induction false} StageListingFindsFirst(stages: seq<StageSpec>, name: string)
    ensures StageListing(stages, name).None? ==> forall i :: 0 <= i < |stages| ==> name !in stages[i].teammates
    ensures StageListing(stages, name).Some? ==>
      exists i :: 0 <= i < |stages| && stages[i] == StageListing(stages, name).value && name in stages[i].teammates
                  && forall k :: 0 <= k < i ==> name !in stages[k].teammates
  {
    if stages != [] && name !in stages[0].teammates {
      StageListingFindsFirst(stages[1..], name);
      if StageListing(stages, name).Some? {
        var i :| 0 <= i < |stages[1..]| && stages[1..][i] == StageListing(stages[1..], name).value && name in stages[1..][i].teammates
                 && forall k :: 0 <= k < i ==> name !in stages[1..][k].teammates;
        assert stages[i + 1] == stages[1..][i];
        forall k | 0 <= k < i + 1 ensures name !in stages[k].teammates {
          assert k > 0 ==> stages[k] == stages[1..][k - 1];
        }
      } else {
        forall i | 0 <= i < |stages| ensures name !in stages[i].teammates {
          assert i > 0 ==> stages[i] == stages[1..][i - 1];
        }
      }
    }
  }

  function StageForTeammate(spec: TeamSpec, name: string): Option<StageSpec> { StageListing(Stages(spec), name) }

  /** The stage index the source builds: a later stage replaces an earlier one of the same name. */
  function StageIndex(stages: seq<StageSpec>): map<string, StageSpec> {
    if stages == [] then map[]
    else StageIndex(stages[..|stages| - 1])[stages[|stages| - 1].name := stages[|stages| - 1]]
  }

  /** No later stage has the name of stage i. */
  ghost predicate LastOfName(stages: seq<StageSpec>, i: int)
    requires 0 <= i < |stages|
  {
    forall k :: i < k < |stages| ==> stages[k].name != stages[i].name
  }

  lemma {:induction false} StageIndexHoldsStages(stages: seq<StageSpec>)
    ensures forall n :: n in StageIndex(stages) ==> StageIndex(stages)[n] in stages && StageIndex(stages)[n].name == n
    ensures forall i :: 0 <= i < |stages| ==> stages[i].name in StageIndex(stages)
  {
    if stages != [] {
      StageIndexHoldsStages(stages[..|stages| - 1]);
    }
  }

  /** Of several stages of one name the index holds the last. */
  lemma {:induction false} LastStageWins(stages: seq<StageSpec>, i: nat)
    requires i < |stages| && LastOfName(stages, i)
    ensures stages[i].name in StageIndex(stages) && StageIndex(stages)[stages[i].name] == stages[i]
  {
    var n := |stages| - 1;
    if i < n {
      assert stages[..n][i] == stages[i];
      LastStageWins(stages[..n], i);
    }
  }

  function TeammatesOf(index: map<string, StageSpec>, upstream: seq<string>): seq<string> {
    if upstream == [] then []
    else
      var u := upstream[|upstream| - 1];
      TeammatesOf(index, upstream[..|upstream| - 1]) + if u in index then index[u].teammates else []
  }

  lemma {:induction false} TeammatesOfUpstream(index: map<string, StageSpec>, upstream: seq<string>, d: string)
    ensures d in TeammatesOf(index, upstream) <==> exists u :: u in upstream && u in index && d in index[u].teammates
  {
    if upstream != [] {
      var u := upstream[|upstream| - 1];
      TeammatesOfUpstream(index, upstream[..|upstream| - 1], d);
      assert upstream == upstream[..|upstream| - 1] + [u];
    }
  }

  function PipelineDependencies(spec: TeamSpec, name: string): seq<string> {
    match StageForTeammate(spec, name)
    case None => []
    case Some(stage) => TeammatesOf(StageIndex(Stages(spec)), stage.dependsOn)
  }

  // ---- Effective dependencies ----

  function AddName(acc: seq<string>, name: string): seq<string> {
    if name == "" || name in acc then acc else acc + [name]
  }

  predicate NoRepeats(s: seq<string>) { forall i, j :: 0 <= i < j < |s| ==> s[i] != s[j] }

  function AddAll(acc: seq<string>, names: seq<string>): seq<string> {
    if names == [] then acc else AddName(AddAll(acc, names[..|names| - 1]), names[|names| - 1])
  }

  lemma {:induction false} AddAllCollects(acc: seq<string>, names: seq<string>)
    ensures forall d :: d in AddAll(acc, names) <==> d in acc || (d != "" && d in names)
    ensures NoRepeats(acc) ==> NoRepeats(AddAll(acc, names))
  {
    if names != [] {
      AddAllCollects(acc, names[..|names| - 1]);
      assert names == names[..|names| - 1] + [names[|names| - 1]];
    }
  }

  function InputSources(inputs: seq<InputSpec>): seq<string> {
    seq(|inputs|, i requires 0 <= i < |inputs| => inputs[i].from)
  }

  function OrderingDependencies(spec: TeamSpec, tm: TeammateSpec): seq<string> {
    if spec.pipeline.Some? then PipelineDependencies(spec, tm.name) else tm.dependsOn
  }

  function EffectiveDependencies(spec: TeamSpec, tm: TeammateSpec): seq<string> {
    AddAll(AddAll([], OrderingDependencies(spec, tm)), InputSources(tm.inputs))
  }

  /** Stage i is the first to list the teammate. */
  ghost predicate FirstToList(spec: TeamSpec, i: int, name: string) {
    && 0 <= i < |Stages(spec)| && name in Stages(spec)[i].teammates
    && forall k :: 0 <= k < i ==> name !in Stages(spec)[k].teammates
  }

  lemma FirstToListFound(spec: TeamSpec, name: string)
    ensures StageForTeammate(spec, name).None? ==> forall i :: !FirstToList(spec, i, name)
    ensures forall i :: FirstToList(spec, i, name) ==> StageForTeammate(spec, name) == Some(Stages(spec)[i])
    ensures StageForTeammate(spec, name).Some? ==>
      exists i :: FirstToList(spec, i, name) && StageForTeammate(spec, name) == Some(Stages(spec)[i])
  {
    StageListingFindsFirst(Stages(spec), name);
    if StageForTeammate(spec, name).Some? {
      var stages := Stages(spec);
      var i :| 0 <= i < |stages| && stages[i] == StageListing(stages, name).value && name in stages[i].teammates
               && forall k :: 0 <= k < i ==> name !in stages[k].teammates;
      assert FirstToList(spec, i, name);
    }
  }

  /** The teammate's stage depends on a declared stage, the last of its name, that lists d. */
  ghost predicate ListedUpstream(spec: TeamSpec, name: string, d: string) {
    exists i, j :: FirstToList(spec, i, name) && 0 <= j < |Stages(spec)| && LastOfName(Stages(spec), j)
                   && Stages(spec)[j].name in Stages(spec)[i].dependsOn && d in Stages(spec)[j].teammates
  }

  /** In pipeline mode: waits on every teammate of every declared upstream stage of its stage. */
  lemma PipelineDependenciesMeaning(spec: TeamSpec, name: string, d: string)
    ensures d in PipelineDependencies(spec, name) <==> ListedUpstream(spec, name, d)
  {
    hide StageIndex, StageForTeammate, FirstToList, TeammatesOf;
    var stages, stage := Stages(spec), StageForTeammate(spec, name);
    FirstToListFound(spec, name);
    if stage.Some? {
      TeammatesOfUpstream(StageIndex(stages), stage.value.dependsOn, d);
      forall u ensures u in StageIndex(stages) && d in StageIndex(stages)[u].teammates
                       <==> exists j :: 0 <= j < |stages| && LastOfName(stages, j) && stages[j].name == u && d in stages[j].teammates
      {
        IndexedIsLast(stages, u);
      }
    }
  }

  lemma IndexedIsLast(stages: seq<StageSpec>, u: string)
    ensures forall j :: 0 <= j < |stages| && LastOfName(stages, j) && stages[j].name == u ==>
      u in StageIndex(stages) && StageIndex(stages)[u] == stages[j]
    ensures u in StageIndex(stages) ==> exists j :: 0 <= j < |stages| && LastOfName(stages, j) && stages[j].name == u
  {
    hide LastOfName, StageIndex;
    forall j | 0 <= j < |stages| && LastOfName(stages, j) && stages[j].name == u
      ensures u in StageIndex(stages) && StageIndex(stages)[u] == stages[j]
    {
      LastStageWins(stages, j);
    }
    if u in StageIndex(stages) {
      StageIndexHoldsStages(stages);
      var j :| 0 <= j < |stages| && stages[j] == StageIndex(stages)[u];
      var last := LastWithName(stages, j);
    }
  }

  lemma {:induction false} LastWithName(stages: seq<StageSpec>, j: nat) returns (last: nat)
    requires j < |stages|
    ensures last < |stages| && stages[last].name == stages[j].name && LastOfName(stages, last)
    decreases |stages| - j
  {
    if k :| j < k < |stages| && stages[k].name == stages[j].name {
      last := LastWithName(stages, k);
    } else {
      last := j;
    }
  }

  /**
   What a teammate waits for, each non-empty name once: with a pipeline the teammates listed upstream, without one its
   dependsOn, and in both cases the producers of its inputs. The order does not matter to any user.
   */
  lemma DependenciesMeaning(spec: TeamSpec, tm: TeammateSpec)
    ensures NoRepeats(EffectiveDependencies(spec, tm))
    ensures forall d :: d in EffectiveDependencies(spec, tm) <==>
      d != "" && ((if spec.pipeline.Some? then ListedUpstream(spec, tm.name, d) else d in tm.dependsOn)
                  || exists i :: 0 <= i < |tm.inputs| && tm.inputs[i].from == d)
  {
    hide ListedUpstream, PipelineDependencies;
    AddAllCollects([], OrderingDependencies(spec, tm));
    AddAllCollects(AddAll([], OrderingDependencies(spec, tm)), InputSources(tm.inputs));
    forall d ensures d in OrderingDependencies(spec, tm) <==>
      if spec.pipeline.Some? then ListedUpstream(spec, tm.name, d) else d in tm.dependsOn
    {
      PipelineDependenciesMeaning(spec, tm.name, d);
    }
    forall d ensures d in InputSources(tm.inputs) <==> exists i :: 0 <= i < |tm.inputs| && tm.inputs[i].from == d {
      if i :| 0 <= i < |tm.inputs| && tm.inputs[i].from == d {
        assert InputSources(tm.inputs)[i] == d;
      }
    }
  }

  /** The named teammate waits for d (and so is declared). */
  ghost predicate WaitsFor(spec: TeamSpec, name: string, d: string) {
    exists i :: 0 <= i < |spec.teammates| && spec.teammates[i].name == name && d in EffectiveDependencies(spec, spec.teammates[i])
  }

  // ---- Approval gates ----

  function StageEvent(stage: StageSpec): string { "stage-" + stage.name }

  function SpawnEvent(name: string): string { "spawn-" + name }

  predicate StageApprovalGranted(granted: set<string>, stage: StageSpec) {
    !stage.approvalRequired || StageEvent(stage) in granted
  }

  predicate ApprovalGate(spec: TeamSpec, granted: set<string>, event: string) {
    spec.lifecycle.None? || event !in spec.lifecycle.value.approvalGates || event in granted
  }

  /** The gate the teammate is held at under these annotations, or "" when it may be spawned. */
  function HeldAt(spec: TeamSpec, granted: set<string>, name: string): string {
    var stage := StageForTeammate(spec, name);
    if stage.Some? && !StageApprovalGranted(granted, stage.value) then StageEvent(stage.value)
    else if !ApprovalGate(spec, granted, SpawnEvent(name)) then SpawnEvent(name)
    else ""
  }

  /** The teammate's stage asks for this annotation. */
  ghost predicate StageAsks(spec: TeamSpec, name: string, event: string) {
    exists i :: FirstToList(spec, i, name) && Stages(spec)[i].approvalRequired && event == "stage-" + Stages(spec)[i].name
  }

  /** A declared spawn gate of the teammate asks for this annotation. */
  ghost predicate SpawnAsks(spec: TeamSpec, name: string, event: string) {
    spec.lifecycle.Some? && event in spec.lifecycle.value.approvalGates && event == "spawn-" + name
  }

  /** Both gates of the teammate are open: every annotation asked for is there. */
  ghost predicate GatesOpen(spec: TeamSpec, granted: set<string>, name: string) {
    forall event :: StageAsks(spec, name, event) || SpawnAsks(spec, name, event) ==> event in granted
  }

  /** A teammate is held exactly at a missing annotation, its stage's before its own; with none missing it is not held. */
  lemma HeldAtMeansClosed(spec: TeamSpec, granted: set<string>, name: string)
    ensures HeldAt(spec, granted, name) == "" <==> GatesOpen(spec, granted, name)
    ensures var held := HeldAt(spec, granted, name);
      && (held != "" ==> held !in granted && (StageAsks(spec, name, held) || SpawnAsks(spec, name, held)))
      && forall event :: StageAsks(spec, name, event) && event !in granted ==> held == event
  {
    hide StageForTeammate;
    FirstToListFound(spec, name);
    var stage := StageForTeammate(spec, name);
    assert |StageEvent(if stage.Some? then stage.value else StageSpec("", [], [], false))| > 0 && |SpawnEvent(name)| > 0;
    if stage.Some? {
      var i :| FirstToList(spec, i, name) && stage == Some(Stages(spec)[i]);
      assert stage.value.approvalRequired ==> StageAsks(spec, name, StageEvent(stage.value));
    }
    assert SpawnAsks(spec, name, SpawnEvent(name)) <==> spec.lifecycle.Some? && SpawnEvent(name) in spec.lifecycle.value.approvalGates;
  }
}
