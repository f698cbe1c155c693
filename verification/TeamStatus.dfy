/** The observed side of an AgentTeam: its status record and the pure updates the reconciler applies to it. */
module TeamStatuses {
  import opened Options
  import opened TeamSpecs

  datatype Phase =
    | Unset | Pending | Initializing | Running
    | Completed | Failed | TimedOut | BudgetExceeded
    | OtherPhase(text: string)

  datatype PodPhase = PodPending | PodRunning | PodSucceeded | PodFailed | PodUnknown

  datatype AgentPhase = NoPhase | AgentWaiting | AgentPending | AgentRunning | AgentCompleted | AgentFailed

  datatype StagePhase = NoStagePhase | StageWaiting | StagePendingApproval | StageRunning | StageCompleted | StageFailed

  datatype StagedInput = StagedInput(from: string, artifact: string, source: string, mountPath: string)

  datatype Pod = Pod(phase: PodPhase, staged: seq<StagedInput>)

  type Pods = map<string, Pod>

  datatype TeammateStatus = TeammateStatus(
    name: string, podName: string, phase: AgentPhase, pendingApproval: string, restartCount: int)

  datatype ArtifactStatus = ArtifactStatus(name: string, path: string, producedBy: string, producedAt: int)

  datatype StageStatus = StageStatus(
    name: string, phase: StagePhase, ready: nat, total: nat, startedAt: Option<int>, completedAt: Option<int>)

  datatype PipelineStatus = PipelineStatus(
    currentStage: string, stagesCompleted: nat, stagesTotal: nat, stages: seq<StageStatus>)

  datatype DeliveryStatus = DeliveryStatus(kind: string, target: string, deliveredAt: int, success: bool)

  datatype Status = Status(
    phase: Phase, startedAt: Option<int>, completedAt: Option<int>, estimatedCost: real,
    lead: AgentPhase, ready: nat, teammates: seq<TeammateStatus>, artifacts: seq<ArtifactStatus>,
    pipeline: Option<PipelineStatus>, consolidatedBranch: string, delivery: seq<DeliveryStatus>)

  const FreshStatus := Status(Unset, None, None, 0.0, NoPhase, 0, [], [], None, "", [])

  predicate Terminal(p: Phase) { p.Completed? || p.Failed? || p.TimedOut? || p.BudgetExceeded? }

  predicate Finished(p: PodPhase) { p.PodSucceeded? || p.PodFailed? }

  predicate Succeeded(pods: Pods, name: string) { name in pods && pods[name].phase.PodSucceeded? }

  predicate HasFailed(pods: Pods, name: string) { name in pods && pods[name].phase.PodFailed? }

  predicate DependenciesMet(pods: Pods, deps: seq<string>) { forall d :: d in deps ==> Succeeded(pods, d) }

  function AgentPhaseOf(p: PodPhase): AgentPhase {
    match p
    case PodPending => AgentPending
    case PodRunning => AgentRunning
    case PodSucceeded => AgentCompleted
    case PodFailed => AgentFailed
    case PodUnknown => AgentPending
  }

  // ---- Teammate entries ----

  /** The first entry with the name, or the length when there is none. */
  function EntryIndex(entries: seq<TeammateStatus>, name: string): (i: nat)
    ensures i <= |entries|
    ensures i < |entries| ==> entries[i].name == name
    ensures forall k :: 0 <= k < i ==> entries[k].name != name
  {
    if entries == [] then 0 else if entries[0].name == name then 0 else 1 + EntryIndex(entries[1..], name)
  }

  function RestartCount(entries: seq<TeammateStatus>, name: string): int {
    var i := EntryIndex(entries, name);
    if i < |entries| then entries[i].restartCount else 0
  }

  function SetRestartCount(entries: seq<TeammateStatus>, name: string, count: int): seq<TeammateStatus> {
    var i := EntryIndex(entries, name);
    if i < |entries| then entries[i := entries[i].(restartCount := count)] else entries
  }

  function SetPendingApproval(entries: seq<TeammateStatus>, name: string, event: string): seq<TeammateStatus> {
    var i := EntryIndex(entries, name);
    if i < |entries| then entries[i := entries[i].(pendingApproval := event)]
    else entries + [TeammateStatus(name, "", NoPhase, event, 0)]
  }

  function ClearPendingApproval(entries: seq<TeammateStatus>, name: string): seq<TeammateStatus> {
    var i := EntryIndex(entries, name);
    if i < |entries| then entries[i := entries[i].(pendingApproval := "")] else entries
  }

  /** The entries by name; a later entry replaces an earlier one of the same name. */
  function EntriesByName(entries: seq<TeammateStatus>): (m: map<string, TeammateStatus>)
    ensures forall n :: n in m ==> m[n] in entries && m[n].name == n
    ensures forall e :: e in entries ==> e.name in m
  {
    if entries == [] then map[]
    else
      var last := entries[|entries| - 1];
      assert entries == entries[..|entries| - 1] + [last];
      EntriesByName(entries[..|entries| - 1])[last.name := last]
  }

  function SyncedEntry(prev: map<string, TeammateStatus>, name: string, pods: Pods): TeammateStatus {
    var st := if name in prev then prev[name] else TeammateStatus(name, "", NoPhase, "", 0);
    if name in pods then st.(name := name, podName := name, phase := AgentPhaseOf(pods[name].phase))
    else st.(name := name, podName := "", phase := AgentWaiting)
  }

  function SyncedEntries(spec: TeamSpec, entries: seq<TeammateStatus>, pods: Pods): (r: seq<TeammateStatus>)
    ensures |r| == |spec.teammates| && forall i :: 0 <= i < |r| ==> r[i].name == spec.teammates[i].name
  {
    seq(|spec.teammates|, i requires 0 <= i < |spec.teammates| =>
      SyncedEntry(EntriesByName(entries), spec.teammates[i].name, pods))
  }

  predicate CountsAsReady(e: TeammateStatus) { e.phase.AgentRunning? || e.phase.AgentCompleted? }

  function ReadyCount(entries: seq<TeammateStatus>): nat {
    if entries == [] then 0
    else ReadyCount(entries[..|entries| - 1]) + if CountsAsReady(entries[|entries| - 1]) then 1 else 0
  }

  // ---- Artifacts ----

  /** The text after the last slash, trailing slashes removed; "." for an empty path and "/" for one of slashes only. */
  function Base(path: string): string {
    if path == "" then "."
    else if path[|path| - 1] == '/' then (if |path| == 1 then "/" else Base(path[..|path| - 1]))
    else AfterLastSlash(path)
  }

  function AfterLastSlash(path: string): string {
    if path == "" || path[|path| - 1] == '/' then "" else AfterLastSlash(path[..|path| - 1]) + [path[|path| - 1]]
  }

  function ArtifactKey(producer: string, name: string): string { producer + "/" + name }

  function ArtifactKeys(artifacts: seq<ArtifactStatus>): set<string> {
    set a | a in artifacts :: ArtifactKey(a.producedBy, a.name)
  }

  /** The entries appended for the outputs whose key was not recorded when the call began. */
  function NewArtifacts(existing: set<string>, producer: string, outputs: seq<OutputSpec>, at: int): seq<ArtifactStatus> {
    if outputs == [] then []
    else
      var out := outputs[|outputs| - 1];
      NewArtifacts(existing, producer, outputs[..|outputs| - 1], at)
      + if ArtifactKey(producer, Base(out.path)) in existing then []
        else [ArtifactStatus(Base(out.path), out.path, producer, at)]
  }

  function RecordArtifacts(artifacts: seq<ArtifactStatus>, tm: TeammateSpec, at: int): seq<ArtifactStatus> {
    artifacts + NewArtifacts(ArtifactKeys(artifacts), tm.name, tm.outputs, at)
  }

  /** Recording, in declaration order, every teammate whose pod has Succeeded. */
  function RecordSucceeded(tms: seq<TeammateSpec>, pods: Pods, artifacts: seq<ArtifactStatus>, at: int): seq<ArtifactStatus> {
    if tms == [] then artifacts
    else
      var tm := tms[|tms| - 1];
      var before := RecordSucceeded(tms[..|tms| - 1], pods, artifacts, at);
      if Succeeded(pods, tm.name) then RecordArtifacts(before, tm, at) else before
  }

  // ---- Input staging ----

  function OutputNamed(outputs: seq<OutputSpec>, artifact: string): Option<string> {
    if outputs == [] then None
    else if Base(outputs[0].path) == artifact then Some(outputs[0].path)
    else OutputNamed(outputs[1..], artifact)
  }

  function FindProducerOutputPath(tms: seq<TeammateSpec>, from: string, artifact: string): string {
    if tms == [] then ""
    else if tms[0].name == from && OutputNamed(tms[0].outputs, artifact).Some? then OutputNamed(tms[0].outputs, artifact).value
    else FindProducerOutputPath(tms[1..], from, artifact)
  }

  function StagedInputs(spec: TeamSpec, inputs: seq<InputSpec>): seq<StagedInput> {
    if !spec.hasOutputVolume || inputs == [] then []
    else
      var input := inputs[|inputs| - 1];
      var source := FindProducerOutputPath(spec.teammates, input.from, input.artifact);
      StagedInputs(spec, inputs[..|inputs| - 1])
      + if source == "" then [] else [StagedInput(input.from, input.artifact, source, input.mountPath)]
  }

  // ---- Pipeline status ----

  type Phases = map<string, AgentPhase>

  function PhasesByName(entries: seq<TeammateStatus>): Phases {
    map n | n in EntriesByName(entries) :: EntriesByName(entries)[n].phase
  }

  function PhaseIn(phases: Phases, name: string): AgentPhase { if name in phases then phases[name] else NoPhase }

  function CompletedCount(names: seq<string>, phases: Phases): (r: nat)
    ensures r <= |names|
    ensures r == |names| <==> forall n :: n in names ==> PhaseIn(phases, n).AgentCompleted?
  {
    if names == [] then 0
    else
      assert names == names[..|names| - 1] + [names[|names| - 1]];
      CompletedCount(names[..|names| - 1], phases) + if PhaseIn(phases, names[|names| - 1]).AgentCompleted? then 1 else 0
  }

  predicate AnyFailed(names: seq<string>, phases: Phases) { exists n :: n in names && PhaseIn(phases, n).AgentFailed? }

  predicate IsSpawned(p: AgentPhase) { p.AgentPending? || p.AgentRunning? || p.AgentCompleted? || p.AgentFailed? }

  predicate AnySpawned(names: seq<string>, phases: Phases) { exists n :: n in names && IsSpawned(PhaseIn(phases, n)) }

  /** A stage is Completed when it has teammates and all of them are. */
  predicate StageDone(stage: StageSpec, phases: Phases) {
    !AnyFailed(stage.teammates, phases) && CompletedCount(stage.teammates, phases) == |stage.teammates| > 0
  }

  function StagePhaseFor(stage: StageSpec, phases: Phases, done: set<string>, granted: set<string>): StagePhase {
    if AnyFailed(stage.teammates, phases) then StageFailed
    else if StageDone(stage, phases) then StageCompleted
    else if exists d :: d in stage.dependsOn && d !in done then StageWaiting
    else if !StageApprovalGranted(granted, stage) then StagePendingApproval
    else if AnySpawned(stage.teammates, phases) then StageRunning
    else StageWaiting
  }

  function StampIfUnset(stamp: Option<int>, now: int): Option<int> { if stamp.None? then Some(now) else stamp }

  function StageStatusFor(
    prev: map<string, StageStatus>, stage: StageSpec, phases: Phases, done: set<string>, granted: set<string>, now: int): StageStatus
  {
    var ss := if stage.name in prev then prev[stage.name] else StageStatus(stage.name, NoStagePhase, 0, 0, None, None);
    var phase := StagePhaseFor(stage, phases, done, granted);
    ss.(name := stage.name, phase := phase, ready := CompletedCount(stage.teammates, phases), total := |stage.teammates|,
        startedAt := if phase.StageRunning? then StampIfUnset(ss.startedAt, now) else ss.startedAt,
        completedAt := if phase.StageCompleted? then StampIfUnset(ss.completedAt, now) else ss.completedAt)
  }

  /** Names of the Completed stages listed before index i. */
  function DoneBefore(stages: seq<StageSpec>, i: nat, phases: Phases): (r: set<string>)
    requires i <= |stages|
    ensures forall n :: n in r <==> exists k :: 0 <= k < i && stages[k].name == n && StageDone(stages[k], phases)
  {
    set k | 0 <= k < i && StageDone(stages[k], phases) :: stages[k].name
  }

  function StagesByName(stages: seq<StageStatus>): (m: map<string, StageStatus>)
    ensures forall n :: n in m ==> m[n] in stages && m[n].name == n
    ensures forall s :: s in stages ==> s.name in m
  {
    if stages == [] then map[]
    else
      var last := stages[|stages| - 1];
      assert stages == stages[..|stages| - 1] + [last];
      StagesByName(stages[..|stages| - 1])[last.name := last]
  }

  function StageStatuses(
    prev: map<string, StageStatus>, stages: seq<StageSpec>, phases: Phases, granted: set<string>, now: int): (r: seq<StageStatus>)
    ensures |r| == |stages|
  {
    seq(|stages|, i requires 0 <= i < |stages| =>
      StageStatusFor(prev, stages[i], phases, DoneBefore(stages, i, phases), granted, now))
  }

  function CountCompleted(stages: seq<StageStatus>): nat {
    if stages == [] then 0
    else CountCompleted(stages[..|stages| - 1]) + if stages[|stages| - 1].phase.StageCompleted? then 1 else 0
  }

  /** The first stage that is not Completed, or "". */
  function FirstOpen(stages: seq<StageStatus>): string {
    if stages == [] then ""
    else
      var before := FirstOpen(stages[..|stages| - 1]);
      var last := stages[|stages| - 1];
      if before != "" || last.phase.StageCompleted? then before else last.name
  }

  function PreviousStages(p: Option<PipelineStatus>): map<string, StageStatus> {
    if p.None? then map[] else StagesByName(p.value.stages)
  }

  function UpdatedPipeline(
    spec: TeamSpec, entries: seq<TeammateStatus>, prev: Option<PipelineStatus>, granted: set<string>, now: int): Option<PipelineStatus>
  {
    if Stages(spec) == [] then None
    else
      var stages := StageStatuses(PreviousStages(prev), Stages(spec), PhasesByName(entries), granted, now);
      Some(PipelineStatus(FirstOpen(stages), CountCompleted(stages), |Stages(spec)|, stages))
  }
}
