/** Template validation, what it guarantees of a team made from the template, and what it lets through. */
module Templates {
  import opened Options
  import opened TeamSpecs
  import opened TeamStatuses
  import opened TeamRuns
  import opened DS = DependencySafety
  import Progress

  datatype Verdict =
    | Valid
    | DuplicateName(name: string)
    | InvalidModel(name: string, model: string)
    | DependsOnItself(name: string)
    | UnknownDependency(name: string, dependency: string)

  const VALID_MODELS := {"opus", "sonnet", "haiku"}

  predicate ModelOk(model: string) { model == "" || model in VALID_MODELS }

  predicate DistinctNames(tms: seq<TeammateSpec>) {
    forall i, j :: 0 <= i < j < |tms| ==> tms[i].name != tms[j].name
  }

  predicate NameIn(tms: seq<TeammateSpec>, name: string) { exists i :: 0 <= i < |tms| && tms[i].name == name }

  predicate DependencyOk(tms: seq<TeammateSpec>, tm: TeammateSpec, d: string) { d != tm.name && NameIn(tms, d) }

  predicate TeammateOk(tms: seq<TeammateSpec>, tm: TeammateSpec) {
    ModelOk(tm.model) && forall d :: d in tm.dependsOn ==> DependencyOk(tms, tm, d)
  }

  predicate TemplateOk(tms: seq<TeammateSpec>) {
    DistinctNames(tms) && forall i :: 0 <= i < |tms| ==> TeammateOk(tms, tms[i])
  }

  /** Teammate i is the first that is not in order, for the reason given; its model is checked before its dependencies. */
  ghost predicate FirstFault(tms: seq<TeammateSpec>, i: int, v: Verdict)
    requires 0 <= i < |tms|
  {
    && (forall k :: 0 <= k < i ==> TeammateOk(tms, tms[k]))
    && !v.Valid? && v.name == tms[i].name
    && match v
       case InvalidModel(_, model) => model == tms[i].model && !ModelOk(model)
       case DependsOnItself(_) => ModelOk(tms[i].model) && FirstBadDependency(tms, tms[i], tms[i].name)
       case UnknownDependency(_, d) => ModelOk(tms[i].model) && FirstBadDependency(tms, tms[i], d) && !NameIn(tms, d)
       case _ => false
  }

  ghost predicate FirstBadDependency(tms: seq<TeammateSpec>, tm: TeammateSpec, d: string) {
    exists j :: 0 <= j < |tm.dependsOn| && tm.dependsOn[j] == d && !DependencyOk(tms, tm, d)
                && forall k :: 0 <= k < j ==> DependencyOk(tms, tm, tm.dependsOn[k])
  }

  /** Some teammate is the first to repeat an earlier name. */
  ghost predicate FirstDuplicate(tms: seq<TeammateSpec>, name: string) {
    exists i :: 0 <= i < |tms| && tms[i].name == name && NameIn(tms[..i], name) && DistinctNames(tms[..i])
  }

  method CollectNames(tms: seq<TeammateSpec>) returns (names: set<string>, duplicate: Option<string>)
    ensures duplicate.None? ==> DistinctNames(tms) && forall n :: n in names <==> NameIn(tms, n)
    ensures duplicate.Some? ==> FirstDuplicate(tms, duplicate.value)
  {
    names, duplicate := {}, None;
    for i := 0 to |tms|
      invariant DistinctNames(tms[..i]) && forall n :: n in names <==> NameIn(tms[..i], n)
    {
      if tms[i].name in names {
        return names, Some(tms[i].name);
      }
      assert forall n :: NameIn(tms[..i + 1], n) <==> NameIn(tms[..i], n) || n == tms[i].name by {
        assert tms[..i + 1] == tms[..i] + [tms[i]];
        assert (tms[..i] + [tms[i]])[i] == tms[i];
      }
      names := names + {tms[i].name};
    }
    assert tms[..|tms|] == tms;
    duplicate := None;
  }

  /** Checks one teammate: its model, then its dependencies in order. */
  method ValidateTeammate(tms: seq<TeammateSpec>, i: nat, names: set<string>) returns (v: Verdict)
    requires i < |tms| && forall n :: n in names <==> NameIn(tms, n)
    requires forall k :: 0 <= k < i ==> TeammateOk(tms, tms[k])
    ensures v.Valid? <==> TeammateOk(tms, tms[i])
    ensures !v.Valid? ==> FirstFault(tms, i, v)
  {
    var tm := tms[i];
    if tm.model != "" && tm.model !in VALID_MODELS {
      return InvalidModel(tm.name, tm.model);
    }
    for j := 0 to |tm.dependsOn|
      invariant forall k :: 0 <= k < j ==> DependencyOk(tms, tm, tm.dependsOn[k])
    {
      var d := tm.dependsOn[j];
      assert d in tm.dependsOn;
      if d == tm.name {
        assert !DependencyOk(tms, tm, d);
        return DependsOnItself(tm.name);
      }
      if d !in names {
        return UnknownDependency(tm.name, d);
      }
    }
    v := Valid;
  }

  /** Valid exactly when every rule holds; otherwise the first fault in the order the rules are checked. */
  method ValidateTemplate(tms: seq<TeammateSpec>) returns (v: Verdict)
    ensures v.Valid? <==> TemplateOk(tms)
    ensures v.DuplicateName? <==> !DistinctNames(tms)
    ensures v.DuplicateName? ==> FirstDuplicate(tms, v.name)
    ensures !v.Valid? && !v.DuplicateName? ==> exists i :: 0 <= i < |tms| && FirstFault(tms, i, v)
  {
    var names, duplicate := CollectNames(tms);
    if duplicate.Some? {
      DuplicateIsNotDistinct(tms, duplicate.value);
      return DuplicateName(duplicate.value);
    }
    for i := 0 to |tms|
      invariant forall k :: 0 <= k < i ==> TeammateOk(tms, tms[k])
    {
      v := ValidateTeammate(tms, i, names);
      if !v.Valid? {
        return;
      }
    }
    v := Valid;
  }

  lemma DuplicateIsNotDistinct(tms: seq<TeammateSpec>, name: string)
    requires FirstDuplicate(tms, name)
    ensures !DistinctNames(tms)
  {
  }

  // ---- Teams made from a template ----

  /** The team runs the template's teammates, ordered by their own dependencies, and no one is called lead or nameless. */
  ghost predicate MadeFrom(spec: TeamSpec, tms: seq<TeammateSpec>) {
    && spec.teammates == tms && spec.pipeline.None?
    && forall i :: 0 <= i < |tms| ==> tms[i].name !in [LEAD, ""] && '/' !in tms[i].name
  }

  /** What a valid template guarantees: the team is well formed, and nobody depends on itself or on an unknown name. */
  lemma ValidTemplateTeam(spec: TeamSpec, tms: seq<TeammateSpec>)
    requires TemplateOk(tms) && MadeFrom(spec, tms)
    ensures WellFormed(spec)
    ensures forall i, d :: 0 <= i < |tms| && d in tms[i].dependsOn ==> d != tms[i].name && Declared(spec, d)
  {
  }

  /** The teammate has one of the three models or none, and depends on declared others only. */
  ghost predicate InOrder(spec: TeamSpec, tm: TeammateSpec) {
    tm.model in ["", "opus", "sonnet", "haiku"] && forall d :: d in tm.dependsOn ==> d != tm.name && Declared(spec, d)
  }

  /** And conversely: validation turns away only what breaks one of these rules. */
  lemma ValidExactly(spec: TeamSpec, tms: seq<TeammateSpec>)
    requires MadeFrom(spec, tms)
    ensures TemplateOk(tms) <==>
      WellFormed(spec) && forall i :: 0 <= i < |tms| ==> InOrder(spec, tms[i])
  {
    hide TeammateOk, InOrder;
    assert DistinctNames(tms) <==> WellFormed(spec) by { MadeIsWellFormed(spec, tms); }
    forall i | 0 <= i < |tms| ensures TeammateOk(tms, tms[i]) <==> InOrder(spec, tms[i]) {
      OkMeans(spec, tms, tms[i]);
    }
  }

  lemma MadeIsWellFormed(spec: TeamSpec, tms: seq<TeammateSpec>)
    requires MadeFrom(spec, tms)
    ensures DistinctNames(tms) <==> WellFormed(spec)
  {
  }

  lemma OkMeans(spec: TeamSpec, tms: seq<TeammateSpec>, tm: TeammateSpec)
    requires spec.teammates == tms
    ensures TeammateOk(tms, tm) <==> InOrder(spec, tm)
  {
    hide ModelOk;
    ModelsListed(tm.model);
    forall d ensures NameIn(tms, d) <==> Declared(spec, d) {
    }
  }

  lemma ModelsListed(model: string)
    ensures ModelOk(model) <==> model in ["", "opus", "sonnet", "haiku"]
  {
  }

  ghost predicate DependsOn(tms: seq<TeammateSpec>, a: string, d: string) {
    exists i :: 0 <= i < |tms| && tms[i].name == a && d in tms[i].dependsOn
  }

  function Following(cycle: seq<string>, k: int): string
    requires 0 <= k < |cycle|
  {
    if k + 1 < |cycle| then cycle[k + 1] else cycle[0]
  }

  /** Each name of the cycle depends on the next, and the last on the first. */
  ghost predicate DependsOnCycle(tms: seq<TeammateSpec>, cycle: seq<string>) {
    cycle != [] && forall k :: 0 <= k < |cycle| ==> DependsOn(tms, cycle[k], Following(cycle, k))
  }

  lemma CycleWaits(spec: TeamSpec, tms: seq<TeammateSpec>, cycle: seq<string>, k: nat)
    requires MadeFrom(spec, tms) && DependsOnCycle(tms, cycle) && k < |cycle|
    ensures WaitsFor(spec, cycle[k], Following(cycle, k))
  {
    hide EffectiveDependencies;
    var next := if k + 1 < |cycle| then k + 1 else 0;
    assert DependsOn(tms, cycle[next], Following(cycle, next)) && DependsOn(tms, cycle[k], Following(cycle, k));
    var i :| 0 <= i < |tms| && tms[i].name == cycle[k] && Following(cycle, k) in tms[i].dependsOn;
    DependenciesMeaning(spec, tms[i]);
  }

  /** A cycle is a dependency path back to its start. */
  lemma CyclePath(spec: TeamSpec, tms: seq<TeammateSpec>, cycle: seq<string>)
    requires MadeFrom(spec, tms) && cycle != [] && DependsOnCycle(tms, cycle)
    ensures DependencyPath(spec, cycle + [cycle[0]]) && forall a :: a in cycle ==> a in Progress.Walked(cycle + [cycle[0]])
  {
    hide WaitsFor, MadeFrom, DependsOnCycle;
    var path := cycle + [cycle[0]];
    forall k | 0 <= k < |path| - 1 ensures WaitsFor(spec, path[k], path[k + 1]) {
      CycleWaits(spec, tms, cycle, k);
    }
    forall a | a in cycle ensures a in Progress.Walked(path) {
      var k :| 0 <= k < |cycle| && cycle[k] == a;
      assert path[k] in Progress.Walked(path);
    }
  }

  /** Whatever the validation says: a team with a dependency cycle never makes the teammates on it and never completes. */
  lemma CycleNeverCompletes(spec: TeamSpec, tms: seq<TeammateSpec>, cycle: seq<string>, steps: seq<Step>)
    requires DistinctNames(tms) && MadeFrom(spec, tms) && cycle != [] && DependsOnCycle(tms, cycle)
    ensures Run(spec, steps).st.phase != Completed
    ensures forall a :: a in cycle ==> a !in Run(spec, steps).cl.pods
  {
    hide Run, DependencyPath, Progress.Walked, Progress.Blocked, DependsOnCycle;
    var path := cycle + [cycle[0]];
    CyclePath(spec, tms, cycle);
    assert cycle[0] in cycle;
    Progress.DeadEndBlocks(spec, path);
    forall a | a in cycle ensures a !in Run(spec, steps).cl.pods && Run(spec, steps).st.phase != Completed {
      Progress.BlockedNeverCompletes(spec, steps, Progress.Walked(path), a);
    }
  }

  const Editor := TeammateSpec("editor", "opus", ["writer"], [], [])
  const Writer := TeammateSpec("writer", "sonnet", ["editor"], [], [])

  /** Two teammates waiting for each other pass the validation, and no team made from them completes. */
  lemma CyclesPassValidation(spec: TeamSpec, steps: seq<Step>)
    requires spec.teammates == [Editor, Writer] && spec.pipeline.None?
    ensures TemplateOk(spec.teammates) && WellFormed(spec) && Run(spec, steps).st.phase != Completed
  {
    var tms := spec.teammates;
    assert tms[0] == Editor && tms[1] == Writer;
    var cycle := ["editor", "writer"];
    assert NameIn(tms, "editor") && NameIn(tms, "writer");
    assert "writer" in tms[0].dependsOn && "editor" in tms[1].dependsOn;
    assert DependsOn(tms, "editor", "writer") && DependsOn(tms, "writer", "editor");
    CycleNeverCompletes(spec, tms, cycle, steps);
  }
}
