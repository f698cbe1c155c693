/** Runs of one trigger: POSTs, reconciles and Run phases interleaved, and when two Runs can be in flight at once. */
module TriggerRuns {
  import opened Options
  import opened Triggers
  import RunNames

  /** The store, the cached status and whether a POST has come since the last successful reconcile. */
  datatype System = System(store: Store, st: TriggerStatus, posted: bool)

  datatype Step =
    | Posts(seconds: int, now: int, faults: Faults)
    | Reconciles(sorted: seq<Run>, limit: int)
    | RunMoves(name: string, phase: string)

  const NewTrigger := System(Store(map[], {}), TriggerStatus([], "", 0, None), false)

  /** A Run that has not finished takes its next phase. */
  function MoveRun(runs: Runs, name: string, phase: string): Runs {
    if name in runs && InFlight(runs[name]) then runs[name := runs[name].(phase := phase)] else runs
  }

  function Next(trig: Trigger, s: System, step: Step): System {
    match step
    case Posts(seconds, now, faults) => System(Fire(trig, s.store, s.st.active, seconds, now, faults).0, s.st, true)
    case Reconciles(sorted, limit) => System(s.store, Observed(sorted, limit, s.st), false)
    case RunMoves(name, phase) => s.(store := s.store.(runs := MoveRun(s.store.runs, name, phase)))
  }

  /** A reconcile lists the Runs there are, newest first; and a POST comes only after a reconcile since the last one. */
  ghost predicate Disciplined(s: System, step: Step) {
    match step
    case Posts(_, _, _) => !s.posted
    case Reconciles(sorted, _) => Lists(sorted, s.store.runs) && NewestFirst(sorted)
    case RunMoves(_, _) => true
  }

  function RunFrom(trig: Trigger, s: System, steps: seq<Step>): System {
    if steps == [] then s else Next(trig, RunFrom(trig, s, steps[..|steps| - 1]), steps[|steps| - 1])
  }

  ghost predicate AllDisciplined(trig: Trigger, steps: seq<Step>) {
    forall k :: 0 <= k < |steps| ==> Disciplined(RunFrom(trig, NewTrigger, steps[..k]), steps[k])
  }

  /** No two Runs are in flight together. */
  ghost predicate Exclusive(runs: Runs) {
    forall a, b :: a in runs && b in runs && InFlight(runs[a]) && InFlight(runs[b]) ==> a == b
  }

  predicate OneAtATime(trig: Trigger) { trig.policy == "Forbid" || trig.policy == "Replace" }

  /** Until the next POST, only the cached active Run can be in flight. */
  ghost predicate Tracked(s: System) {
    && "" !in s.store.runs
    && Exclusive(s.store.runs)
    && (!s.posted ==> forall n :: n in s.store.runs && InFlight(s.store.runs[n]) ==> n == s.st.active)
  }

  lemma PostKeeps(trig: Trigger, s: System, step: Step)
    requires OneAtATime(trig) && Tracked(s) && step.Posts? && !s.posted
    ensures Tracked(Next(trig, s, step))
  {
  }

  lemma ReconcileKeeps(trig: Trigger, s: System, sorted: seq<Run>, limit: int)
    requires Tracked(s) && Lists(sorted, s.store.runs) && NewestFirst(sorted)
    ensures Tracked(Next(trig, s, Reconciles(sorted, limit)))
  {
    hide Lists, NewestFirst, Observed;
    ActiveIsNewest(s.store.runs, sorted, limit, s.st);
  }

  lemma StepKeeps(trig: Trigger, s: System, step: Step)
    requires OneAtATime(trig) && Tracked(s) && Disciplined(s, step)
    ensures Tracked(Next(trig, s, step))
  {
    match step
    case Posts(_, _, _) => PostKeeps(trig, s, step);
    case Reconciles(sorted, limit) => ReconcileKeeps(trig, s, sorted, limit);
    case RunMoves(_, _) =>
  }

  lemma {:induction false} RunKeeps(trig: Trigger, steps: seq<Step>)
    requires OneAtATime(trig) && AllDisciplined(trig, steps)
    ensures Tracked(RunFrom(trig, NewTrigger, steps))
  {
    hide Next, Disciplined;
    if steps == [] {
      assert NewTrigger.store.runs == map[];
    } else {
      var n := |steps| - 1;
      forall k | 0 <= k < n ensures Disciplined(RunFrom(trig, NewTrigger, steps[..n][..k]), steps[..n][k]) {
        assert steps[..n][..k] == steps[..k];
      }
      RunKeeps(trig, steps[..n]);
      assert Disciplined(RunFrom(trig, NewTrigger, steps[..n]), steps[n]);
      StepKeeps(trig, RunFrom(trig, NewTrigger, steps[..n]), steps[n]);
    }
  }

  /**
   With policy Forbid or Replace, a reconcile between any two POSTs and finished Runs staying finished, at most one of
   the trigger's Runs is ever in flight, whichever API calls fail.
   */
  lemma AtMostOneInFlight(trig: Trigger, steps: seq<Step>)
    requires OneAtATime(trig) && AllDisciplined(trig, steps)
    ensures Exclusive(RunFrom(trig, NewTrigger, steps).store.runs)
  {
    RunKeeps(trig, steps);
  }

  // ---- The answer ----

  /**
   The answer to a POST in any state, under any policy and whichever calls fail: Conflict exactly when the policy is Forbid
   and a Run is active; else an internal error exactly when a call it makes fails, without making a Run; else the name of
   a Run that is there afterwards, with its payload. Apart from the replaced Run no Run is touched.
   */
  lemma ResponseExactly(trig: Trigger, s: Store, active: string, seconds: int, now: int, faults: Faults)
    ensures var t, answer := Fire(trig, s, active, seconds, now, faults).0, Fire(trig, s, active, seconds, now, faults).1;
      var refused, swaps := trig.policy == "Forbid" && active != "", trig.policy == "Replace" && active != "";
      var fails := (swaps && faults.delete) || (trig.injectsPayload && faults.createPayload) || faults.createRun;
      && (answer == Conflict <==> refused)
      && (answer == InternalError <==> !refused && fails)
      && (answer.Accepted? <==> !refused && !fails)
      && (answer.Accepted? ==>
        && answer.run == RunName(trig, seconds) && answer.run in t.runs
        && (trig.injectsPayload ==> answer.run + "-payload" in t.payloads))
      && (refused || (swaps && faults.delete) ==> t == s)
      && (forall n :: n in t.runs && n !in s.runs ==> answer == Accepted(n) && t.runs[n] == Run(n, now, ""))
      && (forall n :: n in s.runs && !(swaps && n == active) ==> n in t.runs && t.runs[n] == s.runs[n])
      && (swaps && !faults.delete && active in t.runs ==> answer == Accepted(active) && t.runs[active] == Run(active, now, ""))
  {
    hide RunName;
  }

  // ---- Without that discipline ----

  ghost predicate NoneInFlight(runs: Runs) { forall n :: n in runs ==> !InFlight(runs[n]) }

  /** The policy turns the POST away, or the Run to be replaced cannot be deleted. */
  predicate Refused(trig: Trigger, active: string, faults: Faults) {
    active != "" && (trig.policy == "Forbid" || (trig.policy == "Replace" && faults.delete))
  }

  /** The Runs there are besides the one a POST replaces. */
  function Spared(trig: Trigger, runs: Runs, active: string): Runs {
    if trig.policy == "Replace" && active != "" then runs - {active} else runs
  }

  /** The POST gets as far as making a Run that was not there. */
  predicate Creates(trig: Trigger, s: System, seconds: int, faults: Faults) {
    && !Refused(trig, s.st.active, faults) && !faults.createRun && !(trig.injectsPayload && faults.createPayload)
    && RunName(trig, seconds) !in Spared(trig, s.store.runs, s.st.active)
  }

  lemma FireEffect(trig: Trigger, s: System, seconds: int, now: int, faults: Faults)
    ensures Next(trig, s, Posts(seconds, now, faults)).store.runs ==
      if Refused(trig, s.st.active, faults) then s.store.runs
      else if Creates(trig, s, seconds, faults) then
        Spared(trig, s.store.runs, s.st.active)[RunName(trig, seconds) := Run(RunName(trig, seconds), now, "")]
      else Spared(trig, s.store.runs, s.st.active)
  {
    hide RunName;
  }

  lemma AddedIsExclusive(runs: Runs, name: string, now: int)
    requires name !in runs
    ensures Exclusive(runs[name := Run(name, now, "")]) <==> NoneInFlight(runs)
  {
    var after := runs[name := Run(name, now, "")];
    FreshRunInFlight(name, now);
    assert InFlight(after[name]);
    if n :| n in runs && InFlight(runs[n]) {
      assert after[n] == runs[n] && n != name;
    }
  }

  lemma FreshRunInFlight(name: string, now: int)
    ensures InFlight(Run(name, now, ""))
  {
  }

  /**
   A POST in any state, under any policy and whichever calls fail: a refused one changes no Run; one that makes a new Run
   leaves at most one in flight if and only if none is besides the Run it replaces; any other only loses that Run.
   */
  lemma PostExactly(trig: Trigger, s: System, seconds: int, now: int, faults: Faults)
    ensures var t := Next(trig, s, Posts(seconds, now, faults));
      var rest := Spared(trig, s.store.runs, s.st.active);
      if Refused(trig, s.st.active, faults) then t.store.runs == s.store.runs
      else if Creates(trig, s, seconds, faults) then Exclusive(t.store.runs) <==> NoneInFlight(rest)
      else t.store.runs == rest
  {
    hide RunName, Next, Exclusive, NoneInFlight, Creates;
    FireEffect(trig, s, seconds, now, faults);
    if Creates(trig, s, seconds, faults) {
      assert RunName(trig, seconds) !in Spared(trig, s.store.runs, s.st.active) by { CreatesNew(trig, s, seconds, faults); }
      AddedIsExclusive(Spared(trig, s.store.runs, s.st.active), RunName(trig, seconds), now);
    }
  }

  lemma CreatesNew(trig: Trigger, s: System, seconds: int, faults: Faults)
    requires Creates(trig, s, seconds, faults)
    ensures RunName(trig, seconds) !in Spared(trig, s.store.runs, s.st.active) && !Refused(trig, s.st.active, faults)
  {
  }

  /** A POST that makes a new Run does so while none is in flight besides the one it replaces. */
  ghost predicate Safe(trig: Trigger, s: System, step: Step) {
    step.Posts? && Creates(trig, s, step.seconds, step.faults) ==> NoneInFlight(Spared(trig, s.store.runs, s.st.active))
  }

  lemma StepExactly(trig: Trigger, s: System, step: Step)
    requires Exclusive(s.store.runs)
    ensures Exclusive(Next(trig, s, step).store.runs) <==> Safe(trig, s, step)
  {
    hide RunName, Creates;
    if step.Posts? {
      hide Next;
      PostExactly(trig, s, step.seconds, step.now, step.faults);
      assert Creates(trig, s, step.seconds, step.faults) ==> !Refused(trig, s.st.active, step.faults) by {
        if Creates(trig, s, step.seconds, step.faults) {
          CreatesNew(trig, s, step.seconds, step.faults);
        }
      }
    }
  }

  /** After each of the steps at most one Run is in flight. */
  ghost predicate AlwaysExclusive(trig: Trigger, steps: seq<Step>) {
    Exclusive(RunFrom(trig, NewTrigger, steps).store.runs) && (steps != [] ==> AlwaysExclusive(trig, steps[..|steps| - 1]))
  }

  /** Each of the steps is safe where it is taken. */
  ghost predicate AlwaysSafe(trig: Trigger, steps: seq<Step>) {
    steps != [] ==>
      Safe(trig, RunFrom(trig, NewTrigger, steps[..|steps| - 1]), steps[|steps| - 1]) && AlwaysSafe(trig, steps[..|steps| - 1])
  }

  /**
   The exact condition for every run of every trigger, disciplined or not: at most one Run is in flight at all times if
   and only if no POST makes a new Run while one is in flight that it does not replace.
   */
  lemma {:induction false} ExclusiveExactly(trig: Trigger, steps: seq<Step>)
    ensures AlwaysExclusive(trig, steps) <==> AlwaysSafe(trig, steps)
  {
    hide Next, Safe, Exclusive;
    if steps == [] {
      assert Exclusive(NewTrigger.store.runs) by { NewIsExclusive(); }
    } else {
      var n := |steps| - 1;
      ExclusiveExactly(trig, steps[..n]);
      if AlwaysExclusive(trig, steps[..n]) {
        StepExactly(trig, RunFrom(trig, NewTrigger, steps[..n]), steps[n]);
      }
    }
  }

  lemma NewIsExclusive()
    ensures Exclusive(NewTrigger.store.runs)
  {
  }

  const NoFaults := Faults(false, false, false)

  /**
   Two POSTs with no reconcile between them and no failing call, each under a name not taken: if the cached active Run is
   not empty, Forbid refuses both; otherwise they leave at most one Run in flight if and only if none was besides the Run
   replaced and the names are the same, or the second replaces the first because the stale cache holds its very name.
   */
  lemma TwoPostsWithoutReconcile(trig: Trigger, s: System, first: int, second: int)
    requires RunName(trig, first) !in s.store.runs && RunName(trig, second) !in s.store.runs
    ensures var t := RunFrom(trig, s, [Posts(first, first, NoFaults), Posts(second, second, NoFaults)]);
      var a, b := RunName(trig, first), RunName(trig, second);
      Exclusive(t.store.runs) <==>
        if trig.policy == "Forbid" && s.st.active != "" then Exclusive(s.store.runs)
        else NoneInFlight(Spared(trig, s.store.runs, s.st.active)) && (a == b || (trig.policy == "Replace" && a == s.st.active != ""))
  {
    hide RunName, InFlight, Next, Exclusive, NoneInFlight;
    var steps := [Posts(first, first, NoFaults), Posts(second, second, NoFaults)];
    var one := Next(trig, s, steps[0]);
    assert steps[..1] == [steps[0]] && steps[..1][..0] == [];
    assert RunFrom(trig, s, steps[..1]) == one;
    FireEffect(trig, s, first, first, NoFaults);
    FireEffect(trig, one, second, second, NoFaults);
    PostKeepsCache(trig, s, first);
    if !Refused(trig, s.st.active, NoFaults) {
      SecondAdds(Spared(trig, s.store.runs, s.st.active), trig, s.st.active, RunName(trig, first), first, RunName(trig, second), second);
    }
  }

  /** A second Run added, or not, to what is left after the first. */
  lemma SecondAdds(rest: Runs, trig: Trigger, active: string, a: string, first: int, b: string, second: int)
    requires a !in rest && b !in rest && (trig.policy == "Replace" && active != "" ==> active !in rest)
    ensures var one := Spared(trig, rest[a := Run(a, first, "")], active);
      Exclusive(if b in one then one else one[b := Run(b, second, "")])
      <==> NoneInFlight(rest) && (a == b || (trig.policy == "Replace" && a == active != ""))
  {
    hide Exclusive, InFlight;
    var added := rest[a := Run(a, first, "")];
    var one := Spared(trig, added, active);
    AddedIsExclusive(rest, a, first);
    FreshRunInFlight(a, first);
    if trig.policy == "Replace" && a == active != "" {
      assert one == rest;
      AddedIsExclusive(rest, b, second);
    } else {
      assert one == added;
      if a != b {
        assert InFlight(added[a]);
        AddedIsExclusive(added, b, second);
      }
    }
  }

  lemma PostKeepsCache(trig: Trigger, s: System, seconds: int)
    ensures Next(trig, s, Posts(seconds, seconds, NoFaults)).st == s.st
  {
  }

  /** The names differ whenever the two seconds do. */
  lemma SecondsTellRunsApart(trig: Trigger, first: int, second: int)
    requires RunNames.ValidName(trig.name) && RunName(trig, first) == RunName(trig, second)
    ensures first == second
  {
    RunNames.RunNamesInjective(trig.name, first * RunNames.SECOND, trig.name, second * RunNames.SECOND);
  }
}
