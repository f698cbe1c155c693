/** The deadline over whole runs, in terms of the spec's timeout and the times alone. */
module Deadlines {
  import opened TeamSpecs
  import opened TeamStatuses
  import opened TeamReconcile
  import opened TeamRuns
  import opened Frames
  import Lifecycles

  /** The team has the timeout of d nanoseconds: the one it gives, or four hours when it gives none. */
  ghost predicate HasTimeout(spec: TeamSpec, d: int) {
    if spec.lifecycle.Some? && !spec.lifecycle.value.timeout.Default? then spec.lifecycle.value.timeout == Parsed(d)
    else d == 14_400 * 1_000_000_000
  }

  lemma TimeoutDecides(spec: TeamSpec, elapsed: int)
    ensures forall d :: HasTimeout(spec, d) ==> (Lifecycles.Overdue(spec, elapsed) <==> elapsed > d)
    ensures (forall d :: !HasTimeout(spec, d)) ==> !Lifecycles.Overdue(spec, elapsed)
  {
    if spec.lifecycle.Some? && spec.lifecycle.value.timeout.Parsed? {
      assert HasTimeout(spec, spec.lifecycle.value.timeout.nanos);
    } else {
      assert spec.lifecycle.None? || spec.lifecycle.value.timeout.Default? ==> HasTimeout(spec, 14_400 * 1_000_000_000);
    }
  }

  /**
   A committed Initializing or Running reconcile of any run leaves the team TimedOut if and only if more than its timeout
   has passed since the start; never if its timeout does not parse.
   */
  lemma DeadlineExact(spec: TeamSpec, steps: seq<Step>, env: Env)
    requires WellFormed(spec) && Run(spec, steps).st.phase in [Initializing, Running]
    requires Run(spec, steps + [Reconciles(env)]).aborts == Run(spec, steps).aborts
    ensures var s, t := Run(spec, steps), Run(spec, steps + [Reconciles(env)]);
      && s.st.startedAt.Some?
      && (forall d :: HasTimeout(spec, d) ==> (t.st.phase == TimedOut <==> s.now - s.st.startedAt.value > d))
      && (spec.lifecycle.Some? && spec.lifecycle.value.timeout.Unparsable? ==> t.st.phase != TimedOut)
  {
    hide Run, Reconcile, IsTimedOut, Lifecycles.Overdue;
    var s := Run(spec, steps);
    Lifecycles.RunIsLive(spec, steps);
    Lifecycles.RunsOn(spec, steps, Reconciles(env));
    TimeoutDecides(spec, s.now - s.st.startedAt.value);
    Lifecycles.TimedOutMeansOverdue(spec, s.st, s.now);
    if s.st.phase == Running {
      Lifecycles.RunningOutcomeExact(spec, steps, env);
    } else {
      InitializingTimesOut(spec, s, env);
    }
  }

  lemma InitializingTimesOut(spec: TeamSpec, s: System, env: Env)
    requires s.st.phase == Initializing && Outcome(spec, s, env).ok
    ensures Outcome(spec, s, env).st.phase == TimedOut <==> IsTimedOut(spec, s.st, s.now)
  {
    hide Deploy, IsTimedOut;
    DeployFrame(spec, Begin(s, env), s.now);
  }

  /** No pod of any run is created later after the start than the timeout allows. */
  lemma CreationsWithinTimeout(spec: TeamSpec, steps: seq<Step>, i: nat, d: int)
    requires WellFormed(spec) && i < |Run(spec, steps).cl.births| && HasTimeout(spec, d)
    ensures var s := Run(spec, steps);
      s.st.startedAt.Some? && s.st.startedAt.value <= s.cl.births[i].at <= s.st.startedAt.value + d
  {
    hide Run, Lifecycles.Overdue, Lifecycles.InTime;
    var s := Run(spec, steps);
    Lifecycles.RunIsLive(spec, steps);
    Lifecycles.CreationsInTime(spec, steps, i);
    TimeoutDecides(spec, s.cl.births[i].at - s.st.startedAt.value);
  }

  /** A team whose timeout does not parse never times out. */
  lemma {:induction false} UnparsableNeverTimesOut(spec: TeamSpec, steps: seq<Step>)
    requires WellFormed(spec) && spec.lifecycle.Some? && spec.lifecycle.value.timeout.Unparsable?
    ensures Run(spec, steps).st.phase != TimedOut
  {
    if steps != [] {
      hide Reconcile, Run, WellFormed;
      var front, step := steps[..|steps| - 1], steps[|steps| - 1];
      var s := Run(spec, front);
      assert steps == front + [step];
      Lifecycles.RunsOn(spec, front, step);
      UnparsableNeverTimesOut(spec, front);
      if step.Reconciles? && Outcome(spec, s, step.env).ok {
        if s.st.phase in [Initializing, Running] {
          DeadlineExact(spec, front, step.env);
        } else {
          OthersDoNotTimeOut(spec, s, step.env);
        }
      }
    }
  }

  lemma OthersDoNotTimeOut(spec: TeamSpec, s: System, env: Env)
    requires s.st.phase !in [Initializing, Running, TimedOut]
    ensures Outcome(spec, s, env).st.phase != TimedOut
  {
    hide TerminateAllPods;
    Lifecycles.TerminateWrites(spec, Begin(s, env), env);
  }
}
