/** How often the delivery targets are sent to over a whole run, whatever becomes of the status that records it. */
module DeliveryRuns {
  import opened TeamSpecs
  import opened TeamStatuses
  import opened TeamReconcile
  import opened TeamRuns
  import opened LoopRules
  import opened Frames
  import Lifecycles

  /** Whom the team sends its result to. */
  function Targets(spec: TeamSpec): seq<DeliveryTarget> {
    if OnComplete(spec) == "deliver" then spec.lifecycle.value.delivery else []
  }

  /** The targets in order, n times over. */
  function Rounds(targets: seq<DeliveryTarget>, n: nat): seq<DeliveryTarget> {
    if n == 0 then [] else Rounds(targets, n - 1) + targets
  }

  lemma {:induction false} RoundsCount(targets: seq<DeliveryTarget>, n: nat, t: DeliveryTarget)
    ensures multiset(Rounds(targets, n))[t] == n * multiset(targets)[t]
  {
    if n > 0 {
      RoundsCount(targets, n - 1, t);
      var before := Rounds(targets, n - 1);
      assert multiset(before + targets) == multiset(before) + multiset(targets);
      OneMore(n, multiset(targets)[t]);
    }
  }

  lemma OneMore(n: int, c: int)
    ensures (n - 1) * c + c == n * c
  {
  }

  // ---- One reconcile ----

  /** A committed reconcile sends one round exactly if it completes the team; an aborted one may have sent one. */
  ghost predicate Sends(spec: TeamSpec, m: Mem, r: Mem) {
    if r.ok then r.cl.sent == (if r.st.phase == Completed then m.cl.sent + Targets(spec) else m.cl.sent)
    else r.cl.sent in [m.cl.sent, m.cl.sent + Targets(spec)]
  }

  lemma ConcludeSends(spec: TeamSpec, m: Mem, env: Env, now: int)
    requires m.st.phase == Running && m.ok
    ensures Sends(spec, m, Conclude(spec, m, env, now))
  {
    hide AnyAgentFailed, AllAgentsSucceeded, Deliveries;
    assert m.cl.sent + [] == m.cl.sent;
  }

  lemma SuperviseSends(spec: TeamSpec, m: Mem, env: Env, now: int)
    requires m.st.phase == Running && m.ok
    ensures Sends(spec, m, Supervise(spec, m, env, now))
  {
    hide Observe, Respawns, LateSpawns, Conclude, Targets;
    var o := Observe(spec, m, now);
    ObserveOnly(spec, m, now);
    RespawnsFrame(spec, o, now);
    var c := Respawns(spec, o, |spec.teammates|, now);
    if GoesOn(c) {
      LateSpawnsFrame(spec, c.m, now);
      var y := LateSpawns(spec, c.m, |spec.teammates|, now);
      if y.ok {
        ConcludeSends(spec, y, env, now);
      }
    }
  }

  lemma ObserveOnly(spec: TeamSpec, m: Mem, now: int)
    ensures var o := Observe(spec, m, now); o.cl == m.cl && o.ok == m.ok && o.st.phase == m.st.phase
  {
  }

  // ---- Runs ----

  /** n rounds were sent: no more than reconciles were aborted, but for the one that completed the team. */
  ghost predicate SentRounds(spec: TeamSpec, s: System, n: nat) {
    && s.cl.sent == Rounds(Targets(spec), n)
    && if s.st.phase == Completed then 1 <= n <= s.aborts + 1 else n <= s.aborts
  }

  lemma RunningSends(spec: TeamSpec, s: System, env: Env, n: nat) returns (k: nat)
    requires SentRounds(spec, s, n) && s.st.phase == Running
    ensures SentRounds(spec, Next(spec, s, Reconciles(env)), k)
  {
    hide Supervise, Halt, IsTimedOut, IsBudgetExceeded, Targets;
    var m := Begin(s, env);
    SuperviseSends(spec, m, env, s.now);
    Lifecycles.HaltWrites(spec, m, env, TimedOut);
    Lifecycles.HaltWrites(spec, m.(st := m.st.(estimatedCost := EstimatedCost(spec, m.st, s.now))), env, BudgetExceeded);
    k := if Outcome(spec, s, env).cl.sent == s.cl.sent && Next(spec, s, Reconciles(env)).st.phase != Completed then n else n + 1;
  }

  lemma StepSends(spec: TeamSpec, s: System, step: Step, n: nat) returns (k: nat)
    requires SentRounds(spec, s, n)
    ensures SentRounds(spec, Next(spec, s, step), k)
  {
    hide ReconcileRunning, Deploy, TerminateAllPods, IsTimedOut, Targets, Rounds;
    k := n;
    if step.Reconciles? {
      var m := Begin(s, step.env);
      if s.st.phase == Running {
        k := RunningSends(spec, s, step.env, n);
      } else if s.st.phase == Initializing {
        DeployFrame(spec, m, s.now);
      } else if Terminal(s.st.phase) {
        Lifecycles.TerminateWrites(spec, m, step.env);
      }
    }
  }

  lemma {:induction false} RunSends(spec: TeamSpec, steps: seq<Step>) returns (n: nat)
    ensures SentRounds(spec, Run(spec, steps), n)
  {
    hide Next;
    if steps == [] {
      n := 0;
    } else {
      var k := RunSends(spec, steps[..|steps| - 1]);
      n := StepSends(spec, Run(spec, steps[..|steps| - 1]), steps[|steps| - 1], k);
    }
  }

  /**
   Over every run the sends are whole rounds over the targets in order; so a target, listed c times, is sent to at most c
   times for each aborted reconcile and for completion, and at least c times once the team is Completed.
   */
  lemma SendsBounded(spec: TeamSpec, steps: seq<Step>, t: DeliveryTarget)
    ensures var s := Run(spec, steps);
      var sends, listed := multiset(s.cl.sent)[t], multiset(Targets(spec))[t];
      && (exists n: nat :: s.cl.sent == Rounds(Targets(spec), n))
      && (if s.st.phase == Completed then listed <= sends <= (s.aborts + 1) * listed else sends <= s.aborts * listed)
  {
    hide Run, Rounds, Targets;
    var s := Run(spec, steps);
    var n := RunSends(spec, steps);
    RoundsCount(Targets(spec), n, t);
    var listed := multiset(Targets(spec))[t];
    if s.st.phase == Completed {
      MoreRounds(1, n, listed);
      MoreRounds(n, s.aborts + 1, listed);
    } else {
      MoreRounds(n, s.aborts, listed);
    }
  }

  lemma MoreRounds(a: nat, b: nat, c: nat)
    requires a <= b
    ensures a * c <= b * c
  {
  }
}
