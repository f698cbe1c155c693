/** Whole runs of one team: the operator's reconciles interleaved with everything that happens around it. */
module TeamRuns {
  import opened Options
  import opened TeamSpecs
  import opened TeamStatuses
  import opened TeamReconcile

  /** The cluster, the stored status, the clock, and how many reconciles returned an error. */
  datatype System = System(cl: Cluster, st: Status, now: int, aborts: nat)

  datatype Step =
    | Tick(elapsed: nat)
    | Approve(event: string)
    | Revoke(event: string)
    | PodMoves(agent: string, phase: PodPhase)
    | InitJobMoves(outcome: JobPhase)
    | PushJobMoves(outcome: JobPhase)
    | Reconciles(env: Env)

  const FreshCluster := Cluster(map[], {}, None, None, [], {}, {}, [])

  const FreshSystem := System(FreshCluster, FreshStatus, 0, 0)

  /** A pod that has not finished takes its next phase; nothing else changes a pod's phase. */
  function MovePod(cl: Cluster, agent: string, phase: PodPhase): Cluster {
    if agent in cl.pods && !Finished(cl.pods[agent].phase) then
      cl.(pods := cl.pods[agent := cl.pods[agent].(phase := phase)],
          succeeded := if phase.PodSucceeded? then cl.succeeded + {agent} else cl.succeeded)
    else cl
  }

  function MoveJob(job: Option<JobPhase>, phase: JobPhase): Option<JobPhase> {
    if job == Some(JobActive) then Some(phase) else job
  }

  function Begin(s: System, env: Env): Mem { Mem(s.cl, s.st, env.fuel, true) }

  /** What the reconcile of this state does in this environment. */
  function Outcome(spec: TeamSpec, s: System, env: Env): Mem { Reconcile(spec, Begin(s, env), env, s.now) }

  function Next(spec: TeamSpec, s: System, step: Step): System {
    match step
    case Tick(d) => s.(now := s.now + d)
    case Approve(e) => s.(cl := s.cl.(granted := s.cl.granted + {e}, everGranted := s.cl.everGranted + {e}))
    case Revoke(e) => s.(cl := s.cl.(granted := s.cl.granted - {e}))
    case PodMoves(a, p) => s.(cl := MovePod(s.cl, a, p))
    case InitJobMoves(p) => s.(cl := s.cl.(initJob := MoveJob(s.cl.initJob, p)))
    case PushJobMoves(p) => s.(cl := s.cl.(pushJob := MoveJob(s.cl.pushJob, p)))
    case Reconciles(env) =>
      var m := Outcome(spec, s, env);
      if m.ok then s.(cl := m.cl, st := m.st) else s.(cl := m.cl, aborts := s.aborts + 1)
  }

  /** The state a fresh team reaches by these steps; a step that is not possible changes nothing. */
  function Run(spec: TeamSpec, steps: seq<Step>): System {
    if steps == [] then FreshSystem else Next(spec, Run(spec, steps[..|steps| - 1]), steps[|steps| - 1])
  }
}
