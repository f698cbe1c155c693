/** What a team costs, by the minute and by the agent, and when that stops it. */
module Prices {
  import opened TeamSpecs
  import opened TeamStatuses
  import opened TeamReconcile
  import opened TeamRuns
  import Budget
  import Lifecycles
  import Outcomes

  /** A session of whole minutes costs 37.5 cents a minute with opus and 22.5 with any other model. */
  lemma SessionMinutes(model: string, m: nat)
    ensures Budget.SessionCost(model, 60 * m) == m as real * (if model == "opus" then 0.375 else 0.225)
  {
    assert Budget.InputTokens(60 * m) == 50_000 * m && Budget.OutputTokens(60 * m) == 5_000 * m;
    assert (50_000 * m) as real == 50_000.0 * m as real && (5_000 * m) as real == 5_000.0 * m as real;
  }

  /** The positions of the teammates with that model. */
  function WithModel(tms: seq<TeammateSpec>, model: string): set<int> {
    set k | 0 <= k < |tms| && tms[k].model == model
  }

  /** The price of a minute of the whole team: lead and teammates. */
  function TeamMinute(spec: TeamSpec): real {
    var opus := |WithModel(spec.teammates, "opus")| + if spec.leadModel == "opus" then 1 else 0;
    opus as real * 0.375 + (|spec.teammates| + 1 - opus) as real * 0.225
  }

  function WithoutLast(spec: TeamSpec): TeamSpec
    requires spec.teammates != []
  {
    spec.(teammates := spec.teammates[..|spec.teammates| - 1])
  }

  lemma OneMore(tms: seq<TeammateSpec>, model: string)
    requires tms != []
    ensures var n := |tms| - 1;
      |WithModel(tms, model)| == |WithModel(tms[..n], model)| + if tms[n].model == model then 1 else 0
  {
    var n := |tms| - 1;
    var before := WithModel(tms[..n], model);
    assert WithModel(tms, model) == before + if tms[n].model == model then {n} else {};
  }

  lemma MinuteGrows(spec: TeamSpec)
    requires spec.teammates != []
    ensures TeamMinute(spec) ==
      TeamMinute(WithoutLast(spec)) + if spec.teammates[|spec.teammates| - 1].model == "opus" then 0.375 else 0.225
  {
    hide WithModel;
    OneMore(spec.teammates, "opus");
  }

  /** Whole minutes of the team cost that many times the price of its minute. */
  lemma {:induction false} TeamMinutes(spec: TeamSpec, m: nat)
    ensures Budget.TeamCost(Models(spec), 60 * m) == m as real * TeamMinute(spec)
    decreases |spec.teammates|
  {
    hide TeamMinute, Budget.SessionCost;
    var models := Models(spec);
    if spec.teammates == [] {
      assert models == [spec.leadModel] && models[..0] == [];
      LoneLead(spec);
      SessionMinutes(spec.leadModel, m);
    } else {
      var n := |spec.teammates| - 1;
      assert models == Models(WithoutLast(spec)) + [spec.teammates[n].model];
      assert models[..n + 1] == Models(WithoutLast(spec));
      TeamMinutes(WithoutLast(spec), m);
      SessionMinutes(spec.teammates[n].model, m);
      MinuteGrows(spec);
      Distributes(m as real, TeamMinute(WithoutLast(spec)), if spec.teammates[n].model == "opus" then 0.375 else 0.225);
    }
  }

  lemma Distributes(m: real, a: real, b: real)
    ensures m * (a + b) == m * a + m * b
  {
  }

  lemma LoneLead(spec: TeamSpec)
    requires spec.teammates == []
    ensures TeamMinute(spec) == if spec.leadModel == "opus" then 0.375 else 0.225
  {
    assert WithModel(spec.teammates, "opus") == {};
  }

  /** The estimate of a started team lies between the prices of the whole minutes before and after. */
  lemma EstimateInMinutes(spec: TeamSpec, st: Status, now: int, m: nat)
    requires st.startedAt.Some? && m * 60 * SECOND <= now - st.startedAt.value <= (m + 1) * 60 * SECOND
    ensures m as real * TeamMinute(spec) <= EstimatedCost(spec, st, now) <= (m + 1) as real * TeamMinute(spec)
  {
    hide TeamMinute, Budget.TeamCost;
    var seconds := (now - st.startedAt.value) / SECOND;
    assert 60 * m <= seconds <= 60 * (m + 1);
    TeamMinutes(spec, m);
    TeamMinutes(spec, m + 1);
    Budget.TeamCostMonotone(Models(spec), 60 * m, seconds);
    Budget.TeamCostMonotone(Models(spec), seconds, 60 * (m + 1));
  }

  /**
   The budget stop of any run in minutes: a committed Running reconcile within the deadline stops a team whose positive
   limit the price of its whole minutes has reached, and none whose limit is above the price of the minute after, or is not
   positive, or is not set.
   */
  lemma BudgetInMinutes(spec: TeamSpec, steps: seq<Step>, env: Env, m: nat)
    requires WellFormed(spec) && Run(spec, steps).st.phase == Running
    requires Run(spec, steps + [Reconciles(env)]).aborts == Run(spec, steps).aborts
    requires var s := Run(spec, steps);
      && s.st.startedAt.Some? && m * 60 * SECOND <= s.now - s.st.startedAt.value <= (m + 1) * 60 * SECOND
      && !Lifecycles.Overdue(spec, s.now - s.st.startedAt.value)
    ensures var stopped := Run(spec, steps + [Reconciles(env)]).st.phase == BudgetExceeded;
      if spec.lifecycle.None? || spec.lifecycle.value.budgetLimit.None? || spec.lifecycle.value.budgetLimit.value <= 0.0 then
        !stopped
      else
        var limit := spec.lifecycle.value.budgetLimit.value;
        && (limit <= m as real * TeamMinute(spec) ==> stopped)
        && (stopped ==> limit <= (m + 1) as real * TeamMinute(spec))
  {
    hide *;
    var s := Run(spec, steps);
    Outcomes.DecisionExact(spec, steps, env);
    EstimateInMinutes(spec, s.st, s.now, m);
    OverspentMeans(spec, s);
  }

  lemma OverspentMeans(spec: TeamSpec, s: System)
    ensures Outcomes.Overspent(spec, s) <==>
      && spec.lifecycle.Some? && spec.lifecycle.value.budgetLimit.Some? && 0.0 < spec.lifecycle.value.budgetLimit.value
      && spec.lifecycle.value.budgetLimit.value <= EstimatedCost(spec, s.st, s.now)
  {
    hide EstimatedCost;
  }
}
