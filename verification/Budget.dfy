/** Cost estimation (internal/budget/tracker.go), over exact reals. */
module Budget {
  const INPUT_TOKENS_PER_MINUTE: int := 50_000
  const OUTPUT_TOKENS_PER_MINUTE: int := 5_000
  const TOTAL_TOKENS_PER_MINUTE: int := INPUT_TOKENS_PER_MINUTE + OUTPUT_TOKENS_PER_MINUTE

  datatype CostRate = CostRate(inputPerMillion: real, outputPerMillion: real)

  function RateFor(model: string): CostRate {
    if model == "opus" then CostRate(5.0, 25.0) else CostRate(3.0, 15.0)
  }

  function EstimateTokens(model: string, seconds: int): int {
    if seconds <= 0 then 0 else TOTAL_TOKENS_PER_MINUTE * seconds / 60
  }

  function EstimateCost(model: string, inputTokens: int, outputTokens: int): real {
    var r := RateFor(model);
    inputTokens as real / 1_000_000.0 * r.inputPerMillion + outputTokens as real / 1_000_000.0 * r.outputPerMillion
  }

  function InputTokens(seconds: int): int { INPUT_TOKENS_PER_MINUTE * seconds / 60 }

  function OutputTokens(seconds: int): int { OUTPUT_TOKENS_PER_MINUTE * seconds / 60 }

  /** What one recorded session adds to a tracker. */
  function SessionCost(model: string, seconds: int): real {
    if seconds <= 0 then 0.0 else EstimateCost(model, InputTokens(seconds), OutputTokens(seconds))
  }

  /** The unrounded price of a session: the token rates applied without the floor division. */
  function ExactCost(model: string, seconds: int): real {
    if seconds <= 0 then 0.0 else seconds as real * RatePerSecond(model)
  }

  function RatePerSecond(model: string): real {
    var r := RateFor(model);
    (50_000.0 * r.inputPerMillion + 5_000.0 * r.outputPerMillion) / 60_000_000.0
  }

  /** The price of one input token and one output token together. */
  function RoundingUnit(model: string): real {
    var r := RateFor(model);
    (r.inputPerMillion + r.outputPerMillion) / 1_000_000.0
  }

  datatype Session = Session(model: string, seconds: int)

  function TotalCost(sessions: seq<Session>): real {
    if sessions == [] then 0.0
    else TotalCost(sessions[..|sessions| - 1]) + SessionCost(sessions[|sessions| - 1].model, sessions[|sessions| - 1].seconds)
  }

  predicate OverBudget(limit: real, cost: real) { limit > 0.0 && cost >= limit }

  class Tracker {
    var budgetLimit: real
    var totalCost: real
    ghost var sessions: seq<Session>

    ghost predicate Valid() reads this { totalCost == TotalCost(sessions) }

    constructor (limit: real)
      ensures Valid() && sessions == [] && budgetLimit == limit
    {
      budgetLimit, totalCost, sessions := limit, 0.0, [];
    }

    method RecordSession(model: string, seconds: int)
      requires Valid()
      modifies this
      ensures Valid() && sessions == old(sessions) + [Session(model, seconds)] && budgetLimit == old(budgetLimit)
    {
      sessions := sessions + [Session(model, seconds)];
      assert sessions[..|sessions| - 1] == old(sessions);
      if seconds <= 0 {
        return;
      }
      var input := INPUT_TOKENS_PER_MINUTE * seconds / 60;
      var output := OUTPUT_TOKENS_PER_MINUTE * seconds / 60;
      totalCost := totalCost + EstimateCost(model, input, output);
    }

    method GetTotalCost() returns (cost: real)
      requires Valid()
      ensures cost == TotalCost(sessions)
    {
      cost := totalCost;
    }

    method IsOverBudget() returns (over: bool)
      requires Valid()
      ensures over <==> OverBudget(budgetLimit, TotalCost(sessions))
    {
      if budgetLimit <= 0.0 {
        return false;
      }
      over := totalCost >= budgetLimit;
    }
  }

  /** Splitting the estimate into input and output loses at most one token, exactly when d mod 3 = 2. */
  lemma TokenSplit(model: string, d: int)
    requires d > 0
    ensures InputTokens(d) + OutputTokens(d) == EstimateTokens(model, d) - (if d % 3 == 2 then 1 else 0)
  {
    var q, r := d / 3, d % 3;
    assert d == 3 * q + r;
    assert 50_000 * d / 60 == 2500 * q + 2500 * r / 3;
    assert 5_000 * d / 60 == 250 * q + 250 * r / 3;
    assert 55_000 * d / 60 == 2750 * q + 2750 * r / 3;
  }

  /** The rounded cost is below the exact one by less than the price of one input and one output token. */
  lemma SessionCostWithinUnit(model: string, d: int)
    ensures 0.0 <= ExactCost(model, d) - SessionCost(model, d) < RoundingUnit(model)
  {
    if d > 0 {
      var i, o := InputTokens(d), OutputTokens(d);
      assert 60 * i <= 50_000 * d < 60 * i + 60;
      assert 60 * o <= 5_000 * d < 60 * o + 60;
      assert 60.0 * i as real <= 50_000.0 * d as real < 60.0 * i as real + 60.0;
      assert 60.0 * o as real <= 5_000.0 * d as real < 60.0 * o as real + 60.0;
    }
  }

  /** One long session never costs less than the two pieces it is split into; so cost is monotone in time. */
  lemma SessionCostSuperadditive(model: string, a: int, b: int)
    requires a >= 0 && b >= 0
    ensures SessionCost(model, a) + SessionCost(model, b) <= SessionCost(model, a + b)
    ensures SessionCost(model, a) <= SessionCost(model, a + b)
  {
    assert InputTokens(a) + InputTokens(b) <= InputTokens(a + b);
    assert OutputTokens(a) + OutputTokens(b) <= OutputTokens(a + b);
    assert 0 <= InputTokens(b) && 0 <= OutputTokens(b);
  }

  function SessionsFor(models: seq<string>, seconds: int): seq<Session> {
    seq(|models|, i requires 0 <= i < |models| => Session(models[i], seconds))
  }

  /** The team's cost after the given time: one session per agent, all of the same length. */
  function TeamCost(models: seq<string>, seconds: int): (cost: real)
    ensures cost == TotalCost(SessionsFor(models, seconds))
  {
    if models == [] then 0.0
    else
      assert SessionsFor(models, seconds)[..|models| - 1] == SessionsFor(models[..|models| - 1], seconds);
      TeamCost(models[..|models| - 1], seconds) + SessionCost(models[|models| - 1], seconds)
  }

  function TeamUnit(models: seq<string>): real {
    if models == [] then 0.0 else TeamUnit(models[..|models| - 1]) + RoundingUnit(models[|models| - 1])
  }

  lemma {:induction false} TeamCostMonotone(models: seq<string>, a: int, b: int)
    requires a <= b
    ensures TeamCost(models, a) <= TeamCost(models, b)
  {
    if models != [] {
      TeamCostMonotone(models[..|models| - 1], a, b);
      if a > 0 {
        SessionCostSuperadditive(models[|models| - 1], a, b - a);
      } else if b > 0 {
        SessionCostSuperadditive(models[|models| - 1], 0, b);
      }
    }
  }

  lemma SessionCostGrowth(model: string, t: int, d: int)
    requires t >= 0 && d >= 0
    ensures SessionCost(model, t + d) < SessionCost(model, t) + ExactCost(model, d) + RoundingUnit(model)
  {
  }

  /** The exact price of d seconds of the whole team. */
  function TeamAccrual(models: seq<string>, d: int): real {
    if models == [] then 0.0 else TeamAccrual(models[..|models| - 1], d) + ExactCost(models[|models| - 1], d)
  }

  /** Over d further seconds the team's cost grows by less than its exact price plus one unit per agent. */
  lemma {:induction false} TeamCostGrowth(models: seq<string>, t: int, d: int)
    requires t >= 0 && d >= 0
    ensures TeamCost(models, t + d) <= TeamCost(models, t) + TeamAccrual(models, d) + TeamUnit(models)
    ensures models != [] ==> TeamCost(models, t + d) < TeamCost(models, t) + TeamAccrual(models, d) + TeamUnit(models)
  {
    if models != [] {
      TeamCostGrowth(models[..|models| - 1], t, d);
      SessionCostGrowth(models[|models| - 1], t, d);
    }
  }

  /** When the previous check was still within the limit, the check that trips is over it by a bounded amount. */
  lemma OvershootBound(models: seq<string>, limit: real, previous: int, elapsed: int, gap: int)
    requires models != [] && 0 <= previous <= elapsed <= previous + gap
    requires limit > 0.0 && !OverBudget(limit, TeamCost(models, previous)) && OverBudget(limit, TeamCost(models, elapsed))
    ensures limit <= TeamCost(models, elapsed) < limit + TeamAccrual(models, gap) + TeamUnit(models)
  {
    hide TeamCost, TeamAccrual, TeamUnit;
    TeamCostGrowth(models, previous, gap);
    TeamCostMonotone(models, elapsed, previous + gap);
  }

  lemma {:induction false} TotalCostRemove(s: seq<Session>, i: int)
    requires 0 <= i < |s|
    ensures TotalCost(s) == TotalCost(s[..i] + s[i + 1..]) + SessionCost(s[i].model, s[i].seconds)
  {
    var n := |s| - 1;
    if i < n {
      TotalCostRemove(s[..n], i);
      assert (s[..i] + s[i + 1..])[..n - 1] == s[..n][..i] + s[..n][i + 1..];
    } else {
      assert s[..i] + s[i + 1..] == s[..n];
    }
  }

  lemma MatchingRest(s: seq<Session>, t: seq<Session>, i: int)
    requires s != [] && multiset(s) == multiset(t) && 0 <= i < |t| && t[i] == s[|s| - 1]
    ensures multiset(s[..|s| - 1]) == multiset(t[..i] + t[i + 1..])
  {
    assert s == s[..|s| - 1] + [s[|s| - 1]];
    assert t == t[..i] + [t[i]] + t[i + 1..];
    assert multiset(s[..|s| - 1]) == multiset(s) - multiset{t[i]};
    assert multiset(t[..i] + t[i + 1..]) == multiset(t) - multiset{t[i]};
  }

  /** The accumulated cost does not depend on the order in which sessions were recorded. */
  lemma {:induction false} TotalCostOrderIndependent(s: seq<Session>, t: seq<Session>)
    requires multiset(s) == multiset(t)
    ensures TotalCost(s) == TotalCost(t)
    decreases |s|
  {
    if s == [] {
      assert |multiset(t)| == |t|;
    } else {
      assert s[|s| - 1] in multiset(t);
      var i :| 0 <= i < |t| && t[i] == s[|s| - 1];
      MatchingRest(s, t, i);
      TotalCostOrderIndependent(s[..|s| - 1], t[..i] + t[i + 1..]);
      TotalCostRemove(t, i);
    }
  }
}
