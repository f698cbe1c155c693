/**
 The webhook trigger: the handler that fires Runs under a concurrency policy from a cached active Run, and the
 reconciler that refreshes the cache.
 */
module Triggers {
  import opened Options
  import RunNames
  import Schedules

  const DEFAULT_HISTORY_LIMIT: int := 20

  datatype Trigger = Trigger(name: string, policy: string, injectsPayload: bool)

  /** An AgentTeamRun of the trigger: its name, its creation time in whole seconds and its phase. */
  datatype Run = Run(name: string, created: int, phase: string)

  type Runs = map<string, Run>

  datatype TriggerStatus = TriggerStatus(runs: seq<Run>, active: string, total: nat, last: Option<int>)

  datatype Response = Accepted(run: string) | Conflict | InternalError

  /** Which of the handler's API calls fail for a reason other than NotFound or AlreadyExists. */
  datatype Faults = Faults(delete: bool, createPayload: bool, createRun: bool)

  /** The Runs labelled with the trigger and the names of the payload ConfigMaps. */
  datatype Store = Store(runs: Runs, payloads: set<string>)

  predicate InFlight(r: Run) { !Schedules.IsRunTerminal(r.phase) }

  function RunName(trig: Trigger, seconds: int): string { trig.name + "-" + RunNames.SignedDecimal(seconds) }

  function CreateRun(trig: Trigger, s: Store, name: string, now: int, faults: Faults): (Store, bool) {
    var t := if trig.injectsPayload && !faults.createPayload then s.(payloads := s.payloads + {name + "-payload"}) else s;
    if (trig.injectsPayload && faults.createPayload) || faults.createRun then (t, true)
    else if name in t.runs then (t, false)
    else (t.(runs := t.runs[name := Run(name, now, "")]), false)
  }

  /** What a POST that reached the policy does, given the cached active Run, the handler's clock and the server's. */
  function Fire(trig: Trigger, s: Store, active: string, seconds: int, now: int, faults: Faults): (Store, Response) {
    if trig.policy == "Forbid" && active != "" then (s, Conflict)
    else if trig.policy == "Replace" && active != "" && faults.delete then (s, InternalError)
    else
      var t := if trig.policy == "Replace" && active != "" then s.(runs := s.runs - {active}) else s;
      var name := RunName(trig, seconds);
      var (u, err) := CreateRun(trig, t, name, now, faults);
      (u, if err then InternalError else Accepted(name))
  }

  // ---- The reconciler ----

  /** The listing: each of the Runs once, in some order. */
  ghost predicate Lists(listed: seq<Run>, runs: Runs) {
    && (forall i :: 0 <= i < |listed| ==> listed[i].name in runs && runs[listed[i].name] == listed[i])
    && (forall n :: n in runs ==> exists i :: 0 <= i < |listed| && listed[i].name == n)
    && (forall i, j :: 0 <= i < j < |listed| ==> listed[i].name != listed[j].name)
  }

  predicate NewestFirst(listed: seq<Run>) {
    forall i, j :: 0 <= i < j < |listed| ==> listed[i].created >= listed[j].created
  }

  /** The name of the first Run in flight, or "". */
  function FirstInFlight(listed: seq<Run>): string {
    if listed == [] then ""
    else
      var before := FirstInFlight(listed[..|listed| - 1]);
      var last := listed[|listed| - 1];
      if before == "" && InFlight(last) then last.name else before
  }

  function HistoryLimit(limit: int): int { if limit <= 0 then DEFAULT_HISTORY_LIMIT else limit }

  function Observed(sorted: seq<Run>, limit: int, before: TriggerStatus): TriggerStatus {
    var n := HistoryLimit(limit);
    TriggerStatus(if |sorted| <= n then sorted else sorted[..n], FirstInFlight(sorted), |sorted|,
                  if sorted == [] then before.last else Some(sorted[0].created))
  }

  ghost predicate Named(listed: seq<Run>) { forall i :: 0 <= i < |listed| ==> listed[i].name != "" }

  lemma {:induction false} FirstInFlightFound(listed: seq<Run>)
    requires Named(listed)
    ensures if exists i :: 0 <= i < |listed| && InFlight(listed[i])
      then exists i :: 0 <= i < |listed| && InFlight(listed[i]) && listed[i].name == FirstInFlight(listed)
                       && forall k :: 0 <= k < i ==> !InFlight(listed[k])
      else FirstInFlight(listed) == ""
  {
    if listed != [] {
      var n := |listed| - 1;
      FirstInFlightFound(listed[..n]);
      if j :| 0 <= j < n && InFlight(listed[..n][j]) {
        var i :| 0 <= i < n && InFlight(listed[..n][i]) && listed[..n][i].name == FirstInFlight(listed[..n])
                 && forall k :: 0 <= k < i ==> !InFlight(listed[..n][k]);
        assert InFlight(listed[i]) && listed[i].name == FirstInFlight(listed);
        forall k | 0 <= k < i ensures !InFlight(listed[k]) {
          assert listed[..n][k] == listed[k];
        }
      } else {
        forall k | 0 <= k < n ensures !InFlight(listed[k]) {
          assert listed[..n][k] == listed[k];
        }
      }
    }
  }

  /**
   After a reconcile the active Run is one in flight with no newer one in flight, wherever it stands in the listing, and
   is empty exactly when no Run is in flight.
   */
  lemma ActiveIsNewest(runs: Runs, sorted: seq<Run>, limit: int, before: TriggerStatus)
    requires Lists(sorted, runs) && NewestFirst(sorted) && "" !in runs
    ensures var active := Observed(sorted, limit, before).active;
      && (active == "" <==> forall n :: n in runs ==> !InFlight(runs[n]))
      && (active != "" ==>
        && active in runs && InFlight(runs[active])
        && forall n :: n in runs && InFlight(runs[n]) ==> runs[n].created <= runs[active].created)
  {
    hide FirstInFlight, InFlight;
    FirstInFlightFound(sorted);
    forall n | n in runs ensures exists j :: 0 <= j < |sorted| && sorted[j] == runs[n] {
      var j :| 0 <= j < |sorted| && sorted[j].name == n;
      assert sorted[j] == runs[n];
    }
  }

  /** The history kept after a reconcile is the newest Runs, as many as the limit allows, newest first. */
  lemma HistoryIsNewest(runs: Runs, sorted: seq<Run>, limit: int, before: TriggerStatus)
    requires Lists(sorted, runs) && NewestFirst(sorted)
    ensures var history := Observed(sorted, limit, before).runs;
      && NewestFirst(history) && |history| == (if |sorted| <= HistoryLimit(limit) then |sorted| else HistoryLimit(limit))
      && (forall n, i :: n in runs && runs[n] !in history && 0 <= i < |history| ==> runs[n].created <= history[i].created)
  {
  }

  lemma {:induction false} ListedOnce(runs: Runs, listed: seq<Run>)
    requires Lists(listed, runs)
    ensures |listed| == |runs|
    decreases |listed|
  {
    if listed == [] {
      assert runs.Keys == {};
    } else {
      hide Lists;
      var n := |listed| - 1;
      var rest := LastListed(runs, listed);
      ListedOnce(rest, listed[..n]);
      assert runs.Keys == rest.Keys + {listed[n].name};
    }
  }

  lemma LastListed(runs: Runs, listed: seq<Run>) returns (rest: Runs)
    requires Lists(listed, runs) && listed != []
    ensures var n := |listed| - 1;
      Lists(listed[..n], rest) && listed[n].name in runs && rest == runs - {listed[n].name}
  {
    var n := |listed| - 1;
    rest := runs - {listed[n].name};
    forall m | m in rest ensures exists i :: 0 <= i < n && listed[..n][i].name == m {
      var i :| 0 <= i < |listed| && listed[i].name == m;
      assert i < n && listed[..n][i] == listed[i];
    }
  }

  /** The total is the number of Runs there are, the last time that of the newest; 20 are kept when no limit is given. */
  lemma TotalsAreExact(runs: Runs, sorted: seq<Run>, limit: int, before: TriggerStatus)
    requires Lists(sorted, runs) && NewestFirst(sorted)
    ensures var after := Observed(sorted, limit, before);
      && after.total == |runs|
      && |after.runs| == (var kept := if limit > 0 then limit else 20; if |runs| < kept then |runs| else kept)
      && (if runs == map[] then after.last == before.last
          else after.last.Some? && (exists n :: n in runs && runs[n].created == after.last.value)
               && forall n :: n in runs ==> runs[n].created <= after.last.value)
  {
    ListedOnce(runs, sorted);
    if sorted != [] {
      assert sorted[0].name in runs;
      forall n | n in runs ensures runs[n].created <= sorted[0].created {
        var i :| 0 <= i < |sorted| && sorted[i].name == n;
      }
    }
  }

  /** The Runs in some listing order, newest first whatever the order of equals. */
  ghost predicate Sorts(sorted: seq<Run>, listed: seq<Run>) { multiset(sorted) == multiset(listed) && NewestFirst(sorted) }

  // ---- In place ----

  /** Sorts by creation time, newest first; Runs created in the same second come in either order. */
  method SortNewestFirst(a: array<Run>)
    modifies a
    ensures Sorts(a[..], old(a[..]))
  {
    for i := 0 to a.Length
      invariant NewestFirst(a[..i]) && multiset(a[..]) == multiset(old(a[..]))
    {
      Sink(a, i);
    }
    assert a[..a.Length] == a[..];
  }

  method SwapBack(a: array<Run>, j: nat)
    requires 0 < j < a.Length
    modifies a
    ensures a[j - 1] == old(a[j]) && a[j] == old(a[j - 1])
    ensures forall k :: 0 <= k < a.Length && k != j && k != j - 1 ==> a[k] == old(a[k])
    ensures multiset(a[..]) == multiset(old(a[..]))
  {
    a[j - 1], a[j] := a[j], a[j - 1];
  }

  /** The first i + 1 elements are in order except that element j may be newer than those before it. */
  ghost predicate SortedBut(a: array<Run>, i: nat, j: nat)
    requires j <= i < a.Length
    reads a
  {
    forall x, y :: 0 <= x < y <= i && y != j ==> a[x].created >= a[y].created
  }

  /** Moves element i back to its place among the sorted elements before it. */
  method Sink(a: array<Run>, i: nat)
    requires i < a.Length && NewestFirst(a[..i])
    modifies a
    ensures NewestFirst(a[..i + 1]) && multiset(a[..]) == multiset(old(a[..]))
  {
    var j := i;
    assert SortedBut(a, i, j) by {
      forall x, y | 0 <= x < y <= i && y != j ensures a[x].created >= a[y].created {
        assert a[..i][x] == a[x] && a[..i][y] == a[y];
      }
    }
    while j > 0 && a[j - 1].created < a[j].created
      invariant 0 <= j <= i < a.Length && SortedBut(a, i, j)
      invariant multiset(a[..]) == multiset(old(a[..]))
    {
      SwapBack(a, j);
      j := j - 1;
    }
  }

  lemma NoneListed(listed: seq<Run>)
    requires listed == []
    ensures FirstInFlight(listed) == ""
  {
  }

  lemma NextInFlight(listed: seq<Run>, r: Run)
    ensures FirstInFlight(listed + [r]) == if FirstInFlight(listed) == "" && InFlight(r) then r.name else FirstInFlight(listed)
  {
    assert (listed + [r])[..|listed|] == listed;
  }

  class AgentTeamTrigger {
    var runs: seq<Run>
    var active: string
    var total: nat
    var last: Option<int>

    function View(): TriggerStatus reads this { TriggerStatus(runs, active, total, last) }

    /** Rebuilds the status from the listed Runs, which it sorts. */
    method Reconcile(listed: array<Run>, limit: int)
      requires Named(listed[..])
      modifies this, listed
      ensures Sorts(listed[..], old(listed[..])) && View() == Observed(listed[..], limit, old(View()))
    {
      hide FirstInFlight, NewestFirst;
      SortNewestFirst(listed);
      var max := if limit <= 0 then DEFAULT_HISTORY_LIMIT else limit;
      var history: seq<Run> := [];
      var found := "";
      ghost var sorted := listed[..];
      assert FirstInFlight(sorted[..0]) == "" by { NoneListed(sorted[..0]); }
      for i := 0 to listed.Length
        modifies {}
        invariant listed[..] == sorted
        invariant history == sorted[..if i <= max then i else max]
        invariant found == FirstInFlight(sorted[..i])
      {
        NextInFlight(sorted[..i], sorted[i]);
        assert sorted[..i + 1] == sorted[..i] + [sorted[i]];
        if i < max {
          history := history + [listed[i]];
        }
        if found == "" && !Schedules.IsRunTerminal(listed[i].phase) {
          found := listed[i].name;
        }
      }
      assert sorted[..listed.Length] == sorted;
      runs, active, total := history, found, listed.Length;
      if listed.Length > 0 {
        last := Some(listed[0].created);
      }
      assert listed[..] == sorted;
    }
  }

  class ApiStore {
    var runs: Runs
    var payloads: set<string>

    function View(): Store reads this { Store(runs, payloads) }

    method CreateTriggeredRun(trig: Trigger, name: string, now: int, faults: Faults) returns (err: bool)
      modifies this
      ensures (View(), err) == CreateRun(trig, old(View()), name, now, faults)
    {
      if trig.injectsPayload {
        if faults.createPayload {
          return true;
        }
        payloads := payloads + {name + "-payload"};
      }
      if faults.createRun {
        return true;
      }
      if name !in runs {
        runs := runs[name := Run(name, now, "")];
      }
      err := false;
    }

    /** The handler from the concurrency policy on. */
    method ServeFire(trig: Trigger, active: string, seconds: int, now: int, faults: Faults) returns (response: Response)
      modifies this
      ensures (View(), response) == Fire(trig, old(View()), active, seconds, now, faults)
    {
      if trig.policy == "Forbid" {
        if active != "" {
          return Conflict;
        }
      } else if trig.policy == "Replace" {
        if active != "" {
          if faults.delete {
            return InternalError;
          }
          runs := runs - {active};
        }
      }
      var name := RunName(trig, seconds);
      var err := CreateTriggeredRun(trig, name, now, faults);
      response := if err then InternalError else Accepted(name);
    }
  }
}
