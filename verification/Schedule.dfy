/**
 One reconcile of an AgentTeamSchedule, as a function of what it reads. Times are nanoseconds. The k-th API write of a
 reconcile fails when its faults say so; a failed Run creation or status write makes the reconcile return an error,
 with what it did to the Runs kept and its status edits lost. A failed deletion only stops the garbage collection.
 */
module Schedules {
  import opened Options
  import opened RunNames

  const MINUTE: int := 60 * SECOND

  datatype Sched = Sched(name: string, limit: int, cron: int -> int)

  datatype Entry = Entry(name: string, at: int, phase: string)

  datatype SchedStatus = SchedStatus(next: Option<int>, last: Option<int>, active: string, runs: seq<Entry>)

  /** A Run creation: its name, the window it is for, and when it happened. */
  datatype Creation = Creation(name: string, at: int, when: int)

  /** A reconcile in progress: the Runs by name with their phases, the creations so far, the status copy, writes tried. */
  datatype Mem = Mem(runs: map<string, string>, created: seq<Creation>, st: SchedStatus, calls: nat, ok: bool)

  /** Next fire times: later than asked, on whole seconds, the earliest such, and at least a minute apart. */
  ghost predicate CronOk(cron: int -> int) {
    && (forall t :: cron(t) > t && cron(t) % SECOND == 0)
    && (forall t, u :: t <= u < cron(t) ==> cron(u) == cron(t))
    && (forall t :: cron(cron(t)) >= cron(t) + MINUTE)
  }

  // ---- History ----

  predicate IsRunTerminal(phase: string) { phase in ["Completed", "Failed", "TimedOut", "BudgetExceeded"] }

  predicate Tracked(entries: seq<Entry>, name: string) { exists i :: 0 <= i < |entries| && entries[i].name == name }

  function Recorded(st: SchedStatus, name: string, at: int): SchedStatus {
    st.(active := name, runs := if Tracked(st.runs, name) then st.runs else st.runs + [Entry(name, at, "Pending")])
  }

  function RefreshedEntry(e: Entry, runs: map<string, string>): Entry {
    if e.name in runs then e.(phase := runs[e.name]) else e
  }

  function RefreshedEntries(entries: seq<Entry>, runs: map<string, string>): (r: seq<Entry>)
    ensures |r| == |entries| && forall i :: 0 <= i < |r| ==> r[i] == RefreshedEntry(entries[i], runs)
  {
    seq(|entries|, i requires 0 <= i < |entries| => RefreshedEntry(entries[i], runs))
  }

  /** The first entry of that name is in a terminal phase. */
  predicate FoundTerminal(entries: seq<Entry>, name: string) {
    entries != [] && if entries[0].name == name then IsRunTerminal(entries[0].phase) else FoundTerminal(entries[1..], name)
  }

  function Refreshed(st: SchedStatus, runs: map<string, string>): SchedStatus {
    var entries := RefreshedEntries(st.runs, runs);
    st.(runs := entries, active := if FoundTerminal(entries, st.active) then "" else st.active)
  }

  // ---- Garbage collection ----

  /** Positions of the terminal entries, in order. */
  function TerminalIndices(entries: seq<Entry>): (r: seq<nat>)
    ensures forall k :: 0 <= k < |r| ==> r[k] < |entries| && IsRunTerminal(entries[r[k]].phase)
  {
    if entries == [] then []
    else
      var n := |entries| - 1;
      var before := TerminalIndices(entries[..n]);
      assert forall k :: 0 <= k < |before| ==> entries[..n][before[k]] == entries[before[k]];
      before + if IsRunTerminal(entries[n].phase) then [n] else []
  }

  /** Positions of the entries to drop: the oldest terminal ones beyond the limit. */
  function Surplus(entries: seq<Entry>, limit: int): (r: seq<nat>)
    ensures forall k :: 0 <= k < |r| ==> r[k] < |entries| && IsRunTerminal(entries[r[k]].phase)
  {
    var terminal := TerminalIndices(entries);
    if limit <= 0 || |terminal| <= limit then [] else terminal[..|terminal| - limit]
  }

  function NamesAt(entries: seq<Entry>, indices: seq<nat>): seq<string>
    requires forall k :: 0 <= k < |indices| ==> indices[k] < |entries|
  {
    seq(|indices|, k requires 0 <= k < |indices| => entries[indices[k]].name)
  }

  /** The entries at the other positions. */
  function Without(entries: seq<Entry>, drop: seq<nat>): seq<Entry> {
    if entries == [] then []
    else
      var n := |entries| - 1;
      Without(entries[..n], drop) + if n in drop then [] else [entries[n]]
  }

  predicate Fails(faults: seq<bool>, call: nat) { call < |faults| && faults[call] }

  function DeleteRuns(x: Mem, names: seq<string>, faults: seq<bool>): Mem {
    if names == [] then x
    else
      var before := DeleteRuns(x, names[..|names| - 1], faults);
      var name := names[|names| - 1];
      if !before.ok || name !in before.runs then before
      else if Fails(faults, before.calls) then before.(calls := before.calls + 1, ok := false)
      else before.(calls := before.calls + 1, runs := before.runs - {name})
  }

  /** A failed deletion leaves the history as it was. */
  function Collected(sched: Sched, x: Mem, faults: seq<bool>): Mem {
    var drop := Surplus(x.st.runs, sched.limit);
    var y := DeleteRuns(x, NamesAt(x.st.runs, drop), faults);
    if y.ok then y.(st := y.st.(runs := Without(y.st.runs, drop))) else y.(ok := true)
  }

  /** No deletion of the collection fails. */
  predicate Undisturbed(sched: Sched, x: Mem, faults: seq<bool>) {
    DeleteRuns(x, NamesAt(x.st.runs, Surplus(x.st.runs, sched.limit)), faults).ok
  }

  // ---- A reconcile ----

  function CreateRun(sched: Sched, x: Mem, at: int, now: int, faults: seq<bool>): Mem {
    var name := ScheduledRunName(sched.name, at);
    if Fails(faults, x.calls) then x.(calls := x.calls + 1, ok := false)
    else
      var y := x.(calls := x.calls + 1);
      var z := if name in y.runs then y else y.(runs := y.runs[name := ""], created := y.created + [Creation(name, at, now)]);
      z.(st := Recorded(z.st, name, at))
  }

  function Fired(sched: Sched, x: Mem, at: int, now: int, faults: seq<bool>): Mem {
    var y := CreateRun(sched, x, at, now, faults);
    if !y.ok then y else y.(st := y.st.(last := Some(at), next := Some(sched.cron(now))))
  }

  function Commit(x: Mem, faults: seq<bool>): Mem { x.(calls := x.calls + 1, ok := !Fails(faults, x.calls)) }

  function Maintained(sched: Sched, x: Mem, faults: seq<bool>): Mem {
    Commit(Collected(sched, x.(st := Refreshed(x.st, x.runs)), faults), faults)
  }

  function Reconciled(sched: Sched, x: Mem, now: int, faults: seq<bool>): Mem {
    if x.st.next.None? then Commit(x.(st := x.st.(next := Some(sched.cron(now)))), faults)
    else
      var y := if now >= x.st.next.value then Fired(sched, x, x.st.next.value, now, faults) else x;
      if !y.ok then y else Maintained(sched, y, faults)
  }

  /** The wait asked for until the next reconcile: at least a minute. */
  function RequeueDelay(next: int, now: int): int { if next - now < MINUTE then MINUTE else next - now }
}
