/** Whole runs of one schedule: each window's Run is made at most once, and no window is missed by a punctual operator. */
module ScheduleRuns {
  import opened Options
  import opened RunNames
  import opened Schedules

  /**
   The Runs with their phases, every creation so far, the stored status and the clock; when the stored next window was
   asked for, when the schedule was first seen, and by when the last successful reconcile asked to be woken.
   */
  datatype System = System(
    runs: map<string, string>, created: seq<Creation>, st: SchedStatus, now: int,
    asked: int, boot: Option<int>, due: Option<int>)

  datatype Step =
    | RunMoves(name: string, phase: string)
    | Wakes(elapsed: nat, faults: seq<bool>)

  const NewStatus := SchedStatus(None, None, "", [])

  function Fresh(now: int): System { System(map[], [], NewStatus, now, now, None, None) }

  function Begin(s: System): Mem { Mem(s.runs, s.created, s.st, 0, true) }

  function Wake(sched: Sched, s: System, now: int, faults: seq<bool>): System {
    var x := Reconciled(sched, Begin(s), now, faults);
    if !x.ok || x.st.next.None? then s.(runs := x.runs, created := x.created, now := now, due := None)
    else
      System(x.runs, x.created, x.st, now,
             if x.st.next == s.st.next then s.asked else now,
             if s.boot.None? then Some(now) else s.boot,
             Some(now + RequeueDelay(x.st.next.value, now)))
  }

  function Next(sched: Sched, s: System, step: Step): System {
    match step
    case RunMoves(name, phase) => if name in s.runs then s.(runs := s.runs[name := phase]) else s
    case Wakes(d, faults) => Wake(sched, s, s.now + d, faults)
  }

  function Run(sched: Sched, start: int, steps: seq<Step>): System {
    if steps == [] then Fresh(start) else Next(sched, Run(sched, start, steps[..|steps| - 1]), steps[|steps| - 1])
  }

  // ---- Invariant ----

  ghost predicate CreatedOk(sched: Sched, c: Creation, next: int, now: int) {
    && c.at % SECOND == 0 && c.name == ScheduledRunName(sched.name, c.at)
    && c.at <= next && c.at <= c.when <= now
  }

  /** Creations are for strictly later and later windows, none past the stored one, whose Run, once made, is still there. */
  ghost predicate CreationsOk(sched: Sched, created: seq<Creation>, runs: map<string, string>, next: int, now: int) {
    && (forall i :: 0 <= i < |created| ==> CreatedOk(sched, created[i], next, now))
    && (forall i, j :: 0 <= i < j < |created| ==> created[i].at < created[j].at)
    && (forall i :: 0 <= i < |created| && created[i].at == next ==> created[i].name in runs)
    && (forall n :: n in runs ==> exists i :: 0 <= i < |created| && created[i].name == n)
  }

  ghost predicate EntryOk(sched: Sched, e: Entry, bound: int) {
    e.at < bound && e.at % SECOND == 0 && e.name == ScheduledRunName(sched.name, e.at)
  }

  /** Entries are for strictly later and later windows. */
  ghost predicate EntriesOk(sched: Sched, entries: seq<Entry>, bound: int) {
    && (forall i :: 0 <= i < |entries| ==> EntryOk(sched, entries[i], bound))
    && (forall i, j :: 0 <= i < j < |entries| ==> entries[i].at < entries[j].at)
  }

  /** The active Run, if any, is the last entry, and in flight. */
  ghost predicate ActiveOk(st: SchedStatus) {
    st.active != "" ==>
      st.runs != [] && st.runs[|st.runs| - 1].name == st.active && !IsRunTerminal(st.runs[|st.runs| - 1].phase)
  }

  ghost predicate ScheduleInv(sched: Sched, s: System) {
    if s.st.next.None? then s.runs == map[] && s.created == [] && s.st == NewStatus && s.boot.None?
    else
      && s.st.next.value == sched.cron(s.asked) && s.asked <= s.now && s.boot.Some?
      && CreationsOk(sched, s.created, s.runs, s.st.next.value, s.now)
      && EntriesOk(sched, s.st.runs, s.st.next.value)
      && ActiveOk(s.st)
  }

  ghost predicate SchedOk(sched: Sched) { CronOk(sched.cron) && ValidName(sched.name) }

  // ---- Firing ----

  lemma WindowNotTracked(sched: Sched, entries: seq<Entry>, at: int)
    requires SchedOk(sched) && EntriesOk(sched, entries, at) && at % SECOND == 0
    ensures !Tracked(entries, ScheduledRunName(sched.name, at))
  {
    hide ScheduledRunName;
    forall i | 0 <= i < |entries| ensures entries[i].name != ScheduledRunName(sched.name, at) {
      assert EntryOk(sched, entries[i], at);
      if entries[i].name == ScheduledRunName(sched.name, at) {
        RunNamesInjective(sched.name, entries[i].at, sched.name, at);
      }
    }
  }

  /** Recording a Run that is on record already, as a retry may, only makes it the active one. */
  lemma RecordedOnce(st: SchedStatus, name: string, at: int)
    ensures Recorded(Recorded(st, name, at), name, at) == Recorded(st, name, at)
    ensures var r := Recorded(st, name, at); r.active == name && Tracked(r.runs, name) && st.runs <= r.runs
    ensures Tracked(st.runs, name) ==> Recorded(st, name, at).runs == st.runs
  {
    var r := Recorded(st, name, at);
    if !Tracked(st.runs, name) {
      assert r.runs[|st.runs|].name == name;
    }
  }

  /** After firing a window: its Run is there, made now unless an earlier try had made it, and its entry is the last. */
  ghost predicate FiredOk(sched: Sched, x: Mem, at: int, now: int, y: Mem) {
    var name := ScheduledRunName(sched.name, at);
    && CreationsOk(sched, y.created, y.runs, at, now)
    && (y.created == x.created || y.created == x.created + [Creation(name, at, now)])
    && (y.ok ==>
      && name in y.runs
      && y.st == SchedStatus(Some(sched.cron(now)), Some(at), name, x.st.runs + [Entry(name, at, "Pending")]))
  }

  lemma CreationMade(sched: Sched, created: seq<Creation>, runs: map<string, string>, at: int, now: int)
    requires at % SECOND == 0 && at <= now && CreationsOk(sched, created, runs, at, now)
    requires ScheduledRunName(sched.name, at) !in runs
    ensures var name := ScheduledRunName(sched.name, at);
      CreationsOk(sched, created + [Creation(name, at, now)], runs[name := ""], at, now)
  {
    hide ScheduledRunName;
    var name := ScheduledRunName(sched.name, at);
    var after := created + [Creation(name, at, now)];
    forall i | 0 <= i < |created| ensures created[i].at < at {
      assert CreatedOk(sched, created[i], at, now);
      assert created[i].name == ScheduledRunName(sched.name, created[i].at);
    }
    forall i | 0 <= i < |after| ensures CreatedOk(sched, after[i], at, now) {
      assert i < |created| ==> CreatedOk(sched, created[i], at, now);
    }
    var runs' := runs[name := ""];
    forall n | n in runs' ensures exists i :: 0 <= i < |after| && after[i].name == n {
      if n == name {
        assert after[|created|].name == n;
      } else {
        var i :| 0 <= i < |created| && created[i].name == n;
        assert after[i].name == n;
      }
    }
  }

  lemma FiringIsOk(sched: Sched, x: Mem, at: int, now: int, faults: seq<bool>)
    requires SchedOk(sched) && x.ok && at % SECOND == 0 && at <= now
    requires CreationsOk(sched, x.created, x.runs, at, now) && EntriesOk(sched, x.st.runs, at)
    ensures FiredOk(sched, x, at, now, Fired(sched, x, at, now, faults))
  {
    hide ScheduledRunName, CreationsOk, EntriesOk, CronOk;
    var name := ScheduledRunName(sched.name, at);
    WindowNotTracked(sched, x.st.runs, at);
    if name !in x.runs {
      CreationMade(sched, x.created, x.runs, at, now);
    }
  }

  // ---- Garbage collection ----

  lemma {:induction false} DeletesListed(x: Mem, names: seq<string>, faults: seq<bool>)
    requires x.ok
    ensures var y := DeleteRuns(x, names, faults);
      && y.created == x.created && y.st == x.st
      && (forall n :: n in y.runs ==> n in x.runs && y.runs[n] == x.runs[n])
      && (forall n :: n in x.runs && n !in y.runs ==> n in names)
      && (y.ok ==> forall n :: n in names ==> n !in y.runs)
  {
    if names != [] {
      DeletesListed(x, names[..|names| - 1], faults);
      assert names == names[..|names| - 1] + [names[|names| - 1]];
    }
  }

  /** The last entry survives a collection. */
  lemma LastNotSurplus(entries: seq<Entry>, limit: int)
    requires entries != []
    ensures |entries| - 1 !in Surplus(entries, limit)
  {
  }

  lemma FrontOk(sched: Sched, entries: seq<Entry>, bound: int)
    requires entries != [] && EntriesOk(sched, entries, bound)
    ensures EntriesOk(sched, entries[..|entries| - 1], entries[|entries| - 1].at)
  {
  }

  lemma AppendOk(sched: Sched, entries: seq<Entry>, e: Entry, bound: int)
    requires EntriesOk(sched, entries, e.at) && EntryOk(sched, e, bound)
    ensures EntriesOk(sched, entries, bound) && EntriesOk(sched, entries + [e], bound)
  {
  }

  lemma {:induction false} WithoutOk(sched: Sched, entries: seq<Entry>, drop: seq<nat>, bound: int)
    requires EntriesOk(sched, entries, bound)
    ensures EntriesOk(sched, Without(entries, drop), bound)
    ensures entries != [] && |entries| - 1 !in drop ==>
      var r := Without(entries, drop); r != [] && r[|r| - 1] == entries[|entries| - 1]
  {
    if entries != [] {
      var n := |entries| - 1;
      assert EntryOk(sched, entries[n], bound);
      hide EntriesOk, EntryOk;
      FrontOk(sched, entries, bound);
      WithoutOk(sched, entries[..n], drop, entries[n].at);
      AppendOk(sched, Without(entries[..n], drop), entries[n], bound);
    }
  }

  ghost predicate SameWindows(a: seq<Entry>, b: seq<Entry>) {
    |a| == |b| && forall i :: 0 <= i < |a| ==> a[i].name == b[i].name && a[i].at == b[i].at
  }

  lemma {:induction false} FoundAtEnd(entries: seq<Entry>, name: string)
    requires entries != [] && entries[|entries| - 1].name == name && !FoundTerminal(entries, name)
    requires forall i :: 0 <= i < |entries| - 1 ==> entries[i].name != name
    ensures !IsRunTerminal(entries[|entries| - 1].phase)
  {
    if |entries| > 1 {
      FoundAtEnd(entries[1..], name);
    }
  }

  lemma EntriesNamedApart(sched: Sched, entries: seq<Entry>, bound: int, i: nat, j: nat)
    requires SchedOk(sched) && EntriesOk(sched, entries, bound) && i < j < |entries|
    ensures entries[i].name != entries[j].name
  {
    hide ScheduledRunName;
    assert EntryOk(sched, entries[i], bound) && EntryOk(sched, entries[j], bound);
    if entries[i].name == entries[j].name {
      RunNamesInjective(sched.name, entries[i].at, sched.name, entries[j].at);
    }
  }

  /** An active Run, if recorded at all, is the last entry. */
  ghost predicate ActiveIsLast(st: SchedStatus) {
    st.active != "" ==> st.runs != [] && st.runs[|st.runs| - 1].name == st.active
  }

  lemma RefreshKeepsEntries(sched: Sched, st: SchedStatus, runs: map<string, string>, bound: int)
    requires EntriesOk(sched, st.runs, bound)
    ensures var r := Refreshed(st, runs); SameWindows(st.runs, r.runs) && EntriesOk(sched, r.runs, bound)
  {
  }

  lemma RefreshOk(sched: Sched, st: SchedStatus, runs: map<string, string>, bound: int)
    requires SchedOk(sched) && EntriesOk(sched, st.runs, bound) && ActiveIsLast(st)
    ensures var r := Refreshed(st, runs); SameWindows(st.runs, r.runs) && EntriesOk(sched, r.runs, bound) && ActiveOk(r)
  {
    hide ScheduledRunName, SchedOk, EntriesOk, FoundTerminal, IsRunTerminal;
    var r := Refreshed(st, runs);
    RefreshKeepsEntries(sched, st, runs, bound);
    if r.active != "" {
      forall i | 0 <= i < |r.runs| - 1 ensures r.runs[i].name != r.active {
        EntriesNamedApart(sched, r.runs, bound, i, |r.runs| - 1);
      }
      FoundAtEnd(r.runs, r.active);
    }
  }

  /** A collection keeps order and the active entry, and deletes no Run but those of surplus entries. */
  lemma CollectOk(sched: Sched, x: Mem, faults: seq<bool>, bound: int)
    requires x.ok && EntriesOk(sched, x.st.runs, bound) && ActiveOk(x.st)
    ensures var y, drop := Collected(sched, x, faults), Surplus(x.st.runs, sched.limit);
      && y.ok && y.created == x.created && y.st == x.st.(runs := y.st.runs)
      && EntriesOk(sched, y.st.runs, bound) && ActiveOk(y.st)
      && (forall n :: n in y.runs ==> n in x.runs && y.runs[n] == x.runs[n])
      && (forall n :: n in x.runs && n !in y.runs ==> n in NamesAt(x.st.runs, drop))
  {
    hide Surplus, Without, DeleteRuns, EntriesOk;
    var drop := Surplus(x.st.runs, sched.limit);
    DeletesListed(x, NamesAt(x.st.runs, drop), faults);
    WithoutOk(sched, x.st.runs, drop, bound);
    if x.st.runs != [] {
      LastNotSurplus(x.st.runs, sched.limit);
    }
  }

  /** The Run of the last entry is not deleted. */
  lemma LastSurvives(sched: Sched, x: Mem, faults: seq<bool>, bound: int)
    requires SchedOk(sched) && x.ok && EntriesOk(sched, x.st.runs, bound) && ActiveOk(x.st) && x.st.runs != []
    requires x.st.runs[|x.st.runs| - 1].name in x.runs
    ensures x.st.runs[|x.st.runs| - 1].name in Collected(sched, x, faults).runs
  {
    hide Collected, Surplus, EntriesOk;
    var drop, last := Surplus(x.st.runs, sched.limit), |x.st.runs| - 1;
    CollectOk(sched, x, faults, bound);
    LastNotSurplus(x.st.runs, sched.limit);
    var names := NamesAt(x.st.runs, drop);
    forall k | 0 <= k < |names| ensures names[k] != x.st.runs[last].name {
      assert drop[k] in drop;
      EntriesNamedApart(sched, x.st.runs, bound, drop[k], last);
    }
  }

  // ---- Steps ----

  /** A reconcile that returns no error leaves a next window. */
  lemma AlwaysPlanned(sched: Sched, x: Mem, now: int, faults: seq<bool>)
    ensures Reconciled(sched, x, now, faults).ok ==> Reconciled(sched, x, now, faults).st.next.Some?
  {
    hide Surplus, ScheduledRunName, Without;
    if x.st.next.Some? {
      var y := if now >= x.st.next.value then Fired(sched, x, x.st.next.value, now, faults) else x;
      if y.ok {
        var z := y.(st := Refreshed(y.st, y.runs));
        DeletesListed(z, NamesAt(z.st.runs, Surplus(z.st.runs, sched.limit)), faults);
      }
    }
  }

  lemma FewerRuns(sched: Sched, created: seq<Creation>, before: map<string, string>, after: map<string, string>, next: int, later: int, now: int, t: int)
    requires CreationsOk(sched, created, before, next, now) && next <= later && now <= t
    requires forall n :: n in after ==> n in before
    requires forall i :: 0 <= i < |created| && created[i].at == later ==> created[i].name in after
    ensures CreationsOk(sched, created, after, later, t)
  {
  }

  lemma FireKeeps(sched: Sched, s: System, now: int, faults: seq<bool>)
    requires SchedOk(sched) && ScheduleInv(sched, s) && s.st.next.Some? && s.now <= now && s.st.next.value <= now
    ensures ScheduleInv(sched, Wake(sched, s, now, faults))
  {
    hide ScheduledRunName, CreationsOk, EntriesOk, ActiveOk, Collected, Fired, Refreshed;
    var at := s.st.next.value;
    var y := Fired(sched, Begin(s), at, now, faults);
    FewerRuns(sched, s.created, s.runs, s.runs, at, at, s.now, now) by {
      AtNextIsThere(sched, s);
    }
    FiringIsOk(sched, Begin(s), at, now, faults);
    if y.ok {
      var z := y.(st := Refreshed(y.st, y.runs));
      AppendedOk(sched, s.st.runs, at, sched.cron(now));
      RefreshOk(sched, y.st, y.runs, sched.cron(now));
      CollectOk(sched, z, faults, sched.cron(now));
      assert z.st.runs[|z.st.runs| - 1].name == ScheduledRunName(sched.name, at) by {
        LastOfRefreshed(y.st, y.runs);
      }
      LastSurvives(sched, z, faults, sched.cron(now));
      var c := Collected(sched, z, faults);
      assert c.st.next == Some(sched.cron(now)) by { NextKept(y.st, y.runs); }
      FewerRuns(sched, y.created, y.runs, c.runs, at, at, now, now) by {
        CreatedNamed(sched, y.created, y.runs, at, now);
      }
      FewerRuns(sched, y.created, y.runs, c.runs, at, sched.cron(now), now, now) by {
        CreatedUpTo(sched, y.created, y.runs, at, now);
      }
      EntriesBelow(sched, s.st.runs, at);
    }
  }

  lemma AtNextIsThere(sched: Sched, s: System)
    requires ScheduleInv(sched, s) && s.st.next.Some?
    ensures forall i :: 0 <= i < |s.created| && s.created[i].at == s.st.next.value ==> s.created[i].name in s.runs
  {
  }

  lemma AppendedOk(sched: Sched, entries: seq<Entry>, at: int, bound: int)
    requires EntriesOk(sched, entries, at) && at % SECOND == 0 && at < bound
    ensures EntriesOk(sched, entries + [Entry(ScheduledRunName(sched.name, at), at, "Pending")], bound)
  {
  }

  lemma LastOfRefreshed(st: SchedStatus, runs: map<string, string>)
    requires st.runs != []
    ensures Refreshed(st, runs).runs != []
    ensures Refreshed(st, runs).runs[|Refreshed(st, runs).runs| - 1].name == st.runs[|st.runs| - 1].name
  {
  }

  lemma NextKept(st: SchedStatus, runs: map<string, string>)
    ensures Refreshed(st, runs).next == st.next
  {
  }

  lemma CreatedNamed(sched: Sched, created: seq<Creation>, runs: map<string, string>, at: int, now: int)
    requires CreationsOk(sched, created, runs, at, now)
    ensures forall i :: 0 <= i < |created| && created[i].at == at ==> created[i].name == ScheduledRunName(sched.name, at)
  {
  }

  lemma CreatedUpTo(sched: Sched, created: seq<Creation>, runs: map<string, string>, at: int, now: int)
    requires CreationsOk(sched, created, runs, at, now)
    ensures forall i :: 0 <= i < |created| ==> created[i].at <= at
  {
  }

  lemma EntriesBelow(sched: Sched, entries: seq<Entry>, bound: int)
    requires EntriesOk(sched, entries, bound)
    ensures forall i :: 0 <= i < |entries| ==> entries[i].at < bound
  {
  }

  lemma QuietWakeKeeps(sched: Sched, s: System, now: int, faults: seq<bool>)
    requires SchedOk(sched) && ScheduleInv(sched, s) && s.st.next.Some? && s.now <= now < s.st.next.value
    ensures ScheduleInv(sched, Wake(sched, s, now, faults))
  {
    hide ScheduledRunName, EntriesOk, ActiveOk, Collected, Refreshed;
    var next := s.st.next.value;
    var z := Begin(s).(st := Refreshed(s.st, s.runs));
    ActiveOkIsLast(s.st);
    RefreshOk(sched, s.st, s.runs, next);
    NextKept(s.st, s.runs);
    CollectOk(sched, z, faults, next);
    var c := Collected(sched, z, faults);
    FewerRuns(sched, s.created, s.runs, c.runs, next, next, s.now, now) by {
      forall i | 0 <= i < |s.created| ensures s.created[i].at < next {
        assert CreatedOk(sched, s.created[i], next, s.now);
      }
    }
  }

  lemma ActiveOkIsLast(st: SchedStatus)
    requires ActiveOk(st)
    ensures ActiveIsLast(st)
  {
  }

  lemma FirstWakeKeeps(sched: Sched, s: System, now: int, faults: seq<bool>)
    requires ScheduleInv(sched, s) && s.st.next.None?
    ensures ScheduleInv(sched, Wake(sched, s, now, faults))
  {
  }

  lemma RunMovesKeep(sched: Sched, s: System, name: string, phase: string)
    requires ScheduleInv(sched, s) && name in s.runs
    ensures ScheduleInv(sched, s.(runs := s.runs[name := phase]))
  {
  }

  lemma NextKeeps(sched: Sched, s: System, step: Step)
    requires SchedOk(sched) && ScheduleInv(sched, s)
    ensures ScheduleInv(sched, Next(sched, s, step))
  {
    hide Wake, ScheduleInv, SchedOk;
    match step
    case RunMoves(name, phase) =>
      if name in s.runs {
        RunMovesKeep(sched, s, name, phase);
      }
    case Wakes(d, faults) =>
      if s.st.next.None? {
        FirstWakeKeeps(sched, s, s.now + d, faults);
      } else if s.now + d >= s.st.next.value {
        FireKeeps(sched, s, s.now + d, faults);
      } else {
        QuietWakeKeeps(sched, s, s.now + d, faults);
      }
  }

  lemma {:induction false} RunKeeps(sched: Sched, start: int, steps: seq<Step>)
    requires SchedOk(sched)
    ensures ScheduleInv(sched, Run(sched, start, steps))
  {
    hide Next, ScheduleInv;
    if steps != [] {
      RunKeeps(sched, start, steps[..|steps| - 1]);
      NextKeeps(sched, Run(sched, start, steps[..|steps| - 1]), steps[|steps| - 1]);
    } else {
      FreshIsOk(sched, start);
    }
  }

  lemma FreshIsOk(sched: Sched, start: int)
    ensures ScheduleInv(sched, Fresh(start))
  {
  }

  /**
   Over every run, whichever creations, deletions and status writes fail: no two Run creations are for the same window,
   and no Run name is ever created twice.
   */
  lemma OncePerWindow(sched: Sched, start: int, steps: seq<Step>, i: nat, j: nat)
    requires SchedOk(sched) && i < j < |Run(sched, start, steps).created|
    ensures var created := Run(sched, start, steps).created;
      created[i].at < created[j].at && created[i].name != created[j].name
  {
    hide Run, ScheduledRunName, EntriesOk, CronOk;
    var s := Run(sched, start, steps);
    RunKeeps(sched, start, steps);
    assert CreatedOk(sched, s.created[i], s.st.next.value, s.now) && CreatedOk(sched, s.created[j], s.st.next.value, s.now);
    if s.created[i].name == s.created[j].name {
      RunNamesInjective(sched.name, s.created[i].at, sched.name, s.created[j].at);
    }
  }

  /** Over every run the stored entries are in window order, all before the next window, and an active Run is the last of them. */
  lemma HistoryInOrder(sched: Sched, start: int, steps: seq<Step>)
    requires SchedOk(sched)
    ensures var st := Run(sched, start, steps).st;
      && (forall i, j :: 0 <= i < j < |st.runs| ==> st.runs[i].at < st.runs[j].at)
      && (forall i :: 0 <= i < |st.runs| ==> st.next.Some? && st.runs[i].at < st.next.value)
      && (st.active != "" ==> st.runs != [] && st.runs[|st.runs| - 1].name == st.active && !IsRunTerminal(st.runs[|st.runs| - 1].phase))
  {
    RunKeeps(sched, start, steps);
    var st := Run(sched, start, steps).st;
    if st.next.Some? {
      EntriesBelow(sched, st.runs, st.next.value);
    }
  }
}
