/** A collection cut short by a failed deletion costs nothing: once it is saved, the next undisturbed wake-up makes up for it. */
module ScheduleCatchUp {
  import opened Options
  import opened RunNames
  import opened Schedules
  import opened ScheduleRetention
  import opened ScheduleRuns
  import opened ScheduleHistory
  import opened ScheduleStranding
  import SchedulePunctuality

  function Kept(sched: Sched, entries: seq<Entry>): seq<Entry> { Without(entries, Surplus(entries, sched.limit)) }

  function SurplusNames(sched: Sched, entries: seq<Entry>): seq<string> { NamesAt(entries, Surplus(entries, sched.limit)) }

  /** Entries stored as finished have, if any, a finished Run. */
  ghost predicate FinishedAgree(s: System) {
    forall i :: 0 <= i < |s.st.runs| && IsRunTerminal(s.st.runs[i].phase) && s.st.runs[i].name in s.runs ==>
      IsRunTerminal(s.runs[s.st.runs[i].name])
  }

  /** The states differ only in a surplus that b has collected and a, at least in part, has not. */
  ghost predicate Lags(sched: Sched, a: System, b: System) {
    && b == a.(runs := b.runs, st := a.st.(runs := Kept(sched, a.st.runs)))
    && (forall n :: n in b.runs <==> n in a.runs && n !in SurplusNames(sched, a.st.runs))
    && (forall n :: n in b.runs ==> b.runs[n] == a.runs[n])
    && FinishedAgree(a)
  }

  // ---- The wake-up that is cut short ----

  lemma RefreshAgrees(st: SchedStatus, runs: map<string, string>)
    ensures forall i :: 0 <= i < |Refreshed(st, runs).runs| && Refreshed(st, runs).runs[i].name in runs ==>
      runs[Refreshed(st, runs).runs[i].name] == Refreshed(st, runs).runs[i].phase
  {
    hide FoundTerminal;
  }

  lemma {:induction false} WithoutKeepsAgreement(entries: seq<Entry>, drop: seq<nat>, runs: map<string, string>)
    requires forall i :: 0 <= i < |entries| && entries[i].name in runs ==> runs[entries[i].name] == entries[i].phase
    ensures forall i :: 0 <= i < |Without(entries, drop)| && Without(entries, drop)[i].name in runs ==>
      runs[Without(entries, drop)[i].name] == Without(entries, drop)[i].phase
  {
    if entries != [] {
      WithoutKeepsAgreement(entries[..|entries| - 1], drop, runs);
    }
  }

  /** What a collection cut short and an undisturbed one leave. */
  lemma CollectionsLag(sched: Sched, x: Mem, faults: seq<bool>)
    requires x.ok
    ensures var c, d := Collected(sched, x, faults), Collected(sched, x, []);
      && d.st == c.st.(runs := Kept(sched, c.st.runs)) && c.created == d.created == x.created && c.ok && d.ok
      && (forall n :: n in d.runs <==> n in c.runs && n !in SurplusNames(sched, c.st.runs))
      && (forall n :: n in d.runs ==> d.runs[n] == c.runs[n])
      && (forall n :: n in c.runs ==> n in x.runs && c.runs[n] == x.runs[n])
      && (c.st == x.st || c.st == x.st.(runs := Kept(sched, x.st.runs)))
  {
    hide Surplus, Without, DeleteRuns;
    var drop := Surplus(x.st.runs, sched.limit);
    var names := NamesAt(x.st.runs, drop);
    DeletesListed(x, names, faults);
    DeletesListed(x, names, []);
    NoFaultNoStop(x, names);
    if Undisturbed(sched, x, faults) {
      CollectedAgain(sched, x.st.runs);
      NothingDropped(Without(x.st.runs, drop));
    }
  }

  lemma SameFiring(sched: Sched, x: Mem, at: int, now: int, faults: seq<bool>)
    requires x.calls == 0 && !Fails(faults, 0)
    ensures Fired(sched, x, at, now, faults) == Fired(sched, x, at, now, [])
  {
    hide ScheduledRunName;
  }

  /** Saved entries agree with the Runs there are. */
  lemma SavedAgree(sched: Sched, x: Mem, c: Mem)
    requires forall i :: 0 <= i < |x.st.runs| && x.st.runs[i].name in x.runs ==> x.runs[x.st.runs[i].name] == x.st.runs[i].phase
    requires forall n :: n in c.runs ==> n in x.runs && c.runs[n] == x.runs[n]
    requires c.st == x.st || c.st == x.st.(runs := Kept(sched, x.st.runs))
    ensures forall i :: 0 <= i < |c.st.runs| && c.st.runs[i].name in c.runs ==> c.runs[c.st.runs[i].name] == c.st.runs[i].phase
  {
    hide Surplus, Without;
    WithoutKeepsAgreement(x.st.runs, Surplus(x.st.runs, sched.limit), x.runs);
  }

  lemma StartsLagging(sched: Sched, s: System, now: int, faults: seq<bool>)
    requires s.st.next.Some? && Reconciled(sched, Begin(s), now, faults).ok
    ensures Lags(sched, Wake(sched, s, now, faults), Wake(sched, s, now, []))
  {
    hide ScheduledRunName, Fired, Refreshed, Collected, Kept, SurplusNames, IsRunTerminal;
    AlwaysPlanned(sched, Begin(s), now, faults);
    if Due(s, now) {
      FiringSurvived(sched, s, now, faults);
      SameFiring(sched, Begin(s), s.st.next.value, now, faults);
    }
    var y := if Due(s, now) then Fired(sched, Begin(s), s.st.next.value, now, faults) else Begin(s);
    var x := y.(st := Refreshed(y.st, y.runs));
    NextKept(y.st, y.runs);
    CollectionsLag(sched, x, faults);
    SchedulePunctuality.NoFaultNoFailure(sched, x);
    RefreshAgrees(y.st, y.runs);
    SavedAgree(sched, x, Collected(sched, x, faults));
  }

  lemma FiringSurvived(sched: Sched, s: System, now: int, faults: seq<bool>)
    requires Due(s, now) && Reconciled(sched, Begin(s), now, faults).ok
    ensures !Fails(faults, 0)
  {
    hide ScheduledRunName, Maintained;
  }

  // ---- Runs going on ----

  /** A Run that has not finished takes its next phase. */
  ghost predicate LeavesFinished(s: System, step: Step) {
    step.RunMoves? && (step.name in s.runs ==> !IsRunTerminal(s.runs[step.name]))
  }

  lemma MovesKeepLag(sched: Sched, a: System, b: System, step: Step)
    requires Lags(sched, a, b) && LeavesFinished(a, step)
    ensures Lags(sched, Next(sched, a, step), Next(sched, b, step))
  {
    hide Surplus, Without, IsRunTerminal;
    var entries := a.st.runs;
    var drop, names := Surplus(entries, sched.limit), SurplusNames(sched, entries);
    if step.name in names {
      var k :| 0 <= k < |names| && names[k] == step.name;
      assert IsRunTerminal(entries[drop[k]].phase) && entries[drop[k]].name == step.name;
    }
  }

  // ---- The wake-up that catches up ----

  lemma WithoutAppend(entries: seq<Entry>, e: Entry, drop: seq<nat>)
    requires |entries| !in drop
    ensures Without(entries + [e], drop) == Without(entries, drop) + [e]
  {
    assert (entries + [e])[..|entries|] == entries;
  }

  lemma {:induction false} RefreshCommutes(entries: seq<Entry>, drop: seq<nat>, before: map<string, string>, after: map<string, string>)
    requires forall i :: 0 <= i < |entries| && i !in drop ==> RefreshedEntry(entries[i], before) == RefreshedEntry(entries[i], after)
    ensures RefreshedEntries(Without(entries, drop), after) == Without(RefreshedEntries(entries, before), drop)
  {
    hide RefreshedEntry;
    if entries != [] {
      var n := |entries| - 1;
      RefreshCommutes(entries[..n], drop, before, after);
      assert RefreshedEntries(entries, before)[..n] == RefreshedEntries(entries[..n], before);
    }
  }

  lemma {:induction false} TerminalsGrow(a: seq<Entry>, b: seq<Entry>)
    requires |a| <= |b| && forall i :: 0 <= i < |a| && IsRunTerminal(a[i].phase) ==> IsRunTerminal(b[i].phase)
    ensures |Terminals(a)| <= |Terminals(b)|
  {
    if a != [] {
      TerminalsGrow(a[1..], b[1..]);
    }
  }

  /** Entries already beyond the limit make no difference to what is retained. */
  lemma {:induction false} DroppedEarlier(entries: seq<Entry>, limit: nat, drop: seq<nat>)
    requires forall i :: 0 <= i < |entries| && i in drop ==> BeyondLimit(entries, limit, i)
    ensures Retained(Without(entries, drop), limit) == Retained(entries, limit)
  {
    hide IsRunTerminal, Terminals, Without;
    if entries == [] {
      NoneLeft(drop);
    } else {
      var rest := entries[1..];
      assert entries[0 + 1..] == rest;
      forall i | 0 <= i < |rest| && i in Shift(drop) ensures BeyondLimit(rest, limit, i) {
        assert entries[i + 1 + 1..] == rest[i + 1..];
        assert BeyondLimit(entries, limit, i + 1);
      }
      DroppedEarlier(rest, limit, Shift(drop));
      WithoutFirst(entries, drop);
      var w := Without(rest, Shift(drop));
      if 0 in drop {
        assert BeyondLimit(entries, limit, 0);
        assert [] + w == w;
      } else {
        RetainedKeepsNewest(rest, limit);
        RetainedKeepsNewest(w, limit);
        assert ([entries[0]] + w)[1..] == w;
      }
    }
  }

  ghost predicate DistinctNamed(entries: seq<Entry>) {
    forall i, j :: 0 <= i < j < |entries| ==> entries[i].name != entries[j].name
  }

  lemma OkIsDistinct(sched: Sched, entries: seq<Entry>, bound: int)
    requires SchedOk(sched) && EntriesOk(sched, entries, bound)
    ensures DistinctNamed(entries)
  {
    hide SchedOk, EntriesOk;
    forall i, j | 0 <= i < j < |entries| ensures entries[i].name != entries[j].name {
      EntriesNamedApart(sched, entries, bound, i, j);
    }
  }

  lemma {:induction false} TrackedWithout(entries: seq<Entry>, drop: seq<nat>, n: string)
    ensures Tracked(Without(entries, drop), n) <==> exists i :: 0 <= i < |entries| && i !in drop && entries[i].name == n
  {
    if entries != [] {
      var last := |entries| - 1;
      TrackedWithout(entries[..last], drop, n);
      var front, w := Without(entries[..last], drop), Without(entries, drop);
      if last in drop {
        assert w == front;
      } else {
        assert w == front + [entries[last]];
        assert w[|front|].name == entries[last].name;
        assert forall i :: 0 <= i < |front| ==> w[i] == front[i];
      }
      assert forall i :: 0 <= i < last ==> entries[..last][i] == entries[i];
    }
  }

  /** An undisturbed collection leaves the Runs without an entry and those with a retained one. */
  lemma RunsLeftByName(sched: Sched, x: Mem)
    requires x.ok && DistinctNamed(x.st.runs)
    ensures var y := Collected(sched, x, []);
      && y.ok && y.created == x.created && y.st == x.st.(runs := Kept(sched, x.st.runs))
      && (forall n :: n in y.runs <==> n in x.runs && (Tracked(x.st.runs, n) ==> Tracked(y.st.runs, n)))
      && (forall n :: n in y.runs ==> y.runs[n] == x.runs[n])
  {
    hide Surplus, Without, DeleteRuns;
    var drop, names := Surplus(x.st.runs, sched.limit), SurplusNames(sched, x.st.runs);
    NoFaultNoStop(x, names);
    DeletesListed(x, names, []);
    forall n ensures n !in names <==> (Tracked(x.st.runs, n) ==> Tracked(Without(x.st.runs, drop), n)) {
      TrackedWithout(x.st.runs, drop, n);
      NamedAt(x.st.runs, drop, n);
    }
  }

  lemma NamedAt(entries: seq<Entry>, drop: seq<nat>, n: string)
    requires forall k :: 0 <= k < |drop| ==> drop[k] < |entries|
    ensures n in NamesAt(entries, drop) <==> exists i :: 0 <= i < |entries| && i in drop && entries[i].name == n
  {
    var names := NamesAt(entries, drop);
    if i :| 0 <= i < |entries| && i in drop && entries[i].name == n {
      var k :| 0 <= k < |drop| && drop[k] == i;
      assert names[k] == n;
    }
    if n in names {
      var k :| 0 <= k < |names| && names[k] == n;
      assert drop[k] in drop;
    }
  }

  /** The stored entries and, when a window is due, its entry. */
  function Entries(sched: Sched, s: System, now: int): seq<Entry> {
    if Due(s, now) then s.st.runs + [Entry(ScheduledRunName(sched.name, s.st.next.value), s.st.next.value, "Pending")]
    else s.st.runs
  }

  lemma EntriesDistinct(sched: Sched, s: System, now: int)
    requires SchedOk(sched) && ScheduleInv(sched, s) && s.st.next.Some?
    ensures DistinctNamed(Entries(sched, s, now)) && !Tracked(s.st.runs, ScheduledRunName(sched.name, s.st.next.value))
  {
    hide ScheduledRunName, EntriesOk, CreationsOk, ActiveOk, SchedOk;
    NextIsWhole(sched, s);
    WindowNotTracked(sched, s.st.runs, s.st.next.value);
    OkIsDistinct(sched, s.st.runs, s.st.next.value);
  }

  lemma RunsAgree(sched: Sched, a: System, b: System, now: int)
    requires SchedOk(sched) && ScheduleInv(sched, a) && Lags(sched, a, b) && a.st.next.Some?
    ensures forall n :: n in RunsAt(sched, b, now) <==> n in RunsAt(sched, a, now) && n !in SurplusNames(sched, a.st.runs)
    ensures forall n :: n in RunsAt(sched, b, now) ==> RunsAt(sched, b, now)[n] == RunsAt(sched, a, now)[n]
  {
    hide ScheduledRunName, EntriesOk, CreationsOk, ActiveOk, SchedOk, Surplus, Kept, ScheduleInv;
    EntriesDistinct(sched, a, now);
    NamedAt(a.st.runs, Surplus(a.st.runs, sched.limit), ScheduledRunName(sched.name, a.st.next.value));
  }

  lemma HistoriesAgree(sched: Sched, a: System, b: System, now: int)
    requires SchedOk(sched) && ScheduleInv(sched, a) && Lags(sched, a, b) && a.st.next.Some?
    ensures HistoryAt(sched, b, now) == Without(HistoryAt(sched, a, now), Surplus(a.st.runs, sched.limit))
  {
    hide ScheduledRunName, SchedOk, ScheduleInv, Surplus, Without, RunsAt;
    var drop := Surplus(a.st.runs, sched.limit);
    var entries := Entries(sched, a, now);
    RunsAgree(sched, a, b, now);
    EntriesDistinct(sched, a, now);
    assert |a.st.runs| !in drop;
    if Due(a, now) {
      WithoutAppend(a.st.runs, entries[|a.st.runs|], drop);
    }
    assert Entries(sched, b, now) == Without(entries, drop);
    forall i | 0 <= i < |entries| && i !in drop
      ensures RefreshedEntry(entries[i], RunsAt(sched, a, now)) == RefreshedEntry(entries[i], RunsAt(sched, b, now))
    {
      NamedAt(a.st.runs, drop, entries[i].name);
      assert forall j :: 0 <= j < |a.st.runs| ==> entries[j] == a.st.runs[j];
    }
    RefreshCommutes(entries, drop, RunsAt(sched, a, now), RunsAt(sched, b, now));
  }

  lemma StillTerminal(sched: Sched, a: System, now: int, i: nat)
    requires FinishedAgree(a) && i < |a.st.runs| && IsRunTerminal(a.st.runs[i].phase)
    requires SchedOk(sched) && ScheduleInv(sched, a) && a.st.next.Some?
    ensures i < |HistoryAt(sched, a, now)| && IsRunTerminal(HistoryAt(sched, a, now)[i].phase)
  {
    hide ScheduledRunName, IsRunTerminal, SchedOk, ScheduleInv;
    EntriesDistinct(sched, a, now);
  }

  lemma SurplusStaysBeyond(sched: Sched, a: System, now: int, i: nat)
    requires SchedOk(sched) && ScheduleInv(sched, a) && FinishedAgree(a) && a.st.next.Some?
    requires sched.limit > 0 && i in Surplus(a.st.runs, sched.limit)
    ensures i < |HistoryAt(sched, a, now)| && BeyondLimit(HistoryAt(sched, a, now), sched.limit, i)
  {
    hide ScheduledRunName, IsRunTerminal, SchedOk, ScheduleInv, Surplus, FinishedAgree, HistoryAt, Terminals;
    var history := HistoryAt(sched, a, now);
    SurplusIsBeyondLimit(a.st.runs, sched.limit, i);
    forall j | i <= j < |a.st.runs| && IsRunTerminal(a.st.runs[j].phase)
      ensures j < |history| && IsRunTerminal(history[j].phase)
    {
      StillTerminal(sched, a, now, j);
    }
    HistoryLonger(sched, a, now);
    TerminalsGrow(a.st.runs[i + 1..], history[i + 1..]);
  }

  lemma HistoryLonger(sched: Sched, s: System, now: int)
    ensures |HistoryAt(sched, s, now)| >= |s.st.runs|
  {
  }

  /** Both collections retain the same entries. */
  lemma SameRetained(sched: Sched, a: System, b: System, now: int)
    requires SchedOk(sched) && ScheduleInv(sched, a) && Lags(sched, a, b) && a.st.next.Some?
    ensures Kept(sched, HistoryAt(sched, a, now)) == Kept(sched, HistoryAt(sched, b, now))
  {
    hide ScheduledRunName, SchedOk, ScheduleInv, Without, Surplus, HistoryAt, Retained, BeyondLimit, Lags;
    var history, drop := HistoryAt(sched, a, now), Surplus(a.st.runs, sched.limit);
    HistoriesAgree(sched, a, b, now);
    SurplusDropped(history, sched.limit);
    SurplusDropped(Without(history, drop), sched.limit);
    if sched.limit <= 0 {
      NoSurplus(a.st.runs, sched.limit);
      NothingDropped(history);
    } else {
      LagsAgrees(sched, a, b);
      forall i | 0 <= i < |history| && i in drop ensures BeyondLimit(history, sched.limit, i) {
        SurplusStaysBeyond(sched, a, now, i);
      }
      DroppedEarlier(history, sched.limit, drop);
    }
  }

  lemma LagsAgrees(sched: Sched, a: System, b: System)
    requires Lags(sched, a, b)
    ensures FinishedAgree(a)
  {
  }

  lemma HistoryDistinct(sched: Sched, s: System, now: int)
    requires SchedOk(sched) && ScheduleInv(sched, s) && s.st.next.Some?
    ensures DistinctNamed(HistoryAt(sched, s, now))
  {
    hide ScheduledRunName, SchedOk, ScheduleInv, RunsAt;
    EntriesDistinct(sched, s, now);
  }

  /** What an undisturbed wake-up leaves: the retained history, and the Runs without an entry or with a retained one. */
  lemma CleanWake(sched: Sched, s: System, now: int)
    requires SchedOk(sched) && ScheduleInv(sched, s) && s.st.next.Some? && s.now <= now
    ensures var t, history, runs := Wake(sched, s, now, []), HistoryAt(sched, s, now), RunsAt(sched, s, now);
      && (forall n :: n in t.runs <==> n in runs && (Tracked(history, n) ==> Tracked(Kept(sched, history), n)))
      && (forall n :: n in t.runs ==> t.runs[n] == runs[n])
      && t.st.runs == Kept(sched, history)
      && t.created == (if runs == s.runs then s.created
                       else s.created + [Creation(ScheduledRunName(sched.name, s.st.next.value), s.st.next.value, now)])
      && t.st.next == (if Due(s, now) then Some(sched.cron(now)) else s.st.next)
      && t.st.last == (if Due(s, now) then s.st.next else s.st.last)
      && t.st.active == (var active := if Due(s, now) then ScheduledRunName(sched.name, s.st.next.value) else s.st.active;
                         if FoundTerminal(history, active) then "" else active)
      && t.now == now && t.boot == (if s.boot.None? then Some(now) else s.boot)
      && t.asked == (if t.st.next == s.st.next then s.asked else now)
      && t.due == Some(now + RequeueDelay(t.st.next.value, now))
  {
    hide ScheduledRunName, SchedOk, ScheduleInv, Collected, FoundTerminal, Kept, Tracked;
    var y, bound := WakeStarts(sched, s, now, []);
    var x := y.(st := Refreshed(y.st, y.runs));
    HistoryDistinct(sched, s, now);
    AlwaysPlanned(sched, Begin(s), now, []);
    if Due(s, now) {
      FiredFields(sched, s, now);
    }
    RunsLeftByName(sched, x);
  }

  lemma FiredFields(sched: Sched, s: System, now: int)
    requires SchedOk(sched) && ScheduleInv(sched, s) && Due(s, now)
    ensures var y, name := Fired(sched, Begin(s), s.st.next.value, now, []), ScheduledRunName(sched.name, s.st.next.value);
      && y.st.next == Some(sched.cron(now)) && y.st.last == s.st.next && y.st.active == name
      && y.created == (if name in s.runs then s.created else s.created + [Creation(name, s.st.next.value, now)])
  {
    hide ScheduledRunName, SchedOk, ScheduleInv;
  }

  lemma {:induction false} FoundIsTerminal(entries: seq<Entry>, name: string)
    requires DistinctNamed(entries)
    ensures FoundTerminal(entries, name) <==> exists i :: 0 <= i < |entries| && entries[i].name == name && IsRunTerminal(entries[i].phase)
  {
    hide IsRunTerminal;
    if entries != [] {
      FoundIsTerminal(entries[1..], name);
      if i :| 0 <= i < |entries| && entries[i].name == name && IsRunTerminal(entries[i].phase) {
        assert i > 0 ==> entries[1..][i - 1] == entries[i];
      }
    }
  }

  /** The active Run is found finished in the one history exactly if in the other: its entry is the last, and stays. */
  lemma SameFound(sched: Sched, a: System, b: System, now: int)
    requires SchedOk(sched) && ScheduleInv(sched, a) && Lags(sched, a, b) && a.st.next.Some?
    ensures var active := if Due(a, now) then ScheduledRunName(sched.name, a.st.next.value) else a.st.active;
      active != "" ==> (FoundTerminal(HistoryAt(sched, a, now), active) <==> FoundTerminal(HistoryAt(sched, b, now), active))
  {
    hide ScheduledRunName, SchedOk, ScheduleInv, RunsAt, Surplus, Without, FoundTerminal, IsRunTerminal, HistoryAt;
    var active := if Due(a, now) then ScheduledRunName(sched.name, a.st.next.value) else a.st.active;
    var history, drop := HistoryAt(sched, a, now), Surplus(a.st.runs, sched.limit);
    HistoriesAgree(sched, a, b, now);
    HistoryDistinct(sched, a, now);
    if active != "" {
      ActiveEntryLast(sched, a, now, active);
      var last := |history| - 1;
      WithoutHas(history, drop, last);
      SubsequenceDistinct(history, drop);
      FoundIsTerminal(history, active);
      FoundIsTerminal(Without(history, drop), active);
      SameElement(history, drop, last);
    }
  }

  /** Where the active Run's entry stands. */
  lemma ActiveEntryLast(sched: Sched, a: System, now: int, active: string)
    requires SchedOk(sched) && ScheduleInv(sched, a) && a.st.next.Some? && active != ""
    requires active == if Due(a, now) then ScheduledRunName(sched.name, a.st.next.value) else a.st.active
    ensures var history := HistoryAt(sched, a, now);
      history != [] && history[|history| - 1].name == active && |history| - 1 !in Surplus(a.st.runs, sched.limit)
  {
    hide ScheduledRunName, SchedOk, RunsAt, Surplus, EntriesOk, CreationsOk;
    if !Due(a, now) {
      LastNotSurplus(a.st.runs, sched.limit);
    }
  }

  lemma {:induction false} SubsequenceDistinct(entries: seq<Entry>, drop: seq<nat>)
    requires DistinctNamed(entries)
    ensures DistinctNamed(Without(entries, drop))
  {
    if entries != [] {
      var n := |entries| - 1;
      SubsequenceDistinct(entries[..n], drop);
      forall i | 0 <= i < |Without(entries[..n], drop)| ensures Without(entries[..n], drop)[i].name != entries[n].name {
        WithoutFrom(entries[..n], drop, Without(entries[..n], drop)[i]);
      }
    }
  }

  /** The one entry of that name stands in both. */
  lemma SameElement(entries: seq<Entry>, drop: seq<nat>, k: nat)
    requires DistinctNamed(entries) && k < |entries| && entries[k] in Without(entries, drop)
    ensures forall e :: e in Without(entries, drop) && e.name == entries[k].name ==> e == entries[k]
  {
    hide Without;
    forall e | e in Without(entries, drop) && e.name == entries[k].name ensures e == entries[k] {
      WithoutFrom(entries, drop, e);
    }
  }

  /** After an undisturbed wake-up nothing tells the two apart. */
  lemma CatchesUp(sched: Sched, a: System, b: System, now: int)
    requires SchedOk(sched) && ScheduleInv(sched, a) && ScheduleInv(sched, b) && Lags(sched, a, b)
    requires a.st.next.Some? && a.now <= now
    ensures Wake(sched, a, now, []) == Wake(sched, b, now, [])
  {
    hide ScheduledRunName, SchedOk, ScheduleInv, Wake, Kept, Tracked, FoundTerminal, HistoryAt, RunsAt, Surplus;
    var t, u := Wake(sched, a, now, []), Wake(sched, b, now, []);
    CleanWake(sched, a, now);
    CleanWake(sched, b, now);
    SameRetained(sched, a, b, now);
    SameFound(sched, a, b, now);
    SameCreation(sched, a, b, now);
    SameRuns(sched, a, b, now);
    assert t.runs == u.runs;
  }

  lemma SameCreation(sched: Sched, a: System, b: System, now: int)
    requires SchedOk(sched) && ScheduleInv(sched, a) && Lags(sched, a, b) && a.st.next.Some?
    ensures RunsAt(sched, a, now) == a.runs <==> RunsAt(sched, b, now) == b.runs
  {
    hide ScheduledRunName, SchedOk, ScheduleInv, Surplus;
    EntriesDistinct(sched, a, now);
    NamedAt(a.st.runs, Surplus(a.st.runs, sched.limit), ScheduledRunName(sched.name, a.st.next.value));
  }

  lemma SameRuns(sched: Sched, a: System, b: System, now: int)
    requires SchedOk(sched) && ScheduleInv(sched, a) && Lags(sched, a, b) && a.st.next.Some?
    requires Kept(sched, HistoryAt(sched, a, now)) == Kept(sched, HistoryAt(sched, b, now))
    ensures var kept := Kept(sched, HistoryAt(sched, a, now));
      forall n ::
        (n in RunsAt(sched, a, now) && (Tracked(HistoryAt(sched, a, now), n) ==> Tracked(kept, n))) <==>
        (n in RunsAt(sched, b, now) && (Tracked(HistoryAt(sched, b, now), n) ==> Tracked(kept, n)))
    ensures forall n :: n in RunsAt(sched, b, now) ==> RunsAt(sched, a, now)[n] == RunsAt(sched, b, now)[n]
  {
    hide ScheduledRunName, SchedOk, ScheduleInv, Kept, HistoryAt, RunsAt, Surplus, Without, Tracked;
    RunsAgree(sched, a, b, now);
    HistoriesAgree(sched, a, b, now);
    var history, drop := HistoryAt(sched, a, now), Surplus(a.st.runs, sched.limit);
    var kept := Kept(sched, history);
    forall n
      ensures (n in RunsAt(sched, a, now) && (Tracked(history, n) ==> Tracked(kept, n))) <==>
              (n in RunsAt(sched, b, now) && (Tracked(Without(history, drop), n) ==> Tracked(kept, n)))
    {
      RunKeptAlike(sched, a, b, now, n);
    }
  }

  /** A name of the surplus is tracked in the one history only and in neither retained one; any other in both or neither. */
  lemma RunKeptAlike(sched: Sched, a: System, b: System, now: int, n: string)
    requires SchedOk(sched) && ScheduleInv(sched, a) && Lags(sched, a, b) && a.st.next.Some?
    requires Kept(sched, HistoryAt(sched, a, now)) == Kept(sched, HistoryAt(sched, b, now))
    requires HistoryAt(sched, b, now) == Without(HistoryAt(sched, a, now), Surplus(a.st.runs, sched.limit))
    ensures n in SurplusNames(sched, a.st.runs) ==>
      Tracked(HistoryAt(sched, a, now), n) && !Tracked(Kept(sched, HistoryAt(sched, a, now)), n)
    ensures n !in SurplusNames(sched, a.st.runs) ==>
      (Tracked(HistoryAt(sched, a, now), n) <==> Tracked(HistoryAt(sched, b, now), n))
  {
    hide ScheduledRunName, SchedOk, ScheduleInv, HistoryAt, Surplus, Without;
    var history, drop := HistoryAt(sched, a, now), Surplus(a.st.runs, sched.limit);
    HistoryNames(sched, a, now);
    HistoryDistinct(sched, a, now);
    TrackedWithout(history, drop, n);
    NamedAt(a.st.runs, drop, n);
    TrackedWithout(HistoryAt(sched, b, now), Surplus(HistoryAt(sched, b, now), sched.limit), n);
  }

  lemma HistoryNames(sched: Sched, s: System, now: int)
    ensures |HistoryAt(sched, s, now)| >= |s.st.runs|
    ensures forall i :: 0 <= i < |s.st.runs| ==> HistoryAt(sched, s, now)[i].name == s.st.runs[i].name
  {
    hide ScheduledRunName, RunsAt;
  }

  // ---- Runs ----

  /** After the steps p, all the moves are of Runs that have not finished by then. */
  ghost predicate AllLeaveFinished(sched: Sched, start: int, p: seq<Step>, moves: seq<Step>) {
    forall k :: 0 <= k < |moves| ==> LeavesFinished(Run(sched, start, p + moves[..k]), moves[k])
  }

  lemma LastMove(sched: Sched, start: int, p: seq<Step>, moves: seq<Step>)
    requires moves != [] && AllLeaveFinished(sched, start, p, moves)
    ensures var n := |moves| - 1;
      && AllLeaveFinished(sched, start, p, moves[..n]) && LeavesFinished(Run(sched, start, p + moves[..n]), moves[n])
  {
    hide Run, LeavesFinished;
    var n := |moves| - 1;
    forall k | 0 <= k < n ensures LeavesFinished(Run(sched, start, p + moves[..n][..k]), moves[..n][k]) {
      assert moves[..n][..k] == moves[..k];
    }
  }

  lemma RunExtends(sched: Sched, start: int, p: seq<Step>, moves: seq<Step>)
    requires moves != []
    ensures Run(sched, start, p + moves) == Next(sched, Run(sched, start, p + moves[..|moves| - 1]), moves[|moves| - 1])
  {
    hide Next;
    assert (p + moves)[..|p + moves| - 1] == p + moves[..|moves| - 1];
  }

  lemma {:induction false} MovesLag(sched: Sched, start: int, p: seq<Step>, q: seq<Step>, moves: seq<Step>)
    requires Lags(sched, Run(sched, start, p), Run(sched, start, q))
    requires AllLeaveFinished(sched, start, p, moves)
    ensures Lags(sched, Run(sched, start, p + moves), Run(sched, start, q + moves))
  {
    hide Run, Lags, Next, LeavesFinished, AllLeaveFinished;
    if moves == [] {
      assert p + moves == p && q + moves == q;
    } else {
      var n := |moves| - 1;
      LastMove(sched, start, p, moves);
      MovesLag(sched, start, p, q, moves[..n]);
      RunExtends(sched, start, p, moves);
      RunExtends(sched, start, q, moves);
      MovesKeepLag(sched, Run(sched, start, p + moves[..n]), Run(sched, start, q + moves[..n]), moves[n]);
    }
  }

  lemma SavedMeansOk(sched: Sched, s: System, elapsed: nat, faults: seq<bool>)
    requires Wake(sched, s, s.now + elapsed, faults).due.Some?
    ensures Reconciled(sched, Begin(s), s.now + elapsed, faults).ok && Wake(sched, s, s.now + elapsed, faults).st.next.Some?
  {
    hide Reconciled;
  }

  /**
   Over runs: when a wake-up's collection is cut short by failed deletions but its status write succeeds, then, however
   the Runs that have not finished go on, the next undisturbed wake-up leaves exactly the state it would have left had no
   deletion failed.
   */
  lemma PartialCollectionFinished(
    sched: Sched, start: int, steps: seq<Step>, elapsed: nat, faults: seq<bool>, moves: seq<Step>, later: nat)
    requires SchedOk(sched) && Run(sched, start, steps).st.next.Some?
    requires Run(sched, start, steps + [Wakes(elapsed, faults)]).due.Some?
    requires AllLeaveFinished(sched, start, steps + [Wakes(elapsed, faults)], moves)
    ensures Run(sched, start, steps + [Wakes(elapsed, faults)] + moves + [Wakes(later, [])])
            == Run(sched, start, steps + [Wakes(elapsed, [])] + moves + [Wakes(later, [])])
  {
    hide Run, Lags, SchedOk, AllLeaveFinished;
    var p, q := steps + [Wakes(elapsed, faults)], steps + [Wakes(elapsed, [])];
    LagsAfterWake(sched, start, steps, elapsed, faults);
    MovesLag(sched, start, p, q, moves);
    MovesKeepNext(sched, start, p, moves);
    ThenCatchesUp(sched, start, p + moves, q + moves, later);
  }

  lemma WakesOn(sched: Sched, start: int, steps: seq<Step>, elapsed: nat, faults: seq<bool>)
    ensures Run(sched, start, steps + [Wakes(elapsed, faults)])
            == Wake(sched, Run(sched, start, steps), Run(sched, start, steps).now + elapsed, faults)
  {
    hide Run, Wake;
    SchedulePunctuality.RunsOn(sched, start, steps, Wakes(elapsed, faults));
  }

  lemma LagsAfterWake(sched: Sched, start: int, steps: seq<Step>, elapsed: nat, faults: seq<bool>)
    requires Run(sched, start, steps).st.next.Some?
    requires Run(sched, start, steps + [Wakes(elapsed, faults)]).due.Some?
    ensures Run(sched, start, steps + [Wakes(elapsed, faults)]).st.next.Some?
    ensures Lags(sched, Run(sched, start, steps + [Wakes(elapsed, faults)]), Run(sched, start, steps + [Wakes(elapsed, [])]))
  {
    hide Run, Lags, Wake, Next, Reconciled;
    var s := Run(sched, start, steps);
    WakesOn(sched, start, steps, elapsed, faults);
    WakesOn(sched, start, steps, elapsed, []);
    SavedMeansOk(sched, s, elapsed, faults);
    StartsLagging(sched, s, s.now + elapsed, faults);
  }

  lemma {:induction false} MovesKeepNext(sched: Sched, start: int, p: seq<Step>, moves: seq<Step>)
    requires Run(sched, start, p).st.next.Some?
    requires AllLeaveFinished(sched, start, p, moves)
    ensures Run(sched, start, p + moves).st.next.Some?
  {
    hide Run, Next, AllLeaveFinished;
    if moves == [] {
      assert p + moves == p;
    } else {
      var n := |moves| - 1;
      LastMove(sched, start, p, moves);
      MovesKeepNext(sched, start, p, moves[..n]);
      RunExtends(sched, start, p, moves);
      MoveKeepsNext(sched, Run(sched, start, p + moves[..n]), moves[n]);
    }
  }

  lemma MoveKeepsNext(sched: Sched, s: System, step: Step)
    requires step.RunMoves?
    ensures Next(sched, s, step).st == s.st
  {
  }

  lemma ThenCatchesUp(sched: Sched, start: int, p: seq<Step>, q: seq<Step>, later: nat)
    requires SchedOk(sched) && Lags(sched, Run(sched, start, p), Run(sched, start, q)) && Run(sched, start, p).st.next.Some?
    ensures Run(sched, start, p + [Wakes(later, [])]) == Run(sched, start, q + [Wakes(later, [])])
  {
    hide Run, Lags, SchedOk, ScheduleInv, Wake, Next;
    var a, b := Run(sched, start, p), Run(sched, start, q);
    RunKeeps(sched, start, p);
    RunKeeps(sched, start, q);
    WakesOn(sched, start, p, later, []);
    WakesOn(sched, start, q, later, []);
    SameClock(sched, a, b);
    CatchesUp(sched, a, b, a.now + later);
  }

  lemma SameClock(sched: Sched, a: System, b: System)
    requires Lags(sched, a, b)
    ensures a.now == b.now
  {
  }
}
