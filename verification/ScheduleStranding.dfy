/** Entries left behind without a Run: when a wake-up leaves one, and what becomes of it. */
module ScheduleStranding {
  import opened RunNames
  import opened Schedules
  import opened ScheduleRetention
  import opened ScheduleRuns
  import opened ScheduleHistory

  /** The entry is stored as in flight, but its Run no longer exists. */
  ghost predicate Stranded(s: System, e: Entry) {
    e in s.st.runs && !IsRunTerminal(e.phase) && e.name !in s.runs
  }

  // ---- What a wake-up looks at ----

  predicate Due(s: System, now: int) { s.st.next.Some? && s.st.next.value <= now }

  /** The Runs once a due window's Run is there. */
  function RunsAt(sched: Sched, s: System, now: int): map<string, string> {
    if !Due(s, now) || ScheduledRunName(sched.name, s.st.next.value) in s.runs then s.runs
    else s.runs[ScheduledRunName(sched.name, s.st.next.value) := ""]
  }

  /** The history the collection of this wake-up works on: with a due window's entry, phases refreshed. */
  function HistoryAt(sched: Sched, s: System, now: int): seq<Entry> {
    var at := s.st.next;
    RefreshedEntries(
      if Due(s, now) then s.st.runs + [Entry(ScheduledRunName(sched.name, at.value), at.value, "Pending")] else s.st.runs,
      RunsAt(sched, s, now))
  }

  /** Those of the names that have a Run, in order. */
  function Existing(names: seq<string>, runs: map<string, string>): seq<string> {
    if names == [] then []
    else
      var n := |names| - 1;
      Existing(names[..n], runs) + if names[n] in runs then [names[n]] else []
  }

  /** The Runs this wake-up sets out to delete, in order. */
  function Victims(sched: Sched, s: System, now: int): seq<string> {
    var history := HistoryAt(sched, s, now);
    Existing(NamesAt(history, Surplus(history, sched.limit)), RunsAt(sched, s, now))
  }

  /** How many of n consecutive writes, from the given one on, succeed before one fails. */
  function Reach(n: nat, call: nat, faults: seq<bool>): (k: nat)
    ensures k <= n && (k < n ==> Fails(faults, call + k)) && forall c :: call <= c < call + k ==> !Fails(faults, c)
  {
    if n == 0 then 0
    else
      var k := Reach(n - 1, call, faults);
      if k < n - 1 || Fails(faults, call + n - 1) then k else n
  }

  /** The position of the first deletion: after the creation, when a window is due. */
  function FirstDeletion(s: System, now: int): nat { if Due(s, now) then 1 else 0 }

  /** How many deletions succeed. */
  function Deleted(sched: Sched, s: System, now: int, faults: seq<bool>): (k: nat)
    ensures k <= |Victims(sched, s, now)|
  {
    Reach(|Victims(sched, s, now)|, FirstDeletion(s, now), faults)
  }

  /** The position of the status write: right after the last deletion tried. */
  function StatusWrite(sched: Sched, s: System, now: int, faults: seq<bool>): nat {
    var k := Deleted(sched, s, now, faults);
    FirstDeletion(s, now) + if k < |Victims(sched, s, now)| then k + 1 else k
  }

  ghost predicate DistinctTexts(names: seq<string>) { forall i, j :: 0 <= i < j < |names| ==> names[i] != names[j] }

  lemma {:induction false} ExistingAreListed(names: seq<string>, runs: map<string, string>)
    ensures forall n :: n in Existing(names, runs) <==> n in names && n in runs
  {
    if names != [] {
      var n := |names| - 1;
      ExistingAreListed(names[..n], runs);
      assert names == names[..n] + [names[n]];
    }
  }

  /** A deletion loop deletes the existing Runs in order up to the first failing call. */
  lemma {:induction false} DeletesInOrder(x: Mem, names: seq<string>, faults: seq<bool>)
    requires x.ok && DistinctTexts(names)
    ensures var v, y := Existing(names, x.runs), DeleteRuns(x, names, faults);
      var k := Reach(|v|, x.calls, faults);
      && (y.ok <==> k == |v|)
      && y.calls == x.calls + (if k < |v| then k + 1 else k)
      && (forall n :: n in y.runs <==> n in x.runs && n !in v[..k])
  {
    if names != [] {
      var n := |names| - 1;
      DeletesInOrder(x, names[..n], faults);
      ExistingAreListed(names[..n], x.runs);
      var v0, v := Existing(names[..n], x.runs), Existing(names, x.runs);
      var k0, k := Reach(|v0|, x.calls, faults), Reach(|v|, x.calls, faults);
      assert names[n] !in names[..n];
      assert v[..k0] == v0[..k0];
      if k0 == |v0| && names[n] in x.runs {
        assert v == v0 + [names[n]] && v0[..k0] == v0 && v[..|v|] == v;
      } else {
        assert k == k0;
      }
    }
  }

  // ---- One wake-up ----

  /** What the collection of a wake-up starts from. */
  lemma WakeStarts(sched: Sched, s: System, now: int, faults: seq<bool>) returns (y: Mem, bound: int)
    requires SchedOk(sched) && ScheduleInv(sched, s) && s.st.next.Some? && s.now <= now
    ensures y == (if Due(s, now) then Fired(sched, Begin(s), s.st.next.value, now, faults) else Begin(s))
    ensures y.ok <==> !(Due(s, now) && Fails(faults, 0))
    ensures y.ok ==>
      && y.runs == RunsAt(sched, s, now) && y.calls == FirstDeletion(s, now)
      && Refreshed(y.st, y.runs).runs == HistoryAt(sched, s, now)
    ensures EntriesOk(sched, HistoryAt(sched, s, now), bound)
  {
    hide ScheduledRunName, EntriesOk, CreationsOk, ActiveOk, CronOk, FoundTerminal;
    var at := s.st.next.value;
    y := if Due(s, now) then Fired(sched, Begin(s), at, now, faults) else Begin(s);
    bound := if Due(s, now) then at + 1 else at;
    NextIsWhole(sched, s);
    WindowNotTracked(sched, s.st.runs, at);
    if Due(s, now) {
      AppendedOk(sched, s.st.runs, at, at + 1);
      var entries := s.st.runs + [Entry(ScheduledRunName(sched.name, at), at, "Pending")];
      RefreshKeepsEntries(sched, s.st.(runs := entries), RunsAt(sched, s, now), at + 1);
    } else {
      RefreshKeepsEntries(sched, s.st, s.runs, at);
    }
  }

  lemma NextIsWhole(sched: Sched, s: System)
    requires SchedOk(sched) && ScheduleInv(sched, s) && s.st.next.Some?
    ensures s.st.next.value % SECOND == 0
  {
    hide EntriesOk, CreationsOk, ActiveOk, ValidName;
  }

  lemma SurplusNamesDistinct(sched: Sched, entries: seq<Entry>, bound: int)
    requires SchedOk(sched) && EntriesOk(sched, entries, bound)
    ensures DistinctTexts(NamesAt(entries, Surplus(entries, sched.limit)))
  {
    hide EntriesOk, SchedOk, TerminalIndices;
    var drop := Surplus(entries, sched.limit);
    var names := NamesAt(entries, drop);
    forall i, j | 0 <= i < j < |names| ensures names[i] != names[j] {
      if drop[i] == drop[j] {
        PositionsDistinct(entries, i, j);
      } else if drop[i] < drop[j] {
        EntriesNamedApart(sched, entries, bound, drop[i], drop[j]);
      } else {
        EntriesNamedApart(sched, entries, bound, drop[j], drop[i]);
      }
    }
  }

  /** Whether the status write of a wake-up is made and fails, and which Runs are left by then. */
  lemma WakeOutcome(sched: Sched, s: System, now: int, faults: seq<bool>)
    requires SchedOk(sched) && ScheduleInv(sched, s) && s.st.next.Some? && s.now <= now
    ensures var r, created := Reconciled(sched, Begin(s), now, faults), !(Due(s, now) && Fails(faults, 0));
      && (r.ok <==> created && !Fails(faults, StatusWrite(sched, s, now, faults)))
      && (if created then
            forall n :: n in r.runs <==>
              n in RunsAt(sched, s, now) && n !in Victims(sched, s, now)[..Deleted(sched, s, now, faults)]
          else r.runs == s.runs)
  {
    hide ScheduledRunName, EntriesOk, CreationsOk, ActiveOk, SchedOk, Fired, Surplus, Without, RunsAt, HistoryAt, Reach, Existing;
    var y, bound := WakeStarts(sched, s, now, faults);
    if y.ok {
      var x := y.(st := Refreshed(y.st, y.runs));
      SurplusNamesDistinct(sched, x.st.runs, bound);
      DeletesInOrder(x, NamesAt(x.st.runs, Surplus(x.st.runs, sched.limit)), faults);
    } else {
      FailedCreation(sched, s, now, faults);
    }
  }

  lemma FailedCreation(sched: Sched, s: System, now: int, faults: seq<bool>)
    requires Due(s, now) && Fails(faults, 0)
    ensures Fired(sched, Begin(s), s.st.next.value, now, faults).runs == s.runs
  {
  }

  lemma {:induction false} WithoutFrom(entries: seq<Entry>, drop: seq<nat>, e: Entry)
    requires e in Without(entries, drop)
    ensures e in entries
  {
    var n := |entries| - 1;
    if e in Without(entries[..n], drop) {
      WithoutFrom(entries[..n], drop, e);
    }
  }

  /** An entry in flight after the refresh is not one whose Run the collection deletes. */
  lemma InFlightNotVictim(sched: Sched, s: System, now: int, bound: int, i: nat)
    requires SchedOk(sched) && EntriesOk(sched, HistoryAt(sched, s, now), bound) && i < |HistoryAt(sched, s, now)|
    requires !IsRunTerminal(HistoryAt(sched, s, now)[i].phase)
    ensures HistoryAt(sched, s, now)[i].name !in Victims(sched, s, now)
  {
    hide SchedOk, EntriesOk, HistoryAt, IsRunTerminal, Surplus;
    var history := HistoryAt(sched, s, now);
    var drop := Surplus(history, sched.limit);
    ExistingAreListed(NamesAt(history, drop), RunsAt(sched, s, now));
    NamedByPosition(sched, history, drop, bound, i);
    assert forall k :: 0 <= k < |drop| ==> drop[k] != i;
  }

  /** An entry whose Run is not there is a stored one, unchanged. */
  lemma UnmadeIsStored(sched: Sched, s: System, now: int, i: nat)
    requires i < |HistoryAt(sched, s, now)| && HistoryAt(sched, s, now)[i].name !in RunsAt(sched, s, now)
    ensures HistoryAt(sched, s, now)[i] in s.st.runs
  {
    hide ScheduledRunName;
    assert i < |s.st.runs| ==> s.st.runs[i] in s.st.runs;
  }

  /** A wake-up whose status write succeeds strands nobody. */
  lemma CommittedStrandsNobody(sched: Sched, s: System, now: int, faults: seq<bool>, e: Entry)
    requires SchedOk(sched) && ScheduleInv(sched, s) && s.st.next.Some? && s.now <= now
    requires Reconciled(sched, Begin(s), now, faults).ok && Stranded(Wake(sched, s, now, faults), e)
    ensures Stranded(s, e)
  {
    hide ScheduledRunName, EntriesOk, CreationsOk, ActiveOk, SchedOk, Fired, Surplus, Without, DeleteRuns, RunsAt, HistoryAt, Victims,
      Deleted, StatusWrite, IsRunTerminal;
    var t := Wake(sched, s, now, faults);
    var y, bound := WakeStarts(sched, s, now, faults);
    WakeOutcome(sched, s, now, faults);
    AlwaysPlanned(sched, Begin(s), now, faults);
    KeptFromHistory(sched, y, faults, e);
    var i :| 0 <= i < |HistoryAt(sched, s, now)| && HistoryAt(sched, s, now)[i] == e;
    InFlightNotVictim(sched, s, now, bound, i);
    assert e.name !in RunsAt(sched, s, now) by {
      assert forall n :: n in Victims(sched, s, now)[..Deleted(sched, s, now, faults)] ==> n in Victims(sched, s, now);
    }
    UnmadeIsStored(sched, s, now, i);
    StoredRunsStay(sched, s, now);
  }

  lemma StoredRunsStay(sched: Sched, s: System, now: int)
    ensures forall n :: n in s.runs ==> n in RunsAt(sched, s, now)
  {
  }

  /** What a committed wake-up stores comes from the history it worked on. */
  lemma KeptFromHistory(sched: Sched, y: Mem, faults: seq<bool>, e: Entry)
    requires y.ok && e in Maintained(sched, y, faults).st.runs
    ensures e in Refreshed(y.st, y.runs).runs
  {
    hide Surplus, Without;
    var x := y.(st := Refreshed(y.st, y.runs));
    var drop := Surplus(x.st.runs, sched.limit);
    DeletesListed(x, NamesAt(x.st.runs, drop), faults);
    if e in Without(x.st.runs, drop) {
      WithoutFrom(x.st.runs, drop, e);
    }
  }

  /**
   For every wake-up, due or not: an entry not stranded before is stranded after if and only if it is stored in flight,
   its Run is gone, and the reconcile returned an error.
   */
  lemma LostWriteStrands(sched: Sched, s: System, now: int, faults: seq<bool>, e: Entry)
    requires SchedOk(sched) && ScheduleInv(sched, s) && s.st.next.Some? && s.now <= now && !Stranded(s, e)
    ensures var t := Wake(sched, s, now, faults);
      Stranded(t, e) <==>
        e in s.st.runs && !IsRunTerminal(e.phase) && e.name !in t.runs && !Reconciled(sched, Begin(s), now, faults).ok
  {
    hide ScheduleInv, SchedOk, Reconciled, IsRunTerminal;
    if Reconciled(sched, Begin(s), now, faults).ok && Stranded(Wake(sched, s, now, faults), e) {
      CommittedStrandsNobody(sched, s, now, faults, e);
    }
  }

  /**
   The same from what is there before the wake-up: its Run is among those to be deleted before the first failing
   deletion, the creation does not fail when a window is due, and the call at the position of the status write fails.
   */
  lemma StrandsExactly(sched: Sched, s: System, now: int, faults: seq<bool>, e: Entry)
    requires SchedOk(sched) && ScheduleInv(sched, s) && s.st.next.Some? && s.now <= now && !Stranded(s, e)
    ensures Stranded(Wake(sched, s, now, faults), e) <==>
      && e in s.st.runs && !IsRunTerminal(e.phase)
      && !(Due(s, now) && Fails(faults, 0))
      && e.name in Victims(sched, s, now)[..Deleted(sched, s, now, faults)]
      && Fails(faults, StatusWrite(sched, s, now, faults))
  {
    hide ScheduleInv, SchedOk, Reconciled, IsRunTerminal, Victims, Deleted, StatusWrite, RunsAt, Fails;
    LostWriteStrands(sched, s, now, faults, e);
    WakeOutcome(sched, s, now, faults);
    StoredRunsStay(sched, s, now);
  }

  lemma {:induction false} WithoutHas(entries: seq<Entry>, drop: seq<nat>, i: nat)
    requires i < |entries| && i !in drop
    ensures entries[i] in Without(entries, drop)
  {
    if i < |entries| - 1 {
      WithoutHas(entries[..|entries| - 1], drop, i);
    }
  }

  /** Refreshing and collecting keep an in-flight entry whose Run is gone, and make no Run. */
  lemma MaintenanceKeepsStranded(sched: Sched, y: Mem, faults: seq<bool>, e: Entry)
    requires y.ok && e in y.st.runs && !IsRunTerminal(e.phase) && e.name !in y.runs
    ensures var z := Maintained(sched, y, faults); e in z.st.runs && e.name !in z.runs
  {
    hide Surplus, Without, DeleteRuns, IsRunTerminal;
    var x := y.(st := Refreshed(y.st, y.runs));
    var i :| 0 <= i < |y.st.runs| && y.st.runs[i] == e;
    assert x.st.runs[i] == e;
    var drop := Surplus(x.st.runs, sched.limit);
    assert forall k :: 0 <= k < |drop| ==> drop[k] != i;
    WithoutHas(x.st.runs, drop, i);
    DeletesListed(x, NamesAt(x.st.runs, drop), faults);
  }

  lemma OlderName(sched: Sched, s: System, e: Entry)
    requires SchedOk(sched) && ScheduleInv(sched, s) && s.st.next.Some? && e in s.st.runs
    ensures e.name != ScheduledRunName(sched.name, s.st.next.value)
  {
    hide ScheduledRunName, CreationsOk, ActiveOk;
    var i :| 0 <= i < |s.st.runs| && s.st.runs[i] == e;
    WindowNotTracked(sched, s.st.runs, s.st.next.value);
  }

  /** A stranded entry stays in the history, in flight, whatever happens afterwards. */
  lemma StrandedStays(sched: Sched, s: System, e: Entry, step: Step)
    requires SchedOk(sched) && ScheduleInv(sched, s) && Stranded(s, e)
    ensures Stranded(Next(sched, s, step), e)
  {
    hide ScheduledRunName, CreationsOk, EntriesOk, ActiveOk, Maintained, IsRunTerminal, CronOk;
    if step.Wakes? {
      var now := s.now + step.elapsed;
      OlderName(sched, s, e);
      var y := if now >= s.st.next.value then Fired(sched, Begin(s), s.st.next.value, now, step.faults) else Begin(s);
      assert e.name !in y.runs && (y.ok ==> e in y.st.runs);
      if y.ok {
        MaintenanceKeepsStranded(sched, y, step.faults, e);
      }
    }
  }

  /** So over every continuation of every run. */
  lemma {:induction false} StrandedForever(sched: Sched, start: int, steps: seq<Step>, more: seq<Step>, e: Entry)
    requires SchedOk(sched) && Stranded(Run(sched, start, steps), e)
    ensures Stranded(Run(sched, start, steps + more), e)
  {
    hide Next, Stranded, ScheduleInv, SchedOk;
    if more == [] {
      assert steps + more == steps;
    } else {
      var n := |more| - 1;
      assert (steps + more)[..|steps + more| - 1] == steps + more[..n];
      StrandedForever(sched, start, steps, more[..n], e);
      RunKeeps(sched, start, steps + more[..n]);
      StrandedStays(sched, Run(sched, start, steps + more[..n]), e, more[n]);
    }
  }
}
