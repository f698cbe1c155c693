/** When a schedule asks to be woken, when exactly each window fires, and what a wake-up stores. */
module ScheduleTiming {
  import opened Options
  import opened RunNames
  import opened Schedules
  import opened ScheduleRuns
  import opened SchedulePunctuality
  import opened ScheduleStranding

  /** By when to be woken: at the window when it is a minute away or more, otherwise a minute from now. */
  ghost predicate AsksFor(next: int, now: int, due: int) {
    due == if next - now >= 60 * 1_000_000_000 then next else now + 60 * 1_000_000_000
  }

  /** After every wake-up of every run: it asks to be woken exactly if it returned no error, and for exactly that time. */
  lemma DueExactly(sched: Sched, start: int, steps: seq<Step>, elapsed: nat, faults: seq<bool>)
    ensures var s, t := Run(sched, start, steps), Run(sched, start, steps + [Wakes(elapsed, faults)]);
      && t.now == s.now + elapsed
      && (t.due.Some? <==> Reconciled(sched, Begin(s), t.now, faults).ok)
      && (t.due.Some? ==> t.st.next.Some? && AsksFor(t.st.next.value, t.now, t.due.value))
  {
    hide Run, Reconciled;
    RunsOn(sched, start, steps, Wakes(elapsed, faults));
    AlwaysPlanned(sched, Begin(Run(sched, start, steps)), Run(sched, start, steps).now + elapsed, faults);
  }

  /** In a punctual run a window a minute or more after the last wake-up fires exactly at its time when woken when asked. */
  lemma FiredOnTheDot(sched: Sched, start: int, steps: seq<Step>, elapsed: nat)
    requires SchedOk(sched) && AllPunctual(sched, start, steps)
    requires var s := Run(sched, start, steps);
      s.st.next.Some? && s.st.next.value - s.now >= 60 * 1_000_000_000 && s.due == Some(s.now + elapsed)
    ensures var s, t := Run(sched, start, steps), Run(sched, start, steps + [Wakes(elapsed, [])]);
      && t.created == s.created + [Creation(ScheduledRunName(sched.name, s.st.next.value), s.st.next.value, s.st.next.value)]
      && t.now == s.st.next.value
  {
    hide Run, Wake, ScheduledRunName, SchedOk, ScheduleInv, OnTime, Window;
    var s := Run(sched, start, steps);
    PunctualRun(sched, start, steps);
    RunKeeps(sched, start, steps);
    RunsOn(sched, start, steps, Wakes(elapsed, []));
    CreatedBefore(sched, s);
    CleanFire(sched, s, s.now + elapsed);
  }

  lemma CreatedBefore(sched: Sched, s: System)
    requires SchedOk(sched) && UpToDate(sched, s) && s.st.next.Some?
    ensures forall i :: 0 <= i < |s.created| ==> s.created[i].at < s.st.next.value
  {
    hide Window, CronOk;
    forall i | 0 <= i < |s.created| ensures s.created[i].at < s.st.next.value {
      assert OnTime(sched, s.boot.value, s.created, i);
      WindowsGrow(sched, s.boot.value, i, |s.created|);
    }
  }

  // ---- Woken exactly when asked ----

  /** No call fails, and a wake-up comes exactly when the last one asked for it. */
  ghost predicate Eager(s: System, step: Step) {
    step.Wakes? ==> step.faults == [] && (s.due.Some? ==> s.now + step.elapsed == s.due.value)
  }

  ghost predicate AllEager(sched: Sched, start: int, steps: seq<Step>) {
    forall k :: 0 <= k < |steps| ==> Eager(Run(sched, start, steps[..k]), steps[k])
  }

  /** When the creation before the i-th was made, or the schedule was first seen. */
  function Before(boot: int, created: seq<Creation>, i: int): int
    requires 0 <= i <= |created|
  {
    if i == 0 then boot else created[i - 1].when
  }

  /** The i-th window fires at its time, but never less than a minute after the one before was fired. */
  ghost predicate FiresAt(boot: int, created: seq<Creation>, i: int)
    requires 0 <= i < |created|
  {
    var earliest := Before(boot, created, i) + 60 * 1_000_000_000;
    created[i].when == if created[i].at >= earliest then created[i].at else earliest
  }

  ghost predicate Timed(s: System) {
    s.st.next.Some? ==>
      && s.boot.Some? && s.now == Before(s.boot.value, s.created, |s.created|)
      && forall i :: 0 <= i < |s.created| ==> FiresAt(s.boot.value, s.created, i)
  }

  lemma EagerFire(sched: Sched, s: System, now: int)
    requires SchedOk(sched) && ScheduleInv(sched, s) && UpToDate(sched, s) && Timed(s) && s.st.next.Some? && now == s.due.value
    ensures Timed(Wake(sched, s, now, []))
  {
    hide ScheduleInv, Wake, ScheduledRunName, OnTime, Window, SchedOk;
    CreatedBefore(sched, s);
    CleanFire(sched, s, now);
    var t := Wake(sched, s, now, []);
    forall i | 0 <= i < |t.created| ensures FiresAt(t.boot.value, t.created, i) {
      assert i < |s.created| ==> FiresAt(s.boot.value, s.created, i);
    }
  }

  lemma EagerFirst(sched: Sched, s: System, now: int)
    requires ScheduleInv(sched, s) && s.st.next.None?
    ensures Timed(Wake(sched, s, now, []))
  {
  }

  lemma EagerNext(sched: Sched, s: System, step: Step)
    requires SchedOk(sched) && ScheduleInv(sched, s) && UpToDate(sched, s) && Timed(s) && Eager(s, step)
    ensures Timed(Next(sched, s, step))
  {
    hide Wake, ScheduleInv, SchedOk, OnTime, Window, FiresAt;
    if step.Wakes? {
      if s.st.next.None? {
        EagerFirst(sched, s, s.now + step.elapsed);
      } else {
        EagerFire(sched, s, s.now + step.elapsed);
      }
    }
  }

  lemma EagerIsPunctual(s: System, step: Step)
    requires Eager(s, step)
    ensures Punctual(s, step)
  {
  }

  lemma {:induction false} EagerRun(sched: Sched, start: int, steps: seq<Step>)
    requires SchedOk(sched) && AllEager(sched, start, steps)
    ensures AllPunctual(sched, start, steps) && Timed(Run(sched, start, steps))
  {
    hide Next, ScheduleInv, UpToDate, SchedOk, Punctual, Eager, Timed;
    forall k | 0 <= k < |steps| ensures Punctual(Run(sched, start, steps[..k]), steps[k]) {
      EagerIsPunctual(Run(sched, start, steps[..k]), steps[k]);
    }
    if steps == [] {
      FreshIsTimed(start);
    } else {
      var n := |steps| - 1;
      forall k | 0 <= k < n ensures Eager(Run(sched, start, steps[..n][..k]), steps[..n][k]) {
        assert steps[..n][..k] == steps[..k];
      }
      EagerRun(sched, start, steps[..n]);
      PunctualRun(sched, start, steps[..n]);
      RunKeeps(sched, start, steps[..n]);
      assert Eager(Run(sched, start, steps[..n]), steps[n]);
      EagerNext(sched, Run(sched, start, steps[..n]), steps[n]);
    }
  }

  lemma FreshIsTimed(start: int)
    ensures Timed(Fresh(start))
  {
  }

  /**
   When every wake-up comes exactly when asked for and no call fails, each window is fired at the later of its own time and a
   minute after the firing before it, the first a minute after the schedule was first seen at the earliest.
   */
  lemma FiringTimes(sched: Sched, start: int, steps: seq<Step>, i: nat)
    requires SchedOk(sched) && AllEager(sched, start, steps)
    requires Run(sched, start, steps).st.next.Some? && i < |Run(sched, start, steps).created|
    ensures var s := Run(sched, start, steps);
      && s.boot.Some? && s.created[i].at == Window(sched.cron, s.boot.value, i) && FiresAt(s.boot.value, s.created, i)
  {
    hide Run, FiresAt, Window;
    EagerRun(sched, start, steps);
    PunctualRun(sched, start, steps);
    assert OnTime(sched, Run(sched, start, steps).boot.value, Run(sched, start, steps).created, i);
  }

  // ---- What a wake-up stores ----

  /** The Run that is active until its phase is looked at: that of a due window, or the one on record. */
  function Candidate(sched: Sched, s: System, now: int): string {
    if Due(s, now) then ScheduledRunName(sched.name, s.st.next.value) else s.st.active
  }

  /**
   What a wake-up without error stores once the schedule has been seen: when a window was due, that window and the next one
   from now; the active Run, unless it has finished; and of each entry whose Run is there, the phase of the Run.
   */
  lemma StoresExactly(sched: Sched, start: int, steps: seq<Step>, elapsed: nat, faults: seq<bool>)
    requires SchedOk(sched) && Run(sched, start, steps).st.next.Some?
    requires Run(sched, start, steps + [Wakes(elapsed, faults)]).due.Some?
    ensures var s, t := Run(sched, start, steps), Run(sched, start, steps + [Wakes(elapsed, faults)]);
      && t.st.last == (if s.st.next.value <= t.now then s.st.next else s.st.last)
      && t.st.next == (if s.st.next.value <= t.now then Some(sched.cron(t.now)) else s.st.next)
      && t.st.active == (var name, runs := Candidate(sched, s, t.now), RunsAt(sched, s, t.now);
          if name in runs && runs[name] in ["Completed", "Failed", "TimedOut", "BudgetExceeded"] then "" else name)
      && forall i :: 0 <= i < |t.st.runs| && t.st.runs[i].name in t.runs ==> t.st.runs[i].phase == t.runs[t.st.runs[i].name]
  {
    hide Run, Reconciled, RunsAt, ScheduledRunName, SchedOk, ScheduleInv;
    var s := Run(sched, start, steps);
    RunKeeps(sched, start, steps);
    RunsOn(sched, start, steps, Wakes(elapsed, faults));
    WakeStores(sched, s, s.now + elapsed, faults);
  }

  /** The status the collection of a wake-up starts from, before the phases are looked at. */
  lemma StartStatus(sched: Sched, s: System, now: int, faults: seq<bool>, y: Mem)
    requires SchedOk(sched) && ScheduleInv(sched, s) && s.st.next.Some? && s.now <= now && y.ok
    requires y == if Due(s, now) then Fired(sched, Begin(s), s.st.next.value, now, faults) else Begin(s)
    ensures y.st.active == Candidate(sched, s, now) && ActiveOk(y.st)
    ensures y.st.last == (if Due(s, now) then s.st.next else s.st.last)
    ensures y.st.next == (if Due(s, now) then Some(sched.cron(now)) else s.st.next)
    ensures exists bound :: EntriesOk(sched, y.st.runs, bound)
  {
    hide ScheduledRunName, EntriesOk, CreationsOk, CronOk, Fired;
    var at := s.st.next.value;
    if Due(s, now) {
      FewerRuns(sched, s.created, s.runs, s.runs, at, at, s.now, now) by {
        AtNextIsThere(sched, s);
      }
      NextIsWhole(sched, s);
      FiringIsOk(sched, Begin(s), at, now, faults);
      AppendedOk(sched, s.st.runs, at, at + 1);
    }
  }

  /** Looking for the entry of a name finds the only one there is. */
  lemma {:induction false} FoundThere(entries: seq<Entry>, k: nat, name: string)
    requires k < |entries| && entries[k].name == name && forall i :: 0 <= i < k ==> entries[i].name != name
    ensures FoundTerminal(entries, name) <==> IsRunTerminal(entries[k].phase)
  {
    hide IsRunTerminal;
    if k > 0 {
      FoundThere(entries[1..], k - 1, name);
    }
  }

  lemma ActiveRefreshed(sched: Sched, st: SchedStatus, runs: map<string, string>, bound: int)
    requires SchedOk(sched) && EntriesOk(sched, st.runs, bound) && ActiveOk(st)
    ensures Refreshed(st, runs).active == if st.active in runs && IsRunTerminal(runs[st.active]) then "" else st.active
  {
    hide SchedOk, EntriesOk, FoundTerminal, IsRunTerminal;
    if st.active != "" {
      var k := |st.runs| - 1;
      forall i | 0 <= i < k ensures st.runs[i].name != st.active {
        EntriesNamedApart(sched, st.runs, bound, i, k);
      }
      FoundThere(RefreshedEntries(st.runs, runs), k, st.active);
    }
  }

  lemma ShownAfterCollection(sched: Sched, y: Mem, faults: seq<bool>)
    requires y.ok
    ensures var x := Maintained(sched, y, faults);
      forall i :: 0 <= i < |x.st.runs| && x.st.runs[i].name in x.runs ==> x.st.runs[i].phase == x.runs[x.st.runs[i].name]
  {
    hide Surplus, Without, DeleteRuns;
    var x, z := Maintained(sched, y, faults), y.(st := Refreshed(y.st, y.runs));
    DeletesListed(z, NamesAt(z.st.runs, Surplus(z.st.runs, sched.limit)), faults);
    forall i | 0 <= i < |x.st.runs| && x.st.runs[i].name in x.runs ensures x.st.runs[i].phase == x.runs[x.st.runs[i].name] {
      assert x.st.runs[i] in x.st.runs;
      KeptFromHistory(sched, y, faults, x.st.runs[i]);
      var j :| 0 <= j < |z.st.runs| && z.st.runs[j] == x.st.runs[i];
      assert z.st.runs[j] == RefreshedEntry(y.st.runs[j], y.runs);
    }
  }

  lemma KeepsRest(sched: Sched, y: Mem, faults: seq<bool>)
    requires y.ok
    ensures var x := Maintained(sched, y, faults);
      x.st.last == y.st.last && x.st.next == y.st.next && x.st.active == Refreshed(y.st, y.runs).active
  {
    hide Surplus, Without, DeleteRuns, FoundTerminal;
    var z := y.(st := Refreshed(y.st, y.runs));
    DeletesListed(z, NamesAt(z.st.runs, Surplus(z.st.runs, sched.limit)), faults);
  }

  lemma WakeStores(sched: Sched, s: System, now: int, faults: seq<bool>)
    requires SchedOk(sched) && ScheduleInv(sched, s) && s.st.next.Some? && s.now <= now
    requires Reconciled(sched, Begin(s), now, faults).ok
    ensures var x := Reconciled(sched, Begin(s), now, faults);
      && x.st.last == (if s.st.next.value <= now then s.st.next else s.st.last)
      && x.st.next == (if s.st.next.value <= now then Some(sched.cron(now)) else s.st.next)
      && x.st.active == (var name, runs := Candidate(sched, s, now), RunsAt(sched, s, now);
          if name in runs && runs[name] in ["Completed", "Failed", "TimedOut", "BudgetExceeded"] then "" else name)
      && forall i :: 0 <= i < |x.st.runs| && x.st.runs[i].name in x.runs ==> x.st.runs[i].phase == x.runs[x.st.runs[i].name]
  {
    hide ScheduledRunName, EntriesOk, CreationsOk, ActiveOk, CronOk, Fired, Maintained, Refreshed, RunsAt, HistoryAt, Candidate;
    var y, _ := WakeStarts(sched, s, now, faults);
    StartStatus(sched, s, now, faults, y);
    var bound :| EntriesOk(sched, y.st.runs, bound);
    ActiveRefreshed(sched, y.st, y.runs, bound);
    KeepsRest(sched, y, faults);
    ShownAfterCollection(sched, y, faults);
  }
}
