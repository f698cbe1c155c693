/** A run of a schedule that keeps one finished Run, whose collection loses its status write. */
module ScheduleWitnesses {
  import opened Options
  import opened RunNames
  import opened Schedules
  import opened ScheduleRetention
  import opened ScheduleRuns
  import opened ScheduleStranding

  function EveryMinute(t: int): int { (t / MINUTE + 1) * MINUTE }

  const Nightly := Sched("nightly", 1, EveryMinute)

  const First := ScheduledRunName("nightly", MINUTE)
  const Second := ScheduledRunName("nightly", 2 * MINUTE)

  /** Two windows fire and are saved, both Runs complete, and the next wake-up deletes one and fails to store that. */
  const Story := [
    Wakes(0, []), Wakes(MINUTE, []), Wakes(MINUTE, []),
    RunMoves(First, "Completed"), RunMoves(Second, "Completed"), Wakes(0, [false, true])]

  lemma MinuteFacts(t: int, u: int)
    ensures EveryMinute(t) > t && EveryMinute(t) % SECOND == 0
    ensures EveryMinute(EveryMinute(t)) == EveryMinute(t) + MINUTE
    ensures t <= u < EveryMinute(t) ==> EveryMinute(u) == EveryMinute(t)
  {
    assert EveryMinute(t) / MINUTE == t / MINUTE + 1;
    if t <= u < EveryMinute(t) {
      assert u / MINUTE == t / MINUTE;
    }
  }

  lemma MinutesAreCron(cron: int -> int)
    requires forall t :: cron(t) == EveryMinute(t)
    ensures CronOk(cron)
  {
    hide EveryMinute;
    forall t ensures cron(t) > t && cron(t) % SECOND == 0 && cron(cron(t)) >= cron(t) + MINUTE {
      MinuteFacts(t, t);
    }
    forall t, u | t <= u < cron(t) ensures cron(u) == cron(t) {
      MinuteFacts(t, u);
    }
  }

  lemma NightlyIsOk()
    ensures SchedOk(Nightly)
  {
    hide CronOk, EveryMinute;
    MinutesAreCron(Nightly.cron);
  }

  lemma NamesDiffer()
    ensures First != Second
  {
    if First == Second {
      RunNamesInjective("nightly", MINUTE, "nightly", 2 * MINUTE);
    }
  }

  function Pair(a: string, b: string): map<string, string> { map[First := a, Second := b] }

  function Saved(next: int, last: int, active: string, entries: seq<Entry>): SchedStatus {
    SchedStatus(Some(next), Some(last), active, entries)
  }

  lemma {:induction false} NothingSurplus(entries: seq<Entry>)
    requires forall i :: 0 <= i < |entries| ==> !IsRunTerminal(entries[i].phase)
    ensures TerminalIndices(entries) == [] && Surplus(entries, 1) == [] && Without(entries, []) == entries
  {
    NothingDropped(entries);
    if entries != [] {
      NothingSurplus(entries[..|entries| - 1]);
    }
  }

  /** A due window fires and is saved while nothing has finished. */
  lemma FiresAndSaves(s: System, entries: seq<Entry>)
    requires s.st.next == Some(s.now) && ScheduledRunName("nightly", s.now) !in s.runs
    requires |entries| == |s.st.runs| + 1 && entries[|s.st.runs|] == Entry(ScheduledRunName("nightly", s.now), s.now, "")
    requires forall i :: 0 <= i < |s.st.runs| ==>
      entries[i] == s.st.runs[i] && entries[i].name in s.runs && s.runs[entries[i].name] == entries[i].phase == ""
    requires forall i :: 0 <= i < |s.st.runs| ==> s.st.runs[i].name != ScheduledRunName("nightly", s.now)
    ensures var t := Wake(Nightly, s, s.now, []);
      && t.runs == s.runs[ScheduledRunName("nightly", s.now) := ""] && t.now == s.now
      && t.st == Saved(EveryMinute(s.now), s.now, ScheduledRunName("nightly", s.now), entries)
  {
    hide ScheduledRunName, Surplus, Without, EveryMinute, FoundTerminal;
    NothingSurplus(entries);
    var y := Fired(Nightly, Begin(s), s.now, s.now, []);
    assert Refreshed(y.st, y.runs).runs == entries;
    NoneFound(entries, y.st.active);
  }

  lemma {:induction false} NoneFound(entries: seq<Entry>, name: string)
    requires forall i :: 0 <= i < |entries| ==> !IsRunTerminal(entries[i].phase)
    ensures !FoundTerminal(entries, name)
  {
    if entries != [] {
      NoneFound(entries[1..], name);
    }
  }

  lemma AfterFirst()
    ensures Run(Nightly, 0, Story[..1]) == System(map[], [], SchedStatus(Some(MINUTE), None, "", []), 0, 0, Some(0), Some(MINUTE))
  {
    assert Story[..1][..0] == [];
    assert EveryMinute(0) == MINUTE;
  }

  lemma AfterSecond()
    ensures var s := Run(Nightly, 0, Story[..2]);
      s.runs == map[First := ""] && s.now == MINUTE && s.st == Saved(2 * MINUTE, MINUTE, First, [Entry(First, MINUTE, "")])
  {
    hide ScheduledRunName, Wake;
    AfterFirst();
    assert Story[..2][..1] == Story[..1];
    FiresAndSaves(Run(Nightly, 0, Story[..1]).(now := MINUTE), [Entry(First, MINUTE, "")]);
    ClockOnly(Run(Nightly, 0, Story[..1]), MINUTE);
  }

  /** A wake-up reads the clock it is given, not the one before. */
  lemma ClockOnly(s: System, now: int)
    ensures Wake(Nightly, s, now, []).runs == Wake(Nightly, s.(now := now), now, []).runs
    ensures Wake(Nightly, s, now, []).st == Wake(Nightly, s.(now := now), now, []).st
    ensures Wake(Nightly, s, now, []).now == now
  {
    hide Reconciled;
  }

  lemma AfterThird()
    ensures var s := Run(Nightly, 0, Story[..3]);
      s.runs == Pair("", "") && s.now == 2 * MINUTE
      && s.st == Saved(3 * MINUTE, 2 * MINUTE, Second, [Entry(First, MINUTE, ""), Entry(Second, 2 * MINUTE, "")])
  {
    hide ScheduledRunName, Wake;
    AfterSecond();
    NamesDiffer();
    assert Story[..3][..2] == Story[..2];
    FiresAndSaves(Run(Nightly, 0, Story[..2]).(now := 2 * MINUTE), [Entry(First, MINUTE, ""), Entry(Second, 2 * MINUTE, "")]);
    ClockOnly(Run(Nightly, 0, Story[..2]), 2 * MINUTE);
  }

  lemma AfterMoves()
    ensures var s := Run(Nightly, 0, Story[..5]);
      s.runs == Pair("Completed", "Completed") && s.now == 2 * MINUTE
      && s.st == Saved(3 * MINUTE, 2 * MINUTE, Second, [Entry(First, MINUTE, ""), Entry(Second, 2 * MINUTE, "")])
  {
    hide ScheduledRunName, Wake;
    AfterThird();
    NamesDiffer();
    assert Story[..4][..3] == Story[..3] && Story[..5][..4] == Story[..4];
  }

  lemma OneSurplus(done: seq<Entry>)
    requires |done| == 2 && IsRunTerminal(done[0].phase) && IsRunTerminal(done[1].phase)
    ensures Surplus(done, 1) == [0]
  {
    assert done[..1][..0] == [];
    assert TerminalIndices(done[..1]) == [0];
    assert TerminalIndices(done) == [0, 1];
  }

  /** An entry of a reachable state is in flight in the history for good although its Run is gone. */
  lemma StrandingHappens()
    ensures SchedOk(Nightly) && Stranded(Run(Nightly, 0, Story), Entry(First, MINUTE, ""))
  {
    hide ScheduledRunName, Wake, SchedOk, ScheduleInv;
    NightlyIsOk();
    AfterMoves();
    NamesDiffer();
    RunKeeps(Nightly, 0, Story[..5]);
    assert Story[..5] == Story[..|Story| - 1];
    var s := Run(Nightly, 0, Story[..5]);
    var done := [Entry(First, MINUTE, "Completed"), Entry(Second, 2 * MINUTE, "Completed")];
    assert HistoryAt(Nightly, s, s.now) == done;
    OneSurplus(done);
    var names := NamesAt(done, [0]);
    assert names == [First] && names[..0] == [];
    assert Existing(names, s.runs) == [First];
    assert Victims(Nightly, s, s.now) == [First];
    assert Reach(1, 0, [false, true]) == 1;
    assert Deleted(Nightly, s, s.now, [false, true]) == 1;
    StrandsExactly(Nightly, s, s.now, [false, true], Entry(First, MINUTE, ""));
  }
}
