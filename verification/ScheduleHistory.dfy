/** What the garbage collection of a schedule's history keeps and deletes, alone and over runs. */
module ScheduleHistory {
  import opened Schedules
  import opened ScheduleRetention
  import opened ScheduleRuns

  /**
   A collection in which no deletion fails keeps, in order, every entry in flight and the newest terminal entries up to
   the limit; it deletes the Runs of exactly the other entries; without a positive limit it does nothing.
   */
  lemma CollectionExact(sched: Sched, x: Mem, faults: seq<bool>, bound: int)
    requires SchedOk(sched) && x.ok && EntriesOk(sched, x.st.runs, bound) && Undisturbed(sched, x, faults)
    ensures var y, entries := Collected(sched, x, faults), x.st.runs;
      && y.st.runs == (if sched.limit <= 0 then entries else Retained(entries, sched.limit))
      && (forall n :: n in y.runs ==> n in x.runs && y.runs[n] == x.runs[n])
      && (forall i :: 0 <= i < |entries| && entries[i].name in x.runs ==>
            (entries[i].name in y.runs <==> sched.limit <= 0 || !BeyondLimit(entries, sched.limit, i)))
      && (forall n :: n in x.runs && !Tracked(entries, n) ==> n in y.runs)
  {
    hide Surplus, Without, DeleteRuns, Retained, EntriesOk, BeyondLimit;
    var entries, drop := x.st.runs, Surplus(x.st.runs, sched.limit);
    var names := NamesAt(entries, drop);
    DeletesListed(x, names, faults);
    SurplusDropped(entries, sched.limit);
    forall i | 0 <= i < |entries| ensures entries[i].name in names <==> sched.limit > 0 && BeyondLimit(entries, sched.limit, i) {
      NamedByPosition(sched, entries, drop, bound, i);
      if sched.limit > 0 {
        SurplusIsBeyondLimit(entries, sched.limit, i);
      } else {
        NoSurplus(entries, sched.limit);
      }
    }
  }

  lemma NoSurplus(entries: seq<Entry>, limit: int)
    requires limit <= 0
    ensures Surplus(entries, limit) == []
  {
  }

  lemma NamedByPosition(sched: Sched, entries: seq<Entry>, drop: seq<nat>, bound: int, i: nat)
    requires SchedOk(sched) && EntriesOk(sched, entries, bound) && i < |entries|
    requires forall k :: 0 <= k < |drop| ==> drop[k] < |entries|
    ensures entries[i].name in NamesAt(entries, drop) <==> i in drop
  {
    hide EntriesOk;
    var names := NamesAt(entries, drop);
    if i in drop {
      var k :| 0 <= k < |drop| && drop[k] == i;
      assert names[k] == entries[i].name;
    } else if entries[i].name in names {
      var k :| 0 <= k < |names| && names[k] == entries[i].name;
      if drop[k] < i {
        EntriesNamedApart(sched, entries, bound, drop[k], i);
      } else {
        EntriesNamedApart(sched, entries, bound, i, drop[k]);
      }
    }
  }

  /** The Runs left by an undisturbed collection: all but those of the entries it drops. */
  lemma RunsLeft(sched: Sched, x: Mem, faults: seq<bool>)
    requires x.ok && Undisturbed(sched, x, faults)
    ensures Collected(sched, x, faults).runs == map n | n in x.runs && n !in NamesAt(x.st.runs, Surplus(x.st.runs, sched.limit)) :: x.runs[n]
  {
    hide Surplus, Without;
    DeletesListed(x, NamesAt(x.st.runs, Surplus(x.st.runs, sched.limit)), faults);
  }

  /** Collecting again, without errors, the history and Runs that a failed deletion left, gives what one collection would have. */
  lemma SecondCollectionFinishes(sched: Sched, x: Mem, faults: seq<bool>)
    requires x.ok
    ensures var y, z := Collected(sched, x, []), Collected(sched, Collected(sched, x, faults).(calls := 0), []);
      z.st == y.st && z.runs == y.runs
  {
    hide Surplus, Without;
    var drop := Surplus(x.st.runs, sched.limit);
    var c := Collected(sched, x, faults).(calls := 0);
    DeletesListed(x, NamesAt(x.st.runs, drop), faults);
    DeletesListed(x, NamesAt(x.st.runs, drop), []);
    NoFaultNoStop(x, NamesAt(x.st.runs, drop));
    RunsLeft(sched, x, []);
    if Undisturbed(sched, x, faults) {
      RunsLeft(sched, x, faults);
      CollectedAgain(sched, x.st.runs);
      NothingDropped(c.st.runs);
    } else {
      NoFaultNoStop(c, NamesAt(x.st.runs, drop));
      DeletesListed(c, NamesAt(x.st.runs, drop), []);
      RunsLeft(sched, c, []);
    }
  }

  lemma {:induction false} NoFaultNoStop(x: Mem, names: seq<string>)
    requires x.ok
    ensures DeleteRuns(x, names, []).ok
  {
    if names != [] {
      NoFaultNoStop(x, names[..|names| - 1]);
    }
  }

  /** What a collection leaves has no surplus. */
  lemma CollectedAgain(sched: Sched, entries: seq<Entry>)
    ensures Surplus(Without(entries, Surplus(entries, sched.limit)), sched.limit) == []
  {
    hide Without;
    if sched.limit > 0 {
      var r := Retained(entries, sched.limit);
      SurplusDropped(entries, sched.limit);
      RetainedKeepsNewest(entries, sched.limit);
      AllPositionsListed(r);
    }
  }
}
