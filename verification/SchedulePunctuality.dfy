/** A schedule woken in time fires every window, in order, less than a minute late; a late wake fires the earliest missed one. */
module SchedulePunctuality {
  import opened Options
  import opened RunNames
  import opened Schedules
  import opened ScheduleRuns

  /** The i-th window after the schedule was first seen. */
  function Window(cron: int -> int, boot: int, i: nat): int {
    if i == 0 then cron(boot) else cron(Window(cron, boot, i - 1))
  }

  /** No API error, and the wake-up comes no later than the last reconcile asked for. */
  ghost predicate Punctual(s: System, step: Step) {
    step.Wakes? ==> step.faults == [] && (s.due.Some? ==> s.now + step.elapsed <= s.due.value)
  }

  ghost predicate AllPunctual(sched: Sched, start: int, steps: seq<Step>) {
    forall k :: 0 <= k < |steps| ==> Punctual(Run(sched, start, steps[..k]), steps[k])
  }

  ghost predicate OnTime(sched: Sched, boot: int, created: seq<Creation>, i: int)
    requires 0 <= i < |created|
  {
    created[i].at == Window(sched.cron, boot, i) && created[i].at <= created[i].when < created[i].at + MINUTE
  }

  /** Exactly the first windows have fired, each on time; the stored one is the following, still to come. */
  ghost predicate UpToDate(sched: Sched, s: System) {
    s.st.next.Some? ==>
      && s.boot.Some?
      && (forall i :: 0 <= i < |s.created| ==> OnTime(sched, s.boot.value, s.created, i))
      && s.st.next == Some(Window(sched.cron, s.boot.value, |s.created|))
      && s.now < s.st.next.value
      && s.due == Some(s.now + RequeueDelay(s.st.next.value, s.now))
  }

  lemma NoFaultNoFailure(sched: Sched, x: Mem)
    requires x.ok
    ensures Collected(sched, x, []).ok && Commit(Collected(sched, x, []), []).ok
    ensures Collected(sched, x, []).created == x.created && Collected(sched, x, []).st == x.st.(runs := Collected(sched, x, []).st.runs)
  {
    hide Surplus;
    DeletesListed(x, NamesAt(x.st.runs, Surplus(x.st.runs, sched.limit)), []);
  }

  /** A fault-free wake at or after the stored window makes exactly its Run and asks for the next window from now. */
  lemma CleanFire(sched: Sched, s: System, now: int)
    requires SchedOk(sched) && ScheduleInv(sched, s) && s.st.next.Some? && s.now <= now && s.st.next.value <= now
    requires forall i :: 0 <= i < |s.created| ==> s.created[i].at < s.st.next.value
    ensures var t := Wake(sched, s, now, []);
      && t.created == s.created + [Creation(ScheduledRunName(sched.name, s.st.next.value), s.st.next.value, now)]
      && t.st.next == Some(sched.cron(now)) && t.asked == now && t.now == now && t.boot == s.boot
      && t.due == Some(now + RequeueDelay(sched.cron(now), now))
  {
    hide ScheduledRunName, Collected, Refreshed, EntriesOk, ActiveOk;
    var at := s.st.next.value;
    NotMadeYet(sched, s);
    var y := Fired(sched, Begin(s), at, now, []);
    NextKept(y.st, y.runs);
    NoFaultNoFailure(sched, y.(st := Refreshed(y.st, y.runs)));
  }

  lemma NotMadeYet(sched: Sched, s: System)
    requires SchedOk(sched) && ScheduleInv(sched, s) && s.st.next.Some?
    requires forall i :: 0 <= i < |s.created| ==> s.created[i].at < s.st.next.value
    ensures ScheduledRunName(sched.name, s.st.next.value) !in s.runs
  {
    hide ScheduledRunName, EntriesOk, ActiveOk;
    var name := ScheduledRunName(sched.name, s.st.next.value);
    if name in s.runs {
      var i :| 0 <= i < |s.created| && s.created[i].name == name;
      assert CreatedOk(sched, s.created[i], s.st.next.value, s.now);
      RunNamesInjective(sched.name, s.created[i].at, sched.name, s.st.next.value);
    }
  }

  lemma CleanQuiet(sched: Sched, s: System, now: int)
    requires s.st.next.Some? && now < s.st.next.value
    ensures var t := Wake(sched, s, now, []);
      && t.created == s.created && t.st.next == s.st.next && t.now == now && t.boot.Some? && (s.boot.Some? ==> t.boot == s.boot)
      && t.due == Some(now + RequeueDelay(s.st.next.value, now))
  {
    hide Collected, Refreshed;
    NextKept(s.st, s.runs);
    NoFaultNoFailure(sched, Begin(s).(st := Refreshed(s.st, s.runs)));
  }

  lemma WindowsApart(sched: Sched, boot: int, i: nat)
    requires CronOk(sched.cron)
    ensures Window(sched.cron, boot, i + 1) >= Window(sched.cron, boot, i) + MINUTE
  {
  }

  lemma PunctualFire(sched: Sched, s: System, now: int)
    requires SchedOk(sched) && ScheduleInv(sched, s) && UpToDate(sched, s) && s.st.next.Some?
    requires s.now <= now <= s.due.value && s.st.next.value <= now
    ensures UpToDate(sched, Wake(sched, s, now, []))
  {
    hide ScheduleInv, Wake;
    var cron, boot, n, at := sched.cron, s.boot.value, |s.created|, s.st.next.value;
    WindowsApart(sched, boot, n);
    forall i | 0 <= i < n ensures s.created[i].at < at {
      assert OnTime(sched, boot, s.created, i);
      WindowsGrow(sched, boot, i, n);
    }
    CleanFire(sched, s, now);
    assert now < at + MINUTE <= cron(at);
    assert cron(now) == cron(at);
    var t := Wake(sched, s, now, []);
    forall i | 0 <= i < |t.created| ensures OnTime(sched, boot, t.created, i) {
      assert i < n ==> OnTime(sched, boot, s.created, i);
    }
  }

  lemma {:induction false} WindowsGrow(sched: Sched, boot: int, i: nat, j: nat)
    requires CronOk(sched.cron) && i < j
    ensures Window(sched.cron, boot, i) < Window(sched.cron, boot, j)
  {
    hide CronOk;
    WindowsApart(sched, boot, j - 1);
    if i < j - 1 {
      WindowsGrow(sched, boot, i, j - 1);
    }
  }

  lemma PunctualQuiet(sched: Sched, s: System, now: int)
    requires UpToDate(sched, s) && s.st.next.Some? && s.now <= now < s.st.next.value
    ensures UpToDate(sched, Wake(sched, s, now, []))
  {
    hide Wake;
    CleanQuiet(sched, s, now);
    var t := Wake(sched, s, now, []);
    forall i | 0 <= i < |t.created| ensures OnTime(sched, t.boot.value, t.created, i) {
      assert OnTime(sched, s.boot.value, s.created, i);
    }
  }

  lemma PunctualFirst(sched: Sched, s: System, now: int)
    requires SchedOk(sched) && ScheduleInv(sched, s) && s.st.next.None?
    ensures UpToDate(sched, Wake(sched, s, now, []))
  {
  }

  lemma MovesKeepUpToDate(sched: Sched, s: System, name: string, phase: string)
    requires UpToDate(sched, s) && name in s.runs
    ensures UpToDate(sched, s.(runs := s.runs[name := phase]))
  {
  }

  lemma PunctualNext(sched: Sched, s: System, step: Step)
    requires SchedOk(sched) && ScheduleInv(sched, s) && UpToDate(sched, s) && Punctual(s, step)
    ensures UpToDate(sched, Next(sched, s, step))
  {
    hide Wake, ScheduleInv, SchedOk, OnTime, Window;
    match step
    case RunMoves(name, phase) =>
      if name in s.runs {
        MovesKeepUpToDate(sched, s, name, phase);
      }
    case Wakes(d, faults) =>
      if s.st.next.None? {
        PunctualFirst(sched, s, s.now + d);
      } else if s.now + d >= s.st.next.value {
        PunctualFire(sched, s, s.now + d);
      } else {
        PunctualQuiet(sched, s, s.now + d);
      }
  }

  lemma {:induction false} PunctualRun(sched: Sched, start: int, steps: seq<Step>)
    requires SchedOk(sched) && AllPunctual(sched, start, steps)
    ensures UpToDate(sched, Run(sched, start, steps))
  {
    hide Next, ScheduleInv, UpToDate, SchedOk, Punctual;
    if steps == [] {
      FreshIsUpToDate(sched, start);
    } else {
      var n := |steps| - 1;
      forall k | 0 <= k < n ensures Punctual(Run(sched, start, steps[..n][..k]), steps[..n][k]) {
        assert steps[..n][..k] == steps[..k];
      }
      PunctualRun(sched, start, steps[..n]);
      RunKeeps(sched, start, steps[..n]);
      assert Punctual(Run(sched, start, steps[..n]), steps[n]);
      PunctualNext(sched, Run(sched, start, steps[..n]), steps[n]);
    }
  }

  lemma FreshIsUpToDate(sched: Sched, start: int)
    ensures UpToDate(sched, Fresh(start))
  {
  }

  /** The first window after any time from boot on is one of the numbered ones. */
  lemma {:induction false} NumberOf(sched: Sched, boot: int, t: int, from: nat) returns (i: nat)
    requires CronOk(sched.cron) && boot <= t && (from > 0 ==> Window(sched.cron, boot, from - 1) <= t)
    ensures sched.cron(t) == Window(sched.cron, boot, i)
    decreases t - (if from == 0 then boot else Window(sched.cron, boot, from - 1))
  {
    if t < Window(sched.cron, boot, from) {
      i := from;
    } else {
      i := NumberOf(sched, boot, t, from + 1);
    }
  }

  /**
   When every wake-up comes in time and no call fails: each window that has come since the schedule was first seen has
   had exactly one Run made for it, in window order and less than a minute after it; and no other Run was made.
   */
  lemma NoWindowMissed(sched: Sched, start: int, steps: seq<Step>)
    requires SchedOk(sched) && AllPunctual(sched, start, steps) && Run(sched, start, steps).st.next.Some?
    ensures var s := Run(sched, start, steps);
      && s.boot.Some?
      && (forall i :: 0 <= i < |s.created| ==> OnTime(sched, s.boot.value, s.created, i))
      && (forall i, j :: 0 <= i < j < |s.created| ==> s.created[i].at < s.created[j].at)
      && (forall t :: s.boot.value <= t && sched.cron(t) <= s.now ==>
            exists i :: 0 <= i < |s.created| && s.created[i].at == sched.cron(t))
  {
    var s := Run(sched, start, steps);
    PunctualRun(sched, start, steps);
    forall i, j | 0 <= i < j < |s.created| ensures s.created[i].at < s.created[j].at {
      OncePerWindow(sched, start, steps, i, j);
    }
    forall t | s.boot.value <= t && sched.cron(t) <= s.now ensures exists i :: 0 <= i < |s.created| && s.created[i].at == sched.cron(t) {
      var i := NumberOf(sched, s.boot.value, t, 0);
      if i >= |s.created| {
        NotBefore(sched, s.boot.value, |s.created|, i);
      } else {
        assert OnTime(sched, s.boot.value, s.created, i);
      }
    }
  }

  lemma NotBefore(sched: Sched, boot: int, i: nat, j: nat)
    requires CronOk(sched.cron) && i <= j
    ensures Window(sched.cron, boot, i) <= Window(sched.cron, boot, j)
  {
  }

  /**
   However long the operator was away: the first wake-up after the stored window makes one Run, for that window, which
   is the earliest one after the reconcile that stored it; and every window up to the wake-up is skipped.
   */
  lemma LateWakeFiresEarliest(sched: Sched, start: int, steps: seq<Step>, elapsed: nat)
    requires SchedOk(sched)
    requires var s := Run(sched, start, steps);
      && s.st.next.Some? && s.st.next.value <= s.now + elapsed
      && forall i :: 0 <= i < |s.created| ==> s.created[i].at < s.st.next.value
    ensures var s, t := Run(sched, start, steps), Run(sched, start, steps + [Wakes(elapsed, [])]);
      && |t.created| == |s.created| + 1 && t.created[..|s.created|] == s.created
      && t.created[|s.created|].at == s.st.next.value == sched.cron(s.asked)
      && (forall u :: s.asked <= u ==> s.st.next.value <= sched.cron(u))
      && t.st.next == Some(sched.cron(t.now)) && t.now < sched.cron(t.now)
  {
    hide Run, Wake, ScheduleInv, ValidName;
    var s := Run(sched, start, steps);
    RunKeeps(sched, start, steps);
    RunsOn(sched, start, steps, Wakes(elapsed, []));
    CleanFire(sched, s, s.now + elapsed);
    NextAsAsked(sched, s);
    forall u | s.asked <= u ensures s.st.next.value <= sched.cron(u) {
      assert u < sched.cron(s.asked) ==> sched.cron(u) == sched.cron(s.asked);
    }
  }

  lemma NextAsAsked(sched: Sched, s: System)
    requires ScheduleInv(sched, s) && s.st.next.Some?
    ensures s.st.next.value == sched.cron(s.asked)
  {
  }

  lemma RunsOn(sched: Sched, start: int, steps: seq<Step>, step: Step)
    ensures Run(sched, start, steps + [step]) == Next(sched, Run(sched, start, steps), step)
  {
  }
}
