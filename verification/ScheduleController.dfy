/** The schedule controller's methods, which update the schedule they hold and the Runs step by step, proved against Schedules. */
module ScheduleControllers {
  import opened Options
  import opened RunNames
  import opened Schedules
  import opened ScheduleRuns

  /** The Runs and the stored schedule status; the k-th write fails when the faults say so. */
  class RunServer {
    var runs: map<string, string>
    var stored: SchedStatus
    var faults: seq<bool>
    var calls: nat
    ghost var created: seq<Creation>

    /** Creates the Run unless it exists already. */
    method Create(name: string, ghost at: int, ghost now: int) returns (err: bool)
      modifies this`runs, this`calls, this`created
      ensures calls == old(calls) + 1 && (err <==> Fails(faults, old(calls)))
      ensures err || name in old(runs) ==> runs == old(runs) && created == old(created)
      ensures !err && name !in old(runs) ==> runs == old(runs)[name := ""] && created == old(created) + [Creation(name, at, now)]
    {
      err := Fails(faults, calls);
      calls := calls + 1;
      if !err && name !in runs {
        runs := runs[name := ""];
        created := created + [Creation(name, at, now)];
      }
    }

    method Delete(name: string) returns (err: bool)
      modifies this`runs, this`calls
      ensures calls == old(calls) + 1 && (err <==> Fails(faults, old(calls)))
      ensures runs == if err then old(runs) else old(runs) - {name}
    {
      err := Fails(faults, calls);
      calls := calls + 1;
      if !err {
        runs := runs - {name};
      }
    }
  }

  class AgentTeamSchedule {
    const sched: Sched
    var next: Option<int>
    var last: Option<int>
    var active: string
    var runs: seq<Entry>

    /** The status fields as one record. */
    function View(): SchedStatus reads this { SchedStatus(next, last, active, runs) }

    constructor (sched: Sched, st: SchedStatus)
      ensures this.sched == sched && View() == st
    {
      this.sched, next, last, active, runs := sched, st.next, st.last, st.active, st.runs;
    }

    /** A reconcile in progress, as its definition sees it. */
    ghost function Live(api: RunServer, err: bool): Mem
      reads this, api
    {
      Mem(api.runs, api.created, View(), api.calls, !err)
    }

    method UpdateStatus(api: RunServer) returns (err: bool)
      modifies api`stored, api`calls
      ensures Live(api, err) == Commit(old(Live(api, false)), api.faults)
      ensures api.stored == if err then old(api.stored) else View()
    {
      err := Fails(api.faults, api.calls);
      api.calls := api.calls + 1;
      if !err {
        api.stored := View();
      }
    }

    method CreateRunForWindow(api: RunServer, at: int, now: int) returns (err: bool)
      modifies api`runs, api`calls, api`created, this`active, this`runs
      ensures Live(api, err) == CreateRun(sched, old(Live(api, false)), at, now, api.faults)
    {
      hide ScheduledRunName;
      var name := ScheduledRunName(sched.name, at);
      err := api.Create(name, at, now);
      if err {
        return;
      }
      for i := 0 to |runs|
        modifies this`active
        invariant forall k :: 0 <= k < i ==> runs[k].name != name
      {
        if runs[i].name == name {
          active := name;
          return;
        }
      }
      runs := runs + [Entry(name, at, "Pending")];
      active := name;
    }

    method RefreshRunPhases(api: RunServer)
      modifies this`active, this`runs
      ensures View() == Refreshed(old(View()), api.runs)
    {
      for i := 0 to |runs|
        modifies this`runs
        invariant |runs| == |old(runs)|
        invariant forall k :: 0 <= k < |runs| ==> runs[k] == if k < i then RefreshedEntry(old(runs)[k], api.runs) else old(runs)[k]
      {
        if runs[i].name in api.runs {
          runs := runs[i := runs[i].(phase := api.runs[runs[i].name])];
        }
      }
      assert runs == RefreshedEntries(old(runs), api.runs);
      if active != "" {
        var i := 0;
        while i < |runs| && runs[i].name != active
          invariant i <= |runs| && FoundTerminal(runs, active) == FoundTerminal(runs[i..], active)
        {
          assert runs[i..][1..] == runs[i + 1..];
          i := i + 1;
        }
        if i < |runs| && IsRunTerminal(runs[i].phase) {
          active := "";
        }
      }
    }

    /** The positions of the oldest terminal entries beyond the limit. */
    method FindSurplus() returns (drop: seq<nat>)
      ensures drop == Surplus(runs, sched.limit)
    {
      if sched.limit <= 0 {
        return [];
      }
      var terminal: seq<nat> := [];
      for i := 0 to |runs|
        invariant terminal == TerminalIndices(runs[..i])
      {
        assert runs[..i + 1][..i] == runs[..i];
        if IsRunTerminal(runs[i].phase) {
          terminal := terminal + [i];
        }
      }
      assert runs[..|runs|] == runs;
      var excess := |terminal| - sched.limit;
      drop := if excess <= 0 then [] else terminal[..excess];
    }

    /** Deletes the Runs of the entries at these positions, those that still exist, until a deletion fails. */
    method DeleteRunsAt(api: RunServer, drop: seq<nat>) returns (err: bool)
      requires forall k :: 0 <= k < |drop| ==> drop[k] < |runs|
      modifies api`runs, api`calls
      ensures Live(api, err) == DeleteRuns(old(Live(api, false)), NamesAt(runs, drop), api.faults)
    {
      ghost var start, names := Live(api, false), NamesAt(runs, drop);
      err := false;
      for k := 0 to |drop|
        invariant Live(api, false) == DeleteRuns(start, names[..k], api.faults)
      {
        assert names[..k + 1][..k] == names[..k];
        var name := runs[drop[k]].name;
        if name in api.runs {
          err := api.Delete(name);
          if err {
            DeletionStopped(start, names, k + 1, api.faults);
            return;
          }
        }
      }
      assert names[..|drop|] == names;
      err := false;
    }

    method Compact(drop: seq<nat>)
      modifies this`runs
      ensures runs == Without(old(runs), drop)
    {
      var kept := [];
      for i := 0 to |runs|
        modifies {}
        invariant kept == Without(runs[..i], drop)
      {
        assert runs[..i + 1][..i] == runs[..i];
        if i !in drop {
          kept := kept + [runs[i]];
        }
      }
      assert runs[..|runs|] == runs;
      runs := kept;
    }

    method GcOldRuns(api: RunServer) returns (err: bool)
      modifies api`runs, api`calls, this`runs
      ensures Live(api, false) == Collected(sched, old(Live(api, false)), api.faults)
      ensures err <==> !Undisturbed(sched, old(Live(api, false)), api.faults)
    {
      hide Surplus, Without, DeleteRuns;
      var drop := FindSurplus();
      err := DeleteRunsAt(api, drop);
      if !err {
        Compact(drop);
      }
    }

    /** Refresh, collect and save. */
    method Maintain(api: RunServer) returns (err: bool)
      modifies api`runs, api`calls, api`stored, this`active, this`runs
      ensures Live(api, err) == Maintained(sched, old(Live(api, false)), api.faults)
      ensures api.stored == if err then old(api.stored) else View()
    {
      hide Collected, Refreshed;
      RefreshRunPhases(api);
      var ignored := GcOldRuns(api);
      err := UpdateStatus(api);
    }

    method Reconcile(api: RunServer, now: int) returns (err: bool)
      modifies api`runs, api`calls, api`stored, api`created, this
      ensures Live(api, err) == Reconciled(sched, old(Live(api, false)), now, api.faults)
      ensures api.stored == if err then old(api.stored) else View()
    {
      hide CreateRun, Maintained;
      if next.None? {
        next := Some(sched.cron(now));
        err := UpdateStatus(api);
        return;
      }
      if now >= next.value {
        var at := next.value;
        err := CreateRunForWindow(api, at, now);
        if err {
          return;
        }
        last := Some(at);
        next := Some(sched.cron(now));
      }
      err := Maintain(api);
    }
  }

  /** A deletion loop that has failed stays as it is. */
  lemma {:induction false} DeletionStopped(x: Mem, names: seq<string>, k: nat, faults: seq<bool>)
    requires k <= |names| && !DeleteRuns(x, names[..k], faults).ok
    ensures DeleteRuns(x, names, faults) == DeleteRuns(x, names[..k], faults)
  {
    if k < |names| {
      assert names[..|names| - 1][..k] == names[..k];
      DeletionStopped(x, names[..|names| - 1], k, faults);
    } else {
      assert names[..k] == names;
    }
  }

  /**
   One reconcile from the stored status: the Runs, the creations and the stored status end as a wake-up of a run says;
   the delay is the one the next wake-up is due by.
   */
  method ReconcileSchedule(sched: Sched, api: RunServer, now: int, ghost s: System) returns (err: bool, delay: int)
    requires api.calls == 0 && Begin(s) == Mem(api.runs, api.created, api.stored, 0, true)
    modifies api
    ensures var t := Wake(sched, s, now, old(api.faults));
      && api.runs == t.runs && api.created == t.created && api.stored == t.st
      && (!err && t.st.next.Some? ==> t.due == Some(now + delay))
  {
    hide Reconciled;
    AlwaysPlanned(sched, Begin(s), now, api.faults);
    var schedule := new AgentTeamSchedule(sched, api.stored);
    err := schedule.Reconcile(api, now);
    delay := MINUTE;
    if !err && schedule.next.Some? && schedule.next.value - now > MINUTE {
      delay := schedule.next.value - now;
    }
  }
}
