/** The status entries of the teammates: what each update keeps. */
module Rosters {
  import opened TeamSpecs
  import opened TeamStatuses
  import opened TeamReconcile

  ghost predicate DistinctEntries(entries: seq<TeammateStatus>) {
    forall i, j :: 0 <= i < j < |entries| ==> entries[i].name != entries[j].name
  }

  /** One entry per declared teammate, in declaration order. */
  ghost predicate Roster(spec: TeamSpec, entries: seq<TeammateStatus>) {
    |entries| == |spec.teammates| && forall i :: 0 <= i < |entries| ==> entries[i].name == spec.teammates[i].name
  }

  function PendingApproval(entries: seq<TeammateStatus>, name: string): string {
    var i := EntryIndex(entries, name);
    if i < |entries| then entries[i].pendingApproval else ""
  }

  /** The first index at which the name stands is the only candidate. */
  lemma IndexIs(entries: seq<TeammateStatus>, name: string, i: nat)
    requires i <= |entries| && (forall k :: 0 <= k < i ==> entries[k].name != name)
    requires i < |entries| ==> entries[i].name == name
    ensures EntryIndex(entries, name) == i
  {
  }

  lemma RosterIndex(spec: TeamSpec, entries: seq<TeammateStatus>, k: nat)
    requires WellFormed(spec) && Roster(spec, entries) && k < |entries|
    ensures EntryIndex(entries, spec.teammates[k].name) == k
  {
  }

  lemma RosterIsDistinct(spec: TeamSpec, entries: seq<TeammateStatus>)
    requires WellFormed(spec) && Roster(spec, entries)
    ensures DistinctEntries(entries)
  {
  }

  lemma {:induction false} LookupIsFirst(entries: seq<TeammateStatus>, name: string)
    requires DistinctEntries(entries)
    ensures var i := EntryIndex(entries, name);
      if i < |entries| then name in EntriesByName(entries) && EntriesByName(entries)[name] == entries[i]
      else name !in EntriesByName(entries)
  {
  }

  /** Sync makes the roster, and carries restart counts and pending approvals over. */
  lemma SyncKeepsEntries(spec: TeamSpec, entries: seq<TeammateStatus>, pods: Pods, k: nat)
    requires WellFormed(spec) && DistinctEntries(entries) && k < |spec.teammates|
    ensures Roster(spec, SyncedEntries(spec, entries, pods))
    ensures SyncedEntries(spec, entries, pods)[k].restartCount == RestartCount(entries, spec.teammates[k].name)
    ensures SyncedEntries(spec, entries, pods)[k].pendingApproval == PendingApproval(entries, spec.teammates[k].name)
  {
    LookupIsFirst(entries, spec.teammates[k].name);
  }

  /** The two sequences agree on names and restart counts. */
  ghost predicate SameCounts(a: seq<TeammateStatus>, b: seq<TeammateStatus>) {
    |a| == |b| && forall i :: 0 <= i < |a| ==> a[i].name == b[i].name && a[i].restartCount == b[i].restartCount
  }

  lemma HoldKeeps(entries: seq<TeammateStatus>, name: string, event: string, other: string)
    requires DistinctEntries(entries)
    ensures DistinctEntries(SetPendingApproval(entries, name, event))
    ensures RestartCount(SetPendingApproval(entries, name, event), other) == RestartCount(entries, other)
    ensures PendingApproval(SetPendingApproval(entries, name, event), other) == if other == name then event else PendingApproval(entries, other)
  {
    var after := SetPendingApproval(entries, name, event);
    var i := EntryIndex(entries, other);
    IndexIs(after, other, if i == |entries| && other != name then |after| else i);
  }

  lemma FirstSpawnKeepsEntries(spec: TeamSpec, m: Mem, tm: TeammateSpec, now: int, name: string)
    requires DistinctEntries(m.st.teammates)
    ensures DistinctEntries(FirstSpawn(spec, m, tm, now).st.teammates)
    ensures RestartCount(FirstSpawn(spec, m, tm, now).st.teammates, name) == RestartCount(m.st.teammates, name)
  {
    HoldKeeps(m.st.teammates, tm.name, HeldAt(spec, m.cl.granted, tm.name), name);
  }

  lemma LateSpawnKeepsRoster(spec: TeamSpec, m: Mem, k: nat, now: int)
    requires WellFormed(spec) && Roster(spec, m.st.teammates) && k < |spec.teammates|
    ensures Roster(spec, LateSpawn(spec, m, spec.teammates[k], now).st.teammates)
    ensures SameCounts(m.st.teammates, LateSpawn(spec, m, spec.teammates[k], now).st.teammates)
  {
    hide DependenciesMet, HeldAt, EffectiveDependencies, StagedInputs;
    RosterIndex(spec, m.st.teammates, k);
  }
}
