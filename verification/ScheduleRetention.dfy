/** Which entries of a schedule's history a garbage collection retains, and that the index computation agrees. */
module ScheduleRetention {
  import opened Schedules

  function Terminals(entries: seq<Entry>): seq<Entry> {
    if entries == [] then []
    else if IsRunTerminal(entries[0].phase) then [entries[0]] + Terminals(entries[1..]) else Terminals(entries[1..])
  }

  function InFlight(entries: seq<Entry>): seq<Entry> {
    if entries == [] then []
    else if IsRunTerminal(entries[0].phase) then InFlight(entries[1..]) else [entries[0]] + InFlight(entries[1..])
  }

  /** In order: every entry that is in flight, or terminal with fewer than limit terminal ones after it. */
  function Retained(entries: seq<Entry>, limit: nat): seq<Entry> {
    if entries == [] then []
    else if IsRunTerminal(entries[0].phase) && |Terminals(entries[1..])| >= limit then Retained(entries[1..], limit)
    else [entries[0]] + Retained(entries[1..], limit)
  }

  /** Nothing in flight is dropped, and exactly the newest terminal entries up to the limit stay. */
  lemma {:induction false} RetainedKeepsNewest(entries: seq<Entry>, limit: nat)
    ensures var r, t := Retained(entries, limit), Terminals(entries);
      && InFlight(r) == InFlight(entries)
      && Terminals(r) == t[if |t| <= limit then 0 else |t| - limit..]
  {
    if entries != [] {
      RetainedKeepsNewest(entries[1..], limit);
      var e, r := entries[0], Retained(entries[1..], limit);
      assert ([e] + r)[1..] == r;
    }
  }

  /** A history within the limit is left alone. */
  lemma {:induction false} RetainedWithin(entries: seq<Entry>, limit: nat)
    requires |Terminals(entries)| <= limit
    ensures Retained(entries, limit) == entries
  {
    if entries != [] {
      RetainedWithin(entries[1..], limit);
    }
  }

  /** Collecting twice is collecting once. */
  lemma RetainedIdempotent(entries: seq<Entry>, limit: nat)
    ensures Retained(Retained(entries, limit), limit) == Retained(entries, limit)
  {
    RetainedKeepsNewest(entries, limit);
    RetainedWithin(Retained(entries, limit), limit);
  }

  // ---- The index computation agrees ----

  /** Entry i is terminal with at least limit terminal entries after it. */
  ghost predicate BeyondLimit(entries: seq<Entry>, limit: nat, i: nat)
    requires i < |entries|
  {
    IsRunTerminal(entries[i].phase) && |Terminals(entries[i + 1..])| >= limit
  }

  lemma {:induction false} TerminalsAppend(a: seq<Entry>, b: seq<Entry>)
    ensures Terminals(a + b) == Terminals(a) + Terminals(b)
  {
    if a == [] {
      assert a + b == b;
    } else {
      TerminalsAppend(a[1..], b);
      assert (a + b)[1..] == a[1..] + b;
    }
  }

  lemma {:induction false} AllPositionsListed(entries: seq<Entry>)
    ensures |TerminalIndices(entries)| == |Terminals(entries)|
    ensures forall i :: 0 <= i < |entries| && IsRunTerminal(entries[i].phase) ==> i in TerminalIndices(entries)
  {
    if entries != [] {
      var n := |entries| - 1;
      AllPositionsListed(entries[..n]);
      assert entries == entries[..n] + [entries[n]];
      TerminalsAppend(entries[..n], [entries[n]]);
      forall i | 0 <= i < |entries| && IsRunTerminal(entries[i].phase) ensures i in TerminalIndices(entries) {
        assert i < n ==> entries[..n][i] == entries[i];
      }
    }
  }

  /** The k-th terminal position has exactly the later ones after it. */
  lemma {:induction false} LaterTerminals(entries: seq<Entry>, k: nat)
    requires k < |TerminalIndices(entries)|
    ensures |Terminals(entries[TerminalIndices(entries)[k] + 1..])| == |TerminalIndices(entries)| - 1 - k
  {
    hide IsRunTerminal;
    var n := |entries| - 1;
    var front, last, i := entries[..n], [entries[n]], TerminalIndices(entries)[k];
    if k < |TerminalIndices(front)| {
      LaterTerminals(front, k);
      assert entries[i + 1..] == front[i + 1..] + last;
      TerminalsAppend(front[i + 1..], last);
    }
  }

  lemma PositionsDistinct(entries: seq<Entry>, j: nat, k: nat)
    requires j < |TerminalIndices(entries)| && k < |TerminalIndices(entries)| && TerminalIndices(entries)[j] == TerminalIndices(entries)[k]
    ensures j == k
  {
  }

  lemma SurplusIsBeyondLimit(entries: seq<Entry>, limit: nat, i: nat)
    requires limit > 0 && i < |entries|
    ensures i in Surplus(entries, limit) <==> BeyondLimit(entries, limit, i)
  {
    hide Terminals, TerminalIndices, IsRunTerminal;
    var t, s := TerminalIndices(entries), Surplus(entries, limit);
    AllPositionsListed(entries);
    if IsRunTerminal(entries[i].phase) {
      var k :| 0 <= k < |t| && t[k] == i;
      LaterTerminals(entries, k);
      if j :| 0 <= j < |s| && s[j] == i {
        PositionsDistinct(entries, j, k);
      }
      assert k < |s| ==> s[k] == i;
    }
  }

  /** Dropping positions from a front and then its successor entry by entry. */
  lemma {:induction false} WithoutSplit(a: seq<Entry>, b: seq<Entry>, drop: seq<nat>, shifted: seq<nat>)
    requires forall i: nat :: i in shifted <==> i + |a| in drop
    ensures Without(a + b, drop) == Without(a, drop) + Without(b, shifted)
  {
    if b == [] {
      assert a + b == a;
    } else {
      var n := |b| - 1;
      assert (a + b)[..|a| + n] == a + b[..n];
      WithoutSplit(a, b[..n], drop, shifted);
    }
  }

  lemma WithoutOne(e: Entry, drop: seq<nat>)
    ensures Without([e], drop) == if 0 in drop then [] else [e]
  {
  }

  lemma WithoutFirst(entries: seq<Entry>, drop: seq<nat>)
    requires entries != []
    ensures Without(entries, drop) == (if 0 in drop then [] else [entries[0]]) + Without(entries[1..], Shift(drop))
  {
    hide Shift, Without;
    assert entries == [entries[0]] + entries[1..];
    WithoutSplit([entries[0]], entries[1..], drop, Shift(drop));
    WithoutOne(entries[0], drop);
  }

  lemma {:induction false} WithoutIsRetained(entries: seq<Entry>, limit: nat, drop: seq<nat>)
    requires forall i :: 0 <= i < |entries| ==> (i in drop <==> BeyondLimit(entries, limit, i))
    ensures Without(entries, drop) == Retained(entries, limit)
  {
    hide Terminals, Without, IsRunTerminal;
    if entries != [] {
      var rest := entries[1..];
      WithoutFirst(entries, drop);
      assert entries[0 + 1..] == rest;
      forall i | 0 <= i < |rest| ensures i in Shift(drop) <==> BeyondLimit(rest, limit, i) {
        assert entries[i + 1 + 1..] == rest[i + 1..];
        assert i + 1 in drop <==> BeyondLimit(entries, limit, i + 1);
      }
      WithoutIsRetained(rest, limit, Shift(drop));
    } else {
      NoneLeft(drop);
    }
  }

  lemma NoneLeft(drop: seq<nat>)
    ensures Without([], drop) == []
  {
  }

  /** Positions seen from one entry later on. */
  function Shift(drop: seq<nat>): (r: seq<nat>)
    ensures forall i: nat :: i in r <==> i + 1 in drop
  {
    if drop == [] then []
    else
      assert drop == [drop[0]] + drop[1..];
      (if drop[0] == 0 then [] else [drop[0] - 1]) + Shift(drop[1..])
  }

  /** A collection that meets no error leaves exactly the entries to retain. */
  lemma SurplusDropped(entries: seq<Entry>, limit: int)
    ensures Without(entries, Surplus(entries, limit)) == if limit <= 0 then entries else Retained(entries, limit)
  {
    if limit <= 0 {
      NothingDropped(entries);
    } else {
      forall i | 0 <= i < |entries| ensures i in Surplus(entries, limit) <==> BeyondLimit(entries, limit, i) {
        SurplusIsBeyondLimit(entries, limit, i);
      }
      WithoutIsRetained(entries, limit, Surplus(entries, limit));
    }
  }

  lemma {:induction false} NothingDropped(entries: seq<Entry>)
    ensures Without(entries, []) == entries
  {
    if entries != [] {
      NothingDropped(entries[..|entries| - 1]);
    }
  }
}
