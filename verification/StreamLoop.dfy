/** The dashboard's poll loop: what it writes for any sequence of polls, heartbeats and a disconnect. */
module StreamLoops {
  import opened Options
  import opened EventStreams

  datatype Rendering = Rendered(body: string) | NotFound | Transient

  /** What wakes the loop: the client goes away, a heartbeat is due (whose write may fail), or a poll is due. */
  datatype Occurrence = Disconnects | HeartbeatDue(writable: bool) | Polls(r: Rendering)

  /** The loop's variables, the frames written and whether it has returned. */
  datatype Loop = Loop(lastHash: Option<int>, frames: seq<Frame>, done: bool)

  function Update(body: string): Frame { Event("update", body) }

  const Deleted := Event("deleted", "team no longer exists")

  const Idle := Loop(None, [], false)

  function Turn(hash: string -> int, l: Loop, o: Occurrence): Loop {
    if l.done then l
    else
      match o
      case Disconnects => l.(done := true)
      case HeartbeatDue(writable) => if writable then l.(frames := l.frames + [Heartbeat]) else l.(done := true)
      case Polls(NotFound) => l.(frames := l.frames + [Deleted], done := true)
      case Polls(Transient) => l
      case Polls(Rendered(body)) =>
        if l.lastHash == Some(hash(body)) then l
        else l.(lastHash := Some(hash(body)), frames := l.frames + [Update(body)])
  }

  function Turns(hash: string -> int, occurrences: seq<Occurrence>): Loop {
    if occurrences == [] then Idle
    else Turn(hash, Turns(hash, occurrences[..|occurrences| - 1]), occurrences[|occurrences| - 1])
  }

  /** The loop itself. The hash variable starts at zero and counts only once a first frame has been sent. */
  method StreamUntilDone(hash: string -> int, occurrences: seq<Occurrence>, w: StreamWriter)
    requires w.Valid() && w.frames == []
    modifies w
    ensures w.Valid() && w.frames == Turns(hash, occurrences).frames
  {
    hide Joined, AllLines, Written;
    var lastHash := 0;
    var first := true;
    var i := 0;
    while i < |occurrences|
      invariant i <= |occurrences| && w.Valid()
      invariant Turns(hash, occurrences[..i]) == Loop(if first then None else Some(lastHash), w.frames, false)
    {
      assert occurrences[..i + 1][..i] == occurrences[..i];
      match occurrences[i] {
        case Disconnects =>
          DoneStays(hash, occurrences, i + 1);
          return;
        case HeartbeatDue(writable) =>
          if !writable {
            DoneStays(hash, occurrences, i + 1);
            return;
          }
          w.WriteHeartbeat();
        case Polls(r) =>
          match r {
            case NotFound =>
              w.WriteFrame("deleted", "team no longer exists");
              DoneStays(hash, occurrences, i + 1);
              return;
            case Transient =>
            case Rendered(body) =>
              var h := hash(body);
              if first || h != lastHash {
                lastHash, first := h, false;
                w.WriteFrame("update", body);
              }
          }
      }
      i := i + 1;
    }
    assert occurrences[..i] == occurrences;
  }

  /** A loop that has returned writes nothing more. */
  lemma {:induction false} DoneStays(hash: string -> int, occurrences: seq<Occurrence>, i: nat)
    requires i <= |occurrences| && Turns(hash, occurrences[..i]).done
    ensures Turns(hash, occurrences) == Turns(hash, occurrences[..i])
  {
    if i < |occurrences| {
      assert occurrences[..|occurrences| - 1][..i] == occurrences[..i];
      DoneStays(hash, occurrences[..|occurrences| - 1], i);
    } else {
      assert occurrences[..i] == occurrences;
    }
  }

  // ---- When it ends ----

  /** The client has gone away, it cannot be written to, or the team is no longer there. */
  predicate Ends(o: Occurrence) { o == Disconnects || o == HeartbeatDue(false) || o == Polls(NotFound) }

  /** The loop has returned exactly if something has ended it, and writes nothing after that, whatever comes. */
  lemma {:induction false} EndsExactly(hash: string -> int, occurrences: seq<Occurrence>, more: seq<Occurrence>)
    ensures Turns(hash, occurrences).done <==> exists k :: 0 <= k < |occurrences| && Ends(occurrences[k])
    ensures (exists k :: 0 <= k < |occurrences| && Ends(occurrences[k])) ==>
      Turns(hash, occurrences + more).frames == Turns(hash, occurrences).frames
  {
    DoneMeansEnded(hash, occurrences);
    if Turns(hash, occurrences).done {
      assert (occurrences + more)[..|occurrences|] == occurrences;
      DoneStays(hash, occurrences + more, |occurrences|);
    }
  }

  lemma {:induction false} DoneMeansEnded(hash: string -> int, occurrences: seq<Occurrence>)
    ensures Turns(hash, occurrences).done <==> exists k :: 0 <= k < |occurrences| && Ends(occurrences[k])
  {
    if occurrences != [] {
      var n := |occurrences| - 1;
      DoneMeansEnded(hash, occurrences[..n]);
      assert occurrences == occurrences[..n] + [occurrences[n]];
      if k :| 0 <= k < n && Ends(occurrences[..n][k]) {
        assert Ends(occurrences[k]);
      }
      if k :| 0 <= k < n && Ends(occurrences[k]) {
        assert Ends(occurrences[..n][k]);
      }
    }
  }

  function Heartbeats(frames: seq<Frame>): nat {
    if frames == [] then 0
    else Heartbeats(frames[..|frames| - 1]) + if frames[|frames| - 1] == Heartbeat then 1 else 0
  }

  /** The heartbeats that fall due, and can be written, before anything ends the loop. */
  function HeartbeatsDue(occurrences: seq<Occurrence>): nat {
    if occurrences == [] || Ends(occurrences[0]) then 0
    else HeartbeatsDue(occurrences[1..]) + if occurrences[0] == HeartbeatDue(true) then 1 else 0
  }

  lemma {:induction false} OneMoreDue(occurrences: seq<Occurrence>, o: Occurrence)
    ensures HeartbeatsDue(occurrences + [o]) ==
      HeartbeatsDue(occurrences)
      + if o == HeartbeatDue(true) && forall k :: 0 <= k < |occurrences| ==> !Ends(occurrences[k]) then 1 else 0
  {
    if occurrences == [] {
      assert ([] + [o])[1..] == [];
    } else {
      assert (occurrences + [o])[1..] == occurrences[1..] + [o];
      OneMoreDue(occurrences[1..], o);
      if !Ends(occurrences[0]) {
        assert (forall k :: 0 <= k < |occurrences| ==> !Ends(occurrences[k]))
               <==> forall k :: 0 <= k < |occurrences[1..]| ==> !Ends(occurrences[1..][k]) by {
          forall k | 0 < k < |occurrences| ensures occurrences[k] == occurrences[1..][k - 1] {
          }
        }
      }
    }
  }

  lemma TurnHeartbeats(hash: string -> int, l: Loop, o: Occurrence)
    ensures Heartbeats(Turn(hash, l, o).frames) == Heartbeats(l.frames) + if !l.done && o == HeartbeatDue(true) then 1 else 0
  {
    if Turn(hash, l, o).frames != l.frames {
      assert Turn(hash, l, o).frames[..|l.frames|] == l.frames;
    }
  }

  /** Every one of them is written, and no other. */
  lemma {:induction false} HeartbeatsAreWritten(hash: string -> int, occurrences: seq<Occurrence>)
    ensures Heartbeats(Turns(hash, occurrences).frames) == HeartbeatsDue(occurrences)
  {
    hide Turn, Heartbeats, HeartbeatsDue, Ends;
    if occurrences == [] {
      NoHeartbeats();
    } else {
      var n := |occurrences| - 1;
      HeartbeatsAreWritten(hash, occurrences[..n]);
      DoneMeansEnded(hash, occurrences[..n]);
      TurnHeartbeats(hash, Turns(hash, occurrences[..n]), occurrences[n]);
      OneMoreDue(occurrences[..n], occurrences[n]);
      assert occurrences == occurrences[..n] + [occurrences[n]];
    }
  }

  lemma NoHeartbeats()
    ensures Heartbeats(Idle.frames) == HeartbeatsDue([]) == 0
  {
  }

  // ---- Against sending every render ----

  /** The bodies rendered while the loop was still going. */
  function Renders(hash: string -> int, occurrences: seq<Occurrence>): seq<string> {
    if occurrences == [] then []
    else
      var n := |occurrences| - 1;
      var o := occurrences[n];
      Renders(hash, occurrences[..n])
      + if !Turns(hash, occurrences[..n]).done && o.Polls? && o.r.Rendered? then [o.r.body] else []
  }

  /** The bodies of the update frames. */
  function Updates(frames: seq<Frame>): seq<string> {
    if frames == [] then []
    else
      var f := frames[|frames| - 1];
      Updates(frames[..|frames| - 1]) + if f.Event? && f.name == "update" then [f.payload] else []
  }

  /** Each body whose hash differs from that of the body right before it. */
  function Changes(hash: string -> int, bodies: seq<string>): seq<string> {
    if bodies == [] then []
    else
      var n := |bodies| - 1;
      Changes(hash, bodies[..n]) + if n > 0 && hash(bodies[n - 1]) == hash(bodies[n]) then [] else [bodies[n]]
  }

  predicate SendsRender(l: Loop, o: Occurrence) { !l.done && o.Polls? && o.r.Rendered? }

  lemma TurnUpdates(hash: string -> int, l: Loop, o: Occurrence)
    ensures var t := Turn(hash, l, o);
      if SendsRender(l, o) then
        && t.lastHash == Some(hash(o.r.body))
        && Updates(t.frames) == Updates(l.frames) + if l.lastHash == Some(hash(o.r.body)) then [] else [o.r.body]
      else Updates(t.frames) == Updates(l.frames) && t.lastHash == l.lastHash
  {
  }

  lemma ChangesAppend(hash: string -> int, bodies: seq<string>, body: string)
    ensures Changes(hash, bodies + [body]) ==
      Changes(hash, bodies) + if bodies != [] && hash(bodies[|bodies| - 1]) == hash(body) then [] else [body]
  {
  }

  /** The loop compares with the hash last sent; that is always the hash of the last render. */
  lemma {:induction false} SendsChanges(hash: string -> int, occurrences: seq<Occurrence>)
    ensures var l, renders := Turns(hash, occurrences), Renders(hash, occurrences);
      && Updates(l.frames) == Changes(hash, renders)
      && l.lastHash == if renders == [] then None else Some(hash(renders[|renders| - 1]))
  {
    if occurrences != [] {
      hide Turn, Updates, Changes;
      var n := |occurrences| - 1;
      var before, o := Turns(hash, occurrences[..n]), occurrences[n];
      SendsChanges(hash, occurrences[..n]);
      TurnUpdates(hash, before, o);
      var renders := Renders(hash, occurrences[..n]);
      if SendsRender(before, o) {
        ChangesAppend(hash, renders, o.r.body);
        assert Renders(hash, occurrences) == renders + [o.r.body];
      } else {
        assert Renders(hash, occurrences) == renders + [] == renders;
      }
    }
  }

  /** Consecutive changes differ in hash, and the last one has the hash of the last body. */
  lemma {:induction false} ChangesDiffer(hash: string -> int, bodies: seq<string>)
    ensures var c := Changes(hash, bodies);
      && (bodies != [] ==> c != [] && hash(c[|c| - 1]) == hash(bodies[|bodies| - 1]) && c[0] == bodies[0])
      && forall i :: 0 <= i < |c| - 1 ==> hash(c[i]) != hash(c[i + 1])
  {
    if bodies != [] {
      var n := |bodies| - 1;
      ChangesDiffer(hash, bodies[..n]);
      var before := Changes(hash, bodies[..n]);
      if n > 0 && hash(bodies[n - 1]) != hash(bodies[n]) {
        var c := Changes(hash, bodies);
        assert c == before + [bodies[n]];
        forall i | 0 <= i < |c| - 1 ensures hash(c[i]) != hash(c[i + 1]) {
        }
      }
    }
  }

  /**
   The updates sent are every render with hash-repeats left out: consecutive updates differ in hash, the first render is
   sent, and after each render the last update sent has its hash.
   */
  lemma RefinesSendingAll(hash: string -> int, occurrences: seq<Occurrence>)
    ensures var updates, renders := Updates(Turns(hash, occurrences).frames), Renders(hash, occurrences);
      && updates == Changes(hash, renders)
      && (forall i :: 0 <= i < |updates| - 1 ==> hash(updates[i]) != hash(updates[i + 1]))
      && (renders != [] ==>
        && updates != [] && updates[0] == renders[0]
        && hash(updates[|updates| - 1]) == hash(renders[|renders| - 1]))
  {
    SendsChanges(hash, occurrences);
    ChangesDiffer(hash, Renders(hash, occurrences));
  }

  /** A poll that fails transiently writes nothing and forgets nothing. */
  lemma TransientSendsNothing(hash: string -> int, occurrences: seq<Occurrence>)
    ensures Turns(hash, occurrences + [Polls(Transient)]) == Turns(hash, occurrences)
  {
  }

  /** A deleted frame is only ever the last frame, is followed by nothing, and is there exactly when a poll found nothing. */
  lemma {:induction false} DeletedIsLast(hash: string -> int, occurrences: seq<Occurrence>)
    ensures var l := Turns(hash, occurrences);
      && (forall i :: 0 <= i < |l.frames| && l.frames[i] == Deleted ==> i == |l.frames| - 1 && l.done)
      && (Deleted in l.frames <==>
          exists k :: 0 <= k < |occurrences| && occurrences[k] == Polls(NotFound) && !Turns(hash, occurrences[..k]).done)
  {
    if occurrences != [] {
      var n := |occurrences| - 1;
      var before, l := Turns(hash, occurrences[..n]), Turns(hash, occurrences);
      DeletedIsLast(hash, occurrences[..n]);
      if k :| 0 <= k < n && occurrences[..n][k] == Polls(NotFound) && !Turns(hash, occurrences[..n][..k]).done {
        assert occurrences[..n][..k] == occurrences[..k] && occurrences[k] == Polls(NotFound);
        assert before.done && l == before;
      } else {
        forall k | 0 <= k < n && occurrences[k] == Polls(NotFound) ensures Turns(hash, occurrences[..k]).done {
          assert occurrences[..n][..k] == occurrences[..k] && occurrences[..n][k] == occurrences[k];
        }
        if occurrences[n] == Polls(NotFound) && !before.done {
          assert l.frames[|before.frames|] == Deleted;
        }
      }
    }
  }

  // ---- What the client sees ----

  ghost predicate NoCarriageReturns(occurrences: seq<Occurrence>) {
    forall k :: 0 <= k < |occurrences| && occurrences[k].Polls? && occurrences[k].r.Rendered? ==> CR !in occurrences[k].r.body
  }

  ghost predicate AllClean(frames: seq<Frame>) { forall i :: 0 <= i < |frames| ==> Clean(frames[i]) }

  lemma TurnIsClean(hash: string -> int, l: Loop, o: Occurrence)
    requires AllClean(l.frames) && (o.Polls? && o.r.Rendered? ==> CR !in o.r.body)
    ensures AllClean(Turn(hash, l, o).frames)
  {
    hide Clean;
    OwnFramesClean();
    if o.Polls? && o.r.Rendered? {
      UpdateClean(o.r.body);
    }
  }

  lemma OwnFramesClean()
    ensures Clean(Deleted) && Clean(Heartbeat)
  {
  }

  lemma UpdateClean(body: string)
    requires CR !in body
    ensures Clean(Update(body))
  {
  }

  lemma {:induction false} TurnsAreClean(hash: string -> int, occurrences: seq<Occurrence>)
    requires NoCarriageReturns(occurrences)
    ensures AllClean(Turns(hash, occurrences).frames)
  {
    if occurrences != [] {
      hide Turn, AllClean;
      var n := |occurrences| - 1;
      TurnsAreClean(hash, occurrences[..n]);
      TurnIsClean(hash, Turns(hash, occurrences[..n]), occurrences[n]);
    } else {
      assert Idle.frames == [];
    }
  }

  /** The data of the messages of type "update". */
  function UpdateData(messages: seq<Message>): seq<string> {
    if messages == [] then []
    else
      var m := messages[|messages| - 1];
      UpdateData(messages[..|messages| - 1]) + if m.event == "update" then [m.data] else []
  }

  lemma {:induction false} MeaningsUpdate(frames: seq<Frame>)
    ensures UpdateData(Meanings(frames)) == Updates(frames)
  {
    if frames != [] {
      var n := |frames| - 1;
      MeaningsUpdate(frames[..n]);
      if frames[n].Event? {
        assert Meanings(frames)[..|Meanings(frames)| - 1] == Meanings(frames[..n]);
      } else {
        assert Meanings(frames) == Meanings(frames[..n]);
      }
    }
  }

  /** End to end, for renders without CR: the updates a client decodes from what was written are the changes of the renders. */
  lemma ClientSeesChanges(hash: string -> int, occurrences: seq<Occurrence>)
    requires NoCarriageReturns(occurrences)
    ensures UpdateData(Decode(Written(Turns(hash, occurrences).frames))) == Changes(hash, Renders(hash, occurrences))
  {
    hide Decode, Written, Meanings, UpdateData, Updates, Changes, Renders, Turns, Clean;
    TurnsAreClean(hash, occurrences);
    RoundTrip(Turns(hash, occurrences).frames);
    MeaningsUpdate(Turns(hash, occurrences).frames);
    SendsChanges(hash, occurrences);
  }
}
