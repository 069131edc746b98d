/** Where the protocol's guarantees end: exact conditions. Witnesses has the runs that
    fall outside them. */
module Limits {
  import opened Wrappers
  import opened Frames
  import opened Stores
  import opened Replays
  import opened SceneModel
  import opened Clients
  import opened Histories
  import opened Subscribers
  import opened Protocol
  import opened Runs

  predicate Agrees(w: World, r: nat, s: nat)
    requires Shaped(w) && Serving(w, r, s)
  {
    Folded(w.clients[s].rx.shadow, Pending(w.pipes[s], w.clients[s])) == w.scenes[r].store
  }

  // ---------------------------------------------------------------- a full queue

  lemma {:induction false} SetEffect(w: World, r: nat, s: nat, entries: seq<Entry>)
    requires Shaped(w) && Serving(w, r, s) && entries != []
    ensures var w' := SetIn(w, r, entries);
      && Shaped(w') && Serving(w', r, s)
      && w'.scenes[r] == AfterSet(w.scenes[r], entries)
      && w'.pipes[s] == SendOrDrop(w.pipes[s], SnapshotOf(AfterSet(w.scenes[r], entries)))
      && w'.clients[s].rx == w.clients[s].rx && w'.clients[s].initial == w.clients[s].initial
      && w'.clients[s].resumed == w.clients[s].resumed
  {
  }

  lemma {:induction false} EmitEffect(w: World, r: nat, s: nat, entries: seq<Entry>, cause: Option<Cause>)
    requires Shaped(w) && Serving(w, r, s) && entries != []
    ensures var w' := EmitIn(w, r, entries, cause);
      && Shaped(w') && Serving(w', r, s)
      && w'.scenes[r] == AfterEmit(w.scenes[r], entries, cause)
      && w'.pipes[s] == SendEmit(w.scenes[r], entries, cause)(w.pipes[s])
      && w'.clients[s].rx == w.clients[s].rx && w'.clients[s].initial == w.clients[s].initial
      && w'.clients[s].resumed == w.clients[s].resumed
  {
  }

  /** With room in its queue a set brings any replica to the store, whatever it was before. */
  lemma {:induction false} SetRepairs(w: World, r: nat, s: nat, entries: seq<Entry>)
    requires Shaped(w) && Serving(w, r, s) && entries != [] && |w.pipes[s].queue| < 256
    ensures var w' := SetIn(w, r, entries);
      Shaped(w') && Serving(w', r, s) && Agrees(w', r, s)
  {
    SetEffect(w, r, s, entries);
    var snap := SnapshotOf(AfterSet(w.scenes[r], entries));
    EndAfterSend(w.pipes[s], w.clients[s], Frame(snap));
    FoldedSnoc(w.clients[s].rx.shadow, Pending(w.pipes[s], w.clients[s]), snap);
  }

  /** A set reaches an agreeing replica exactly when its queue has room, or when the set
      changes nothing. */
  lemma {:induction false} SetAgreementExact(w: World, r: nat, s: nat, entries: seq<Entry>)
    requires Shaped(w) && Serving(w, r, s) && Agrees(w, r, s) && entries != []
    ensures var w' := Next(w, SetLeaves(r, entries));
      && Shaped(w') && Serving(w', r, s)
      && (Agrees(w', r, s) <==> |w.pipes[s].queue| < 256 || w'.scenes[r].store == w.scenes[r].store)
  {
    SetEffect(w, r, s, entries);
    if !Full(w.pipes[s]) { SetRepairs(w, r, s, entries); }
  }

  /** So does an emission: the snapshot that a full queue falls back to is lost as well. */
  lemma {:induction false} EmitAgreementExact(w: World, r: nat, s: nat, entries: seq<Entry>, cause: Option<Cause>)
    requires Shaped(w) && Serving(w, r, s) && Agrees(w, r, s) && entries != []
    ensures var w' := Next(w, EmitLeaves(r, entries, cause));
      && Shaped(w') && Serving(w', r, s)
      && (Agrees(w', r, s) <==> |w.pipes[s].queue| < 256 || w'.scenes[r].store == w.scenes[r].store)
  {
    var w' := EmitIn(w, r, entries, cause);
    EmitEffect(w, r, s, entries, cause);
    if !Full(w.pipes[s]) {
      var delta := DeltaOf(Emission(w.scenes[r], entries, cause));
      EntriesOfWire(entries);
      EndAfterSend(w.pipes[s], w.clients[s], Frame(delta));
      FoldedSnoc(w.clients[s].rx.shadow, Pending(w.pipes[s], w.clients[s]), delta);
    }
  }

  /** A subscriber the no-false-alarms theorem speaks about. */
  predicate Followed(w: World, r: nat, s: nat)
    requires Shaped(w)
  {
    Serving(w, r, s) && w.pipes[s].live && !w.pipes[s].stale && !w.clients[s].resumed
  }

  /** What a set does to the checked client: it ends level and without an alarm either way, and
      with the scene's state exactly when its queue had room or the set changed nothing. */
  lemma {:induction false} CheckedSetExact(w: World, r: nat, s: nat, entries: seq<Entry>)
    requires Reachable(w) && Followed(w, r, s) && entries != []
    ensures var w' := Next(w, SetLeaves(r, entries));
      && Reachable(w') && Serving(w', r, s)
      && var e := End(w'.pipes[s], w'.clients[s]);
         && !e.gap && !e.dropped && e.tracker == w'.scenes[r].seqno
         && (e.state == w'.scenes[r].store <==>
               |w.pipes[s].queue| < 256 || w'.scenes[r].store == w.scenes[r].store)
  {
    NoFalseAlarms(w, r, s);
    SetEffect(w, r, s, entries);
    ReachableIsGood(w);
    assert Consistent(w.scenes[r], w.histories[r]);
    SetArrives(w.scenes[r], w.pipes[s], w.clients[s], entries);
    var w' := SetIn(w, r, entries);
    assert End(w'.pipes[s], w'.clients[s]) == End(w'.pipes[s], w.clients[s]);
    ReachableStep(w, SetLeaves(r, entries));
  }

  lemma {:induction false} SetArrives(sc: SceneState<nat>, p: Pipe, c: Client, entries: seq<Entry>)
    requires sc.seqno >= 1 && !End(p, c).gap && !End(p, c).dropped && End(p, c).tracker == sc.seqno
    ensures var e := End(PipeAfterSet(sc, entries, p), c);
      && !e.gap && !e.dropped && e.tracker == sc.seqno
      && e.state == if Full(p) then End(p, c).state else Apply(sc.store, entries)
  {
    var x := Frame(SnapshotOf(AfterSet(sc, entries)));
    if Full(p) {
      assert Pending(p.(stale := true), c) == Pending(p, c);
    } else {
      EndAfterSend(p, c, x);
    }
  }

  // -------------------------------------------------------------- resume and set

  /** A client that holds what the scene was at some point of a run comes back at any later
      point. It is sent a replay exactly when the ring reaches back to its seq. It then has the
      current state exactly when a snapshot was sent, or no path was left by a set with another
      value than the last replayed emission of it, or else the client's own state, gives it. */
  lemma {:induction false} ResumeAcrossSetsExact(w: World, steps: seq<Step>, w': World, r: nat)
    requires Reachable(w) && Leads(w, steps, w') && r < |w.scenes|
    ensures Reachable(w') && r < |w'.scenes| && w.histories[r] <= w'.histories[r]
    ensures
      var since, held, sc := w.scenes[r].seqno, w.scenes[r].store, w'.scenes[r];
      var opening := Open(sc, Some(since));
      var reaches := sc.replay == [] || since + 1 >= sc.replay[0].seqno;
      && (opening.Resumed? <==> reaches)
      && (Folded(held, InitialItems(opening)) == sc.store <==>
            !reaches || forall path :: !LeftDifferent(w'.histories[r], |w.histories[r]|, path))
  {
    ReachableIsGood(w);
    HistoryGrows(w, steps, w', r);
    ReachableTrans(w, steps, w');
    assert Consistent(w.scenes[r], w.histories[r]);
    assert Consistent(w'.scenes[r], w'.histories[r]);
    var h, n := w'.histories[r], |w.histories[r]|;
    assert h[..n] == w.histories[r];
    ResumeFolds(w'.scenes[r], h, n);
  }

  lemma {:induction false} ResumeFolds(sc: SceneState<nat>, h: History, n: nat)
    requires Consistent(sc, h) && n <= |h|
    ensures
      var since, held := SeqAfter(h[..n]), StateAfter(h[..n]);
      var opening := Open(sc, Some(since));
      var reaches := sc.replay == [] || since + 1 >= sc.replay[0].seqno;
      && (opening.Resumed? <==> reaches)
      && (Folded(held, InitialItems(opening)) == sc.store <==>
            !reaches || forall path :: !LeftDifferent(h, n, path))
  {
    LaterRecords(h, n);
    var opening := Open(sc, Some(SeqAfter(h[..n])));
    if opening.Fresh? {
      assert [Frame(opening.snapshot)][1..] == [];
    } else {
      ReplayIsTail(sc, h, n);
      ReplayExact(h, n);
    }
  }

  // ------------------------------------------------------------- seqs without frames

  /** A hole is harmful when an emission follows it. */
  ghost predicate HoleBeforeEmission(h: History, n: nat) {
    exists i, j :: n <= i < j < |h| && h[i].Skipped? && h[j].Emitted?
  }

  lemma {:induction false} LateGaps(h: History, n: nat, rx: Receiver)
    requires Numbered(h) && n <= |h| && !rx.gap && 1 <= rx.tracker < SeqAfter(h[..n])
    ensures Walk(rx, Deltas(Records(h[n..]))).gap <==> exists j :: n <= j < |h| && h[j].Emitted?
    decreases |h| - n
  {
    if n == |h| {
      assert h[n..] == [];
      assert Deltas(Records(h[n..])) == [];
    } else {
      RecordsHead(h, n);
      assert h[..n+1] == h[..n] + [h[n]];
      Snoc(h[..n], h[n]);
      if h[n].Emitted? {
        var r := h[n].record;
        WalkDeltas(rx, r, Records(h[n+1..]), {});
        WalkKeepsFlags(Receive(rx, Frame(DeltaOf(r))), Deltas(Records(h[n+1..])));
      } else {
        assert [] + Records(h[n+1..]) == Records(h[n+1..]);
        LateGaps(h, n + 1, rx);
      }
    }
  }

  /** A tracker level with the scene after n events is told of a gap by the later emissions
      exactly when one of them comes after a seq spent without a frame. */
  lemma {:induction false} HolesGap(h: History, n: nat, rx: Receiver)
    requires Numbered(h) && n <= |h| && !rx.gap && rx.tracker == SeqAfter(h[..n])
    ensures Walk(rx, Deltas(Records(h[n..]))).gap <==> HoleBeforeEmission(h, n)
    decreases |h| - n
  {
    if n == |h| {
      assert h[n..] == [];
      assert Deltas(Records(h[n..])) == [];
    } else {
      RecordsHead(h, n);
      assert h[..n+1] == h[..n] + [h[n]];
      Snoc(h[..n], h[n]);
      if h[n].Emitted? {
        var r := h[n].record;
        WalkDeltas(rx, r, Records(h[n+1..]), {});
        HolesGap(h, n + 1, Receive(rx, Frame(DeltaOf(r))));
      } else {
        assert [] + Records(h[n+1..]) == Records(h[n+1..]);
        if h[n].Skipped? { LateGaps(h, n + 1, rx); } else { HolesGap(h, n + 1, rx); }
      }
      HoleStep(h, n);
    }
  }

  lemma {:induction false} HoleStep(h: History, n: nat)
    requires n < |h|
    ensures HoleBeforeEmission(h, n) <==>
      HoleBeforeEmission(h, n + 1) || (h[n].Skipped? && exists j :: n + 1 <= j < |h| && h[j].Emitted?)
  {
  }

  /** Some record is not numbered on from the seq. */
  ghost predicate SkipsSeqs(records: seq<ReplayRecord>, since: int) {
    exists i :: 0 <= i < |records| && records[i].seqno != since + 1 + i
  }

  lemma {:induction false} SkipsSeqsStep(r: ReplayRecord, rest: seq<ReplayRecord>, since: int)
    ensures SkipsSeqs([r] + rest, since) <==> r.seqno != since + 1 || SkipsSeqs(rest, since + 1)
  {
    var records := [r] + rest;
    if SkipsSeqs(rest, since + 1) {
      var i :| 0 <= i < |rest| && rest[i].seqno != since + 1 + 1 + i;
      assert records[i+1].seqno != since + 1 + (i + 1);
    }
    if r.seqno != since + 1 { assert records[0].seqno != since + 1 + 0; }
    if SkipsSeqs(records, since) {
      var i :| 0 <= i < |records| && records[i].seqno != since + 1 + i;
      assert i > 0 ==> rest[i-1].seqno != since + 1 + 1 + (i - 1);
    }
  }

  lemma {:induction false} LaterDelta(rx: Receiver, r: ReplayRecord)
    requires !rx.gap && 1 <= rx.tracker < r.seqno
    ensures var rx' := Receive(rx, Frame(DeltaOf(r)));
      if r.seqno == rx.tracker + 1 then !rx'.gap && rx'.tracker == r.seqno else rx'.gap
  {
  }

  lemma {:induction false} RisingTail(r: ReplayRecord, rest: seq<ReplayRecord>)
    requires Increasing([r] + rest)
    ensures Increasing(rest) && forall x :: x in rest ==> x.seqno > r.seqno
  {
    var all := [r] + rest;
    forall i | 0 <= i < |rest| ensures rest[i].seqno > r.seqno { assert all[i+1] == rest[i] && all[0] == r; }
    forall i, j | 0 <= i < j < |rest| ensures rest[i].seqno < rest[j].seqno {
      assert all[i+1] == rest[i] && all[j+1] == rest[j];
    }
  }

  /** Deltas with rising seqs above the tracker meet a gap unless they are numbered on from it. */
  lemma {:induction false} RisingGaps(records: seq<ReplayRecord>, rx: Receiver)
    requires !rx.gap && rx.tracker >= 1 && Increasing(records)
    requires forall r :: r in records ==> r.seqno > rx.tracker
    ensures Walk(rx, Deltas(records)).gap <==> SkipsSeqs(records, rx.tracker)
    decreases |records|
  {
    if records == [] {
      assert Deltas(records) == [];
    } else {
      var r, rest := records[0], records[1..];
      var rx' := Receive(rx, Frame(DeltaOf(r)));
      assert records == [r] + rest;
      assert r in records;
      WalkDeltas(rx, r, rest, {});
      SkipsSeqsStep(r, rest, rx.tracker);
      LaterDelta(rx, r);
      if rx'.gap {
        WalkKeepsFlags(rx', Deltas(rest));
      } else {
        RisingTail(r, rest);
        RisingGaps(rest, rx');
      }
    }
  }

  /** A client that resumes with its tracker at `since` is told of a gap exactly when the
      replayed emissions are not numbered on from it. That is so exactly when some seq after
      `since` was spent on a switch and a later one on an emission. */
  lemma {:induction false} ResumeGapsExactly(w: World, r: nat, since: int, records: seq<ReplayRecord>, rx: Receiver)
    returns (n: nat)
    requires Reachable(w) && r < |w.scenes| && Open(w.scenes[r], Some(since)) == Resumed(records)
    requires !rx.gap && rx.tracker == since
    ensures Walk(rx, Deltas(records)).gap <==>
      exists i :: 0 <= i < |records| && records[i].seqno != since + 1 + i
    ensures n <= |w.histories[r]| && SeqAfter(w.histories[r][..n]) == since
    ensures Walk(rx, Deltas(records)).gap <==> HoleBeforeEmission(w.histories[r], n)
  {
    ReachableIsGood(w);
    var sc, h := w.scenes[r], w.histories[r];
    assert Consistent(sc, h);
    RecordsBounded(h);
    AfterOrdered(sc.replay, since);
    AfterMembers(sc.replay, since);
    RisingGaps(records, rx);
    n := StageAt(h, since);
    ReplayIsTail(sc, h, n);
    HolesGap(h, n, rx);
  }

  lemma {:induction false} LeftBehind(w: World, id: string, s: nat)
    requires Shaped(w) && Owned(w) && id in w.registry && w.active != id && w.active in w.registry
    requires Serving(w, w.registry[w.active], s) && !w.pipes[s].live
    ensures var r := w.registry[w.active];
      var w' := SetActiveTo(w, id);
      && Shaped(w') && Serving(w', r, s) && w'.pipes[s] == w.pipes[s]
      && w'.scenes[r] == MovedOut(w.scenes[r], LiveMembers(w.scenes[r], w.pipes))
      && End(w'.pipes[s], w'.clients[s]) == End(w.pipes[s], w.clients[s])
  {
    var wa, r, t := w.(active := id), w.registry[w.active], w.registry[id];
    SetActiveOwned(w, id);
    MigrateBehind(wa, r, t, s);
    MigrateAt(wa, r, t, r);
    assert s !in LiveMembers(w.scenes[r], w.pipes);
    assert s in MovedOut(w.scenes[r], LiveMembers(w.scenes[r], w.pipes)).members;
  }

  /** Through a switch away from its scene a test-mode subscriber never dropped on is in step
      exactly when it was before and nobody was moved away. */
  lemma {:induction false} SwitchStrandsTestClients(w: World, id: string, s: nat)
    requires Reachable(w) && id in w.registry && w.active != id
    requires ActiveScene(w).Some? && Serving(w, ActiveScene(w).value, s) && !w.pipes[s].live
    requires !w.pipes[s].stale
    ensures var r := ActiveScene(w).value;
      var w' := Next(w, SetActive(id));
      && Shaped(w') && Serving(w', r, s) && w'.pipes[s] == w.pipes[s]
      && (InStep(w'.scenes[r], w'.pipes[s], w'.clients[s]) <==>
            InStep(w.scenes[r], w.pipes[s], w.clients[s]) && LiveMembers(w.scenes[r], w.pipes) == {})
  {
    ReachableIsGood(w);
    var r := ActiveScene(w).value;
    assert Served(w.scenes[r], w.histories[r], w.pipes[s], w.clients[s]);
    LeftBehind(w, id, s);
  }

  /** Once out of step, the next emission a client is sent is a gap. */
  lemma {:induction false} BehindThenGap(w: World, r: nat, s: nat, entries: seq<Entry>, cause: Option<Cause>)
    requires Shaped(w) && Serving(w, r, s) && |w.pipes[s].queue| < 256 && entries != []
    requires var e := End(w.pipes[s], w.clients[s]); !e.gap && 0 < e.tracker < w.scenes[r].seqno
    ensures var w' := Next(w, EmitLeaves(r, entries, cause));
      Shaped(w') && Serving(w', r, s) && End(w'.pipes[s], w'.clients[s]).gap
  {
    EmitEffect(w, r, s, entries, cause);
    BehindThenGapLocally(w.scenes[r], w.pipes[s], w.clients[s], entries, cause);
  }

  lemma {:induction false} BehindThenGapLocally(sc: SceneState<nat>, p: Pipe, c: Client, entries: seq<Entry>,
                                                cause: Option<Cause>)
    requires !Full(p) && !End(p, c).gap && 0 < End(p, c).tracker < sc.seqno
    ensures End(SendEmit(sc, entries, cause)(p), c).gap
  {
    EndAfterSend(p, c, Frame(DeltaOf(Emission(sc, entries, cause))));
  }

  // -------------------------------------------------------------- leaving a scene

  predicate InNoScene(w: World, s: nat) {
    forall q :: 0 <= q < |w.scenes| ==> s !in w.scenes[q].members
  }

  /** Closed, and still sent every frame of scene t. */
  predicate ClosedMember(w: World, t: nat, s: nat) {
    Shaped(w) && t < |w.scenes| && s in w.scenes[t].members && w.pipes[s].closed
  }

  lemma {:induction false} CloseAt(w: World, which: set<nat>, s: nat, q: nat)
    requires Shaped(w) && s in w.pipes && q < |w.scenes|
    ensures var w' := CloseIn(w, which, s);
      && Shaped(w') && |w'.scenes| == |w.scenes| && w'.registry == w.registry
      && (s in w'.scenes[q].members <==> s in w.scenes[q].members && q !in which)
      && (which != {} ==> w'.pipes[s].closed)
  {
    CloseShaped(w, which, s);
  }

  lemma {:induction false} CloseExact(w: World, which: set<nat>, s: nat)
    requires Shaped(w) && s in w.pipes
    ensures InNoScene(CloseIn(w, which, s), s) <==>
      forall q :: 0 <= q < |w.scenes| && s in w.scenes[q].members ==> q in which
  {
    var w' := CloseIn(w, which, s);
    forall q | 0 <= q < |w.scenes|
      ensures |w'.scenes| == |w.scenes|
      ensures s in w'.scenes[q].members <==> s in w.scenes[q].members && q !in which
    {
      CloseAt(w, which, s, q);
    }
  }

  /** Detaching, as a finished session does, takes a subscriber out of every scene exactly when
      the scene that has it is still registered. */
  lemma {:induction false} DetachExact(w: World, s: nat)
    requires Shaped(w) && s in w.pipes
    ensures InNoScene(Next(w, Detach(s)), s) <==>
      forall q :: 0 <= q < |w.scenes| && s in w.scenes[q].members ==> Registered(w, q)
  {
    CloseExact(w, w.registry.Values, s);
  }

  /** No scene but r has the subscriber. */
  predicate OnlyIn(w: World, r: nat, s: nat) {
    forall q :: 0 <= q < |w.scenes| && s in w.scenes[q].members ==> q == r
  }

  /** Unsubscribing from scene r does so exactly when no other scene has it. */
  lemma {:induction false} UnsubscribeExact(w: World, r: nat, s: nat)
    requires Shaped(w) && r < |w.scenes| && s in w.pipes
    ensures InNoScene(Unsubscribed(w, r, s), s) <==> OnlyIn(w, r, s)
  {
    var which: set<nat> := {r};
    CloseExact(w, which, s);
    assert forall q :: q in which <==> q == r;
  }

  /** In a run a subscriber has at most one scene, so leaving r or detaching is complete exactly
      when that scene is r, or is registered. */
  lemma {:induction false} LeavingExact(w: World, r: nat, s: nat, q: nat)
    requires Reachable(w) && r < |w.scenes| && q < |w.scenes| && s in w.scenes[q].members
    ensures Enabled(w, Step.Unsubscribe(r, s)) && Enabled(w, Detach(s))
    ensures InNoScene(Next(w, Step.Unsubscribe(r, s)), s) <==> q == r
    ensures InNoScene(Next(w, Detach(s)), s) <==> Registered(w, q)
  {
    ReachableIsGood(w);
    UnsubscribeExact(w, r, s);
    DetachExact(w, s);
    forall u | 0 <= u < |w.scenes| && s in w.scenes[u].members ensures u == q { Ownership(w, u, q, s); }
  }

  /** A session that began with scene r and was moved to t by a switch: unsubscribing from r
      leaves it a closed member of t, detaching leaves it nowhere. */
  lemma {:induction false} LeaveAfterSwitch(w: World, id: string, s: nat)
    requires Reachable(w) && id in w.registry && w.active != id && ActiveScene(w).Some?
    requires s in w.scenes[ActiveScene(w).value].members && w.pipes[s].live
    ensures var r, t, w' := ActiveScene(w).value, w.registry[id], Next(w, SetActive(id));
      && Reachable(w') && Enabled(w', Step.Unsubscribe(r, s)) && Enabled(w', Detach(s))
      && ClosedMember(Next(w', Step.Unsubscribe(r, s)), t, s)
      && InNoScene(Next(w', Detach(s)), s)
  {
    var r, t := ActiveScene(w).value, w.registry[id];
    ReachableIsGood(w);
    ReachableStep(w, SetActive(id));
    LiveFollow(w, id, s);
    SetActiveOwned(w, id);
    var w' := SetActiveTo(w, id);
    CloseAt(w', {r}, s, t);
    forall q | 0 <= q < |w'.scenes| && s in w'.scenes[q].members ensures Registered(w', q) {
      Ownership(w', q, t, s);
      assert w'.registry[id] == t;
    }
    DetachExact(w', s);
  }

  // ------------------------------------------------------- what the documentation says

  /** A resume is answered with neither a snapshot nor a record exactly when `since` is a seq of
      the scene and no emission was made after it. */
  lemma {:induction false} NothingSentExact(w: World, r: nat, since: int)
    requires Reachable(w) && r < |w.scenes|
    ensures var sc := w.scenes[r];
      Open(sc, Some(since)) == Resumed([]) <==>
        1 <= since <= sc.seqno && (sc.replay == [] || sc.replay[|sc.replay|-1].seqno <= since)
  {
    ReachableIsGood(w);
    var sc, h := w.scenes[r], w.histories[r];
    assert Consistent(sc, h);
    RecordsBounded(h);
    if sc.replay != [] { RingSpent(sc.replay, since); }
  }

  lemma {:induction false} RingSpent(ring: seq<ReplayRecord>, since: int)
    requires ring != [] && Increasing(ring)
    ensures Since(ring, since) == ReplaySlice([], true) <==> ring[|ring|-1].seqno <= since
  {
    var last := ring[|ring|-1];
    if last.seqno <= since {
      forall x | x in ring ensures x.seqno <= since {
        var i :| 0 <= i < |ring| && ring[i] == x;
      }
      AfterNone(ring, since);
      assert ring[0] in ring;
    } else {
      AfterKeeps(ring, since, last);
    }
  }

  /** A scene is at seq 1 exactly while nothing but sets has happened to it. */
  lemma {:induction false} AtSeqOne(h: History)
    ensures SeqAfter(h) == 1 <==> forall e :: e in h ==> e.Replaced?
  {
    if h != [] {
      var init, e := h[..|h|-1], h[|h|-1];
      AtSeqOne(init);
      assert h == init + [e];
      assert forall x :: x in h <==> x in init || x == e;
    }
  }

  /** The snapshot a moved subscriber is sent last carries the next scene's seq: 1 exactly when
      that scene has neither emitted nor been switched away from while it served someone live. */
  lemma {:induction false} SwitchSnapshotExact(w: World, id: string, s: nat)
    requires Reachable(w) && id in w.registry && w.active != id && ActiveScene(w).Some?
    requires s in w.scenes[ActiveScene(w).value].members && w.pipes[s].live && |w.pipes[s].queue| < 255
    ensures var t, w' := w.registry[id], Next(w, SetActive(id));
      && s in w'.pipes && |w'.pipes[s].queue| == |w.pipes[s].queue| + 2
      && var last := w'.pipes[s].queue[|w.pipes[s].queue| + 1];
         && last == Frame(SnapshotOf(w.scenes[t]))
         && (last.frame.seqno == 1 <==> forall e :: e in w.histories[t] ==> e.Replaced?)
  {
    ReachableIsGood(w);
    var r, t := ActiveScene(w).value, w.registry[id];
    SwitchedPipe(w, id, s);
    SwitchQueues(w.scenes[r], w.scenes[t], w.pipes[s]);
    assert Consistent(w.scenes[t], w.histories[t]);
    AtSeqOne(w.histories[t]);
  }

  lemma {:induction false} SwitchedPipe(w: World, id: string, s: nat)
    requires Shaped(w) && Owned(w) && id in w.registry && w.active != id && ActiveScene(w).Some?
    requires s in w.scenes[ActiveScene(w).value].members && w.pipes[s].live
    ensures var w' := SetActiveTo(w, id);
      && s in w'.pipes
      && w'.pipes[s] == Switched(w.scenes[ActiveScene(w).value], w.scenes[w.registry[id]], w.pipes[s])
  {
    SetActiveMigrates(w, id);
    var r, t := ActiveScene(w).value, w.registry[id];
    assert s in LiveMembers(w.scenes[r], w.pipes);
    MigratePipe(w.(active := id), r, t, s);
  }

  lemma {:induction false} SwitchQueues(prev: SceneState<nat>, next: SceneState<nat>, p: Pipe)
    requires |p.queue| < 255
    ensures Switched(prev, next, p).queue == p.queue + [Frame(SceneChangedTo(prev, next)), Frame(SnapshotOf(next))]
  {
  }
}
