/** Where the tracker of a client stands that is sent every frame of its scene: sets spend no
    seq but send a snapshot, moving subscribers away spends a seq but sends those who stay nothing. */
module Standings {
  import opened Frames
  import opened JsonValues
  import opened Replays
  import opened SceneModel
  import opened Clients
  import opened Histories

  /** Level with the scene, behind it and not yet aware of it, or told of a gap. */
  datatype Standing = Even | Late | Alarmed

  function AfterEvent(f: Standing, e: Event): Standing {
    if f.Even? && e.Skipped? then Late
    else if f.Late? && e.Replaced? then Even
    else if f.Late? && e.Emitted? then Alarmed
    else f
  }

  /** The standing a client that had `start` after `joined` events has now. */
  function Fate(start: Standing, h: History, joined: nat): Standing {
    if |h| <= joined then start else AfterEvent(Fate(start, h[..|h|-1], joined), h[|h|-1])
  }

  /** What a replay from seq `since` makes of a tracker at `since`: it does not mention the sets. */
  function ReplayFate(h: History, since: int): Standing {
    if h == [] || SeqAfter(h) <= since then Even
    else if h[|h|-1].Replaced? then ReplayFate(h[..|h|-1], since)
    else AfterEvent(ReplayFate(h[..|h|-1], since), h[|h|-1])
  }

  /** The receiver has this standing with a scene at seq q. */
  predicate Stands(f: Standing, q: nat, e: Receiver) {
    match f
    case Even => !e.gap && !e.dropped && e.tracker == q
    case Late => !e.gap && !e.dropped && 1 <= e.tracker < q
    case Alarmed => e.gap
  }

  lemma {:induction false} FateSnoc(start: Standing, h: History, e: Event, joined: nat)
    requires joined <= |h|
    ensures Fate(start, h + [e], joined) == AfterEvent(Fate(start, h, joined), e)
  {
    assert (h + [e])[..|h|] == h;
  }

  lemma {:induction false} EmissionStands(f: Standing, q: nat, e: Receiver, r: ReplayRecord)
    requires Stands(f, q, e) && q >= 1 && r.seqno == q + 1
    ensures Stands(AfterEvent(f, Emitted(r)), q + 1, Receive(e, Frame(DeltaOf(r))))
  {
  }

  lemma {:induction false} SkipStands(f: Standing, q: nat, e: Receiver)
    requires Stands(f, q, e) && q >= 1
    ensures Stands(AfterEvent(f, Skipped), q + 1, e)
  {
  }

  lemma {:induction false} SnapshotStands(f: Standing, q: nat, e: Receiver, frame: ServerFrame, store: State)
    requires Stands(f, q, e) && q >= 1 && frame.Snapshot? && frame.seqno == q
    ensures Stands(AfterEvent(f, Replaced(store)), q, Receive(e, Frame(frame)))
  {
  }

  /** Of those moved away, exactly the ones that were level take the switch without an alarm. */
  function AfterSwitch(f: Standing): Standing {
    if f.Even? then Even else Alarmed
  }

  lemma {:induction false} SwitchStands<S>(f: Standing, prev: SceneState<S>, next: SceneState<S>, e: Receiver)
    requires Stands(f, prev.seqno, e) && prev.seqno >= 1 && next.seqno >= 1
    ensures Stands(AfterSwitch(f), next.seqno,
                   Receive(Receive(e, Frame(SceneChangedTo(prev, next))), Frame(SnapshotOf(next))))
  {
  }

  lemma {:induction false} SeqGrows(h: History, n: nat)
    requires n <= |h|
    ensures SeqAfter(h[..n]) <= SeqAfter(h)
    decreases |h| - n
  {
    if n == |h| {
      assert h[..n] == h;
    } else {
      assert h[..|h|-1][..n] == h[..n];
      SeqGrows(h[..|h|-1], n);
    }
  }

  /** Nothing after `since` but sets: the replay is empty. */
  lemma {:induction false} NoRecordsAtSince(h: History, n: nat)
    requires n <= |h| && SeqAfter(h) == SeqAfter(h[..n])
    ensures Records(h[n..]) == []
    decreases |h| - n
  {
    if n == |h| {
      assert h[n..] == [];
    } else {
      var init, e := h[..|h|-1], h[|h|-1];
      assert init[..n] == h[..n];
      SeqGrows(init, n);
      NoRecordsAtSince(init, n);
      assert h[n..] == init[n..] + [e];
      Snoc(init[n..], e);
    }
  }

  /** The replayed emissions give a tracker at `since` the standing ReplayFate says. */
  lemma {:induction false} ReplayStands(h: History, n: nat, rx: Receiver)
    requires Numbered(h) && n <= |h|
    requires !rx.gap && !rx.dropped && rx.tracker == SeqAfter(h[..n])
    ensures Stands(ReplayFate(h, SeqAfter(h[..n])), SeqAfter(h), Walk(rx, Deltas(Records(h[n..]))))
    decreases |h| - n
  {
    var since := SeqAfter(h[..n]);
    if n == |h| {
      assert h[..n] == h && h[n..] == [];
      assert Deltas([]) == [];
    } else if SeqAfter(h) == since {
      NoRecordsAtSince(h, n);
      assert Deltas([]) == [];
    } else {
      var init, e := h[..|h|-1], h[|h|-1];
      NumberedPrefix(h, |h| - 1);
      assert init[..n] == h[..n];
      ReplayStands(init, n, rx);
      assert h[n..] == init[n..] + [e];
      Snoc(init[n..], e);
      SeqGrows(h, n);
      assert SeqAfter(h) > since;
      assert n < |h|;
      assert Stands(ReplayFate(init, since), SeqAfter(init), Walk(rx, Deltas(Records(init[n..]))));
      assert Records(h[n..]) == Records(init[n..]) + if e.Emitted? then [e.record] else [];
      ReplayStandsStep(h, n, rx, since);
    }
  }

  lemma {:induction false} ReplayStandsStep(h: History, n: nat, rx: Receiver, since: int)
    requires Numbered(h) && n < |h| && SeqAfter(h) > since
    requires var init, e := h[..|h|-1], h[|h|-1];
      && Stands(ReplayFate(init, since), SeqAfter(init), Walk(rx, Deltas(Records(init[n..]))))
      && Records(h[n..]) == Records(init[n..]) + if e.Emitted? then [e.record] else []
    ensures Stands(ReplayFate(h, since), SeqAfter(h), Walk(rx, Deltas(Records(h[n..]))))
  {
    var init, e := h[..|h|-1], h[|h|-1];
    var records := Records(init[n..]);
    var end := Walk(rx, Deltas(records));
    match e
    case Emitted(r) =>
      assert h[..|h|] == h;
      assert Deltas(records + [r]) == Deltas(records) + [Frame(DeltaOf(r))];
      WalkSnoc(rx, Deltas(records), Frame(DeltaOf(r)));
      EmissionStands(ReplayFate(init, since), SeqAfter(init), end, r);
    case Skipped =>
      assert records + [] == records;
      SkipStands(ReplayFate(init, since), SeqAfter(init), end);
    case Replaced(_) =>
      assert records + [] == records;
  }

  /** Only a replay that steps over no hole leaves the tracker level. */
  lemma {:induction false} ReplayFateEven(h: History, n: nat)
    requires n <= |h|
    ensures ReplayFate(h, SeqAfter(h[..n])).Even? <==> Skipped !in h[n..]
    decreases |h| - n
  {
    if n == |h| {
      assert h[..n] == h;
    } else {
      var init, e := h[..|h|-1], h[|h|-1];
      assert init[..n] == h[..n];
      assert h[n..] == init[n..] + [e];
      ReplayFateEven(init, n);
      SeqGrows(init, n);
      if SeqAfter(h) == SeqAfter(h[..n]) { assert e.Replaced?; }
    }
  }

  // ------------------------------------------------------------- when that comes about

  /** Before event j, a seq had been spent on a switch since event n, and no set followed it. */
  ghost predicate HoleOpen(h: History, n: nat, j: nat)
    requires j <= |h|
  {
    exists i :: n <= i < j && h[i].Skipped? && forall k :: i < k < j ==> !h[k].Replaced?
  }

  /** An emission met an open hole. */
  ghost predicate HoleHit(h: History, n: nat) {
    exists j :: n <= j < |h| && h[j].Emitted? && HoleOpen(h, n, j)
  }

  lemma {:induction false} HoleOpenSnoc(h: History, e: Event, n: nat)
    requires n <= |h|
    ensures HoleOpen(h + [e], n, |h| + 1) <==> e.Skipped? || (HoleOpen(h, n, |h|) && !e.Replaced?)
  {
    var h' := h + [e];
    if HoleOpen(h', n, |h'|) && !e.Skipped? {
      var i :| n <= i < |h'| && h'[i].Skipped? && forall k :: i < k < |h'| ==> !h'[k].Replaced?;
      assert h[i].Skipped? && !h'[|h|].Replaced?;
      assert forall k :: i < k < |h| ==> h[k] == h'[k];
    }
    if e.Skipped? { assert h'[|h|].Skipped?; }
    if HoleOpen(h, n, |h|) && !e.Replaced? {
      var i :| n <= i < |h| && h[i].Skipped? && forall k :: i < k < |h| ==> !h[k].Replaced?;
      assert h'[i].Skipped?;
      assert forall k :: i < k < |h'| ==> !h'[k].Replaced?;
    }
  }

  lemma {:induction false} HoleOpenPrefix(h: History, e: Event, n: nat, j: nat)
    requires j <= |h|
    ensures HoleOpen(h + [e], n, j) <==> HoleOpen(h, n, j)
  {
    var h' := h + [e];
    assert forall k :: 0 <= k < j ==> h'[k] == h[k];
    if HoleOpen(h', n, j) {
      var i :| n <= i < j && h'[i].Skipped? && forall k :: i < k < j ==> !h'[k].Replaced?;
      assert h[i].Skipped?;
    }
    if HoleOpen(h, n, j) {
      var i :| n <= i < j && h[i].Skipped? && forall k :: i < k < j ==> !h[k].Replaced?;
      assert h'[i].Skipped?;
    }
  }

  lemma {:induction false} HoleHitSnoc(h: History, e: Event, n: nat)
    requires n <= |h|
    ensures HoleHit(h + [e], n) <==> HoleHit(h, n) || (e.Emitted? && HoleOpen(h, n, |h|))
  {
    var h' := h + [e];
    forall j | 0 <= j <= |h| ensures HoleOpen(h', n, j) <==> HoleOpen(h, n, j) { HoleOpenPrefix(h, e, n, j); }
    if HoleHit(h', n) {
      var j :| n <= j < |h'| && h'[j].Emitted? && HoleOpen(h', n, j);
      assert j < |h| ==> h[j].Emitted? && HoleOpen(h, n, j);
    }
    if HoleHit(h, n) {
      var j :| n <= j < |h| && h[j].Emitted? && HoleOpen(h, n, j);
      assert h'[j].Emitted? && HoleOpen(h', n, j);
    }
    if e.Emitted? && HoleOpen(h, n, |h|) { assert h'[|h|].Emitted? && HoleOpen(h', n, |h|); }
  }

  /** A client that began level is alarmed exactly when an emission met an open hole, and else
      late exactly when a hole is open now. */
  lemma {:induction false} FateExact(h: History, n: nat)
    requires n <= |h|
    ensures Fate(Even, h, n).Alarmed? <==> HoleHit(h, n)
    ensures Fate(Even, h, n).Late? <==> !HoleHit(h, n) && HoleOpen(h, n, |h|)
    decreases |h| - n
  {
    if n < |h| {
      var init, e := h[..|h|-1], h[|h|-1];
      assert init + [e] == h;
      FateExact(init, n);
      HoleOpenSnoc(init, e, n);
      HoleHitSnoc(init, e, n);
    }
  }
}
