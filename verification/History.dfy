/** Everything that ever happened to a scene, and why the bounded ring can stand in for it
    when a client resumes. */
module Histories {
  import opened Wrappers
  import opened JsonValues
  import opened Frames
  import opened Stores
  import opened Replays
  import opened SceneModel
  import opened Clients

  /** An emission, a seq spent on moving subscribers away, or a replacement of the state by a
      set or a reset, which spends no seq. */
  datatype Event = Emitted(record: ReplayRecord) | Skipped | Replaced(store: State)

  /** The events of a scene since its creation, oldest first. */
  type History = seq<Event>

  function SeqAfter(h: History): (q: nat)
    ensures q >= 1
  {
    if h == [] then 1 else SeqAfter(h[..|h|-1]) + if h[|h|-1].Replaced? then 0 else 1
  }

  function Advance(state: State, e: Event): State {
    match e
    case Emitted(record) => ApplyPatches(state, record.patches)
    case Skipped => state
    case Replaced(store) => store
  }

  function StateAfter(h: History): State {
    if h == [] then map[] else Advance(StateAfter(h[..|h|-1]), h[|h|-1])
  }

  /** The records ever pushed to the ring. */
  function Records(h: History): seq<ReplayRecord> {
    if h == [] then [] else Records(h[..|h|-1]) + if h[|h|-1].Emitted? then [h[|h|-1].record] else []
  }

  /** Every record carries the seq the scene reached with it. */
  ghost predicate Numbered(h: History) {
    forall i :: 0 <= i < |h| && h[i].Emitted? ==> h[i].record.seqno == SeqAfter(h[..i+1])
  }

  ghost predicate Consistent<S>(sc: SceneState<S>, h: History) {
    && sc.seqno == SeqAfter(h)
    && sc.store == StateAfter(h)
    && sc.replay == LastOf(Records(h), DEFAULT_REPLAY_BUFFER_SIZE)
    && Numbered(h)
  }

  lemma {:induction false} Snoc(h: History, e: Event)
    ensures SeqAfter(h + [e]) == SeqAfter(h) + if e.Replaced? then 0 else 1
    ensures StateAfter(h + [e]) == Advance(StateAfter(h), e)
    ensures Records(h + [e]) == Records(h) + if e.Emitted? then [e.record] else []
  {
    assert (h + [e])[..|h|] == h;
  }

  lemma {:induction false} NumberedSnoc(h: History, e: Event)
    requires Numbered(h) && (e.Emitted? ==> e.record.seqno == SeqAfter(h) + 1)
    ensures Numbered(h + [e])
  {
    Snoc(h, e);
    var h' := h + [e];
    assert h'[..|h|+1] == h';
    forall i | 0 <= i < |h'| && h'[i].Emitted? ensures h'[i].record.seqno == SeqAfter(h'[..i+1]) {
      if i < |h| { assert h'[..i+1] == h[..i+1]; }
    }
  }

  lemma {:induction false} NumberedPrefix(h: History, i: nat)
    requires Numbered(h) && i <= |h|
    ensures Numbered(h[..i])
  {
    forall j | 0 <= j < i && h[..i][j].Emitted? ensures h[..i][j].record.seqno == SeqAfter(h[..i][..j+1]) {
      assert h[..i][..j+1] == h[..j+1];
    }
  }

  lemma {:induction false} EmitConsistent<S>(sc: SceneState<S>, h: History, entries: seq<Entry>, cause: Option<Cause>)
    requires Consistent(sc, h)
    ensures Consistent(AfterEmit(sc, entries, cause), h + [Emitted(Emission(sc, entries, cause))])
  {
    var r := Emission(sc, entries, cause);
    Snoc(h, Emitted(r));
    NumberedSnoc(h, Emitted(r));
    EntriesOfWire(entries);
    RingPushKeepsLast(Records(h), DEFAULT_REPLAY_BUFFER_SIZE, r);
  }

  lemma {:induction false} SetConsistent<S>(sc: SceneState<S>, h: History, store: State, members: set<S>)
    requires Consistent(sc, h)
    ensures Consistent(sc.(store := store, members := members), h + [Replaced(store)])
  {
    Snoc(h, Replaced(store));
    NumberedSnoc(h, Replaced(store));
    assert Records(h) + [] == Records(h);
  }

  lemma {:induction false} BumpConsistent<S>(sc: SceneState<S>, h: History, members: set<S>)
    requires Consistent(sc, h)
    ensures Consistent(sc.(seqno := sc.seqno + 1, members := members), h + [Skipped])
  {
    Snoc(h, Skipped);
    NumberedSnoc(h, Skipped);
    assert Records(h) + [] == Records(h);
  }

  lemma {:induction false} MembersIrrelevant<S>(sc: SceneState<S>, h: History, members: set<S>)
    requires Consistent(sc, h)
    ensures Consistent(sc.(members := members), h)
  {
  }

  // ------------------------------------------------------------------- the records

  lemma {:induction false} RecordsSplit(a: History, b: History)
    ensures Records(a + b) == Records(a) + Records(b)
    decreases |b|
  {
    if b == [] {
      assert a + b == a;
    } else {
      var init, e := b[..|b|-1], b[|b|-1];
      RecordsSplit(a, init);
      assert a + b == (a + init) + [e] && b == init + [e];
      Snoc(a + init, e);
      Snoc(init, e);
      var last := if e.Emitted? then [e.record] else [];
      assert (Records(a) + Records(init)) + last == Records(a) + (Records(init) + last);
    }
  }

  lemma {:induction false} RecordsBounded(h: History)
    requires Numbered(h)
    ensures Increasing(Records(h))
    ensures forall r :: r in Records(h) ==> 2 <= r.seqno <= SeqAfter(h)
  {
    if h != [] {
      var init, e := h[..|h|-1], h[|h|-1];
      NumberedPrefix(h, |h| - 1);
      RecordsBounded(init);
      assert h[..|h|] == h;
      assert forall i :: 0 <= i < |Records(init)| ==> Records(init)[i] in Records(init);
    }
  }

  lemma {:induction false} LaterRecords(h: History, i: nat)
    requires Numbered(h) && i <= |h|
    ensures SeqAfter(h[..i]) <= SeqAfter(h)
    ensures forall r :: r in Records(h[i..]) ==> r.seqno > SeqAfter(h[..i])
    decreases |h| - i
  {
    if i == |h| {
      assert h[..i] == h && h[i..] == [];
    } else {
      var init, e := h[..|h|-1], h[|h|-1];
      NumberedPrefix(h, |h| - 1);
      LaterRecords(init, i);
      assert init[..i] == h[..i];
      assert h[..|h|] == h;
      assert h[i..] == init[i..] + [e];
      Snoc(init[i..], e);
    }
  }

  /** When the ring covers a seq the scene has had, what it returns is exactly the emissions
      made after that moment. */
  lemma {:induction false} ReplayIsTail<S>(sc: SceneState<S>, h: History, i: nat)
    requires Consistent(sc, h) && i <= |h| && Since(sc.replay, SeqAfter(h[..i])).covered
    ensures Since(sc.replay, SeqAfter(h[..i])).records == Records(h[i..])
  {
    var since := SeqAfter(h[..i]);
    assert h == h[..i] + h[i..];
    NumberedPrefix(h, i);
    RecordsBounded(h);
    RecordsBounded(h[..i]);
    LaterRecords(h, i);
    LastOfIsComplete(Records(h), DEFAULT_REPLAY_BUFFER_SIZE, since);
    RecordsSplit(h[..i], h[i..]);
    AfterSplit(Records(h[..i]), Records(h[i..]), since);
    AfterNone(Records(h[..i]), since);
    AfterAll(Records(h[i..]), since);
  }

  /** Without a switch the records are numbered 2, 3, 4 and so on. */
  lemma {:induction false} ContiguousRecords(h: History)
    requires Numbered(h) && Skipped !in h
    ensures |Records(h)| == SeqAfter(h) - 1
    ensures forall i :: 0 <= i < |Records(h)| ==> Records(h)[i].seqno == i + 2
  {
    if h != [] {
      NumberedPrefix(h, |h| - 1);
      assert forall e :: e in h[..|h|-1] ==> e in h;
      ContiguousRecords(h[..|h|-1]);
      assert h[..|h|] == h;
      assert h[|h|-1] in h;
    }
  }

  /** Every seq up to the current one was the scene's at some point. */
  lemma {:induction false} StageAt(h: History, q: nat) returns (n: nat)
    requires 1 <= q <= SeqAfter(h)
    ensures n <= |h| && SeqAfter(h[..n]) == q
  {
    if SeqAfter(h) == q {
      n := |h|;
      assert h[..n] == h;
    } else {
      n := StageAt(h[..|h|-1], q);
      assert h[..|h|-1][..n] == h[..n];
    }
  }

  // ------------------------------------------------------- states since the last replacement

  /** The number of events up to and including the last replacement of the state. */
  function Mark(h: History): (k: nat)
    ensures k <= |h|
    ensures forall i :: k <= i < |h| ==> !h[i].Replaced?
  {
    if h == [] then 0 else if h[|h|-1].Replaced? then |h| else Mark(h[..|h|-1])
  }

  function Base(h: History): nat {
    SeqAfter(h[..Mark(h)])
  }

  predicate Covers(h: History, q: int) {
    Base(h) <= q <= SeqAfter(h)
  }

  /** After the last replacement every event spends one seq. */
  lemma {:induction false} SeqSinceMark(h: History, i: nat)
    requires Mark(h) <= i <= |h|
    ensures SeqAfter(h[..i]) == Base(h) + (i - Mark(h))
  {
    if i > Mark(h) {
      SeqSinceMark(h, i - 1);
      assert h[..i] == h[..i-1] + [h[i-1]];
      Snoc(h[..i-1], h[i-1]);
    }
  }

  /** The number of events after which the counter stood at q, the last replacement included. */
  function IndexAt(h: History, q: nat): (i: nat)
    requires Covers(h, q)
    ensures Mark(h) <= i <= |h| && SeqAfter(h[..i]) == q
  {
    SeqSinceMark(h, |h|);
    assert h[..|h|] == h;
    var i := Mark(h) + (q - Base(h));
    SeqSinceMark(h, i);
    i
  }

  /** The state of the scene when its counter stood at q, after any replacement at q. */
  function StateAt(h: History, q: nat): State
    requires Covers(h, q)
  {
    StateAfter(h[..IndexAt(h, q)])
  }

  /** Spending another seq does not change the states the history already had. */
  lemma {:induction false} StateAtExtends(h: History, e: Event, q: nat)
    requires Covers(h, q) && !e.Replaced?
    ensures Covers(h + [e], q) && StateAt(h + [e], q) == StateAt(h, q)
  {
    var h' := h + [e];
    assert h'[..|h|] == h;
    assert h'[..Mark(h)] == h[..Mark(h)];
    Snoc(h, e);
    assert IndexAt(h', q) == IndexAt(h, q);
    assert h'[..IndexAt(h, q)] == h[..IndexAt(h, q)];
  }

  lemma {:induction false} StateAtNow(h: History)
    ensures Covers(h, SeqAfter(h)) && StateAt(h, SeqAfter(h)) == StateAfter(h)
  {
    SeqSinceMark(h, |h|);
    assert h[..|h|] == h;
  }

  /** A client holds exactly the state this scene had at seq `since`, and the scene's
      state has not been replaced since then. */
  predicate Holds(h: History, since: int, held: State) {
    0 <= since && Covers(h, since) && held == StateAt(h, since)
  }

  /** The pairs a scene has been in from seq q on. */
  function SeenSince(h: History, q: nat): set<(nat, State)>
    requires Covers(h, q)
  {
    set p | q <= p <= SeqAfter(h) :: (p, StateAt(h, p))
  }

  // --------------------------------------------------------------- replaying the records

  lemma {:induction false} RecordsHead(h: History, i: nat)
    requires i < |h|
    ensures Records(h[i..]) == (if h[i].Emitted? then [h[i].record] else []) + Records(h[i+1..])
  {
    assert h[i..] == [h[i]] + h[i+1..];
    RecordsSplit([h[i]], h[i+1..]);
    Snoc([], h[i]);
    assert [] + [h[i]] == [h[i]];
  }

  lemma {:induction false} WalkDeltas(rx: Receiver, r: ReplayRecord, rest: seq<ReplayRecord>, seen: set<(nat, State)>)
    ensures Walk(rx, Deltas([r] + rest)) == Walk(Receive(rx, Frame(DeltaOf(r))), Deltas(rest))
    ensures AllRight(rx, Deltas([r] + rest), seen)
      <==> Right(rx, seen) && AllRight(Receive(rx, Frame(DeltaOf(r))), Deltas(rest), seen)
  {
    assert Deltas([r] + rest)[0] == Frame(DeltaOf(r));
    assert Deltas([r] + rest)[1..] == Deltas(rest);
  }

  /** Stopped, or no further than seq q and equal to its shadow when level with it. */
  predicate Behind(rx: Receiver, q: nat) {
    rx.gap || (1 <= rx.tracker <= q && (rx.tracker == q ==> rx.state == rx.shadow))
  }

  /** One delta reaching a receiver that holds the state before it. */
  lemma {:induction false} DeltaArrives(rx: Receiver, r: ReplayRecord, q: nat, seen: set<(nat, State)>)
    requires Behind(rx, q) && Right(rx, seen) && r.seqno == q + 1
    requires (q + 1, ApplyPatches(rx.shadow, r.patches)) in seen
    ensures var rx' := Receive(rx, Frame(DeltaOf(r)));
      rx'.shadow == ApplyPatches(rx.shadow, r.patches) && Behind(rx', q + 1) && Right(rx', seen)
  {
  }

  /** The pairs of the states from event i on are all in seen. */
  predicate SeenFrom(h: History, i: nat, seen: set<(nat, State)>) {
    forall j :: i <= j <= |h| ==> (SeqAfter(h[..j]), StateAfter(h[..j])) in seen
  }

  lemma {:induction false} NextStage(h: History, i: nat, seen: set<(nat, State)>)
    requires Numbered(h) && Mark(h) <= i < |h| && SeenFrom(h, i, seen)
    ensures !h[i].Replaced? && SeenFrom(h, i + 1, seen)
    ensures SeqAfter(h[..i+1]) == SeqAfter(h[..i]) + 1
    ensures StateAfter(h[..i+1]) == Advance(StateAfter(h[..i]), h[i])
    ensures h[i].Emitted? ==> h[i].record.seqno == SeqAfter(h[..i]) + 1
    ensures (SeqAfter(h[..i]) + 1, StateAfter(h[..i+1])) in seen
  {
    assert h[..i+1] == h[..i] + [h[i]];
    Snoc(h[..i], h[i]);
  }

  /** The items bring the receiver to the state of seq q, right all the way. */
  predicate FoldsTo(rx: Receiver, items: seq<Item>, state: State, q: nat, seen: set<(nat, State)>) {
    Walk(rx, items).shadow == state && AllRight(rx, items, seen) && Behind(Walk(rx, items), q)
  }

  lemma {:induction false} FoldsStep(rx: Receiver, r: ReplayRecord, rest: seq<ReplayRecord>, state: State, q: nat,
                                     seen: set<(nat, State)>)
    requires Right(rx, seen) && FoldsTo(Receive(rx, Frame(DeltaOf(r))), Deltas(rest), state, q, seen)
    ensures FoldsTo(rx, Deltas([r] + rest), state, q, seen)
  {
    WalkDeltas(rx, r, rest, seen);
  }

  lemma {:induction false} FoldsNothing(h: History, rx: Receiver, seen: set<(nat, State)>)
    requires rx.shadow == StateAfter(h) && Behind(rx, SeqAfter(h)) && Right(rx, seen)
    ensures FoldsTo(rx, Deltas([]), StateAfter(h), SeqAfter(h), seen)
  {
    assert Deltas([]) == [];
  }

  /** A receiver with the state after i events that is sent the later emissions ends with the
      current state; checked, it is right all the way (it stops where a seq was spent without
      an emission). */
  lemma {:induction false} ReplayFolds(h: History, i: nat, rx: Receiver, seen: set<(nat, State)>)
    requires Numbered(h) && Mark(h) <= i <= |h| && rx.shadow == StateAfter(h[..i])
    requires Behind(rx, SeqAfter(h[..i])) && Right(rx, seen)
    requires SeenFrom(h, i, seen)
    ensures FoldsTo(rx, Deltas(Records(h[i..])), StateAfter(h), SeqAfter(h), seen)
    decreases |h| - i
  {
    if i == |h| {
      assert h[..i] == h && h[i..] == [];
      FoldsNothing(h, rx, seen);
    } else {
      var e := h[i];
      RecordsHead(h, i);
      NextStage(h, i, seen);
      if e.Skipped? {
        assert [] + Records(h[i+1..]) == Records(h[i+1..]);
        ReplayFolds(h, i + 1, rx, seen);
      } else {
        DeltaArrives(rx, e.record, SeqAfter(h[..i]), seen);
        ReplayFolds(h, i + 1, Receive(rx, Frame(DeltaOf(e.record))), seen);
        FoldsStep(rx, e.record, Records(h[i+1..]), StateAfter(h), SeqAfter(h), seen);
      }
    }
  }

  // ---------------------------------------------- replaying across replacements, path by path

  function Value(state: State, path: string): Option<Json> {
    if path in state then Some(state[path]) else None
  }

  predicate WritesPath(e: Event, path: string) {
    e.Emitted? && Mentions(EntriesOf(e.record.patches), path)
  }

  /** How many events had passed when the path was last written by an emission after event i,
      or i if none writes it. */
  function LastReplayed(h: History, i: nat, path: string): (k: nat)
    requires i <= |h|
    ensures i <= k <= |h|
    ensures k > i ==> WritesPath(h[k-1], path)
    ensures forall j :: k <= j < |h| ==> !WritesPath(h[j], path)
  {
    if |h| == i then i
    else if WritesPath(h[|h|-1], path) then |h|
    else LastReplayed(h[..|h|-1], i, path)
  }

  /** Sets changed the path and left it different from what the last replayed emission of it,
      or else the state at i, gave it; no replayed emission writes it afterwards. */
  predicate LeftDifferent(h: History, i: nat, path: string)
    requires i <= |h|
  {
    Value(StateAfter(h[..LastReplayed(h, i, path)]), path) != Value(StateAfter(h), path)
  }

  /** That is indeed the doing of a set: some replacement changes the path's value after the
      last replayed emission of it. */
  lemma {:induction false} LeftDifferentBySet(h: History, i: nat, path: string) returns (j: nat)
    requires i <= |h| && LeftDifferent(h, i, path)
    ensures LastReplayed(h, i, path) <= j < |h| && h[j].Replaced?
    ensures Value(StateAfter(h[..j]), path) != Value(StateAfter(h[..j+1]), path)
    ensures forall k :: j < k < |h| ==> !WritesPath(h[k], path)
  {
    var k := LastReplayed(h, i, path);
    assert h[..|h|] == h;
    j := ChangeAfter(h, k, |h|, path);
    assert h[..j+1] == h[..j] + [h[j]];
    Snoc(h[..j], h[j]);
    if h[j].Emitted? { ApplyElsewhere(StateAfter(h[..j]), EntriesOf(h[j].record.patches), path); }
  }

  lemma {:induction false} ChangeAfter(h: History, k: nat, n: nat, path: string) returns (j: nat)
    requires k <= n <= |h| && Value(StateAfter(h[..k]), path) != Value(StateAfter(h[..n]), path)
    ensures k <= j < n && Value(StateAfter(h[..j]), path) != Value(StateAfter(h[..j+1]), path)
    decreases n - k
  {
    if Value(StateAfter(h[..k]), path) != Value(StateAfter(h[..k+1]), path) {
      j := k;
    } else {
      j := ChangeAfter(h, k + 1, n, path);
    }
  }

  lemma {:induction false} SameWrite(a: State, b: State, entries: seq<Entry>, path: string)
    requires Mentions(entries, path) || Value(a, path) == Value(b, path)
    ensures Value(Apply(a, entries), path) == Value(Apply(b, entries), path)
    decreases |entries|
  {
    if entries != [] {
      MentionsTail(entries, path);
      SameWrite(a[entries[0].path := entries[0].value], b[entries[0].path := entries[0].value], entries[1..], path);
    }
  }

  /** What replaying the emissions made after event i makes of the state at i. */
  function Replayed(h: History, i: nat): State
    requires i <= |h|
  {
    Folded(StateAfter(h[..i]), Deltas(Records(h[i..])))
  }

  lemma {:induction false} ReplayedSnoc(h: History, i: nat)
    requires i < |h|
    ensures var init, e := h[..|h|-1], h[|h|-1];
      Replayed(h, i) ==
        if e.Emitted? then ApplyPatches(Replayed(init, i), e.record.patches) else Replayed(init, i)
  {
    var init, e := h[..|h|-1], h[|h|-1];
    assert init[..i] == h[..i];
    assert h[i..] == init[i..] + [e];
    Snoc(init[i..], e);
    var records := Records(init[i..]);
    if e.Emitted? {
      assert Deltas(records + [e.record]) == Deltas(records) + [Frame(DeltaOf(e.record))];
      FoldedSnoc(StateAfter(h[..i]), Deltas(records), DeltaOf(e.record));
    } else {
      assert records + [] == records;
    }
  }

  lemma {:induction false} LastReplayedSnoc(h: History, i: nat, path: string)
    requires i < |h|
    ensures var init, e := h[..|h|-1], h[|h|-1];
      StateAfter(h[..LastReplayed(h, i, path)]) ==
        if WritesPath(e, path) then Advance(StateAfter(init), e)
        else StateAfter(init[..LastReplayed(init, i, path)])
  {
    var init, e := h[..|h|-1], h[|h|-1];
    if WritesPath(e, path) {
      assert h[..|h|] == h;
    } else {
      assert init[..LastReplayed(init, i, path)] == h[..LastReplayed(init, i, path)];
    }
  }

  /** The value the replay gives a path is the one it had when it was last replayed. */
  lemma {:induction false} ReplayedValue(h: History, i: nat, path: string)
    requires i <= |h|
    ensures Value(Replayed(h, i), path) == Value(StateAfter(h[..LastReplayed(h, i, path)]), path)
    decreases |h| - i
  {
    if i == |h| {
      assert h[i..] == [];
      assert Deltas(Records(h[i..])) == [];
    } else {
      var init, e := h[..|h|-1], h[|h|-1];
      ReplayedValue(init, i, path);
      ReplayedSnoc(h, i);
      LastReplayedSnoc(h, i, path);
      if WritesPath(e, path) {
        SameWrite(Replayed(init, i), StateAfter(init), EntriesOf(e.record.patches), path);
      } else if e.Emitted? {
        ApplyElsewhere(Replayed(init, i), EntriesOf(e.record.patches), path);
      }
    }
  }

  lemma {:induction false} SameState(a: State, b: State)
    ensures a == b <==> forall path :: Value(a, path) == Value(b, path)
  {
    if forall path :: Value(a, path) == Value(b, path) {
      forall path ensures path in a <==> path in b {
        assert Value(a, path) == Value(b, path);
      }
      forall path | path in a ensures a[path] == b[path] {
        assert Value(a, path) == Value(b, path);
      }
    }
  }

  /** Replaying the emissions made after event i over the state at i gives the current state
      exactly when no path was left different by a set. */
  lemma {:induction false} ReplayExact(h: History, i: nat)
    requires i <= |h|
    ensures Replayed(h, i) == StateAfter(h) <==> forall path :: !LeftDifferent(h, i, path)
  {
    SameState(Replayed(h, i), StateAfter(h));
    forall path ensures Value(Replayed(h, i), path) == Value(StateAfter(h), path) <==> !LeftDifferent(h, i, path) {
      ReplayedValue(h, i, path);
    }
  }
}
