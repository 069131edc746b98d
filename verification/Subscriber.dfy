/** One subscriber of one scene: what holds between the scene, its queue and its client, and
    why each operation of the scene keeps it. */
module Subscribers {
  import opened Wrappers
  import opened JsonValues
  import opened Frames
  import opened Stores
  import opened SceneModel
  import opened Clients
  import opened Histories
  import opened Standings

  /** rx: the client so far. initial: frames sent before the writer starts on the queue.
      seen: the pairs (seq, state) the serving scene has been in since this client joined.
      resumed: it started from replayed emissions. honest: it started from a snapshot, or held
      the scene's state at the seq it claimed. lostSnapshot: a snapshot meant for it was dropped.
      astray: the last snapshot meant for it was, or it was not honest and none was since it joined.
      disturbed: the scene's state was replaced, or it was moved, since it joined.
      start: the standing it had when its scene's history had `joined` events. */
  datatype Client = Client(rx: Receiver, initial: seq<Item>, seen: set<(nat, State)>,
                           resumed: bool, honest: bool, lostSnapshot: bool, astray: bool, disturbed: bool,
                           start: Standing, joined: nat)

  function Pending(p: Pipe, c: Client): seq<Item> {
    c.initial + p.queue
  }

  /** The client once everything already sent has reached it. */
  function End(p: Pipe, c: Client): Receiver {
    Walk(c.rx, Pending(p, c))
  }

  /** Stopped, or no further than the scene and equal to it when level with it. */
  predicate Level<S>(sc: SceneState<S>, e: Receiver) {
    e.gap || (1 <= e.tracker <= sc.seqno && (e.tracker == sc.seqno ==> e.state == sc.store))
  }

  ghost predicate InStep<S>(sc: SceneState<S>, p: Pipe, c: Client) {
    var e := End(p, c);
    !e.gap && !e.dropped && e.tracker == sc.seqno
  }

  ghost predicate Served<S>(sc: SceneState<S>, h: History, p: Pipe, c: Client) {
    && Tracked(sc, h, p, c)
    && (!c.resumed ==> c.honest)
    && (!p.closed && c.honest ==> Follows(sc, h, p, c))
  }

  /** What is true of every subscriber's tracker, whatever the client claimed to hold: never
      dropped on, it stands as its scene's history says; not astray, it ends level only with
      the scene's own state. */
  ghost predicate Tracked<S>(sc: SceneState<S>, h: History, p: Pipe, c: Client) {
    && c.joined <= |h|
    && (!c.resumed ==> c.start.Even?)
    && (p.live && c.start.Even? ==> Fate(c.start, h, c.joined).Even?)
    && (!p.closed && !p.stale ==> Stands(Fate(c.start, h, c.joined), sc.seqno, End(p, c)))
    && (!p.closed && !c.astray ==> Level(sc, End(p, c)))
  }

  /** What the server keeps true of an open subscriber that did hold what it claimed. */
  ghost predicate Follows<S>(sc: SceneState<S>, h: History, p: Pipe, c: Client) {
    && (c.lostSnapshot ==> p.stale && c.disturbed)
    && (c.astray ==> c.lostSnapshot)
    && (!p.stale ==> End(p, c).shadow == sc.store)
    && (!c.lostSnapshot ==> AllRight(c.rx, Pending(p, c), c.seen))
    && (sc.seqno, sc.store) in c.seen
    && (!c.disturbed ==> SeenCovered(h, c.seen))
  }

  /** Every pair was this scene's since its state was last replaced. */
  ghost predicate SeenCovered(h: History, seen: set<(nat, State)>) {
    forall v :: v in seen ==> Covers(h, v.0) && v.1 == StateAt(h, v.0)
  }

  // --------------------------------------------------------------- sending a frame

  lemma {:induction false} EndAfterSend(p: Pipe, c: Client, x: Item)
    ensures Pending(p.(queue := p.queue + [x]), c) == Pending(p, c) + [x]
    ensures End(p.(queue := p.queue + [x]), c) == Receive(End(p, c), x)
  {
    WalkSnoc(c.rx, Pending(p, c), x);
    assert c.initial + (p.queue + [x]) == Pending(p, c) + [x];
  }

  /** The client's record after its scene moves on to (seqno, store). */
  function Noted(c: Client, seqno: nat, store: State): Client {
    c.(seen := c.seen + {(seqno, store)})
  }

  /** After a snapshot of (seqno, store) was sent to it, or lost. */
  function Snapped(c: Client, seqno: nat, store: State, lost: bool): Client {
    Noted(c, seqno, store).(lostSnapshot := c.lostSnapshot || lost, astray := lost, disturbed := true)
  }

  lemma {:induction false} SeenStillCovered(h: History, e: Event, seen: set<(nat, State)>)
    requires !e.Replaced? && SeenCovered(h, seen)
    ensures SeenCovered(h + [e], seen + {(SeqAfter(h + [e]), StateAfter(h + [e]))})
  {
    StateAtNow(h + [e]);
    forall v | v in seen ensures Covers(h + [e], v.0) && v.1 == StateAt(h + [e], v.0) {
      StateAtExtends(h, e, v.0);
    }
  }

  /** One emission reaching a client that already has everything before it. */
  lemma {:induction false} EmissionArrives<S>(sc: SceneState<S>, e: Receiver, entries: seq<Entry>, cause: Option<Cause>,
                                              seen: set<(nat, State)>)
    ensures var sc' := AfterEmit(sc, entries, cause);
      var e' := Receive(e, Frame(DeltaOf(Emission(sc, entries, cause))));
      && e'.shadow == Apply(e.shadow, entries)
      && (Level(sc, e) ==> Level(sc', e') && ((sc'.seqno, sc'.store) in seen ==> Right(e', seen)))
  {
    EntriesOfWire(entries);
  }

  lemma {:induction false} EmitStands<S>(sc: SceneState<S>, f: Standing, p: Pipe, c: Client,
                                         entries: seq<Entry>, cause: Option<Cause>)
    requires Stands(f, sc.seqno, End(p, c)) && sc.seqno >= 1 && !Full(p)
    ensures Stands(AfterEvent(f, Emitted(Emission(sc, entries, cause))), sc.seqno + 1,
                   End(PipeAfterEmit(sc, entries, cause, p), c))
  {
    EndAfterSend(p, c, Frame(DeltaOf(Emission(sc, entries, cause))));
    EmissionStands(f, sc.seqno, End(p, c), Emission(sc, entries, cause));
  }

  lemma {:induction false} EmitLevel<S>(sc: SceneState<S>, p: Pipe, c: Client,
                                        entries: seq<Entry>, cause: Option<Cause>)
    requires Level(sc, End(p, c))
    ensures Level(AfterEmit(sc, entries, cause), End(PipeAfterEmit(sc, entries, cause, p), c))
  {
    if Full(p) {
      assert Pending(p.(stale := true), c) == Pending(p, c);
    } else {
      EndAfterSend(p, c, Frame(DeltaOf(Emission(sc, entries, cause))));
      EmissionArrives(sc, End(p, c), entries, cause, {});
    }
  }

  lemma {:induction false} EmitTracked<S>(sc: SceneState<S>, h: History, p: Pipe, c: Client,
                                          entries: seq<Entry>, cause: Option<Cause>)
    requires sc.seqno >= 1 && Tracked(sc, h, p, c)
    ensures var sc' := AfterEmit(sc, entries, cause);
      Tracked(sc', h + [Emitted(Emission(sc, entries, cause))], PipeAfterEmit(sc, entries, cause, p),
              Noted(c, sc'.seqno, sc'.store))
  {
    FateSnoc(c.start, h, Emitted(Emission(sc, entries, cause)), c.joined);
    RecordIrrelevant(PipeAfterEmit(sc, entries, cause, p), c, sc.seqno + 1, Apply(sc.store, entries));
    if !p.closed && !p.stale && !Full(p) { EmitStands(sc, Fate(c.start, h, c.joined), p, c, entries, cause); }
    if !p.closed && !c.astray { EmitLevel(sc, p, c, entries, cause); }
  }

  lemma {:induction false} RecordIrrelevant(p: Pipe, c: Client, seqno: nat, store: State)
    ensures End(p, Noted(c, seqno, store)) == End(p, c)
    ensures Pending(p, Noted(c, seqno, store)) == Pending(p, c)
  {
  }

  lemma {:induction false} EmitFollows<S>(sc: SceneState<S>, h: History, p: Pipe, c: Client,
                                          entries: seq<Entry>, cause: Option<Cause>)
    requires Consistent(sc, h) && Tracked(sc, h, p, c) && Follows(sc, h, p, c) && !p.closed
    ensures var sc' := AfterEmit(sc, entries, cause);
      Follows(sc', h + [Emitted(Emission(sc, entries, cause))], PipeAfterEmit(sc, entries, cause, p),
              Noted(c, sc'.seqno, sc'.store))
  {
    var r := Emission(sc, entries, cause);
    var sc', p' := AfterEmit(sc, entries, cause), PipeAfterEmit(sc, entries, cause, p);
    var c' := Noted(c, sc'.seqno, sc'.store);
    EmitConsistent(sc, h, entries, cause);
    RecordIrrelevant(p', c, sc'.seqno, sc'.store);
    if !c.disturbed { SeenStillCovered(h, Emitted(r), c.seen); }
    if !c.lostSnapshot { AllRightMono(c.rx, Pending(p, c), c.seen, c'.seen); }
    if Full(p) {
      assert p' == p.(stale := true);
    } else {
      EndAfterSend(p, c, Frame(DeltaOf(r)));
      EmissionArrives(sc, End(p, c), entries, cause, c'.seen);
      if !c.lostSnapshot { AllRightSnoc(c.rx, Pending(p, c), Frame(DeltaOf(r)), c'.seen); }
    }
  }

  lemma {:induction false} EmitServes<S>(sc: SceneState<S>, h: History, p: Pipe, c: Client,
                                         entries: seq<Entry>, cause: Option<Cause>)
    requires Consistent(sc, h) && Served(sc, h, p, c)
    ensures var sc' := AfterEmit(sc, entries, cause);
      Served(sc', h + [Emitted(Emission(sc, entries, cause))], PipeAfterEmit(sc, entries, cause, p),
             Noted(c, sc'.seqno, sc'.store))
  {
    EmitTracked(sc, h, p, c, entries, cause);
    if !p.closed && c.honest { EmitFollows(sc, h, p, c, entries, cause); }
  }

  /** A queued snapshot brings any client level and right, unless it has been told of a gap. */
  lemma {:induction false} SnapshotLevels<S>(sc: SceneState<S>, f: Standing, p: Pipe, c: Client)
    requires sc.seqno >= 1 && !Full(p)
    ensures var p' := SendOrDrop(p, SnapshotOf(sc));
      && Level(sc, End(p', c))
      && (Stands(f, sc.seqno, End(p, c)) ==> Stands(AfterEvent(f, Replaced(sc.store)), sc.seqno, End(p', c)))
  {
    EndAfterSend(p, c, Frame(SnapshotOf(sc)));
    if Stands(f, sc.seqno, End(p, c)) { SnapshotStands(f, sc.seqno, End(p, c), SnapshotOf(sc), sc.store); }
  }

  lemma {:induction false} SetTracked<S>(sc: SceneState<S>, h: History, p: Pipe, c: Client, entries: seq<Entry>)
    requires sc.seqno >= 1 && Tracked(sc, h, p, c)
    ensures var sc' := AfterSet(sc, entries);
      Tracked(sc', h + [Replaced(sc'.store)], PipeAfterSet(sc, entries, p), Snapped(c, sc.seqno, sc'.store, Full(p)))
  {
    var sc' := AfterSet(sc, entries);
    FateSnoc(c.start, h, Replaced(sc'.store), c.joined);
    SnapIrrelevant(PipeAfterSet(sc, entries, p), c, sc.seqno, sc'.store, Full(p));
    if !Full(p) { SnapshotLevels(sc', Fate(c.start, h, c.joined), p, c); }
  }

  lemma {:induction false} SnapIrrelevant(p: Pipe, c: Client, seqno: nat, store: State, lost: bool)
    ensures End(p, Snapped(c, seqno, store, lost)) == End(p, c)
    ensures Pending(p, Snapped(c, seqno, store, lost)) == Pending(p, c)
  {
  }

  lemma {:induction false} SetFollows<S>(sc: SceneState<S>, h: History, p: Pipe, c: Client, entries: seq<Entry>)
    requires sc.seqno >= 1 && Follows(sc, h, p, c)
    ensures var sc' := AfterSet(sc, entries);
      Follows(sc', h + [Replaced(sc'.store)], PipeAfterSet(sc, entries, p), Snapped(c, sc.seqno, sc'.store, Full(p)))
  {
    var sc' := AfterSet(sc, entries);
    var c', x := Snapped(c, sc.seqno, sc'.store, Full(p)), Frame(SnapshotOf(sc'));
    SnapIrrelevant(PipeAfterSet(sc, entries, p), c, sc.seqno, sc'.store, Full(p));
    if !Full(p) {
      EndAfterSend(p, c, x);
      if !c.lostSnapshot {
        AllRightMono(c.rx, Pending(p, c), c.seen, c'.seen);
        AllRightSnoc(c.rx, Pending(p, c), x, c'.seen);
      }
    }
  }

  /** The state is replaced at the same seq; the snapshot is sent unless the queue is full. */
  lemma {:induction false} SetServes<S>(sc: SceneState<S>, h: History, p: Pipe, c: Client, entries: seq<Entry>)
    requires Consistent(sc, h) && Served(sc, h, p, c)
    ensures var sc' := AfterSet(sc, entries);
      Served(sc', h + [Replaced(sc'.store)], PipeAfterSet(sc, entries, p), Snapped(c, sc.seqno, sc'.store, Full(p)))
  {
    SetTracked(sc, h, p, c, entries);
    if !p.closed && c.honest { SetFollows(sc, h, p, c, entries); }
  }

  lemma {:induction false} BumpTracked<S>(sc: SceneState<S>, h: History, p: Pipe, c: Client, members: set<S>)
    requires Consistent(sc, h) && Tracked(sc, h, p, c) && !p.live
    ensures Tracked(sc.(seqno := sc.seqno + 1, members := members), h + [Skipped], p,
                    Noted(c, sc.seqno + 1, sc.store))
  {
    FateSnoc(c.start, h, Skipped, c.joined);
    RecordIrrelevant(p, c, sc.seqno + 1, sc.store);
    if !p.closed && !p.stale { SkipStands(Fate(c.start, h, c.joined), sc.seqno, End(p, c)); }
  }

  lemma {:induction false} BumpSeen(h: History, c: Client, seqno: nat, store: State)
    requires seqno == SeqAfter(h) && store == StateAfter(h) && SeenCovered(h, c.seen)
    ensures SeenCovered(h + [Skipped], Noted(c, seqno + 1, store).seen)
  {
    Snoc(h, Skipped);
    SeenStillCovered(h, Skipped, c.seen);
  }

  lemma {:induction false} BumpRight(p: Pipe, c: Client, seqno: nat, store: State)
    requires AllRight(c.rx, Pending(p, c), c.seen)
    ensures var c' := Noted(c, seqno, store); AllRight(c'.rx, Pending(p, c'), c'.seen)
  {
    AllRightMono(c.rx, Pending(p, c), c.seen, Noted(c, seqno, store).seen);
  }

  lemma {:induction false} BumpFollows<S>(sc: SceneState<S>, h: History, p: Pipe, c: Client, members: set<S>)
    requires sc.seqno == SeqAfter(h) && sc.store == StateAfter(h) && Follows(sc, h, p, c)
    ensures Follows(sc.(seqno := sc.seqno + 1, members := members), h + [Skipped], p,
                    Noted(c, sc.seqno + 1, sc.store))
  {
    RecordIrrelevant(p, c, sc.seqno + 1, sc.store);
    if !c.disturbed { BumpSeen(h, c, sc.seqno, sc.store); }
    if !c.lostSnapshot { BumpRight(p, c, sc.seqno + 1, sc.store); }
  }

  /** Staying behind when others are moved away: the counter advances, nothing is sent. */
  lemma {:induction false} BumpServes<S>(sc: SceneState<S>, h: History, p: Pipe, c: Client, members: set<S>)
    requires Consistent(sc, h) && Served(sc, h, p, c) && !p.live
    ensures Served(sc.(seqno := sc.seqno + 1, members := members), h + [Skipped], p,
                   Noted(c, sc.seqno + 1, sc.store))
  {
    BumpTracked(sc, h, p, c, members);
    if !p.closed && c.honest { BumpFollows(sc, h, p, c, members); }
  }

  /** Being moved: scene_changed on the previous counter, then the next scene's snapshot. */
  function Moved<S>(prev: SceneState<S>, h: History, next: SceneState<S>, hn: History, p: Pipe, c: Client): Client {
    Snapped(Noted(c, prev.seqno + 1, prev.store), next.seqno, next.store, |p.queue| + 1 >= QUEUE_SIZE)
      .(start := AfterSwitch(Fate(c.start, h, c.joined)), joined := |hn|)
  }

  lemma {:induction false} MoveIrrelevant<S>(prev: SceneState<S>, h: History, next: SceneState<S>, hn: History,
                                             p: Pipe, c: Client, q: Pipe)
    ensures End(q, Moved(prev, h, next, hn, p, c)) == End(q, c)
    ensures Pending(q, Moved(prev, h, next, hn, p, c)) == Pending(q, c)
  {
  }

  /** Both frames of a switch, queued. */
  lemma {:induction false} EndAfterSwitch<S>(prev: SceneState<S>, next: SceneState<S>, p: Pipe, c: Client)
    requires |p.queue| + 1 < QUEUE_SIZE
    ensures var x, y, p' := Frame(SceneChangedTo(prev, next)), Frame(SnapshotOf(next)), Switched(prev, next, p);
      && p'.closed == p.closed && p'.stale == p.stale
      && Pending(p', c) == Pending(p, c) + [x] + [y]
      && End(p', c) == Receive(Receive(End(p, c), x), y)
  {
    var x, y := Frame(SceneChangedTo(prev, next)), Frame(SnapshotOf(next));
    EndAfterSend(p, c, x);
    EndAfterSend(p.(queue := p.queue + [x]), c, y);
  }

  lemma {:induction false} MoveTracked<S>(prev: SceneState<S>, h: History, next: SceneState<S>, hn: History,
                                          p: Pipe, c: Client, members: set<S>)
    requires Tracked(prev, h, p, c) && p.live && prev.seqno >= 1 && next.seqno >= 1
    ensures Tracked(next.(members := members), hn, Switched(prev, next, p), Moved(prev, h, next, hn, p, c))
  {
    MoveIrrelevant(prev, h, next, hn, p, c, Switched(prev, next, p));
    if |p.queue| + 1 < QUEUE_SIZE {
      EndAfterSwitch(prev, next, p, c);
      if !p.closed && !p.stale { SwitchStands(Fate(c.start, h, c.joined), prev, next, End(p, c)); }
    }
  }

  lemma {:induction false} MoveFollows<S>(prev: SceneState<S>, h: History, next: SceneState<S>, hn: History,
                                          p: Pipe, c: Client, members: set<S>)
    requires Tracked(prev, h, p, c) && Follows(prev, h, p, c) && !p.closed && next.seqno >= 1
    ensures Follows(next.(members := members), hn, Switched(prev, next, p), Moved(prev, h, next, hn, p, c))
  {
    var c', p' := Moved(prev, h, next, hn, p, c), Switched(prev, next, p);
    MoveIrrelevant(prev, h, next, hn, p, c, p');
    if |p.queue| + 1 < QUEUE_SIZE {
      EndAfterSwitch(prev, next, p, c);
      if !c.lostSnapshot { SwitchRight(prev, next, p, c, c'.seen); }
    }
  }

  lemma {:induction false} SwitchRight<S>(prev: SceneState<S>, next: SceneState<S>, p: Pipe, c: Client,
                                          seen: set<(nat, State)>)
    requires AllRight(c.rx, Pending(p, c), c.seen) && Level(prev, End(p, c)) && next.seqno >= 1
    requires c.seen <= seen && (prev.seqno + 1, prev.store) in seen && (next.seqno, next.store) in seen
    ensures AllRight(c.rx, Pending(p, c) + [Frame(SceneChangedTo(prev, next))] + [Frame(SnapshotOf(next))], seen)
  {
    var x, y := Frame(SceneChangedTo(prev, next)), Frame(SnapshotOf(next));
    AllRightMono(c.rx, Pending(p, c), c.seen, seen);
    AllRightSnoc(c.rx, Pending(p, c), x, seen);
    WalkSnoc(c.rx, Pending(p, c), x);
    AllRightSnoc(c.rx, Pending(p, c) + [x], y, seen);
  }

  lemma {:induction false} MoveServes<S>(prev: SceneState<S>, h: History, next: SceneState<S>, hn: History,
                                         p: Pipe, c: Client, members: set<S>)
    requires Served(prev, h, p, c) && p.live && prev.seqno >= 1 && next.seqno >= 1
    ensures Served(next.(members := members), hn, Switched(prev, next, p), Moved(prev, h, next, hn, p, c))
  {
    MoveTracked(prev, h, next, hn, p, c, members);
    if !p.closed && c.honest { MoveFollows(prev, h, next, hn, p, c, members); }
  }

  // ------------------------------------------------------------ starting, receiving

  /** What a client of a new subscription starts from. */
  function Started<S>(sc: SceneState<S>, h: History, since: Option<int>, held: State): Client {
    var opening := Open(sc, since);
    if opening.Fresh? then
      Client(FRESH, InitialItems(opening), {(sc.seqno, sc.store)}, false, true, false, false, false, Even, |h|)
    else
      var honest := Holds(h, since.value, held);
      Client(Receiver(held, since.value, held, false, false), InitialItems(opening),
             if honest then SeenSince(h, since.value) else {(sc.seqno, sc.store)},
             true, honest, false, !honest, false, ReplayFate(h, since.value), |h|)
  }

  lemma {:induction false} SnapshotArrives<S>(sc: SceneState<S>, rx: Receiver, seen: set<(nat, State)>)
    requires sc.seqno >= 1 && rx == FRESH && (sc.seqno, sc.store) in seen
    ensures var items := [Frame(SnapshotOf(sc))];
      && Walk(rx, items) == Receiver(sc.store, sc.seqno, sc.store, false, false)
      && AllRight(rx, items, seen)
  {
    var x := Frame(SnapshotOf(sc));
    assert [x][1..] == [];
    assert AllRight(Receive(rx, x), [], seen);
  }

  lemma {:induction false} SeenSinceCovers(h: History, q: nat)
    requires Covers(h, q)
    ensures forall p :: q <= p && Covers(h, p) ==> (p, StateAt(h, p)) in SeenSince(h, q)
    ensures SeenCovered(h, SeenSince(h, q))
  {
  }

  lemma {:induction false} StagesSeen(h: History, i: nat)
    requires Mark(h) <= i <= |h|
    ensures Covers(h, SeqAfter(h[..i])) && SeenFrom(h, i, SeenSince(h, SeqAfter(h[..i])))
  {
    assert h[..|h|] == h;
    SeqSinceMark(h, |h|);
    SeqSinceMark(h, i);
    SeenSinceCovers(h, SeqAfter(h[..i]));
    forall j | i <= j <= |h|
      ensures (SeqAfter(h[..j]), StateAfter(h[..j])) in SeenSince(h, SeqAfter(h[..i]))
    {
      SeqSinceMark(h, j);
      var q := SeqAfter(h[..j]);
      assert Covers(h, q) && IndexAt(h, q) == j;
      assert StateAt(h, q) == StateAfter(h[..j]);
    }
  }

  /** A snapshot brings the client to the scene's current state. */
  lemma {:induction false} FreshServes<S>(sc: SceneState<S>, h: History, live: bool, since: Option<int>, held: State)
    requires Consistent(sc, h) && Open(sc, since).Fresh?
    ensures Served(sc, h, NewPipe(live), Started(sc, h, since, held))
  {
    var c := Started(sc, h, since, held);
    assert Pending(NewPipe(live), c) == c.initial;
    StateAtNow(h);
    SnapshotArrives(sc, c.rx, c.seen);
  }

  /** So does the replay for a client that does hold the state at `since`. */
  lemma {:induction false} ResumeFollows<S>(sc: SceneState<S>, h: History, live: bool, since: int, held: State)
    requires Consistent(sc, h) && Open(sc, Some(since)).Resumed? && Holds(h, since, held)
    ensures var p, c := NewPipe(live), Started(sc, h, Some(since), held);
      Follows(sc, h, p, c) && Level(sc, End(p, c))
  {
    var c := Started(sc, h, Some(since), held);
    assert Pending(NewPipe(live), c) == c.initial;
    StateAtNow(h);
    SeenSinceCovers(h, since);
    var i := IndexAt(h, since);
    ReplayIsTail(sc, h, i);
    StagesSeen(h, i);
    ReplayFolds(h, i, c.rx, c.seen);
  }

  lemma {:induction false} ResumeStands<S>(sc: SceneState<S>, h: History, live: bool, since: int, held: State)
    requires Consistent(sc, h) && Open(sc, Some(since)).Resumed?
    ensures Stands(ReplayFate(h, since), sc.seqno, End(NewPipe(live), Started(sc, h, Some(since), held)))
  {
    var c := Started(sc, h, Some(since), held);
    assert Pending(NewPipe(live), c) == c.initial;
    var n := StageAt(h, since);
    ReplayIsTail(sc, h, n);
    ReplayStands(h, n, c.rx);
  }

  lemma {:induction false} ResumeServes<S>(sc: SceneState<S>, h: History, live: bool, since: int, held: State)
    requires Consistent(sc, h) && Open(sc, Some(since)).Resumed?
    ensures Served(sc, h, NewPipe(live), Started(sc, h, Some(since), held))
  {
    ResumeStands(sc, h, live, since, held);
    if Holds(h, since, held) { ResumeFollows(sc, h, live, since, held); }
  }

  /** A new subscription starts as Served says, whatever a resuming client claims to hold. */
  lemma {:induction false} StartServes<S>(sc: SceneState<S>, h: History, live: bool, since: Option<int>, held: State)
    requires Consistent(sc, h)
    ensures Served(sc, h, NewPipe(live), Started(sc, h, since, held))
  {
    if Open(sc, since).Fresh? {
      FreshServes(sc, h, live, since, held);
    } else {
      ResumeServes(sc, h, live, since.value, held);
    }
  }

  function NextPending(p: Pipe, c: Client): Item
    requires Pending(p, c) != []
  {
    Pending(p, c)[0]
  }

  /** One frame leaves for the client: the initial frames first, then the queue. */
  function Popped(p: Pipe, c: Client): Pipe
    requires Pending(p, c) != []
  {
    if c.initial != [] then p else p.(queue := p.queue[1..])
  }

  function Received(p: Pipe, c: Client): Client
    requires Pending(p, c) != []
  {
    c.(rx := Receive(c.rx, NextPending(p, c)), initial := if c.initial != [] then c.initial[1..] else [])
  }

  lemma {:induction false} DeliverServes<S>(sc: SceneState<S>, h: History, p: Pipe, c: Client)
    requires Served(sc, h, p, c) && Pending(p, c) != []
    ensures Served(sc, h, Popped(p, c), Received(p, c))
    ensures Pending(Popped(p, c), Received(p, c)) == Pending(p, c)[1..]
  {
    assert Pending(Popped(p, c), Received(p, c)) == Pending(p, c)[1..];
    assert End(Popped(p, c), Received(p, c)) == End(p, c);
  }

  lemma {:induction false} MembershipServes<S>(sc: SceneState<S>, h: History, p: Pipe, c: Client, members: set<S>)
    requires Served(sc, h, p, c)
    ensures Served(sc.(members := members), h, p, c)
  {
  }
}
