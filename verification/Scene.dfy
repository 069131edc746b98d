/** Subscriptions and scenes as the objects they are (src/lumencast/server/scene.py), proved
    to compute exactly what SceneModel says. Every method runs without suspending. */
module Scenes {
  import opened Wrappers
  import opened JsonValues
  import opened Frames
  import opened Stores
  import opened Sequences
  import opened Replays
  import opened Inputs
  import opened Roles
  import opened SceneModel

  class Subscription {
    var live: bool
    var closed: bool
    var stale: bool
    var queue: seq<Item>

    constructor (live: bool)
      ensures Valid() && View() == NewPipe(live)
    {
      this.live, closed, stale, queue := live, false, false, [];
    }

    ghost predicate Valid()
      reads this
    {
      |queue| <= QUEUE_SIZE
    }

    function View(): Pipe
      reads this
    {
      Pipe(live, closed, stale, queue)
    }

    /** False stands for asyncio.QueueFull. */
    method PutNowait(item: Item) returns (ok: bool)
      requires Valid()
      modifies this`queue
      ensures Valid()
      ensures ok <==> |old(queue)| < 256
      ensures queue == if ok then old(queue) + [item] else old(queue)
    {
      ok := |queue| < QUEUE_SIZE;
      if ok { queue := queue + [item]; }
    }

    /** None stands for asyncio.QueueEmpty. */
    method GetNowait() returns (item: Option<Item>)
      requires Valid()
      modifies this`queue
      ensures Valid()
      ensures item.None? <==> old(queue) == []
      ensures item.Some? ==> old(queue) == [item.value] + queue
      ensures item.None? ==> queue == []
    {
      if queue == [] { return None; }
      item := Some(queue[0]);
      queue := queue[1..];
    }

    /** Marks the subscription closed and queues the sentinel that wakes the writer up. */
    method Close()
      requires Valid()
      modifies this
      ensures Valid() && View() == ClosePipe(old(View()))
    {
      if closed { return; }
      closed := true;
      var ok := PutNowait(Sentinel);
      if !ok {
        var oldest := GetNowait();
        ok := PutNowait(Sentinel);
      }
    }
  }

  class Scene {
    const id: string
    var version: string
    const store: Store
    const seqs: SequenceTracker
    const replay: ReplayBuffer
    var subscribers: set<Subscription>
    var declaredInputs: map<string, InputSpec>

    ghost predicate Valid()
      reads this, replay, subscribers
    {
      && replay.Valid() && replay.capacity == DEFAULT_REPLAY_BUFFER_SIZE
      && forall s :: s in subscribers ==> s.Valid()
    }

    function View(): SceneState<Subscription>
      reads this, store, seqs, replay
    {
      SceneState(id, version, store.state, seqs.cur, replay.records, declaredInputs, subscribers)
    }

    constructor (id: string, version: string, inputs: map<string, InputSpec>)
      ensures Valid() && View() == NewSceneState(id, version, inputs)
      ensures fresh(store) && fresh(seqs) && fresh(replay)
    {
      this.id, this.version, declaredInputs, subscribers := id, version, inputs, {};
      store := new Store();
      seqs := new SequenceTracker();
      replay := new ReplayBuffer(DEFAULT_REPLAY_BUFFER_SIZE);
      new;
      var one := seqs.NextServer();
    }

    method Snapshot() returns (snap: ServerFrame)
      ensures snap == SnapshotOf(View())
    {
      var state := store.Snapshot();
      snap := Frames.Snapshot(id, version, state, seqs.cur, "");
    }

    method SendOrDrop(sub: Subscription, frame: ServerFrame)
      requires sub.Valid()
      modifies sub
      ensures sub.Valid() && sub.View() == SceneModel.SendOrDrop(old(sub.View()), frame)
    {
      var ok := sub.PutNowait(Frame(frame));
      if !ok { sub.stale := true; }
    }

    method SendDelta(sub: Subscription, seqno: int, patches: seq<Patch>, cause: Option<Cause>)
      requires sub.Valid()
      modifies sub
      ensures sub.Valid()
      ensures sub.View() == SceneModel.SendDelta(old(sub.View()), Delta(patches, seqno, "", cause), SnapshotOf(View()))
    {
      var ok := sub.PutNowait(Frame(Delta(patches, seqno, "", cause)));
      if !ok {
        var snap := Snapshot();
        SendOrDrop(sub, snap);
      }
    }

    /** A fresh snapshot to every subscriber, riding the current seq. */
    method RefreshAll()
      requires Valid()
      modifies subscribers
      ensures Valid()
      ensures forall s :: s in subscribers ==>
                s.View() == SceneModel.SendOrDrop(old(s.View()), SnapshotOf(View()))
    {
      var snap := Snapshot();
      var todo := subscribers;
      while todo != {}
        invariant todo <= subscribers && Valid()
        invariant forall s :: s in todo ==> s.View() == old(s.View())
        invariant forall s :: s in subscribers - todo ==> s.View() == SceneModel.SendOrDrop(old(s.View()), snap)
      {
        var sub :| sub in todo;
        SendOrDrop(sub, snap);
        todo := todo - {sub};
      }
    }

    /** Seeds the state; Err stands for EmptyPatchesError. */
    method Set(entries: seq<Entry>) returns (r: Result<(), string>)
      requires Valid()
      modifies store, subscribers
      ensures Valid() && (r.Err? <==> entries == [])
      ensures r.Err? ==> View() == old(View()) && forall s :: s in subscribers ==> s.View() == old(s.View())
      ensures r.Ok? ==> View() == AfterSet(old(View()), entries)
      ensures r.Ok? ==> forall s :: s in subscribers ==> s.View() == PipeAfterSet(old(View()), entries, old(s.View()))
    {
      if entries == [] { return Err("scene: empty patches"); }
      var applied := store.ApplyDict(entries);
      RefreshAll();
      return Ok(());
    }

    method Emit(entries: seq<Entry>, cause: Option<Cause>) returns (r: Result<(), string>)
      requires Valid()
      modifies store, seqs, replay, subscribers
      ensures Valid() && (r.Err? <==> entries == [])
      ensures r.Err? ==> View() == old(View()) && forall s :: s in subscribers ==> s.View() == old(s.View())
      ensures r.Ok? ==> View() == AfterEmit(old(View()), entries, cause)
      ensures r.Ok? ==> forall s :: s in subscribers ==>
                s.View() == PipeAfterEmit(old(View()), entries, cause, old(s.View()))
    {
      if entries == [] { return Err("scene: empty patches"); }
      var applied := store.ApplyDict(entries);
      var wire := Wire(applied.value);
      var seqno := seqs.NextServer();
      replay.Push(ReplayRecord(seqno, wire, cause));
      assert View() == AfterEmit(old(View()), entries, cause);
      FanOut(seqno, wire, cause);
      return Ok(());
    }

    /** The loop of the emission: one delta to every subscriber. */
    method FanOut(seqno: int, wire: seq<Patch>, cause: Option<Cause>)
      requires Valid()
      modifies subscribers
      ensures Valid()
      ensures forall s :: s in subscribers ==>
                s.View() == SceneModel.SendDelta(old(s.View()), Delta(wire, seqno, "", cause), SnapshotOf(View()))
    {
      var todo := subscribers;
      while todo != {}
        invariant todo <= subscribers && Valid()
        invariant forall s :: s in todo ==> s.View() == old(s.View())
        invariant forall s :: s in subscribers - todo ==>
                    s.View() == SceneModel.SendDelta(old(s.View()), Delta(wire, seqno, "", cause), SnapshotOf(View()))
        modifies subscribers
      {
        var sub :| sub in todo;
        SendDelta(sub, seqno, wire, cause);
        todo := todo - {sub};
      }
    }

    method Reset()
      requires forall s :: s in subscribers ==> s.Valid()
      modifies this`subscribers, store, subscribers
      ensures old(Valid()) ==> Valid()
      ensures View() == AfterReset(old(View()))
      ensures forall s :: s in old(subscribers) ==> s.Valid() && s.View() == ClosePipe(old(s.View()))
    {
      var subs := subscribers;
      subscribers := {};
      var todo := subs;
      while todo != {}
        invariant todo <= subs
        invariant forall s :: s in subs ==> s.Valid()
        invariant forall s :: s in todo ==> s.View() == old(s.View())
        invariant forall s :: s in subs - todo ==> s.View() == ClosePipe(old(s.View()))
        modifies subs
      {
        var sub :| sub in todo;
        sub.Close();
        todo := todo - {sub};
      }
      store.Reset();
    }

    /** The subscription, and how it starts: a snapshot or the replayed records. */
    method SubscribeWithResume(live: bool, since: Option<int>) returns (sub: Subscription, opening: Opening)
      requires Valid()
      modifies this
      ensures Valid() && fresh(sub)
      ensures View() == Joined(old(View()), sub) && sub.View() == NewPipe(live)
      ensures opening == Open(old(View()), since)
    {
      sub := new Subscription(live);
      subscribers := subscribers + {sub};
      var snap := Snapshot();
      var cur := seqs.cur;
      if since.Some? && 0 < since.value <= cur {
        var slice := replay.RecordsSince(since.value);
        if slice.covered { return sub, Resumed(slice.records); }
      }
      return sub, Fresh(snap);
    }

    method Subscribe(live: bool) returns (sub: Subscription, snap: ServerFrame)
      requires Valid()
      modifies this
      ensures Valid() && fresh(sub)
      ensures View() == Joined(old(View()), sub) && sub.View() == NewPipe(live)
      ensures Fresh(snap) == Open(old(View()), None)
    {
      sub := new Subscription(live);
      subscribers := subscribers + {sub};
      snap := Snapshot();
    }

    method Unsubscribe(sub: Subscription)
      requires sub.Valid()
      modifies this`subscribers, sub
      ensures old(Valid()) ==> Valid()
      ensures View() == Left(old(View()), sub)
      ensures sub.Valid() && sub.View() == ClosePipe(old(sub.View()))
    {
      subscribers := subscribers - {sub};
      sub.Close();
    }

    /** None on success; otherwise why the whole frame was refused. */
    method ApplyInput(identity: Identity, patches: seq<Patch>, cause: Option<Cause>) returns (r: Option<Rejection>)
      requires Valid()
      modifies store, seqs, replay, subscribers
      ensures Valid() && r == Gate(old(View()).inputs, identity, patches)
      ensures r.Some? ==> View() == old(View()) && forall s :: s in subscribers ==> s.View() == old(s.View())
      ensures r.None? ==> View() == AfterEmit(old(View()), Collapse(patches), cause)
      ensures r.None? ==> forall s :: s in subscribers ==>
                s.View() == PipeAfterEmit(old(View()), Collapse(patches), cause, old(s.View()))
    {
      if patches == [] { return Some(EmptyPatches); }
      for i := 0 to |patches|
        invariant CheckPatches(declaredInputs, identity, patches) ==
          CheckPatches(declaredInputs, identity, patches[i..])
      {
        var p := patches[i];
        assert patches[i..][0] == p && patches[i..][1..] == patches[i+1..];
        if !identity.CanWrite(p.path) { return Some(WriteForbidden(p.path)); }
        if !AcceptsInputPath(declaredInputs, identity.role, p.path) { return Some(UnknownPath(p.path)); }
        if p.path in declaredInputs {
          var e := CheckConstraint(declaredInputs[p.path], p.value);
          if e.Some? { return Some(InvalidValue(p.path, e.value)); }
        }
      }
      CollapseApplies(store.state, patches);
      var done := Emit(Collapse(patches), cause);
      return None;
    }

    /** Discards the live subscribers and returns them. */
    method TakeLive() returns (moved: set<Subscription>)
      requires Valid()
      modifies this`subscribers
      ensures Valid()
      ensures moved == set s | s in old(subscribers) && s.live
      ensures subscribers == old(subscribers) - moved
    {
      moved := set s | s in subscribers && s.live;
      subscribers := subscribers - moved;
    }

    /** Moves every live subscriber of `prev` here. */
    method MigrateSubscribersFrom(prev: Scene) returns (moved: set<Subscription>)
      requires Valid() && prev.Valid() && prev != this && prev.seqs != seqs
      modifies this`subscribers, prev`subscribers, prev.seqs, set s | s in prev.subscribers && s.live
      ensures Valid() && prev.Valid()
      ensures moved == set s | s in old(prev.subscribers) && old(s.live)
      ensures prev.View() == MovedOut(old(prev.View()), moved)
      ensures View() == MovedIn(old(View()), moved)
      ensures forall s :: s in moved ==> s.View() == Switched(old(prev.View()), old(View()), old(s.View()))
    {
      ghost var before, here := prev.View(), View();
      moved := prev.TakeLive();
      if moved == {} {
        assert prev.View() == before && View() == MovedIn(here, moved);
        return;
      }
      var prevSeq := prev.seqs.NextServer();
      assert prev.View() == MovedOut(before, moved);
      Admit(moved, prevSeq);
    }

    method SendSwitch(sub: Subscription, prevSeq: int, state: State, cur: int)
      requires sub.Valid()
      modifies sub
      ensures sub.Valid()
      ensures sub.View() == SceneModel.SendOrDrop(
                SceneModel.SendOrDrop(old(sub.View()), SceneChanged(id, version, prevSeq, "", None, None)),
                Frames.Snapshot(id, version, state, cur, ""))
    {
      var changed := SceneChanged(id, version, prevSeq, "", None, None);
      SendOrDrop(sub, changed);
      var snap := Frames.Snapshot(id, version, state, cur, "");
      SendOrDrop(sub, snap);
    }

    /** The loop of the migration: each subscriber is sent both frames and becomes a member. */
    method Admit(moved: set<Subscription>, prevSeq: int)
      requires forall s :: s in moved || s in subscribers ==> s.Valid()
      modifies this`subscribers, moved
      ensures subscribers == old(subscribers) + moved
      ensures forall s :: s in subscribers ==> s.Valid()
      ensures forall s :: s in moved ==>
                s.View() == SceneModel.SendOrDrop(
                  SceneModel.SendOrDrop(old(s.View()), SceneChanged(id, version, prevSeq, "", None, None)),
                  Frames.Snapshot(id, version, store.state, seqs.cur, ""))
    {
      var state := store.Snapshot();
      var cur := seqs.cur;
      ghost var x := SceneChanged(id, version, prevSeq, "", None, None);
      ghost var y := Frames.Snapshot(id, version, state, cur, "");
      var todo := moved;
      while todo != {}
        invariant todo <= moved
        invariant subscribers == old(subscribers) + (moved - todo)
        invariant forall s :: s in moved || s in old(subscribers) ==> s.Valid()
        invariant forall s :: s in todo ==> s.View() == old(s.View())
        invariant forall s :: s in moved - todo ==>
                    s.View() == SceneModel.SendOrDrop(SceneModel.SendOrDrop(old(s.View()), x), y)
      {
        var sub :| sub in todo;
        SendSwitch(sub, prevSeq, state, cur);
        subscribers := subscribers + {sub};
        todo := todo - {sub};
      }
    }
  }
}
