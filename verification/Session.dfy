/** One WebSocket session as the order of its sends (src/lumencast/server/ws_handler.py): the
    subscription, its initial frames, and only then the writer on the queue. */
module Sessions {
  import opened Wrappers
  import opened JsonValues
  import opened Frames
  import opened Replays
  import opened SceneModel
  import opened Scenes
  import opened Clients

  /** The frames a writer sends before the sentinel stops it. */
  function Sendable(items: seq<Item>): seq<ServerFrame>
    decreases |items|
  {
    if items == [] || items[0].Sentinel? then [] else [items[0].frame] + Sendable(items[1..])
  }

  /** Every frame before the first sentinel, in order, and nothing else. */
  lemma {:induction false} SendableExact(items: seq<Item>, k: nat)
    requires k <= |items| && (k == |items| || items[k].Sentinel?)
    requires forall i :: 0 <= i < k ==> items[i].Frame?
    ensures |Sendable(items)| == k
    ensures forall i :: 0 <= i < k ==> Sendable(items)[i] == items[i].frame
    decreases |items|
  {
    if k > 0 {
      assert forall i :: 0 <= i < k - 1 ==> items[1..][i] == items[i+1];
      SendableExact(items[1..], k - 1);
      forall i | 0 <= i < k ensures Sendable(items)[i] == items[i].frame {
        if i > 0 { assert Sendable(items)[i] == Sendable(items[1..])[i-1]; }
      }
    }
  }

  lemma {:induction false} DeltasSent(records: seq<ReplayRecord>)
    ensures |Sendable(Deltas(records))| == |records|
    ensures forall i :: 0 <= i < |records| ==>
      Sendable(Deltas(records))[i] == Delta(records[i].patches, records[i].seqno, "", records[i].cause)
  {
    SendableExact(Deltas(records), |records|);
  }

  /** sent holds what it held before, followed by exactly the first k items, as frames. */
  predicate SentFirst(before: seq<ServerFrame>, items: seq<Item>, k: nat, sent: seq<ServerFrame>) {
    && k <= |items| && |sent| == |before| + k
    && (forall i :: 0 <= i < |before| ==> sent[i] == before[i])
    && (forall i :: 0 <= i < k ==> items[i] == Frame(sent[|before| + i]))
  }

  lemma {:induction false} SendableSent(before: seq<ServerFrame>, items: seq<Item>, sent: seq<ServerFrame>)
    requires sent == before + Sendable(items)
    ensures Sentinel !in items ==> SentFirst(before, items, |items|, sent)
    ensures forall k :: 0 <= k < |items| && items[k].Sentinel? && Sentinel !in items[..k] ==>
      SentFirst(before, items, k, sent)
  {
    forall k | 0 <= k <= |items| && (k == |items| || items[k].Sentinel?) && Sentinel !in items[..k]
      ensures SentFirst(before, items, k, sent)
    {
      forall i | 0 <= i < k ensures items[i].Frame? { assert items[..k][i] in items[..k]; }
      SendableExact(items, k);
    }
    assert items[..|items|] == items;
  }

  function FoldedFrames(shadow: State, frames: seq<ServerFrame>): State
    decreases |frames|
  {
    if frames == [] then shadow else FoldedFrames(Absorb(shadow, frames[0]), frames[1..])
  }

  /** A client that absorbs what an open session sends folds exactly its pending items. */
  lemma {:induction false} SentIsFolded(shadow: State, items: seq<Item>)
    requires Sentinel !in items
    ensures FoldedFrames(shadow, Sendable(items)) == Folded(shadow, items)
    decreases |items|
  {
    if items != [] {
      assert items[0] in items;
      SentIsFolded(Absorb(shadow, items[0].frame), items[1..]);
    }
  }

  class Session {
    const sub: Subscription
    var sent: seq<ServerFrame>
    var cancelled: bool

    /** handle_ws up to the start of the writer. */
    constructor (scene: Scene, live: bool, since: Option<int>)
      requires scene.Valid()
      modifies scene
      ensures scene.Valid() && sub.Valid() && fresh(sub)
      ensures scene.View() == Joined(old(scene.View()), sub) && sub.View() == NewPipe(live)
      ensures !cancelled
      ensures var opening := Open(old(scene.View()), since);
        && sent == Sendable(InitialItems(opening))
        && (opening.Fresh? ==>
              sent == [Snapshot(scene.id, scene.version, old(scene.store.state), old(scene.seqs.cur), "")])
        && (opening.Resumed? ==>
              && |sent| == |opening.records|
              && forall i :: 0 <= i < |sent| ==>
                   sent[i] == Delta(opening.records[i].patches, opening.records[i].seqno, "", opening.records[i].cause))
    {
      var s, opening := scene.SubscribeWithResume(live, since);
      sub, sent, cancelled := s, [], false;
      new;
      match opening {
        case Fresh(snap) =>
          sent := sent + [snap];
          assert InitialItems(opening)[1..] == [];
        case Resumed(records) =>
          SendReplay(records);
          DeltasSent(records);
      }
    }

    method SendReplay(records: seq<ReplayRecord>)
      modifies this`sent
      ensures sent == old(sent) + Sendable(Deltas(records))
      ensures |sent| == |old(sent)| + |records|
      ensures forall i :: 0 <= i < |records| ==>
        sent[|old(sent)| + i] == Delta(records[i].patches, records[i].seqno, "", records[i].cause)
    {
      DeltasSent(records);
      ghost var items := Deltas(records);
      for i := 0 to |records|
        invariant sent + Sendable(items[i..]) == old(sent) + Sendable(items)
      {
        assert items[i..][0] == Frame(DeltaOf(records[i])) && items[i..][1..] == items[i+1..];
        sent := sent + [DeltaOf(records[i])];
      }
    }

    /** The writer until the queue is empty: it sends each frame in order and stops at the
        first sentinel. */
    method Writer()
      requires sub.Valid() && !cancelled
      modifies this, sub
      ensures sub.Valid()
      ensures sent == old(sent) + Sendable(old(sub.queue))
      ensures Sentinel !in old(sub.queue) ==> SentFirst(old(sent), old(sub.queue), |old(sub.queue)|, sent)
      ensures var queue := old(sub.queue);
        forall k :: 0 <= k < |queue| && queue[k].Sentinel? && Sentinel !in queue[..k] ==>
          SentFirst(old(sent), queue, k, sent)
      ensures cancelled <==> Sentinel in old(sub.queue)
      ensures !cancelled ==> sub.queue == []
    {
      while !cancelled && sub.queue != []
        invariant sub.Valid()
        invariant cancelled ==> sent == old(sent) + Sendable(old(sub.queue)) && Sentinel in old(sub.queue)
        invariant !cancelled ==> sent + Sendable(sub.queue) == old(sent) + Sendable(old(sub.queue))
        invariant !cancelled ==> (Sentinel in sub.queue <==> Sentinel in old(sub.queue))
        decreases !cancelled, |sub.queue|
      {
        var item := sub.GetNowait();
        match item.value {
          case Sentinel => cancelled := true;
          case Frame(frame) => sent := sent + [frame];
        }
      }
      SendableSent(old(sent), old(sub.queue), sent);
    }
  }
}
