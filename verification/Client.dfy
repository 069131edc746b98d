/** The receiving side: the shadow state of the conformance runner
    (src/lumencast/conformance/harness.py) and a receiver that heeds the gap check
    (src/lumencast/protocol/sequence.py). */
module Clients {
  import opened JsonValues
  import opened Frames
  import opened Stores
  import opened Sequences
  import opened SceneModel

  function Absorb(shadow: State, frame: ServerFrame): State {
    match frame
    case Snapshot(_, _, state, _, _) => state
    case Delta(patches, _, _, _) => ApplyPatches(shadow, patches)
    case _ => shadow
  }

  class Shadow {
    var state: State

    method AbsorbServerFrame(frame: ServerFrame)
      modifies this
      ensures state == Absorb(old(state), frame)
    {
      if frame.Snapshot? {
        state := map[];
        state := state + frame.state;
        assert state == frame.state;
      } else if frame.Delta? {
        ghost var es := EntriesOf(frame.patches);
        for i := 0 to |frame.patches|
          invariant Apply(old(state), es) == Apply(state, es[i..])
        {
          state := state[frame.patches[i].path := frame.patches[i].value];
          assert es[i..][1..] == es[i+1..];
        }
      }
    }
  }

  /** One client seen twice: `shadow` folds every frame it is sent, while `state` applies a
      frame only when the tracker says to proceed. After a gap (or an invalid first seq) the
      checked client stops; `dropped` records that it discarded a frame as a replay. */
  datatype Receiver = Receiver(shadow: State, tracker: nat, state: State, gap: bool, dropped: bool)

  const FRESH: Receiver := Receiver(map[], 0, map[], false, false)

  function Checked(rx: Receiver, seqno: int, next: State): Receiver {
    match Observe(rx.tracker, seqno)
    case Proceed => rx.(tracker := AfterObserve(rx.tracker, seqno), state := next)
    case DropReplay => rx.(dropped := true)
    case _ => rx.(gap := true)
  }

  function Receive(rx: Receiver, item: Item): Receiver {
    match item
    case Sentinel => rx
    case Frame(frame) =>
      var rx' := rx.(shadow := Absorb(rx.shadow, frame));
      if rx.gap then rx'
      else
        match frame
        case Snapshot(_, _, state, seqno, _) => rx'.(tracker := AfterSnapshot(rx.tracker, seqno), state := state)
        case Delta(patches, seqno, _, _) => Checked(rx', seqno, ApplyPatches(rx.state, patches))
        case SceneChanged(_, _, seqno, _, _, _) => Checked(rx', seqno, rx.state)
        case _ => rx'
  }

  function Walk(rx: Receiver, items: seq<Item>): Receiver
    decreases |items|
  {
    if items == [] then rx else Walk(Receive(rx, items[0]), items[1..])
  }

  lemma {:induction false} WalkSplit(rx: Receiver, a: seq<Item>, b: seq<Item>)
    ensures Walk(rx, a + b) == Walk(Walk(rx, a), b)
    decreases |a|
  {
    if a == [] {
      assert a + b == b;
    } else {
      assert (a + b)[1..] == a[1..] + b;
      WalkSplit(Receive(rx, a[0]), a[1..], b);
    }
  }

  lemma {:induction false} WalkSnoc(rx: Receiver, a: seq<Item>, x: Item)
    ensures Walk(rx, a + [x]) == Receive(Walk(rx, a), x)
  {
    WalkSplit(rx, a, [x]);
  }

  /** What the conformance runner's shadow becomes. */
  function Folded(shadow: State, items: seq<Item>): State
    decreases |items|
  {
    if items == [] then shadow
    else Folded(if items[0].Frame? then Absorb(shadow, items[0].frame) else shadow, items[1..])
  }

  lemma {:induction false} WalkFolds(rx: Receiver, items: seq<Item>)
    ensures Walk(rx, items).shadow == Folded(rx.shadow, items)
    decreases |items|
  {
    if items != [] { WalkFolds(Receive(rx, items[0]), items[1..]); }
  }

  lemma {:induction false} FoldedSnoc(shadow: State, items: seq<Item>, frame: ServerFrame)
    ensures Folded(shadow, items + [Frame(frame)]) == Absorb(Folded(shadow, items), frame)
  {
    var rx := Receiver(shadow, 0, map[], false, false);
    WalkSnoc(rx, items, Frame(frame));
    WalkFolds(rx, items + [Frame(frame)]);
    WalkFolds(rx, items);
  }

  /** A gap, and a dropped frame, are never forgotten. */
  lemma {:induction false} WalkKeepsFlags(rx: Receiver, items: seq<Item>)
    ensures rx.gap ==> Walk(rx, items).gap
    ensures rx.dropped ==> Walk(rx, items).dropped
    decreases |items|
  {
    if items != [] { WalkKeepsFlags(Receive(rx, items[0]), items[1..]); }
  }

  /** A checked client that has stopped, has not started, or holds a pair (seq, state)
      that is among those its server has been in. */
  predicate Right(rx: Receiver, seen: set<(nat, State)>) {
    rx.gap || rx.tracker == 0 || (rx.tracker, rx.state) in seen
  }

  /** Right now, and after each of the items still to come. */
  predicate AllRight(rx: Receiver, items: seq<Item>, seen: set<(nat, State)>)
    decreases |items|
  {
    Right(rx, seen) && (items == [] || AllRight(Receive(rx, items[0]), items[1..], seen))
  }

  lemma {:induction false} AllRightMono(rx: Receiver, items: seq<Item>, seen: set<(nat, State)>,
                                        more: set<(nat, State)>)
    requires AllRight(rx, items, seen) && seen <= more
    ensures AllRight(rx, items, more)
    decreases |items|
  {
    if items != [] { AllRightMono(Receive(rx, items[0]), items[1..], seen, more); }
  }

  lemma {:induction false} AllRightSnoc(rx: Receiver, items: seq<Item>, x: Item, seen: set<(nat, State)>)
    requires AllRight(rx, items, seen) && Right(Receive(Walk(rx, items), x), seen)
    ensures AllRight(rx, items + [x], seen)
    decreases |items|
  {
    if items == [] {
      assert items + [x] == [x];
      assert [x][1..] == [];
    } else {
      assert (items + [x])[1..] == items[1..] + [x];
      AllRightSnoc(Receive(rx, items[0]), items[1..], x, seen);
    }
  }
}
