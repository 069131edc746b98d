/** Sequence numbers: the sender's counter and the receiver's gap check
    (src/lumencast/protocol/sequence.py). */
module Sequences {

  /** What observe_server does with a frame: let the caller proceed, tell it to drop the
      frame as a replay, or raise one of its two errors. */
  datatype Observation = Proceed | DropReplay | GapError | InvalidSeqStart

  function Observe(cur: nat, seqno: int): Observation {
    if cur == 0 then (if seqno < 1 then InvalidSeqStart else Proceed)
    else if seqno == cur + 1 then Proceed
    else if seqno <= cur then DropReplay
    else GapError
  }

  /** Only a frame the caller proceeds with moves the tracker. */
  function AfterObserve(cur: nat, seqno: int): nat {
    if Observe(cur, seqno).Proceed? then seqno else cur
  }

  function AfterSnapshot(cur: nat, seqno: int): nat {
    if seqno >= 1 then seqno else cur
  }

  /** Which frames are let through: the next one, or any first one from 1 on; 1 itself only first. */
  lemma {:induction false} ProceedExact(cur: nat, seqno: int)
    ensures Observe(cur, seqno).Proceed? <==> seqno == cur + 1 || (cur == 0 && seqno >= 1)
    ensures Observe(cur, 1).Proceed? <==> cur == 0
  {
  }

  /** What becomes of a frame: before the first one only seqs from 1 on are taken; afterwards the
      next is taken, older ones are dropped, and what skips ahead is a gap. */
  lemma {:induction false} ObserveExact(cur: nat, seqno: int)
    ensures cur == 0 ==> Observe(cur, seqno) == if seqno >= 1 then Proceed else InvalidSeqStart
    ensures cur > 0 && seqno <= cur ==> Observe(cur, seqno) == DropReplay
    ensures cur > 0 && seqno == cur + 1 ==> Observe(cur, seqno) == Proceed
    ensures cur > 0 && seqno > cur + 1 ==> Observe(cur, seqno) == GapError
    ensures AfterObserve(cur, seqno) == if Observe(cur, seqno) == Proceed then seqno else cur
    ensures AfterSnapshot(cur, seqno) == if seqno >= 1 then seqno else cur
  {
  }

  class SequenceTracker {
    var cur: nat

    constructor ()
      ensures cur == 0
    {
      cur := 0;
    }

    method NextServer() returns (seqno: nat)
      modifies this
      ensures seqno == cur == old(cur) + 1
    {
      cur := cur + 1;
      return cur;
    }

    method Reset()
      modifies this
      ensures cur == 0
    {
      cur := 0;
    }

    method ObserveServer(seqno: int) returns (o: Observation)
      modifies this
      ensures o == Observe(old(cur), seqno)
      ensures cur == AfterObserve(old(cur), seqno)
    {
      if cur == 0 {
        if seqno < 1 { return InvalidSeqStart; }
        cur := seqno;
        return Proceed;
      }
      if seqno == cur + 1 {
        cur := seqno;
        return Proceed;
      }
      if seqno <= cur { return DropReplay; }
      return GapError;
    }

    method ObserveSnapshot(seqno: int)
      modifies this
      ensures cur == AfterSnapshot(old(cur), seqno)
    {
      if seqno >= 1 { cur := seqno; }
    }
  }
}
