/** The bounded ring of recent emissions (src/lumencast/server/replay_buffer.py), and the
    unbounded log it stands in for. */
module Replays {
  import opened Wrappers
  import opened Frames

  const DEFAULT_REPLAY_BUFFER_SIZE: nat := 256

  datatype ReplayRecord = ReplayRecord(seqno: int, patches: seq<Patch>, cause: Option<Cause>)

  datatype ReplaySlice = ReplaySlice(records: seq<ReplayRecord>, covered: bool)

  /** Appending to a deque of bounded length drops the oldest record when it is full. */
  function RingPush(ring: seq<ReplayRecord>, capacity: nat, r: ReplayRecord): seq<ReplayRecord>
    requires capacity > 0
  {
    var all := ring + [r];
    if |all| > capacity then all[1..] else all
  }

  function After(records: seq<ReplayRecord>, since: int): seq<ReplayRecord> {
    if records == [] then []
    else (if records[0].seqno > since then [records[0]] else []) + After(records[1..], since)
  }

  function Since(ring: seq<ReplayRecord>, since: int): ReplaySlice {
    if ring == [] then ReplaySlice([], true)
    else if since + 1 < ring[0].seqno then ReplaySlice([], false)
    else ReplaySlice(After(ring, since), true)
  }

  // ------------------------------------------------------- refinement of the log

  ghost predicate Increasing(records: seq<ReplayRecord>) {
    forall i, j :: 0 <= i < j < |records| ==> records[i].seqno < records[j].seqno
  }

  function LastOf(records: seq<ReplayRecord>, n: nat): seq<ReplayRecord> {
    if |records| <= n then records else records[|records|-n..]
  }

  /** The ring after pushing every record of the log, oldest first. */
  function PushAll(log: seq<ReplayRecord>, capacity: nat): seq<ReplayRecord>
    requires capacity > 0
  {
    if log == [] then []
    else RingPush(PushAll(log[..|log|-1], capacity), capacity, log[|log|-1])
  }

  lemma {:induction false} RingPushKeepsLast(log: seq<ReplayRecord>, capacity: nat, r: ReplayRecord)
    requires capacity > 0
    ensures RingPush(LastOf(log, capacity), capacity, r) == LastOf(log + [r], capacity)
  {
  }

  /** However many records were pushed, the ring holds the last `capacity` of them in order. */
  lemma {:induction false} RingHoldsLast(log: seq<ReplayRecord>, capacity: nat)
    requires capacity > 0
    ensures PushAll(log, capacity) == LastOf(log, capacity)
  {
    if log != [] {
      var init := log[..|log|-1];
      RingHoldsLast(init, capacity);
      RingPushKeepsLast(init, capacity, log[|log|-1]);
      assert init + [log[|log|-1]] == log;
    }
  }

  lemma {:induction false} AfterSplit(a: seq<ReplayRecord>, b: seq<ReplayRecord>, since: int)
    ensures After(a + b, since) == After(a, since) + After(b, since)
  {
    if a == [] {
      assert a + b == b;
    } else {
      assert (a + b)[1..] == a[1..] + b;
      AfterSplit(a[1..], b, since);
    }
  }

  lemma {:induction false} AfterNone(records: seq<ReplayRecord>, since: int)
    requires forall r :: r in records ==> r.seqno <= since
    ensures After(records, since) == []
  {
    if records != [] { AfterNone(records[1..], since); }
  }

  lemma {:induction false} AfterAll(records: seq<ReplayRecord>, since: int)
    requires forall r :: r in records ==> r.seqno > since
    ensures After(records, since) == records
  {
    if records != [] { AfterAll(records[1..], since); }
  }

  lemma {:induction false} LastOfIsComplete(log: seq<ReplayRecord>, capacity: nat, since: int)
    requires capacity > 0 && Increasing(log)
    ensures var ring := LastOf(log, capacity);
      && (Since(ring, since).covered <==> log == [] || since + 1 >= ring[0].seqno)
      && (Since(ring, since).covered ==> Since(ring, since).records == After(log, since))
  {
    var ring := LastOf(log, capacity);
    var older := log[..|log| - |ring|];
    assert log == older + ring;
    if log != [] && since + 1 >= ring[0].seqno {
      forall r | r in older ensures r.seqno <= since {
        var i :| 0 <= i < |older| && older[i] == r;
        assert log[i] == r && log[|older|] == ring[0];
      }
      AfterNone(older, since);
      AfterSplit(older, ring, since);
    }
  }

  /** Whenever the ring claims coverage, it returns every record ever pushed after `since`. */
  lemma {:induction false} CoveredIsComplete(log: seq<ReplayRecord>, capacity: nat, since: int)
    requires capacity > 0 && Increasing(log)
    ensures var ring := PushAll(log, capacity);
      && (Since(ring, since).covered <==>
            log == [] || since + 1 >= log[if |log| > capacity then |log| - capacity else 0].seqno)
      && (Since(ring, since).covered ==> Since(ring, since).records == After(log, since))
  {
    RingHoldsLast(log, capacity);
    LastOfIsComplete(log, capacity, since);
  }

  lemma {:induction false} AfterMembers(log: seq<ReplayRecord>, since: int)
    ensures forall r :: r in After(log, since) ==> r in log && r.seqno > since
  {
    if log != [] { AfterMembers(log[1..], since); }
  }

  lemma {:induction false} AfterKeeps(log: seq<ReplayRecord>, since: int, r: ReplayRecord)
    requires r in log && r.seqno > since
    ensures r in After(log, since)
  {
    if log[0] != r { AfterKeeps(log[1..], since, r); }
  }

  lemma {:induction false} IncreasingCons(r: ReplayRecord, rest: seq<ReplayRecord>)
    requires Increasing(rest) && forall x :: x in rest ==> r.seqno < x.seqno
    ensures Increasing([r] + rest)
  {
    var all := [r] + rest;
    forall i, j | 0 <= i < j < |all| ensures all[i].seqno < all[j].seqno {
      assert all[j] == rest[j-1] && rest[j-1] in rest;
    }
  }

  lemma {:induction false} AfterOrdered(log: seq<ReplayRecord>, since: int)
    requires Increasing(log)
    ensures Increasing(After(log, since))
  {
    if log != [] {
      assert Increasing(log[1..]);
      AfterOrdered(log[1..], since);
      if log[0].seqno > since {
        AfterMembers(log[1..], since);
        forall x | x in After(log[1..], since) ensures log[0].seqno < x.seqno { assert x in log[1..]; }
        IncreasingCons(log[0], After(log[1..], since));
      } else {
        assert [] + After(log[1..], since) == After(log[1..], since);
      }
    }
  }

  // ------------------------------------------------------------------- the class

  class ReplayBuffer {
    const capacity: nat
    var records: seq<ReplayRecord>

    constructor (requested: int := DEFAULT_REPLAY_BUFFER_SIZE)
      ensures Valid() && records == []
      ensures capacity == if requested > 0 then requested else 256
    {
      capacity := if requested > 0 then requested else DEFAULT_REPLAY_BUFFER_SIZE;
      records := [];
    }

    ghost predicate Valid()
      reads this
    {
      capacity > 0 && |records| <= capacity
    }

    method Push(r: ReplayRecord)
      requires Valid()
      modifies this
      ensures Valid()
      ensures records == RingPush(old(records), capacity, r)
    {
      if |records| == capacity { records := records[1..]; }
      records := records + [r];
    }

    method RecordsSince(since: int) returns (slice: ReplaySlice)
      ensures slice == Since(records, since)
    {
      if records == [] { return ReplaySlice([], true); }
      if since + 1 < records[0].seqno { return ReplaySlice([], false); }
      var out := After(records, since);
      return ReplaySlice(out, true);
    }

    method Reset()
      requires Valid()
      modifies this
      ensures Valid() && records == []
    {
      records := [];
    }
  }
}
