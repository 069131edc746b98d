/** The authoritative leaf map of a scene (src/lumencast/server/store.py). */
module Stores {
  import opened Wrappers
  import opened JsonValues
  import opened Frames

  /** One item of a Python dict of patches; a dict is a list of these with distinct paths. */
  datatype Entry = Entry(path: string, value: Json)

  /** The entries written over the state, left to right. */
  function Apply(state: State, entries: seq<Entry>): State
    decreases |entries|
  {
    if entries == [] then state
    else Apply(state[entries[0].path := entries[0].value], entries[1..])
  }

  /** The wire patches of an emission carry no transition. */
  function Wire(entries: seq<Entry>): (ps: seq<Patch>)
    ensures |ps| == |entries|
  {
    seq(|entries|, i requires 0 <= i < |entries| => Patch(entries[i].path, entries[i].value, None))
  }

  function EntriesOf(patches: seq<Patch>): (es: seq<Entry>)
    ensures |es| == |patches|
  {
    seq(|patches|, i requires 0 <= i < |patches| => Entry(patches[i].path, patches[i].value))
  }

  function ApplyPatches(state: State, patches: seq<Patch>): State {
    Apply(state, EntriesOf(patches))
  }

  lemma {:induction false} EntriesOfWire(entries: seq<Entry>)
    ensures EntriesOf(Wire(entries)) == entries
  {
  }

  lemma {:induction false} ApplySplit(state: State, a: seq<Entry>, b: seq<Entry>)
    ensures Apply(state, a + b) == Apply(Apply(state, a), b)
    decreases |a|
  {
    if a == [] {
      assert a + b == b;
    } else {
      assert (a + b)[1..] == a[1..] + b;
      ApplySplit(state[a[0].path := a[0].value], a[1..], b);
    }
  }

  predicate Mentions(entries: seq<Entry>, path: string) {
    exists i :: 0 <= i < |entries| && entries[i].path == path
  }

  /** A path no entry mentions keeps its value, or its absence. */
  lemma {:induction false} ApplyElsewhere(state: State, entries: seq<Entry>, path: string)
    requires !Mentions(entries, path)
    ensures path in Apply(state, entries) <==> path in state
    ensures path in state ==> Apply(state, entries)[path] == state[path]
    decreases |entries|
  {
    if entries != [] {
      assert entries[0].path != path;
      forall i | 0 <= i < |entries[1..]| ensures entries[1..][i].path != path {
        assert entries[1..][i] == entries[i+1];
      }
      ApplyElsewhere(state[entries[0].path := entries[0].value], entries[1..], path);
    }
  }

  /** Where a path is mentioned, the new value is that of the last entry for it. */
  lemma {:induction false} ApplyMentioned(state: State, entries: seq<Entry>, path: string) returns (i: nat)
    requires Mentions(entries, path)
    ensures i < |entries| && entries[i].path == path
    ensures forall j :: i < j < |entries| ==> entries[j].path != path
    ensures path in Apply(state, entries) && Apply(state, entries)[path] == entries[i].value
    decreases |entries|
  {
    var next := state[entries[0].path := entries[0].value];
    if Mentions(entries[1..], path) {
      var j := ApplyMentioned(next, entries[1..], path);
      i := j + 1;
      assert forall k :: i < k < |entries| ==> entries[k] == entries[1..][k-1];
    } else {
      assert forall k :: 0 < k < |entries| ==> entries[k] == entries[1..][k-1];
      MentionsTail(entries, path);
      ApplyElsewhere(next, entries[1..], path);
      i := 0;
    }
  }

  // ------------------------------------------------- dicts built from patch lists

  /** d[e.path] = e.value on an insertion-ordered dict. */
  function DictPut(d: seq<Entry>, e: Entry): seq<Entry> {
    if d == [] then [e]
    else if d[0].path == e.path then [e] + d[1..]
    else [d[0]] + DictPut(d[1..], e)
  }

  /** {p.path: p.value for p in patches}: a later patch for a path replaces an earlier one. */
  function Collapse(patches: seq<Patch>): seq<Entry>
    decreases |patches|
  {
    if patches == [] then []
    else
      var last := patches[|patches|-1];
      DictPut(Collapse(patches[..|patches|-1]), Entry(last.path, last.value))
  }

  ghost predicate DistinctPaths(d: seq<Entry>) {
    forall i, j :: 0 <= i < j < |d| ==> d[i].path != d[j].path
  }

  lemma {:induction false} DictPutDistinct(d: seq<Entry>, e: Entry)
    requires DistinctPaths(d)
    ensures DistinctPaths(DictPut(d, e))
    ensures forall p :: Mentions(DictPut(d, e), p) <==> Mentions(d, p) || p == e.path
    decreases |d|
  {
    var r := DictPut(d, e);
    if d == [] {
      assert r[0] == e;
    } else if d[0].path == e.path {
      assert forall i :: 0 < i < |d| ==> r[i] == d[i];
      forall p ensures Mentions(r, p) <==> Mentions(d, p) || p == e.path {
        assert r[0] == e;
      }
    } else {
      var t := d[1..];
      DictPutDistinct(t, e);
      assert r[0] == d[0] && r[1..] == DictPut(t, e);
      forall p ensures Mentions(r, p) <==> Mentions(d, p) || p == e.path {
        MentionsTail(d, p);
        MentionsTail(r, p);
      }
      assert !Mentions(t, d[0].path);
      assert !Mentions(r[1..], d[0].path);
      assert forall i :: 0 < i < |r| ==> r[i] == r[1..][i-1];
    }
  }

  lemma {:induction false} MentionsTail(d: seq<Entry>, p: string)
    requires d != []
    ensures Mentions(d, p) <==> d[0].path == p || Mentions(d[1..], p)
  {
    if Mentions(d, p) {
      var i :| 0 <= i < |d| && d[i].path == p;
      assert i == 0 || d[1..][i-1].path == p;
    }
  }

  /** A key keeps its place and gets the new value, or comes last. */
  lemma {:induction false} DictPutExact(d: seq<Entry>, e: Entry)
    requires DistinctPaths(d)
    ensures Mentions(d, e.path) ==> |DictPut(d, e)| == |d|
    ensures Mentions(d, e.path) ==>
      forall i :: 0 <= i < |d| ==> DictPut(d, e)[i] == if d[i].path == e.path then e else d[i]
    ensures !Mentions(d, e.path) ==> DictPut(d, e) == d + [e]
    decreases |d|
  {
    if d != [] {
      var t := d[1..];
      MentionsTail(d, e.path);
      if d[0].path == e.path {
        assert forall i :: 0 < i < |d| ==> d[i].path != e.path;
      } else {
        DictPutExact(t, e);
        assert forall i :: 0 < i < |d| ==> d[i] == t[i-1];
        assert d == [d[0]] + t;
      }
    }
  }

  /** The first index at which the list has the path, or its length. */
  function FirstMention(patches: seq<Patch>, path: string): (k: nat)
    ensures k <= |patches| && (k < |patches| ==> patches[k].path == path)
    ensures forall j :: 0 <= j < k ==> patches[j].path != path
  {
    if patches == [] then 0
    else
      var k := FirstMention(patches[..|patches|-1], path);
      if k < |patches| - 1 || patches[k].path == path then k else |patches|
  }

  predicate LastMention(patches: seq<Patch>, k: int, path: string) {
    0 <= k < |patches| && patches[k].path == path && forall j :: k < j < |patches| ==> patches[j].path != path
  }

  /** The entry has the value of the last patch for its path. */
  ghost predicate LastValue(patches: seq<Patch>, e: Entry) {
    exists k :: LastMention(patches, k, e.path) && e.value == patches[k].value
  }

  /** Each path mentioned, in the order of first mention, has the value of its last mention. */
  ghost predicate DictOf(patches: seq<Patch>, d: seq<Entry>) {
    && DistinctPaths(d)
    && (forall p :: Mentions(d, p) <==> FirstMention(patches, p) < |patches|)
    && (forall i, j :: 0 <= i < j < |d| ==> FirstMention(patches, d[i].path) < FirstMention(patches, d[j].path))
    && (forall i :: 0 <= i < |d| ==> LastValue(patches, d[i]))
  }

  lemma {:induction false} FirstSnoc(init: seq<Patch>, p: Patch, path: string)
    ensures FirstMention(init + [p], path) ==
      if FirstMention(init, path) < |init| then FirstMention(init, path)
      else if path == p.path then |init| else |init| + 1
  {
    assert (init + [p])[..|init|] == init;
  }

  lemma {:induction false} LastSnoc(init: seq<Patch>, p: Patch, e: Entry)
    ensures e == Entry(p.path, p.value) ==> LastValue(init + [p], e)
    ensures e.path != p.path && LastValue(init, e) ==> LastValue(init + [p], e)
  {
    var patches := init + [p];
    if e == Entry(p.path, p.value) {
      assert LastMention(patches, |init|, p.path);
    } else if e.path != p.path && LastValue(init, e) {
      var k :| LastMention(init, k, e.path) && e.value == init[k].value;
      assert LastMention(patches, k, e.path);
    }
  }

  lemma {:induction false} ValuesSnoc(init: seq<Patch>, d: seq<Entry>, p: Patch, i: nat)
    requires DistinctPaths(d) && (forall j :: 0 <= j < |d| ==> LastValue(init, d[j]))
    requires i < |DictPut(d, Entry(p.path, p.value))|
    ensures LastValue(init + [p], DictPut(d, Entry(p.path, p.value))[i])
  {
    var e := Entry(p.path, p.value);
    DictPutExact(d, e);
    LastSnoc(init, p, DictPut(d, e)[i]);
    if i < |d| && d[i].path == p.path { assert Mentions(d, p.path); }
  }

  lemma {:induction false} FirstsRise(init: seq<Patch>, d: seq<Entry>, p: Patch, i: nat, j: nat)
    requires DistinctPaths(d) && i < j < |DictPut(d, Entry(p.path, p.value))|
    requires forall q :: Mentions(d, q) <==> FirstMention(init, q) < |init|
    requires j < |d| ==> FirstMention(init, d[i].path) < FirstMention(init, d[j].path)
    ensures var r := DictPut(d, Entry(p.path, p.value));
      FirstMention(init + [p], r[i].path) < FirstMention(init + [p], r[j].path)
  {
    DictPutExact(d, Entry(p.path, p.value));
    FirstSnoc(init, p, d[i].path);
    assert Mentions(d, d[i].path);
    if j < |d| {
      FirstSnoc(init, p, d[j].path);
      assert Mentions(d, d[j].path);
    } else {
      FirstSnoc(init, p, p.path);
    }
  }

  lemma {:induction false} DictOfSnoc(init: seq<Patch>, d: seq<Entry>, p: Patch)
    requires DictOf(init, d)
    ensures DictOf(init + [p], DictPut(d, Entry(p.path, p.value)))
  {
    var e, patches := Entry(p.path, p.value), init + [p];
    var r := DictPut(d, e);
    DictPutDistinct(d, e);
    forall q ensures Mentions(r, q) <==> FirstMention(patches, q) < |patches| { FirstSnoc(init, p, q); }
    forall i | 0 <= i < |r| ensures LastValue(patches, r[i]) { ValuesSnoc(init, d, p, i); }
    forall i, j | 0 <= i < j < |r| ensures FirstMention(patches, r[i].path) < FirstMention(patches, r[j].path) {
      if j < |d| { assert FirstMention(init, d[i].path) < FirstMention(init, d[j].path); }
      FirstsRise(init, d, p, i, j);
    }
  }

  /** What the dict comprehension over a patch list is, without building it. */
  lemma {:induction false} CollapseExact(patches: seq<Patch>)
    ensures DictOf(patches, Collapse(patches))
  {
    if patches != [] {
      var init, last := patches[..|patches|-1], patches[|patches|-1];
      CollapseExact(init);
      DictOfSnoc(init, Collapse(init), last);
      assert patches == init + [last];
    }
  }

  lemma {:induction false} ApplyLater(state: State, d: seq<Entry>, e: Entry)
    requires !Mentions(d, e.path)
    ensures Apply(state[e.path := e.value], d) == Apply(state, d)[e.path := e.value]
    decreases |d|
  {
    if d != [] {
      MentionsTail(d, e.path);
      ApplyLater(state[d[0].path := d[0].value], d[1..], e);
      assert state[e.path := e.value][d[0].path := d[0].value] == state[d[0].path := d[0].value][e.path := e.value];
    }
  }

  lemma {:induction false} ApplyDictPut(state: State, d: seq<Entry>, e: Entry)
    requires DistinctPaths(d)
    ensures Apply(state, DictPut(d, e)) == Apply(state, d)[e.path := e.value]
    decreases |d|
  {
    if d != [] {
      if d[0].path == e.path {
        assert !Mentions(d[1..], e.path);
        ApplyLater(state, d[1..], e);
        ApplyLater(state, d[1..], d[0]);
        assert ([e] + d[1..])[1..] == d[1..];
        assert Apply(state, d) == Apply(state, d[1..])[e.path := d[0].value];
      } else {
        ApplyDictPut(state[d[0].path := d[0].value], d[1..], e);
      }
    }
  }

  /** Collapsing repeated paths into a dict loses nothing: applying the dict equals
      applying the raw patch list left to right. */
  lemma {:induction false} CollapseApplies(state: State, patches: seq<Patch>)
    ensures DistinctPaths(Collapse(patches))
    ensures Apply(state, Collapse(patches)) == ApplyPatches(state, patches)
    ensures forall p :: Mentions(Collapse(patches), p) <==> Mentions(EntriesOf(patches), p)
    ensures patches != [] ==> Collapse(patches) != []
    decreases |patches|
  {
    if patches != [] {
      var init, last := patches[..|patches|-1], patches[|patches|-1];
      var e := Entry(last.path, last.value);
      CollapseApplies(state, init);
      DictPutDistinct(Collapse(init), e);
      ApplyDictPut(state, Collapse(init), e);
      assert EntriesOf(patches) == EntriesOf(init) + [e];
      ApplySplit(state, EntriesOf(init), [e]);
      var es := EntriesOf(patches);
      forall p ensures Mentions(es, p) <==> Mentions(EntriesOf(init), p) || p == e.path {
        assert es[|es|-1] == e;
        assert forall i :: 0 <= i < |init| ==> es[i] == EntriesOf(init)[i];
      }
    }
  }

  /** An entry of the dict carries the value of one of the patches for its path. */
  lemma {:induction false} CollapseEntry(patches: seq<Patch>, k: nat) returns (i: nat)
    requires k < |Collapse(patches)|
    ensures i < |patches|
    ensures Collapse(patches)[k] == Entry(patches[i].path, patches[i].value)
    decreases |patches|
  {
    var init, last := patches[..|patches|-1], patches[|patches|-1];
    var e := Entry(last.path, last.value);
    if Collapse(patches)[k] == e {
      i := |patches| - 1;
    } else {
      DictPutKeeps(Collapse(init), e, k);
      i := CollapseEntry(init, k);
    }
  }

  lemma {:induction false} DictPutKeeps(d: seq<Entry>, e: Entry, k: nat)
    requires k < |DictPut(d, e)| && DictPut(d, e)[k] != e
    ensures k < |d| && DictPut(d, e)[k] == d[k]
    decreases |d|
  {
    if d != [] && d[0].path != e.path && k > 0 {
      DictPutKeeps(d[1..], e, k - 1);
    }
  }

  // ------------------------------------------------------------------- the class

  class Store {
    var state: State

    constructor ()
      ensures state == map[]
    {
      state := map[];
    }

    /** A defensive copy of the state. */
    method Snapshot() returns (copy: State)
      ensures copy == state
    {
      copy := state;
    }

    /** Err when the dict is empty; otherwise the applied records, in iteration order. */
    method ApplyDict(entries: seq<Entry>) returns (r: Result<seq<Entry>, string>)
      modifies this
      ensures entries == [] <==> r.Err?
      ensures r.Ok? ==> r.value == entries
      ensures state == Apply(old(state), entries)
    {
      if entries == [] { return Err("store: empty patches"); }
      var out := [];
      for i := 0 to |entries|
        invariant out == entries[..i]
        invariant Apply(old(state), entries) == Apply(state, entries[i..])
      {
        state := state[entries[i].path := entries[i].value];
        out := out + [entries[i]];
        assert entries[i..][1..] == entries[i+1..];
      }
      return Ok(out);
    }

    method Reset()
      modifies this
      ensures state == map[]
    {
      state := map[];
    }
  }
}
