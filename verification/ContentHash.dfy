/** Content addresses of bundles (src/lumencast/lsml/hash.py, LSML 1.0 section 3). */
module ContentHash {
  import opened Wrappers
  import opened Decimals
  import opened Canonical
  import opened Utf8

  const SCENE_VERSION := "scene_version"

  const ZERO_HASH := "sha256:" + Zeros(64)

  /** The sentinel is the prefix and 64 zeros. */
  lemma {:induction false} SentinelText()
    ensures |ZERO_HASH| == 71 && ZERO_HASH[..7] == "sha256:"
    ensures forall i :: 7 <= i < 71 ==> ZERO_HASH[i] == '0'
  {
    assert forall i :: 7 <= i < 71 ==> ZERO_HASH[i] == Zeros(64)[i-7];
  }

  /** An address is the prefix and the digest of the bytes; a bundle without a canonical text
      has none. */
  lemma {:induction false} AddressText(sha: seq<byte> -> string, bundle: Doc)
    requires IsDoc(bundle)
    ensures HashInline(sha, bundle).Err? <==> !Supported(ReplaceSceneVersion(bundle))
    ensures Supported(ReplaceSceneVersion(bundle)) ==>
      IsDoc(ReplaceSceneVersion(bundle))
      && HashInline(sha, bundle) == Ok("sha256:" + sha(Encode(Text(ReplaceSceneVersion(bundle)))))
  {
    ReplaceIsDoc(bundle);
  }

  /** Only a top-level key that is there is replaced, and only its value. */
  lemma {:induction false} ReplacedExact(members: seq<Member>)
    requires IsDoc(DObj(members))
    ensures var r := ReplaceSceneVersion(DObj(members));
      && r.DObj? && |r.members| == |members|
      && forall i :: 0 <= i < |members| ==>
           && r.members[i].key == members[i].key
           && r.members[i].value ==
                if members[i].key == "scene_version" then DStr(ZERO_HASH) else members[i].value
  {
    if HasKey(members, SCENE_VERSION) {
      PutKeeps(members, SCENE_VERSION, DStr(ZERO_HASH));
      var r := Put(members, SCENE_VERSION, DStr(ZERO_HASH));
      forall i | 0 <= i < |members|
        ensures r[i].value == if members[i].key == SCENE_VERSION then DStr(ZERO_HASH) else members[i].value
      {
        PutValue(members, SCENE_VERSION, DStr(ZERO_HASH), i);
      }
    }
  }

  predicate HasKey(members: seq<Member>, key: string) {
    exists i :: 0 <= i < |members| && members[i].key == key
  }

  /** d[key] = value: in place when the key is there, at the end otherwise. */
  function Put(members: seq<Member>, key: string, value: Doc): seq<Member> {
    if members == [] then [Member(key, value)]
    else if members[0].key == key then [Member(key, value)] + members[1..]
    else [members[0]] + Put(members[1..], key, value)
  }

  function ReplaceSceneVersion(d: Doc): Doc {
    if d.DObj? && HasKey(d.members, SCENE_VERSION) then DObj(Put(d.members, SCENE_VERSION, DStr(ZERO_HASH))) else d
  }

  lemma {:induction false} PutKeeps(members: seq<Member>, key: string, value: Doc)
    ensures var r := Put(members, key, value);
      && (forall i :: 0 <= i < |members| ==> |r| > i && r[i].key == members[i].key)
      && (forall i :: 0 <= i < |members| && members[i].key != key ==> r[i] == members[i])
      && (HasKey(members, key) ==> |r| == |members|)
      && (!HasKey(members, key) ==> r == members + [Member(key, value)])
  {
    if members != [] {
      HasKeyTail(members, key);
      if members[0].key != key {
        var t := members[1..];
        PutKeeps(t, key, value);
        var r := Put(members, key, value);
        assert r == [members[0]] + Put(t, key, value);
        assert forall i :: 0 < i < |members| ==> members[i] == t[i-1] && r[i] == Put(t, key, value)[i-1];
      }
    }
  }

  lemma {:induction false} HasKeyTail(members: seq<Member>, key: string)
    requires members != []
    ensures HasKey(members, key) <==> members[0].key == key || HasKey(members[1..], key)
  {
    if HasKey(members, key) {
      var i :| 0 <= i < |members| && members[i].key == key;
      assert i == 0 || members[1..][i-1].key == key;
    }
    if HasKey(members[1..], key) {
      var i :| 0 <= i < |members[1..]| && members[1..][i].key == key;
      assert members[i+1].key == key;
    }
  }

  lemma {:induction false} PutTwice(members: seq<Member>, key: string, v: Doc, w: Doc)
    ensures Put(Put(members, key, v), key, w) == Put(members, key, w)
    ensures HasKey(Put(members, key, v), key)
  {
    if members == [] {
      assert Put(members, key, v)[0].key == key;
    } else {
      HasKeyTail(Put(members, key, v), key);
      if members[0].key == key {
        assert Put(members, key, v)[1..] == members[1..];
      } else {
        PutTwice(members[1..], key, v, w);
        assert Put(members, key, v)[1..] == Put(members[1..], key, v);
      }
    }
  }

  /** Where each member of Put(members, key, value) comes from. */
  lemma {:induction false} PutValue(members: seq<Member>, key: string, value: Doc, k: nat)
    requires k < |Put(members, key, value)|
    requires forall i, j :: 0 <= i < j < |members| ==> members[i].key != members[j].key
    ensures var m := Put(members, key, value)[k];
      if m.key == key then m.value == value else k < |members| && m == members[k]
  {
    if members != [] && members[0].key != key && k > 0 {
      PutValue(members[1..], key, value, k - 1);
    } else if members != [] && members[0].key == key && k > 0 {
      assert members[k].key != members[0].key;
    }
  }

  lemma {:induction false} PutIsDoc(members: seq<Member>, key: string, value: Doc)
    requires IsDoc(DObj(members)) && IsDoc(value)
    ensures IsDoc(DObj(Put(members, key, value)))
  {
    var r := Put(members, key, value);
    PutKeeps(members, key, value);
    forall k | 0 <= k < |r| ensures IsDoc(r[k].value) { PutValue(members, key, value, k); }
    forall i, j | 0 <= i < j < |r| ensures r[i].key != r[j].key {
      assert r[i].key == key && i < |members| ==> HasKey(members, key);
    }
  }

  lemma {:induction false} ReplaceIsDoc(d: Doc)
    requires IsDoc(d)
    ensures IsDoc(ReplaceSceneVersion(d))
  {
    if d.DObj? { PutIsDoc(d.members, SCENE_VERSION, DStr(ZERO_HASH)); }
  }

  /** Err stands for the error that a part without a canonical form raises. */
  function CanonicalBytes(bundle: Doc): Result<seq<byte>, string>
    requires IsDoc(bundle)
  {
    ReplaceIsDoc(bundle);
    var text := Canonicalise(ReplaceSceneVersion(bundle));
    if text.Err? then Err(text.error) else Ok(Encode(text.value))
  }

  /** sha stands for the hex digest of SHA-256: any function of the bytes. */
  function HashInline(sha: seq<byte> -> string, bundle: Doc): Result<string, string>
    requires IsDoc(bundle)
  {
    var b := CanonicalBytes(bundle);
    if b.Err? then Err(b.error) else Ok("sha256:" + sha(b.value))
  }

  // --------------------------------------------------------- what the address depends on

  ghost predicate Hashable(d: Doc) {
    IsDoc(d) && Printable(ReplaceSceneVersion(d))
  }

  /** Bundles have the same canonical bytes exactly when, the version aside, they mean the same. */
  lemma {:induction false} BytesExact(a: Doc, b: Doc)
    requires Hashable(a) && Hashable(b)
    ensures CanonicalBytes(a) == CanonicalBytes(b) <==>
            Meaning(ReplaceSceneVersion(a)) == Meaning(ReplaceSceneVersion(b))
  {
    var x, y := ReplaceSceneVersion(a), ReplaceSceneVersion(b);
    CanonicalExact(x, y);
    if CanonicalBytes(a) == CanonicalBytes(b) { EncodeInjective(Text(x), Text(y)); }
  }

  /** The same document with its keys in another order, at any depth. */
  ghost predicate Reordered(d: Doc, e: Doc)
    decreases d
  {
    match d
    case DArr(items) =>
      e.DArr? && |items| == |e.items| && forall i :: 0 <= i < |items| ==> Reordered(items[i], e.items[i])
    case DObj(members) =>
      && e.DObj?
      && (forall i :: 0 <= i < |members| ==> HasKey(e.members, members[i].key))
      && (forall j :: 0 <= j < |e.members| ==> HasKey(members, e.members[j].key))
      && (forall i, j :: 0 <= i < |members| && 0 <= j < |e.members| && members[i].key == e.members[j].key ==>
            Reordered(members[i].value, e.members[j].value))
    case _ => d == e
  }

  lemma {:induction false} ReorderedMeaning(d: Doc, e: Doc)
    requires Printable(d) && Printable(e) && Reordered(d, e)
    ensures Meaning(d) == Meaning(e)
    decreases d, 1
  {
    match d
    case DArr(items) =>
      forall i | 0 <= i < |items| ensures Meanings(items)[i] == Meanings(e.items)[i] {
        ReorderedMeaning(items[i], e.items[i]);
      }
      assert Meanings(items) == Meanings(e.items);
    case DObj(members) =>
      ReorderedFields(members, e.members);
    case _ =>
  }

  lemma {:induction false} ReorderedFields(a: seq<Member>, b: seq<Member>)
    requires Printable(DObj(a)) && Printable(DObj(b)) && Reordered(DObj(a), DObj(b))
    ensures Fields(a) == Fields(b)
    decreases a, 0
  {
    forall i, j | 0 <= i < |a| && 0 <= j < |b| && a[i].key == b[j].key
      ensures Meaning(a[i].value) == Meaning(b[j].value)
    {
      ReorderedMeaning(a[i].value, b[j].value);
    }
    forall k ensures HasKey(a, k) <==> HasKey(b, k) { ReorderedKeys(a, b, k); }
    EqualFields(a, b);
  }

  lemma {:induction false} FieldAt(ms: seq<Member>, i: nat)
    requires Members(ms) && i < |ms|
    ensures ms[i].key in Fields(ms) && Fields(ms)[ms[i].key] == Meaning(ms[i].value)
  {
  }

  lemma {:induction false} FieldKeys(ms: seq<Member>, k: string)
    requires Members(ms)
    ensures k in Fields(ms) <==> HasKey(ms, k)
  {
  }

  lemma {:induction false} EqualField(a: seq<Member>, b: seq<Member>, k: string)
    requires Members(a) && Members(b) && HasKey(a, k) && HasKey(b, k)
    requires forall i, j :: 0 <= i < |a| && 0 <= j < |b| && a[i].key == b[j].key ==>
      Meaning(a[i].value) == Meaning(b[j].value)
    ensures k in Fields(a) && k in Fields(b) && Fields(a)[k] == Fields(b)[k]
  {
    var i :| 0 <= i < |a| && a[i].key == k;
    var j :| 0 <= j < |b| && b[j].key == k;
    FieldAt(a, i);
    FieldAt(b, j);
  }

  lemma {:induction false} EqualFields(a: seq<Member>, b: seq<Member>)
    requires Members(a) && Members(b)
    requires forall k :: HasKey(a, k) <==> HasKey(b, k)
    requires forall i, j :: 0 <= i < |a| && 0 <= j < |b| && a[i].key == b[j].key ==>
      Meaning(a[i].value) == Meaning(b[j].value)
    ensures Fields(a) == Fields(b)
  {
    var x, y := Fields(a), Fields(b);
    forall k ensures k in x <==> k in y {
      FieldKeys(a, k);
      FieldKeys(b, k);
    }
    forall k | k in x ensures x[k] == y[k] {
      FieldKeys(a, k);
      EqualField(a, b, k);
    }
  }

  lemma {:induction false} ReplaceReordered(d: Doc, e: Doc)
    requires IsDoc(d) && IsDoc(e) && Reordered(d, e)
    ensures Reordered(ReplaceSceneVersion(d), ReplaceSceneVersion(e))
  {
    if d.DObj? {
      ReorderedKeys(d.members, e.members, SCENE_VERSION);
      if HasKey(d.members, SCENE_VERSION) {
        PutReordered(d.members, e.members, SCENE_VERSION, DStr(ZERO_HASH));
      }
    }
  }

  lemma {:induction false} ReorderedKeys(a: seq<Member>, b: seq<Member>, key: string)
    requires Reordered(DObj(a), DObj(b))
    ensures HasKey(a, key) <==> HasKey(b, key)
  {
    if HasKey(a, key) {
      var i :| 0 <= i < |a| && a[i].key == key;
      assert HasKey(b, a[i].key);
    }
    if HasKey(b, key) {
      var j :| 0 <= j < |b| && b[j].key == key;
      assert HasKey(a, b[j].key);
    }
  }

  lemma {:induction false} SameKeys(members: seq<Member>, key: string, value: Doc, k: string)
    requires HasKey(members, key)
    ensures HasKey(Put(members, key, value), k) <==> HasKey(members, k)
  {
    PutKeeps(members, key, value);
    var r := Put(members, key, value);
    if HasKey(r, k) {
      var i :| 0 <= i < |r| && r[i].key == k;
      assert members[i].key == k;
    }
    if HasKey(members, k) {
      var i :| 0 <= i < |members| && members[i].key == k;
      assert r[i].key == k;
    }
  }

  lemma {:induction false} PutReordered(a: seq<Member>, b: seq<Member>, key: string, value: Doc)
    requires IsDoc(DObj(a)) && IsDoc(DObj(b)) && Reordered(DObj(a), DObj(b))
    requires HasKey(a, key) && HasKey(b, key) && Reordered(value, value)
    ensures Reordered(DObj(Put(a, key, value)), DObj(Put(b, key, value)))
  {
    var x, y := Put(a, key, value), Put(b, key, value);
    forall i | 0 <= i < |x| ensures HasKey(y, x[i].key) {
      assert HasKey(x, x[i].key);
      SameKeys(a, key, value, x[i].key);
      SameKeys(b, key, value, x[i].key);
      var k :| 0 <= k < |a| && a[k].key == x[i].key;
      assert HasKey(b, a[k].key);
    }
    forall j | 0 <= j < |y| ensures HasKey(x, y[j].key) {
      assert HasKey(y, y[j].key);
      SameKeys(a, key, value, y[j].key);
      SameKeys(b, key, value, y[j].key);
      var k :| 0 <= k < |b| && b[k].key == y[j].key;
      assert HasKey(a, b[k].key);
    }
    forall i, j | 0 <= i < |x| && 0 <= j < |y| && x[i].key == y[j].key ensures Reordered(x[i].value, y[j].value) {
      PutValue(a, key, value, i);
      PutValue(b, key, value, j);
    }
  }

  /** The address ignores the order of keys at every depth. */
  lemma {:induction false} HashIgnoresKeyOrder(sha: seq<byte> -> string, a: Doc, b: Doc)
    requires Hashable(a) && Hashable(b) && Reordered(a, b)
    ensures HashInline(sha, a) == HashInline(sha, b)
  {
    ReplaceReordered(a, b);
    ReorderedMeaning(ReplaceSceneVersion(a), ReplaceSceneVersion(b));
    BytesExact(a, b);
  }

  /** The address ignores the value of the top-level scene_version. */
  lemma {:induction false} HashIgnoresVersion(sha: seq<byte> -> string, members: seq<Member>, v: Doc, w: Doc)
    requires IsDoc(DObj(members)) && IsDoc(v) && IsDoc(w)
    ensures var a, b := DObj(Put(members, SCENE_VERSION, v)), DObj(Put(members, SCENE_VERSION, w));
      IsDoc(a) && IsDoc(b) && HashInline(sha, a) == HashInline(sha, b)
  {
    PutIsDoc(members, SCENE_VERSION, v);
    PutIsDoc(members, SCENE_VERSION, w);
    PutTwice(members, SCENE_VERSION, v, DStr(ZERO_HASH));
    PutTwice(members, SCENE_VERSION, w, DStr(ZERO_HASH));
  }

  /** What `lumencast build` does with the digest: bundle["scene_version"] = digest. */
  function Stamped(members: seq<Member>, digest: string): Doc {
    DObj(Put(members, SCENE_VERSION, DStr(digest)))
  }

  lemma {:induction false} NewKeyChangesMeaning(members: seq<Member>, v: Doc)
    requires Printable(DObj(members)) && !HasKey(members, SCENE_VERSION)
    requires Printable(DObj(Put(members, SCENE_VERSION, v)))
    ensures Meaning(DObj(Put(members, SCENE_VERSION, v))) != Meaning(DObj(members))
  {
    PutKeeps(members, SCENE_VERSION, v);
    var r := Put(members, SCENE_VERSION, v);
    assert r[|members|].key == SCENE_VERSION;
    assert SCENE_VERSION in Fields(r);
    assert SCENE_VERSION !in Fields(members);
  }

  /** Stamping a bundle with its digest leaves its canonical bytes as they were, and then its
      address too, exactly when the bundle had a scene_version key to begin with. */
  lemma {:induction false} StampExact(members: seq<Member>, digest: string)
    requires Hashable(DObj(members)) && Hashable(Stamped(members, digest))
    ensures CanonicalBytes(Stamped(members, digest)) == CanonicalBytes(DObj(members)) <==>
            HasKey(members, SCENE_VERSION)
  {
    PutTwice(members, SCENE_VERSION, DStr(digest), DStr(ZERO_HASH));
    if !HasKey(members, SCENE_VERSION) {
      NewKeyChangesMeaning(members, DStr(ZERO_HASH));
      BytesExact(Stamped(members, digest), DObj(members));
    }
  }

  /** A bundle without the key: stamping the empty one changes its canonical bytes. */
  lemma {:induction false} StampingEmptyChangesBytes(digest: string)
    ensures !HasKey([], SCENE_VERSION)
    ensures CanonicalBytes(Stamped([], digest)) != CanonicalBytes(DObj([]))
  {
    var stamped := [Member(SCENE_VERSION, DStr(digest))];
    assert Put([], SCENE_VERSION, DStr(digest)) == stamped;
    assert Put(stamped, SCENE_VERSION, DStr(ZERO_HASH)) == [Member(SCENE_VERSION, DStr(ZERO_HASH))];
    assert HasKey(stamped, SCENE_VERSION);
    assert Hashable(DObj([]));
    assert ReplaceSceneVersion(DObj(stamped)) == DObj([Member(SCENE_VERSION, DStr(ZERO_HASH))]);
    assert Printable(DStr(digest)) && Printable(DStr(ZERO_HASH));
    assert Printable(DObj([Member(SCENE_VERSION, DStr(ZERO_HASH))]));
    assert Hashable(DObj(stamped));
    StampExact([], digest);
  }
}
