/** Texts filed under keys, sorted by code points. */
module KeySorting {

  datatype KeyText = KeyText(key: string, text: string)

  /** Lexicographic order of code points, as Python compares strings. */
  predicate Less(a: string, b: string) {
    b != "" && (a == "" || a[0] < b[0] || (a[0] == b[0] && Less(a[1..], b[1..])))
  }

  lemma {:induction false} LessTotal(a: string, b: string)
    ensures Less(a, b) || a == b || Less(b, a)
  {
    if a != "" && b != "" && a[0] == b[0] {
      LessTotal(a[1..], b[1..]);
      assert a == [a[0]] + a[1..];
      assert b == [b[0]] + b[1..];
    }
  }

  lemma {:induction false} LessIrreflexive(a: string)
    ensures !Less(a, a)
  {
    if a != "" { LessIrreflexive(a[1..]); }
  }

  lemma {:induction false} LessTransitive(a: string, b: string, c: string)
    requires Less(a, b) && Less(b, c)
    ensures Less(a, c)
  {
    if a != "" && a[0] == b[0] == c[0] { LessTransitive(a[1..], b[1..], c[1..]); }
  }

  /** The order spelled out: after a common start a ends, or has the smaller code point. */
  predicate Before(a: string, b: string) {
    exists n: nat :: n <= |a| && n < |b| && a[..n] == b[..n] && (n == |a| || a[n] < b[n])
  }

  lemma {:induction false} LessIsBefore(a: string, b: string)
    requires Less(a, b)
    ensures Before(a, b)
  {
    if a == "" || a[0] < b[0] {
      assert a[..0] == b[..0];
    } else {
      LessIsBefore(a[1..], b[1..]);
      var n: nat :| n < |b[1..]| && n <= |a[1..]| && a[1..][..n] == b[1..][..n]
                    && (n == |a[1..]| || a[1..][n] < b[1..][n]);
      assert a[..n+1] == [a[0]] + a[1..][..n];
      assert b[..n+1] == [b[0]] + b[1..][..n];
    }
  }

  predicate Sorted(kts: seq<KeyText>) {
    forall i, j :: 0 <= i < j < |kts| ==> Less(kts[i].key, kts[j].key)
  }

  predicate DistinctKeys(kts: seq<KeyText>) {
    forall i, j :: 0 <= i < j < |kts| ==> kts[i].key != kts[j].key
  }

  function Insert(x: KeyText, kts: seq<KeyText>): seq<KeyText> {
    if kts == [] || Less(x.key, kts[0].key) then [x] + kts else [kts[0]] + Insert(x, kts[1..])
  }

  function SortKeys(kts: seq<KeyText>): seq<KeyText> {
    if kts == [] then [] else Insert(kts[0], SortKeys(kts[1..]))
  }

  lemma {:induction false} InsertElements(x: KeyText, kts: seq<KeyText>)
    ensures forall y :: y in Insert(x, kts) <==> y == x || y in kts
  {
    if kts != [] && !Less(x.key, kts[0].key) {
      InsertElements(x, kts[1..]);
      assert kts == [kts[0]] + kts[1..];
    }
  }

  lemma {:induction false} SortElements(kts: seq<KeyText>)
    ensures forall y :: y in SortKeys(kts) <==> y in kts
  {
    if kts != [] {
      SortElements(kts[1..]);
      InsertElements(kts[0], SortKeys(kts[1..]));
      assert kts == [kts[0]] + kts[1..];
    }
  }

  lemma {:induction false} InTail(kts: seq<KeyText>, y: KeyText)
    requires kts != [] && y in kts[1..]
    ensures exists k :: 0 < k < |kts| && kts[k] == y
  {
    var k :| 0 <= k < |kts[1..]| && kts[1..][k] == y;
    assert kts[k+1] == y;
  }

  lemma {:induction false} InsertSorted(x: KeyText, kts: seq<KeyText>)
    requires Sorted(kts) && forall y :: y in kts ==> y.key != x.key
    ensures Sorted(Insert(x, kts))
  {
    var r := Insert(x, kts);
    if kts == [] {
    } else if Less(x.key, kts[0].key) {
      forall j | 0 < j < |r| ensures Less(x.key, r[j].key) {
        if j > 1 { LessTransitive(x.key, kts[0].key, kts[j-1].key); }
      }
    } else {
      InsertSorted(x, kts[1..]);
      InsertElements(x, kts[1..]);
      LessTotal(x.key, kts[0].key);
      assert kts[0] in kts;
      forall j | 0 < j < |r| ensures Less(kts[0].key, r[j].key) {
        assert r[j] in Insert(x, kts[1..]);
        if r[j] in kts[1..] { InTail(kts, r[j]); }
      }
      assert forall i, j :: 0 < i < j < |r| ==> r[i] == r[1..][i-1] && r[j] == r[1..][j-1];
    }
  }

  lemma {:induction false} SortSorted(kts: seq<KeyText>)
    requires DistinctKeys(kts)
    ensures Sorted(SortKeys(kts))
  {
    if kts != [] {
      SortSorted(kts[1..]);
      SortElements(kts[1..]);
      forall y | y in kts[1..] ensures y.key != kts[0].key { InTail(kts, y); }
      InsertSorted(kts[0], SortKeys(kts[1..]));
    }
  }

  lemma {:induction false} InsertLength(x: KeyText, kts: seq<KeyText>)
    ensures |Insert(x, kts)| == |kts| + 1
  {
    if kts != [] && !Less(x.key, kts[0].key) { InsertLength(x, kts[1..]); }
  }

  lemma {:induction false} SortLength(kts: seq<KeyText>)
    ensures |SortKeys(kts)| == |kts|
  {
    if kts != [] {
      SortLength(kts[1..]);
      InsertLength(kts[0], SortKeys(kts[1..]));
    }
  }

  /** Distinct keys come out ascending by code points, all of them, each with its own text. */
  lemma {:induction false} SortAscends(kts: seq<KeyText>)
    requires DistinctKeys(kts)
    ensures |SortKeys(kts)| == |kts| && forall y :: y in SortKeys(kts) <==> y in kts
    ensures forall i, j :: 0 <= i < j < |kts| ==> Before(SortKeys(kts)[i].key, SortKeys(kts)[j].key)
  {
    SortLength(kts);
    SortElements(kts);
    SortSorted(kts);
    forall i, j | 0 <= i < j < |kts| ensures Before(SortKeys(kts)[i].key, SortKeys(kts)[j].key) {
      LessIsBefore(SortKeys(kts)[i].key, SortKeys(kts)[j].key);
    }
  }

  lemma {:induction false} SmallestFirst(a: seq<KeyText>, b: seq<KeyText>)
    requires Sorted(a) && Sorted(b) && a != [] && b != []
    requires b[0] in a && a[0] in b
    ensures a[0] == b[0]
  {
    var i :| 0 <= i < |a| && a[i] == b[0];
    var j :| 0 <= j < |b| && b[j] == a[0];
    if i > 0 && j > 0 {
      LessTransitive(a[0].key, b[0].key, a[0].key);
      LessIrreflexive(a[0].key);
    }
  }

  lemma {:induction false} TailElements(a: seq<KeyText>, y: KeyText)
    requires Sorted(a) && a != []
    ensures y in a[1..] <==> y in a && y != a[0]
  {
    if y in a[1..] {
      InTail(a, y);
      LessIrreflexive(y.key);
    }
    if y in a && y != a[0] {
      var k :| 0 <= k < |a| && a[k] == y;
      assert a[1..][k-1] == y;
    }
  }

  /** A strictly sorted sequence is determined by its elements. */
  lemma {:induction false} SortedUnique(a: seq<KeyText>, b: seq<KeyText>)
    requires Sorted(a) && Sorted(b)
    requires forall y :: y in a <==> y in b
    ensures a == b
    decreases |a|
  {
    assert a != [] ==> a[0] in a;
    assert b != [] ==> b[0] in b;
    if a != [] {
      SmallestFirst(a, b);
      forall y ensures y in a[1..] <==> y in b[1..] {
        TailElements(a, y);
        TailElements(b, y);
      }
      SortedUnique(a[1..], b[1..]);
      assert a == [a[0]] + a[1..];
      assert b == [b[0]] + b[1..];
    }
  }
}
