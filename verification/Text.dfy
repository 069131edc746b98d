/** Searching and slicing strings. */
module Texts {

  /** Position of the first c at or after i, or |s|. */
  function IndexFrom(s: string, c: char, i: nat): (k: nat)
    requires i <= |s|
    ensures i <= k <= |s| && c !in s[i..k]
    ensures k < |s| ==> s[k] == c
    decreases |s| - i
  {
    if i == |s| || s[i] == c then i
    else
      var k := IndexFrom(s, c, i + 1);
      assert s[i..k] == [s[i]] + s[i+1..k];
      k
  }

  lemma {:induction false} IndexFromUnique(s: string, c: char, i: nat, k: nat)
    requires i <= k < |s| && c !in s[i..k] && s[k] == c
    ensures IndexFrom(s, c, i) == k
    decreases k - i
  {
    if i < k {
      assert s[i] in s[i..k] && s[i..k][1..] == s[i+1..k];
      IndexFromUnique(s, c, i + 1, k);
    }
  }

  lemma {:induction false} SliceOfSlice(s: string, i: nat, j: nat, a: nat, b: nat)
    requires i <= j <= |s| && a <= b <= j - i
    ensures s[i..j][a..b] == s[i+a..i+b]
  {
    var mid := s[i..j];
    assert forall k :: 0 <= k < b - a ==> mid[a..b][k] == mid[a+k] == s[i+a+k] == s[i+a..i+b][k];
  }
}
