/** Small facts about sequence slices, stated once and used by the string and list proofs. */
module Seqs {
  /** A suffix of a sequence seen as its first element, a middle, its last element and the rest. */
  lemma SplitAround<T>(s: seq<T>, p: nat, e: nat)
    requires p + 2 <= e <= |s|
    ensures s[p..] == [s[p]] + s[p + 1..e - 1] + [s[e - 1]] + s[e..]
  {
    assert s[p..] == s[p..e] + s[e..];
    assert s[p..e] == [s[p]] + s[p + 1..e - 1] + [s[e - 1]];
  }

  lemma HeadRest<T>(s: seq<T>, p: nat)
    requires p < |s|
    ensures s[p..] == [s[p]] + s[p + 1..]
  {
  }

  /** Putting x back at position k of a sequence whose head is s[0]. */
  lemma ConsSplit<T>(s: seq<T>, x: T, k: nat)
    requires 0 < k <= |s|
    ensures [s[0]] + (s[1..][..k - 1] + [x] + s[1..][k - 1..]) == s[..k] + [x] + s[k..]
  {
    assert s[..k] == [s[0]] + s[1..][..k - 1];
    assert s[k..] == s[1..][k - 1..];
  }

  /**
   * A sequence whose part from i on holds a prefix of sorted, then x at j, then
   * the rest of sorted: that part is sorted with x inserted after j - i elements.
   */
  lemma Assemble<T>(t: seq<T>, i: nat, j: nat, x: T, sorted: seq<T>)
    requires i <= j < |t| && |sorted| == |t| - i - 1 && t[j] == x
    requires forall m :: i <= m < j ==> t[m] == sorted[m - i]
    requires forall m :: j < m < |t| ==> t[m] == sorted[m - i - 1]
    ensures t[i..] == sorted[..j - i] + [x] + sorted[j - i..]
  {
    var r := sorted[..j - i] + [x] + sorted[j - i..];
    assert |t[i..]| == |r|;
    forall k | 0 <= k < |r|
      ensures t[i..][k] == r[k]
    {
      if k < j - i {
        assert r[k] == sorted[k];
      } else if k > j - i {
        assert r[k] == sorted[k - 1];
      }
    }
  }
}
