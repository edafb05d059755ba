/** Sequence and multiset facts shared by the in-place algorithms. */
module Permutations {

  /** Entries `lo..hi` of two arrays, walked in step. */
  ghost function Pairs<A, B>(a: seq<A>, b: seq<B>, lo: int, hi: int): (z: seq<(A, B)>)
    requires 0 <= lo <= hi <= |a| && hi <= |b|
    ensures |z| == hi - lo
    ensures forall i :: 0 <= i < |z| ==> z[i] == (a[lo + i], b[lo + i])
  {
    seq(hi - lo, i requires 0 <= i < hi - lo => (a[lo + i], b[lo + i]))
  }

  /** Nothing outside `lo..hi` differs. */
  ghost predicate SameOutside<T>(now: seq<T>, was: seq<T>, lo: int, hi: int) {
    |now| == |was| && 0 <= lo <= hi <= |was| && now[..lo] == was[..lo] && now[hi..] == was[hi..]
  }

  lemma SameAt<T>(now: seq<T>, was: seq<T>, lo: nat, hi: nat, k: nat)
    requires SameOutside(now, was, lo, hi) && k < |was|
    ensures k < lo || hi <= k ==> now[k] == was[k]
  {
    if k < lo {
      assert now[..lo][k] == was[..lo][k];
    } else if hi <= k {
      assert now[hi..][k - hi] == was[hi..][k - hi];
    }
  }

  lemma SameOutsideFromPoints<T>(now: seq<T>, was: seq<T>, lo: nat, hi: nat)
    requires |now| == |was| && lo <= hi <= |was|
    requires forall k :: 0 <= k < |was| && (k < lo || hi <= k) ==> now[k] == was[k]
    ensures SameOutside(now, was, lo, hi)
  {}

  lemma SameOutsideSelf<T>(s: seq<T>, lo: nat, hi: nat)
    requires lo <= hi <= |s|
    ensures SameOutside(s, s, lo, hi)
  {}

  lemma SameOutsideWider<T>(now: seq<T>, was: seq<T>, lo: nat, i: nat, j: nat, hi: nat)
    requires lo <= i <= j <= hi <= |was| && SameOutside(now, was, i, j)
    ensures SameOutside(now, was, lo, hi)
  {
    assert now[..lo] == now[..i][..lo] && was[..lo] == was[..i][..lo];
    assert now[hi..] == now[j..][hi - j..] && was[hi..] == was[j..][hi - j..];
  }

  /** `c1` and `p1` are `c0` and `p0` with the pairs in `lo..hi` permuted. */
  ghost predicate PairsPermuted<A, B>(c1: seq<A>, p1: seq<B>, c0: seq<A>, p0: seq<B>, lo: int, hi: int) {
    && 0 <= lo <= hi <= |c0| && hi <= |p0|
    && SameOutside(c1, c0, lo, hi)
    && SameOutside(p1, p0, lo, hi)
    && multiset(Pairs(c1, p1, lo, hi)) == multiset(Pairs(c0, p0, lo, hi))
  }

  lemma PairsPermutedTwice<A, B>(c2: seq<A>, p2: seq<B>, c1: seq<A>, p1: seq<B>, c0: seq<A>, p0: seq<B>,
                                 lo: nat, hi: nat)
    requires PairsPermuted(c1, p1, c0, p0, lo, hi) && PairsPermuted(c2, p2, c1, p1, lo, hi)
    ensures PairsPermuted(c2, p2, c0, p0, lo, hi)
  {}

  lemma PairsSwapped<A, B>(c: seq<A>, p: seq<B>, lo: nat, hi: nat, i: nat, j: nat)
    requires lo <= i < hi <= |c| && lo <= j < hi <= |p|
    ensures PairsPermuted(c[i := c[j]][j := c[i]], p[i := p[j]][j := p[i]], c, p, lo, hi)
  {
    var c1, p1 := c[i := c[j]][j := c[i]], p[i := p[j]][j := p[i]];
    var was, now := Pairs(c, p, lo, hi), Pairs(c1, p1, lo, hi);
    assert now == was[i - lo := was[j - lo]][j - lo := was[i - lo]];
    SwapKeepsMultiset(was, i - lo, j - lo);
  }

  lemma SwapKeepsMultiset<T>(s: seq<T>, i: nat, j: nat)
    requires i < |s| && j < |s|
    ensures multiset(s[i := s[j]][j := s[i]]) == multiset(s)
  {}

  /** Where the pair now at `k` came from. */
  lemma PairOrigin<A, B>(c1: seq<A>, p1: seq<B>, c0: seq<A>, p0: seq<B>, lo: nat, hi: nat, k: nat)
    returns (j: nat)
    requires PairsPermuted(c1, p1, c0, p0, lo, hi) && lo <= k < hi
    ensures lo <= j < hi && c1[k] == c0[j] && p1[k] == p0[j]
  {
    var z, z0 := Pairs(c1, p1, lo, hi), Pairs(c0, p0, lo, hi);
    assert z[k - lo] in multiset(z);
    assert z[k - lo] in z0;
    var o :| 0 <= o < |z0| && z0[o] == z[k - lo];
    j := lo + o;
  }

  /** Permuting a middle part permutes the whole. */
  lemma PairsPermutedWider<A, B>(c1: seq<A>, p1: seq<B>, c0: seq<A>, p0: seq<B>, lo: nat, i: nat, j: nat, hi: nat)
    requires lo <= i <= j <= hi <= |c0| && hi <= |p0|
    requires PairsPermuted(c1, p1, c0, p0, i, j)
    ensures PairsPermuted(c1, p1, c0, p0, lo, hi)
  {
    SameOutsideWider(c1, c0, lo, i, j, hi);
    SameOutsideWider(p1, p0, lo, i, j, hi);
    forall k | lo <= k < i || j <= k < hi ensures c1[k] == c0[k] && p1[k] == p0[k] {
      SameAt(c1, c0, i, j, k);
      SameAt(p1, p0, i, j, k);
    }
    assert Pairs(c1, p1, lo, hi) == Pairs(c1, p1, lo, i) + Pairs(c1, p1, i, j) + Pairs(c1, p1, j, hi);
    assert Pairs(c0, p0, lo, hi) == Pairs(c0, p0, lo, i) + Pairs(c0, p0, i, j) + Pairs(c0, p0, j, hi);
    assert Pairs(c1, p1, lo, i) == Pairs(c0, p0, lo, i);
    assert Pairs(c1, p1, j, hi) == Pairs(c0, p0, j, hi);
  }

  lemma SameMembers<T>(a: seq<T>, b: seq<T>)
    requires multiset(a) == multiset(b)
    ensures |a| == |b|
    ensures forall x :: x in a <==> x in b
  {
    assert |multiset(a)| == |a| && |multiset(b)| == |b|;
    forall x ensures x in a <==> x in b {
      assert x in a <==> x in multiset(a);
      assert x in b <==> x in multiset(b);
    }
  }

  /** The same statement about a window of both sequences. */
  lemma SameOutsideWindow<T>(now: seq<T>, was: seq<T>, lo: nat, i: nat, j: nat, hi: nat)
    requires lo <= i <= j <= hi <= |was| && SameOutside(now, was, i, j)
    ensures SameOutside(now[lo..hi], was[lo..hi], i - lo, j - lo)
  {
    assert now[lo..hi][..i - lo] == now[..i][lo..] && was[lo..hi][..i - lo] == was[..i][lo..];
    assert now[lo..hi][j - lo..] == now[j..][..hi - j] && was[lo..hi][j - lo..] == was[j..][..hi - j];
  }

  lemma Window<T>(a: seq<T>, lo: nat, i: nat, j: nat, hi: nat)
    requires lo <= i <= j <= hi <= |a|
    ensures a[lo..hi][i - lo..j - lo] == a[i..j]
    ensures a[lo..hi][i - lo..][..j - i] == a[i..j]
  {
    var w := a[lo..hi];
    assert forall x :: 0 <= x < j - i ==> w[i - lo..j - lo][x] == w[i - lo + x] == a[i + x] == a[i..j][x];
  }

  ghost function Seconds<A, B>(z: seq<(A, B)>): (s: seq<B>)
    ensures |s| == |z|
    ensures forall i :: 0 <= i < |z| ==> s[i] == z[i].1
  {
    seq(|z|, i requires 0 <= i < |z| => z[i].1)
  }

  lemma RestOfMultiset<T>(s: seq<T>, j: nat)
    requires j < |s|
    ensures multiset(s[..j] + s[j + 1..]) == multiset(s) - multiset{s[j]}
  {
    assert s == s[..j] + [s[j]] + s[j + 1..];
  }

  /** Where the first element of `a` lies in a permutation of `a`; removing it on both sides leaves
      permutations again. */
  lemma MatchFirst<T>(a: seq<T>, b: seq<T>) returns (j: nat)
    requires multiset(a) == multiset(b)
    ensures |a| == |b| && (|a| == 0 ==> a == b)
    ensures |a| > 0 ==> j < |b| && b[j] == a[0]
    ensures |a| > 0 ==> multiset(a[..0] + a[1..]) == multiset(b[..j] + b[j + 1..])
  {
    j := 0;
    SameMembers(a, b);
    if |a| > 0 {
      assert a[0] in b;
      j :| 0 <= j < |b| && b[j] == a[0];
      RestOfMultiset(a, 0);
      RestOfMultiset(b, j);
    }
  }

  lemma SecondsWithout<A, B>(z: seq<(A, B)>, j: nat)
    requires j < |z|
    ensures multiset(Seconds(z)) == multiset(Seconds(z[..j] + z[j + 1..])) + multiset{z[j].1}
  {
    assert Seconds(z) == Seconds(z[..j]) + [z[j].1] + Seconds(z[j + 1..]);
    assert Seconds(z[..j] + z[j + 1..]) == Seconds(z[..j]) + Seconds(z[j + 1..]);
  }

  lemma {:induction false} SecondsPermuted<A, B>(z1: seq<(A, B)>, z0: seq<(A, B)>)
    requires multiset(z1) == multiset(z0)
    ensures multiset(Seconds(z1)) == multiset(Seconds(z0))
  {
    hide Seconds;
    var j := MatchFirst(z1, z0);
    if |z1| == 0 {
    } else {
      SecondsPermuted(z1[..0] + z1[1..], z0[..j] + z0[j + 1..]);
      SecondsWithout(z1, 0);
      SecondsWithout(z0, j);
    }
  }

  lemma PointersPermuted<A, B>(c1: seq<A>, p1: seq<B>, c0: seq<A>, p0: seq<B>, lo: nat, hi: nat)
    requires PairsPermuted(c1, p1, c0, p0, lo, hi)
    ensures multiset(p1[lo..hi]) == multiset(p0[lo..hi])
  {
    SecondsPermuted(Pairs(c1, p1, lo, hi), Pairs(c0, p0, lo, hi));
    assert Seconds(Pairs(c1, p1, lo, hi)) == p1[lo..hi];
    assert Seconds(Pairs(c0, p0, lo, hi)) == p0[lo..hi];
  }
}
