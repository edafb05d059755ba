/** The in-place quicksort that finishes small buckets of the radix sort. */
module QuickSort {
  import opened KeyBlocks
  import opened Machine
  import opened Permutations

  /** The middle of three words, computed as the sum minus the smallest minus the largest. */
  function Median(a: Word, b: Word, c: Word): Word {
    WrapSub(WrapSub(WrapAdd(WrapAdd(a, b), c), Min(Min(a, b), c)), Max(Max(a, b), c))
  }

  /** Although the intermediate sums wrap, the result is exactly the middle element. */
  lemma MedianIsMiddle(a: Word, b: Word, c: Word)
    ensures multiset{a, b, c} == multiset{Min(Min(a, b), c), Median(a, b, c), Max(Max(a, b), c)}
    ensures Median(a, b, c) in {a, b, c}
  {
    var smallest, largest := Min(Min(a, b), c), Max(Max(a, b), c);
    MedianUnwrapped(a, b, c);
    MiddleOf(a, b, c);
  }

  lemma MedianUnwrapped(a: Word, b: Word, c: Word)
    ensures Median(a, b, c) == a + b + c - Min(Min(a, b), c) - Max(Max(a, b), c)
  {
    WrappedSum(a, b, c, Min(Min(a, b), c), Max(Max(a, b), c));
    MiddleOf(a, b, c);
  }

  lemma WrappedSum(a: Word, b: Word, c: Word, small: Word, large: Word)
    requires 0 <= a + b + c - small - large < WORD_LIMIT
    ensures WrapSub(WrapSub(WrapAdd(WrapAdd(a, b), c), small), large) == a + b + c - small - large
  {
    var sum := WrapAdd(WrapAdd(a, b), c);
    assert sum == (a + b + c) % WORD_LIMIT by { WrapStep(a + b, c); }
    var rest := WrapSub(sum, small);
    assert rest == (a + b + c - small) % WORD_LIMIT by { WrapStep(a + b + c, (0 as int) - small); }
    assert WrapSub(rest, large) == (a + b + c - small - large) % WORD_LIMIT by {
      WrapStep(a + b + c - small, (0 as int) - large);
    }
  }

  lemma MiddleOf(a: int, b: int, c: int)
    ensures a + b + c - Min(Min(a, b), c) - Max(Max(a, b), c) in {a, b, c}
    ensures multiset{a, b, c} ==
      multiset{Min(Min(a, b), c), a + b + c - Min(Min(a, b), c) - Max(Max(a, b), c), Max(Max(a, b), c)}
  {}

  /** Reducing early does not change a sum that is reduced at the end. */
  lemma WrapStep(x: int, y: int)
    ensures (x % WORD_LIMIT + y) % WORD_LIMIT == (x + y) % WORD_LIMIT
  {
    var q := x / WORD_LIMIT;
    assert x % WORD_LIMIT + y == x + y - q * WORD_LIMIT;
    WrapMultiple(x + y, q);
  }

  lemma WrapMultiple(x: int, q: int)
    ensures (x - q * WORD_LIMIT) % WORD_LIMIT == x % WORD_LIMIT
  {
    var r, d := x % WORD_LIMIT, x / WORD_LIMIT;
    assert x - q * WORD_LIMIT == (d - q) * WORD_LIMIT + r;
  }

  ghost predicate Sorted(s: seq<Word>) {
    forall i, j :: 0 <= i < j < |s| ==> s[i] <= s[j]
  }

  /** Swaps two cache entries together with the pointers beside them. */
  method SwapPairs(cache: array<Word>, pointers: array<Record>, ghost lo: nat, ghost hi: nat, i: nat, j: nat)
    requires lo <= i < hi <= cache.Length && lo <= j < hi <= pointers.Length && i != j
    modifies cache, pointers
    ensures cache[..] == old(cache[..])[i := old(cache[j])][j := old(cache[i])]
    ensures PairsPermuted(cache[..], pointers[..], old(cache[..]), old(pointers[..]), lo, hi)
  {
    ghost var c, p := cache[..], pointers[..];
    cache[i], cache[j] := cache[j], cache[i];
    pointers[i], pointers[j] := pointers[j], pointers[i];
    assert forall k :: 0 <= k < |c| ==> cache[k] == c[i := c[j]][j := c[i]][k];
    assert forall k :: 0 <= k < |p| ==> pointers[k] == p[i := p[j]][j := p[i]][k];
    assert cache[..] == c[i := c[j]][j := c[i]];
    assert pointers[..] == p[i := p[j]][j := p[i]];
    PairsSwapped(c, p, lo, hi, i, j);
  }

  /** Everything before `l` is at most the pivot, everything after `r` at least the pivot,
      and the two stops keep later scans inside `lo..hi`. */
  ghost predicate Split(cache: seq<Word>, lo: int, hi: int, l: int, r: int, lowStop: int, highStop: int, pivot: Word) {
    && 0 <= lo <= l <= highStop < hi <= |cache|
    && lo <= lowStop <= r < hi
    && l <= r + 1
    && cache[lowStop] <= pivot <= cache[highStop]
    && (forall k :: lo <= k < l ==> cache[k] <= pivot)
    && (forall k :: r < k < hi ==> pivot <= cache[k])
  }

  /** The two inner scans of a partition step. */
  method Scan(cache: array<Word>, ghost lo: nat, ghost hi: nat, l0: nat, r0: nat, pivot: Word,
              ghost lowStop: nat, ghost highStop: nat)
    returns (l: nat, r: nat)
    requires Split(cache[..], lo, hi, l0, r0, lowStop, highStop, pivot)
    ensures Split(cache[..], lo, hi, l, r, lowStop, highStop, pivot)
    ensures l0 <= l && r <= r0 && cache[r] <= pivot <= cache[l]
  {
    l, r := l0, r0;
    while cache[l] < pivot
      invariant l0 <= l <= highStop
      invariant forall k :: l0 <= k < l ==> cache[k] < pivot
      decreases highStop - l
    {
      l := l + 1;
    }
    assert l == l0 || cache[l - 1] < pivot;
    while pivot < cache[r]
      invariant lowStop <= r <= r0
      invariant forall k :: r < k <= r0 ==> pivot < cache[k]
      decreases r - lowStop
    {
      r := r - 1;
    }
    assert r == r0 || pivot < cache[r + 1];
  }

  lemma SplitAfterSwap(c: seq<Word>, lo: nat, hi: nat, l: nat, r: nat, lowStop: nat, highStop: nat, pivot: Word)
    requires Split(c, lo, hi, l, r, lowStop, highStop, pivot)
    requires l < r && c[r] <= pivot <= c[l]
    ensures Split(c[l := c[r]][r := c[l]], lo, hi, l + 1, r - 1, l, r, pivot)
  {}

  /** One Hoare pass. On return everything left of `l` is at most the pivot and everything
      right of `r` is at least the pivot, and both recursive ranges are strictly smaller. */
  method Partition(cache: array<Word>, pointers: array<Record>, lo: nat, hi: nat, pivot: Word)
    returns (l: nat, r: nat)
    requires lo + 3 <= hi <= cache.Length && hi <= pointers.Length
    requires pivot in cache[lo..hi]
    modifies cache, pointers
    ensures lo <= r <= l <= r + 1 <= hi && l < hi
    ensures forall k :: lo <= k < l ==> cache[k] <= pivot
    ensures forall k :: r < k < hi ==> pivot <= cache[k]
    ensures l == r ==> cache[l] == pivot
    ensures PairsPermuted(cache[..], pointers[..], old(cache[..]), old(pointers[..]), lo, hi)
  {
    ghost var c0, p0 := cache[..], pointers[..];
    l, r := lo, hi - 1;
    ghost var lowStop :| lo <= lowStop < hi && cache[lowStop] == pivot;
    ghost var highStop := lowStop;
    while true
      invariant lo <= l && Split(cache[..], lo, hi, l, r, lowStop, highStop, pivot)
      invariant PairsPermuted(cache[..], pointers[..], c0, p0, lo, hi)
      decreases r + 1 - l
    {
      l, r := Scan(cache, lo, hi, l, r, pivot, lowStop, highStop);
      if l >= r {
        break;
      }
      ghost var c, p := cache[..], pointers[..];
      SplitAfterSwap(c, lo, hi, l, r, lowStop, highStop, pivot);
      SwapPairs(cache, pointers, lo, hi, l, r);
      PairsPermutedTwice(cache[..], pointers[..], c, p, c0, p0, lo, hi);
      lowStop, highStop := l, r;
      l, r := l + 1, r - 1;
    }
  }

  /** Sorts `cache[lo..hi]` and carries the pointers along. */
  method QuickSort(cache: array<Word>, pointers: array<Record>, lo: nat, hi: nat)
    requires lo <= hi <= cache.Length && hi <= pointers.Length
    modifies cache, pointers
    ensures Sorted(cache[..][lo..hi])
    ensures PairsPermuted(cache[..], pointers[..], old(cache[..]), old(pointers[..]), lo, hi)
    decreases hi - lo
  {
    hide Sorted, PairsPermuted;
    if hi - lo <= 2 {
      SortFewer(cache, pointers, lo, hi);
    } else {
      var pivot := Pivot(cache, lo, hi);
      ghost var c, p := cache[..], pointers[..];
      var l, r := Partition(cache, pointers, lo, hi, pivot);
      ghost var c0, p0 := cache[..], pointers[..];
      QuickSort(cache, pointers, lo, l);
      ghost var c1, p1 := cache[..], pointers[..];
      QuickSort(cache, pointers, r + 1, hi);
      ghost var c2, p2 := cache[..], pointers[..];
      JoinSorted(c, p, c0, p0, c1, p1, c2, p2, lo, l, r, hi, pivot);
    }
  }

  /** The branches for at most two elements. */
  method SortFewer(cache: array<Word>, pointers: array<Record>, lo: nat, hi: nat)
    requires lo <= hi <= cache.Length && hi <= pointers.Length && hi - lo <= 2
    modifies cache, pointers
    ensures Sorted(cache[..][lo..hi])
    ensures PairsPermuted(cache[..], pointers[..], old(cache[..]), old(pointers[..]), lo, hi)
  {
    if hi - lo == 2 {
      if cache[lo] > cache[lo + 1] {
        SwapPairs(cache, pointers, lo, hi, lo, lo + 1);
      }
    }
  }

  /** The pivot is the middle one of the first, the middle and the last element. */
  method Pivot(cache: array<Word>, lo: nat, hi: nat) returns (pivot: Word)
    requires lo + 3 <= hi <= cache.Length
    ensures pivot in cache[lo..hi]
    ensures var a, b, c := cache[lo], cache[lo + (hi - lo) / 2], cache[hi - 1];
      exists low: Word, high: Word :: multiset{a, b, c} == multiset{low, pivot, high} && low <= pivot <= high
  {
    var a, b, c := cache[lo], cache[lo + (hi - lo) / 2], cache[hi - 1];
    MedianIsMiddle(a, b, c);
    ghost var s := cache[lo..hi];
    assert a == s[0] && b == s[(hi - lo) / 2] && c == s[hi - lo - 1];
    pivot := Median(a, b, c);
  }

  lemma PairsPermutedThrice(c: seq<Word>, p: seq<Record>, c0: seq<Word>, p0: seq<Record>, c1: seq<Word>, p1: seq<Record>,
                            c2: seq<Word>, p2: seq<Record>, lo: nat, l: nat, r: nat, hi: nat)
    requires lo <= r <= l <= r + 1 <= hi && l < hi
    requires PairsPermuted(c0, p0, c, p, lo, hi)
    requires PairsPermuted(c1, p1, c0, p0, lo, l) && PairsPermuted(c2, p2, c1, p1, r + 1, hi)
    ensures PairsPermuted(c2, p2, c, p, lo, hi)
  {
    PairsPermutedWider(c1, p1, c0, p0, lo, lo, l, hi);
    PairsPermutedWider(c2, p2, c1, p1, lo, r + 1, hi, hi);
    PairsPermutedTwice(c1, p1, c0, p0, c, p, lo, hi);
    PairsPermutedTwice(c2, p2, c1, p1, c, p, lo, hi);
  }

  /** Two sorted sides around a pivot make a sorted whole. */
  lemma JoinSorted(c: seq<Word>, p: seq<Record>, c0: seq<Word>, p0: seq<Record>, c1: seq<Word>, p1: seq<Record>,
                   c2: seq<Word>, p2: seq<Record>, lo: nat, l: nat, r: nat, hi: nat, pivot: Word)
    requires lo <= r <= l <= r + 1 <= hi && l < hi
    requires PairsPermuted(c0, p0, c, p, lo, hi)
    requires forall k :: lo <= k < l ==> c0[k] <= pivot
    requires forall k :: r < k < hi ==> pivot <= c0[k]
    requires l == r ==> c0[l] == pivot
    requires PairsPermuted(c1, p1, c0, p0, lo, l) && PairsPermuted(c2, p2, c1, p1, r + 1, hi)
    requires Sorted(c1[lo..l]) && Sorted(c2[r + 1..hi])
    ensures PairsPermuted(c2, p2, c, p, lo, hi)
    ensures Sorted(c2[lo..hi])
  {
    PairsPermutedThrice(c, p, c0, p0, c1, p1, c2, p2, lo, l, r, hi);
    forall k | lo <= k < hi
      ensures k < l ==> c2[k] == c1[k] && c2[k] <= pivot
      ensures r < k ==> pivot <= c2[k]
      ensures l == k == r ==> c2[k] == pivot
    {
      JoinSide(c0, p0, c1, p1, c2, p2, lo, l, r, hi, pivot, k);
    }
    SortedSides(c1, c2, lo, l, r, hi, pivot);
  }

  lemma SortedSides(c1: seq<Word>, c2: seq<Word>, lo: nat, l: nat, r: nat, hi: nat, pivot: Word)
    requires lo <= r <= l <= r + 1 <= hi <= |c2| && l < hi && |c1| == |c2|
    requires Sorted(c1[lo..l]) && Sorted(c2[r + 1..hi])
    requires forall k :: lo <= k < l ==> c2[k] == c1[k] && c2[k] <= pivot
    requires forall k :: r < k < hi ==> pivot <= c2[k]
    requires l == r ==> c2[l] == pivot
    ensures Sorted(c2[lo..hi])
  {
    forall i, j | lo <= i < j < hi ensures c2[i] <= c2[j] {
      if j < l {
        assert c1[lo..l][i - lo] <= c1[lo..l][j - lo];
      } else if r < i {
        assert c2[r + 1..hi][i - r - 1] <= c2[r + 1..hi][j - r - 1];
      } else {
        assert i < l ==> c2[i] <= pivot;
        assert r < j ==> pivot <= c2[j];
      }
    }
  }

  lemma JoinSide(c0: seq<Word>, p0: seq<Record>, c1: seq<Word>, p1: seq<Record>,
                 c2: seq<Word>, p2: seq<Record>, lo: nat, l: nat, r: nat, hi: nat, pivot: Word, k: nat)
    requires lo <= r <= l <= r + 1 <= hi <= |c0| && l < hi <= |p0| && lo <= k < hi
    requires forall i :: lo <= i < l ==> c0[i] <= pivot
    requires forall i :: r < i < hi ==> pivot <= c0[i]
    requires l == r ==> c0[l] == pivot
    requires PairsPermuted(c1, p1, c0, p0, lo, l) && PairsPermuted(c2, p2, c1, p1, r + 1, hi)
    ensures k < l ==> c2[k] == c1[k] && c2[k] <= pivot
    ensures r < k ==> pivot <= c2[k]
    ensures l == k == r ==> c2[k] == pivot
  {
    SameAt(c1, c0, lo, l, k);
    SameAt(c2, c1, r + 1, hi, k);
    if k < l {
      var j := PairOrigin(c1, p1, c0, p0, lo, l, k);
    }
    if r < k {
      var j := PairOrigin(c2, p2, c1, p1, r + 1, hi, k);
      SameAt(c1, c0, lo, l, j);
    }
    hide SameOutside, PairsPermuted;
  }
}
