/** The MSD radix sort: eight-byte blocks are cached beside the pointers, large buckets are
    split by one byte at a time into the other pair of arrays, small ones are quicksorted. */
module RadixSort {
  import opened Machine
  import opened KeyBlocks
  import opened BlockOrder
  import opened Distribution
  import opened Permutations
  import CS = CountingSort
  import QS = QuickSort

  const RADIX_SORT_THRESHOLD: nat := 256

  /** What a call may rely on: the records of the bucket agree on every byte before `depth`.
      In the middle of a block the cache holds that block. */
  ghost predicate Agree(stray: Stray, depth: nat, s: seq<Record>, cache: seq<Word>)
    requires |cache| == |s|
  {
    if ByteOf(depth) == 0 then
      forall i, j :: 0 <= i < |s| && 0 <= j < |s| ==> cache[i] == cache[j]
    else
      && (forall i :: 0 <= i < |s| ==> cache[i] == Block(stray, s[i], BlockStart(depth)))
      && (forall i, j :: 0 <= i < |s| && 0 <= j < |s| ==> High(cache[i], ByteOf(depth)) == High(cache[j], ByteOf(depth)))
  }

  /** What a call delivers. */
  ghost predicate SortedFrom(stray: Stray, depth: nat, was: seq<Record>, now: seq<Record>, marks: seq<bool>) {
    && multiset(now) == multiset(was)
    && if ByteOf(depth) == 0 then Arranged(stray, RecordsOf(was), depth, now, marks)
       else ArrangedIn(stray, RecordsOf(was), BlockStart(depth), now, marks)
  }

  /** The keys of the range end before `bound`, a multiple of eight. */
  ghost predicate KeysWithin(s: seq<Record>, bound: nat) {
    bound % 8 == 0 && forall r :: r in s ==> |r.key| <= bound
  }

  ghost predicate NoMarks(marks: seq<bool>) {
    forall i :: 0 <= i < |marks| ==> !marks[i]
  }

  /** The blocks of the current offset are cached and agree above the byte of this depth. */
  ghost predicate Ready(stray: Stray, depth: nat, s: seq<Record>, cache: seq<Word>) {
    && |cache| == |s|
    && (forall i :: 0 <= i < |s| ==> cache[i] == Block(stray, s[i], BlockStart(depth)))
    && (forall i, j :: 0 <= i < |s| && 0 <= j < |s| ==> High(cache[i], ByteOf(depth)) == High(cache[j], ByteOf(depth)))
  }

  ghost predicate RefinedFrom(stray: Stray, depth: nat, was: seq<Record>, now: seq<Record>, marks: seq<bool>) {
    multiset(now) == multiset(was) && ArrangedIn(stray, RecordsOf(was), BlockStart(depth), now, marks)
  }

  /** Distinct arrays that are long enough. */
  ghost predicate Workspace(equals: array<bool>, cache: array<Word>, pointers: array<Record>,
                            cacheWork: array<Word>, pointersWork: array<Record>, lo: nat, hi: nat)
  {
    && lo <= hi && hi <= equals.Length && hi <= cache.Length && hi <= pointers.Length
    && hi <= cacheWork.Length && hi <= pointersWork.Length
    && cache != cacheWork && pointers != pointersWork
  }

  /** The contents of the five arrays a call works on. */
  datatype Arrays = Arrays(equals: seq<bool>, cache: seq<Word>, pointers: seq<Record>,
                           cacheWork: seq<Word>, pointersWork: seq<Record>)

  ghost function Snapshot(equals: array<bool>, cache: array<Word>, pointers: array<Record>,
                          cacheWork: array<Word>, pointersWork: array<Record>): Arrays
    reads equals, cache, pointers, cacheWork, pointersWork
  {
    Arrays(equals[..], cache[..], pointers[..], cacheWork[..], pointersWork[..])
  }

  /** Only `lo..hi` may differ, and the mark of `lo` does not. */
  ghost predicate Frames(now: Arrays, was: Arrays, lo: int, hi: int) {
    && 0 <= lo <= hi
    && (lo < hi ==> SameOutside(now.equals, was.equals, lo + 1, hi))
    && (lo == hi ==> now.equals == was.equals)
    && SameOutside(now.cache, was.cache, lo, hi)
    && SameOutside(now.pointers, was.pointers, lo, hi)
    && SameOutside(now.cacheWork, was.cacheWork, lo, hi)
    && SameOutside(now.pointersWork, was.pointersWork, lo, hi)
  }

  ghost function Swap(a: Arrays): Arrays {
    Arrays(a.equals, a.cacheWork, a.pointersWork, a.cache, a.pointers)
  }

  lemma FramesSelf(a: Arrays, lo: nat, hi: nat)
    requires lo <= hi <= |a.equals| && hi <= |a.cache| && hi <= |a.pointers|
    requires hi <= |a.cacheWork| && hi <= |a.pointersWork|
    ensures Frames(a, a, lo, hi)
  {}

  lemma FramesTwice(a2: Arrays, a1: Arrays, a0: Arrays, lo: nat, hi: nat)
    requires Frames(a1, a0, lo, hi) && Frames(a2, a1, lo, hi)
    ensures Frames(a2, a0, lo, hi)
  {}

  lemma FramesSwapped(now: Arrays, was: Arrays, lo: int, hi: int)
    requires Frames(now, was, lo, hi)
    ensures Frames(Swap(now), Swap(was), lo, hi)
  {}

  lemma FramesWider(now: Arrays, was: Arrays, lo: nat, i: nat, j: nat, hi: nat)
    requires lo <= i <= j <= hi && Frames(now, was, i, j)
    requires hi <= |was.equals| && hi <= |was.cache| && hi <= |was.pointers|
    requires hi <= |was.cacheWork| && hi <= |was.pointersWork|
    ensures Frames(now, was, lo, hi)
  {
    if i < j {
      SameOutsideWider(now.equals, was.equals, lo + 1, i + 1, j, hi);
    }
    SameOutsideWider(now.cache, was.cache, lo, i, j, hi);
    SameOutsideWider(now.pointers, was.pointers, lo, i, j, hi);
    SameOutsideWider(now.cacheWork, was.cacheWork, lo, i, j, hi);
    SameOutsideWider(now.pointersWork, was.pointersWork, lo, i, j, hi);
  }

  /** Loads the next block of every key into the work cache and tells whether all keys have ended. */
  method LoadBlocks(stray: Stray, pointers: array<Record>, cacheWork: array<Word>, lo: nat, hi: nat, depth: nat)
    returns (finished: bool)
    requires lo <= hi <= pointers.Length && hi <= cacheWork.Length && ByteOf(depth) == 0
    modifies cacheWork
    ensures finished == Finished(RecordsOf(pointers[..][lo..hi]), depth)
    ensures CS.Loaded(stray, depth, pointers[..][lo..hi], cacheWork[..], lo)
    ensures SameOutside(cacheWork[..], old(cacheWork[..]), lo, hi)
  {
    hide Block;
    finished := true;
    ghost var s, c0 := pointers[..][lo..hi], cacheWork[..];
    for i := lo to hi
      invariant finished == forall k :: lo <= k < i ==> |pointers[k].key| <= depth
      invariant forall k :: lo <= k < i ==> cacheWork[k] == Block(stray, pointers[k], depth)
      invariant forall k :: 0 <= k < cacheWork.Length && (k < lo || i <= k) ==> cacheWork[k] == c0[k]
    {
      var block := GetBlock(stray, pointers[i], depth);
      cacheWork[i] := block;
      if depth < |pointers[i].key| {
        finished := false;
      }
    }
    SameOutsideFromPoints(cacheWork[..], c0, lo, hi);
    FinishedByIndex(s, depth);
    assert forall k :: 0 <= k < |s| ==> s[k] == pointers[lo + k];
    assert forall k :: lo <= k < hi ==> pointers[k] == s[k - lo];
  }

  lemma FinishedByIndex(s: seq<Record>, depth: nat)
    ensures Finished(RecordsOf(s), depth) == forall k :: 0 <= k < |s| ==> |s[k].key| <= depth
  {
    if forall k :: 0 <= k < |s| ==> |s[k].key| <= depth {
      forall r | r in RecordsOf(s) ensures |r.key| <= depth {
        var k :| 0 <= k < |s| && s[k] == r;
      }
    } else {
      var k :| 0 <= k < |s| && depth < |s[k].key|;
      assert s[k] in RecordsOf(s);
    }
  }

  /** Marks every record whose cached block equals its left neighbour's. */
  method MarkTies(equals: array<bool>, cache: array<Word>, lo: nat, hi: nat)
    requires lo < hi <= equals.Length && hi <= cache.Length
    requires forall i, j :: 0 <= i < hi - lo && 0 <= j < hi - lo ==> cache[..][lo..hi][i] == cache[..][lo..hi][j]
    modifies equals
    ensures forall i :: lo < i < hi ==> equals[i]
    ensures SameOutside(equals[..], old(equals[..]), lo + 1, hi)
  {
    ghost var e0 := equals[..];
    assert forall i :: lo <= i < hi ==> cache[i] == cache[..][lo..hi][i - lo];
    for i := lo + 1 to hi
      invariant forall k :: lo < k < i ==> equals[k]
      invariant forall k :: 0 <= k < equals.Length && (k <= lo || i <= k) ==> equals[k] == e0[k]
    {
      if cache[i] == cache[i - 1] {
        equals[i] := true;
      }
    }
    SameOutsideFromPoints(equals[..], e0, lo + 1, hi);
  }

  method CopyBlocks(cache: array<Word>, cacheWork: array<Word>, lo: nat, hi: nat)
    requires lo <= hi <= cache.Length && hi <= cacheWork.Length && cache != cacheWork
    modifies cache
    ensures cache[..][lo..hi] == cacheWork[..][lo..hi]
    ensures SameOutside(cache[..], old(cache[..]), lo, hi)
  {
    ghost var c0 := cache[..];
    for i := lo to hi
      invariant forall k :: lo <= k < i ==> cache[k] == cacheWork[k]
      invariant forall k :: 0 <= k < cache.Length && (k < lo || i <= k) ==> cache[k] == c0[k]
    {
      cache[i] := cacheWork[i];
    }
    SameOutsideFromPoints(cache[..], c0, lo, hi);
  }

  method CopyPointers(pointers: array<Record>, pointersWork: array<Record>, lo: nat, hi: nat)
    requires lo <= hi <= pointers.Length && hi <= pointersWork.Length && pointers != pointersWork
    modifies pointers
    ensures pointers[..][lo..hi] == pointersWork[..][lo..hi]
    ensures SameOutside(pointers[..], old(pointers[..]), lo, hi)
  {
    ghost var c0 := pointers[..];
    for i := lo to hi
      invariant forall k :: lo <= k < i ==> pointers[k] == pointersWork[k]
      invariant forall k :: 0 <= k < pointers.Length && (k < lo || i <= k) ==> pointers[k] == c0[k]
    {
      pointers[i] := pointersWork[i];
    }
    SameOutsideFromPoints(pointers[..], c0, lo, hi);
  }

  /** Sorts the records in `lo..hi` from `depth` on. The result is left in `pointers`, or, when
      `swapped`, in `pointersWork`: the caller's arrays and the work arrays trade places at
      every byte, so `swapped` holds exactly at odd depths. */
  method MsdRadixSort(stray: Stray, equals: array<bool>, cache: array<Word>, pointers: array<Record>,
                      cacheWork: array<Word>, pointersWork: array<Record>, lo: nat, hi: nat, depth: nat,
                      swapped: bool, ghost bound: nat)
    requires Workspace(equals, cache, pointers, cacheWork, pointersWork, lo, hi)
    requires swapped == (depth % 2 == 1)
    requires depth <= bound && KeysWithin(pointers[..][lo..hi], bound)
    requires Agree(stray, depth, pointers[..][lo..hi], cache[..][lo..hi])
    requires NoMarks(equals[..][lo..hi])
    modifies equals, cache, pointers, cacheWork, pointersWork
    ensures SortedFrom(stray, depth, old(pointers[..][lo..hi]),
      (if swapped then pointersWork else pointers)[..][lo..hi], equals[..][lo..hi])
    ensures Frames(Snapshot(equals, cache, pointers, cacheWork, pointersWork),
      old(Snapshot(equals, cache, pointers, cacheWork, pointersWork)), lo, hi)
    decreases bound - depth, 3
  {
    hide ArrangedIn, Arranged, SameOutside, Frames, Ready, Finished, CS.Loaded, SortedFrom, RefinedFrom;
    ghost var a0 := Snapshot(equals, cache, pointers, cacheWork, pointersWork);
    FramesSelf(a0, lo, hi);
    ghost var s := pointers[..][lo..hi];
    if lo == hi {
      ArrangedNothing(stray, depth, s, (if swapped then pointersWork else pointers)[..][lo..hi], equals[..][lo..hi]);
      return;
    }
    var finished := StartBlock(stray, equals, cache, pointers, cacheWork, pointersWork, lo, hi, depth, bound);
    if finished {
      return;
    }
    ghost var a1 := Snapshot(equals, cache, pointers, cacheWork, pointersWork);
    if hi - lo < RADIX_SORT_THRESHOLD {
      SortSmall(stray, equals, cache, pointers, cacheWork, pointersWork, lo, hi, depth, swapped, bound);
    } else {
      SortLarge(stray, equals, cache, pointers, cacheWork, pointersWork, lo, hi, depth, swapped, bound);
    }
    FramesTwice(Snapshot(equals, cache, pointers, cacheWork, pointersWork), a1, a0, lo, hi);
    RefinedIsSorted(stray, depth, s, (if swapped then pointersWork else pointers)[..][lo..hi], equals[..][lo..hi]);
  }

  lemma RefinedIsSorted(stray: Stray, depth: nat, was: seq<Record>, now: seq<Record>, marks: seq<bool>)
    requires RefinedFrom(stray, depth, was, now, marks)
    requires ByteOf(depth) == 0 ==> !Finished(RecordsOf(was), depth)
    ensures SortedFrom(stray, depth, was, now, marks)
  {
    hide Finished;
    if ByteOf(depth) == 0 {
      ArrangedUnfinished(stray, RecordsOf(was), depth, now, marks);
    }
  }

  /** At a multiple of eight: load the next blocks, or, when all keys have ended, mark the whole
      bucket equal and be done. In the middle of a block there is nothing to do. */
  method StartBlock(stray: Stray, equals: array<bool>, cache: array<Word>, pointers: array<Record>,
                    cacheWork: array<Word>, pointersWork: array<Record>, lo: nat, hi: nat, depth: nat,
                    ghost bound: nat) returns (finished: bool)
    requires Workspace(equals, cache, pointers, cacheWork, pointersWork, lo, hi) && lo < hi
    requires depth <= bound && KeysWithin(pointers[..][lo..hi], bound)
    requires Agree(stray, depth, pointers[..][lo..hi], cache[..][lo..hi])
    modifies equals, cache, cacheWork
    ensures finished ==> ByteOf(depth) == 0
    ensures finished ==> SortedFrom(stray, depth, pointers[..][lo..hi], pointers[..][lo..hi], equals[..][lo..hi])
    ensures !finished ==>
      && equals[..] == old(equals[..]) && BlockStart(depth) + 8 <= bound
      && Ready(stray, depth, pointers[..][lo..hi], cache[..][lo..hi])
      && (ByteOf(depth) == 0 ==> !Finished(RecordsOf(pointers[..][lo..hi]), depth))
    ensures Frames(Snapshot(equals, cache, pointers, cacheWork, pointersWork),
      old(Snapshot(equals, cache, pointers, cacheWork, pointersWork)), lo, hi)
  {
    hide ArrangedIn, Arranged, SameOutside, Frames, Ready, Finished, CS.Loaded, SortedFrom;
    ghost var a0 := Snapshot(equals, cache, pointers, cacheWork, pointersWork);
    ghost var s := pointers[..][lo..hi];
    if ByteOf(depth) == 0 {
      finished := LoadBlocks(stray, pointers, cacheWork, lo, hi, depth);
      if finished {
        MarkTies(equals, cache, lo, hi);
        FinishedHere(stray, depth, a0, Snapshot(equals, cache, pointers, cacheWork, pointersWork), lo, hi);
      } else {
        UnfinishedWithin(s, depth, bound);
        CopyBlocks(cache, cacheWork, lo, hi);
        LoadedHere(stray, depth, a0, Snapshot(equals, cache, pointers, cacheWork, pointersWork), lo, hi);
      }
    } else {
      finished := false;
      FramesSelf(a0, lo, hi);
      AgreeIsReady(stray, depth, s, cache[..][lo..hi]);
      InsideBlock(depth, bound);
    }
  }

  lemma InsideBlock(depth: nat, bound: nat)
    requires depth <= bound && bound % 8 == 0 && ByteOf(depth) != 0
    ensures BlockStart(depth) + 8 <= bound
  {}

  lemma ArrangedNothing(stray: Stray, depth: nat, s: seq<Record>, now: seq<Record>, marks: seq<bool>)
    requires |s| == |now| == |marks| == 0
    ensures SortedFrom(stray, depth, s, now, marks)
  {
    assert now == s;
  }

  /** The early return: every key has ended, so the whole bucket is one group. */
  lemma FinishedHere(stray: Stray, depth: nat, was: Arrays, now: Arrays, lo: nat, hi: nat)
    requires lo < hi <= |was.pointers| && hi <= |was.equals| && hi <= |was.cache| && ByteOf(depth) == 0
    requires Finished(RecordsOf(was.pointers[lo..hi]), depth)
    requires now.cache == was.cache && now.pointers == was.pointers && now.pointersWork == was.pointersWork
    requires hi <= |was.pointersWork|
    requires SameOutside(now.cacheWork, was.cacheWork, lo, hi)
    requires SameOutside(now.equals, was.equals, lo + 1, hi)
    requires forall i :: lo < i < hi ==> now.equals[i]
    ensures SortedFrom(stray, depth, was.pointers[lo..hi], now.pointers[lo..hi], now.equals[lo..hi])
    ensures Frames(now, was, lo, hi)
  {
    ArrangedFinished(stray, RecordsOf(was.pointers[lo..hi]), depth, now.pointers[lo..hi], now.equals[lo..hi]);
  }

  lemma UnfinishedWithin(s: seq<Record>, depth: nat, bound: nat)
    requires KeysWithin(s, bound) && ByteOf(depth) == 0 && !Finished(RecordsOf(s), depth)
    ensures depth + 8 <= bound
  {
    var r :| r in RecordsOf(s) && depth < |r.key|;
  }

  lemma LoadedHere(stray: Stray, depth: nat, was: Arrays, now: Arrays, lo: nat, hi: nat)
    requires lo < hi <= |was.pointers| && hi <= |was.equals| && hi <= |was.cache| && ByteOf(depth) == 0
    requires now.equals == was.equals && now.pointers == was.pointers && now.pointersWork == was.pointersWork
    requires hi <= |was.pointersWork|
    requires SameOutside(now.cacheWork, was.cacheWork, lo, hi) && SameOutside(now.cache, was.cache, lo, hi)
    requires now.cache[lo..hi] == now.cacheWork[lo..hi]
    requires CS.Loaded(stray, depth, was.pointers[lo..hi], now.cacheWork, lo)
    ensures Ready(stray, depth, now.pointers[lo..hi], now.cache[lo..hi])
    ensures Frames(now, was, lo, hi)
  {
    hide Block;
    var s, c := now.pointers[lo..hi], now.cache[lo..hi];
    forall i | 0 <= i < |s|
      ensures c[i] == Block(stray, s[i], depth) && High(c[i], ByteOf(depth)) == 0
    {
      assert c[i] == now.cacheWork[lo..hi][i] == now.cacheWork[lo + i];
      HighBounds(c[i]);
    }
  }

  lemma AgreeIsReady(stray: Stray, depth: nat, s: seq<Record>, cache: seq<Word>)
    requires |cache| == |s| && ByteOf(depth) != 0 && Agree(stray, depth, s, cache)
    ensures Ready(stray, depth, s, cache)
  {}

  /** Fewer than 256 records: quicksort by block, then go on with every run of equal blocks. The
      records are first moved back to the caller's arrays if they are in the work arrays. */
  method SortSmall(stray: Stray, equals: array<bool>, cache: array<Word>, pointers: array<Record>,
                   cacheWork: array<Word>, pointersWork: array<Record>, lo: nat, hi: nat, depth: nat,
                   swapped: bool, ghost bound: nat)
    requires Workspace(equals, cache, pointers, cacheWork, pointersWork, lo, hi)
    requires BlockStart(depth) + 8 <= bound && KeysWithin(pointers[..][lo..hi], bound)
    requires Ready(stray, depth, pointers[..][lo..hi], cache[..][lo..hi])
    requires NoMarks(equals[..][lo..hi])
    modifies equals, cache, pointers, cacheWork, pointersWork
    ensures RefinedFrom(stray, depth, old(pointers[..][lo..hi]),
      (if swapped then pointersWork else pointers)[..][lo..hi], equals[..][lo..hi])
    ensures Frames(Snapshot(equals, cache, pointers, cacheWork, pointersWork),
      old(Snapshot(equals, cache, pointers, cacheWork, pointersWork)), lo, hi)
    decreases bound - depth, 2
  {
    hide ArrangedIn, SameOutside, Frames, Ready, KeysWithin, NoMarks, Block;
    ghost var a0 := Snapshot(equals, cache, pointers, cacheWork, pointersWork);
    var nextDepth := (depth + 8) / 8 * 8;
    assert nextDepth == BlockStart(depth) + 8;
    ReadyAtBlock(stray, depth, pointers[..][lo..hi], cache[..][lo..hi]);
    if swapped {
      CopyBlocks(cacheWork, cache, lo, hi);
      CopyPointers(pointersWork, pointers, lo, hi);
      ghost var a1 := Snapshot(equals, cache, pointers, cacheWork, pointersWork);
      FramesCopied(a1, a0, lo, hi);
      SortRuns(stray, equals, cacheWork, pointersWork, cache, pointers, lo, hi, nextDepth, bound);
      ghost var a2 := Snapshot(equals, cache, pointers, cacheWork, pointersWork);
      FramesSwapped(Swap(a2), Swap(a1), lo, hi);
      FramesTwice(a2, a1, a0, lo, hi);
    } else {
      SortRuns(stray, equals, cache, pointers, cacheWork, pointersWork, lo, hi, nextDepth, bound);
    }
  }

  lemma ReadyAtBlock(stray: Stray, depth: nat, s: seq<Record>, cache: seq<Word>)
    requires Ready(stray, depth, s, cache)
    ensures |cache| == |s|
    ensures forall i :: 0 <= i < |s| ==> cache[i] == Block(stray, s[i], BlockStart(depth))
  {}

  lemma FramesCopied(a1: Arrays, a0: Arrays, lo: nat, hi: nat)
    requires lo <= hi <= |a0.equals| && hi <= |a0.cache| && hi <= |a0.pointers|
    requires a1.equals == a0.equals && a1.cache == a0.cache && a1.pointers == a0.pointers
    requires SameOutside(a1.cacheWork, a0.cacheWork, lo, hi) && SameOutside(a1.pointersWork, a0.pointersWork, lo, hi)
    ensures Frames(a1, a0, lo, hi)
  {}

  // ----- Runs of equal blocks

  /** The first `i` of the quicksorted records `s` are in their final order. */
  ghost predicate RunsDone(stray: Stray, k: nat, s: seq<Record>, blocks: seq<Word>, i: int,
                           now: seq<Record>, cache: seq<Word>, marks: seq<bool>)
  {
    && |blocks| == |now| == |cache| == |marks| == |s| && 0 <= i <= |s|
    && now[i..] == s[i..] && cache[i..] == blocks[i..]
    && multiset(now[..i]) == multiset(s[..i])
    && ArrangedIn(stray, RecordsOf(s), k, now[..i], marks[..i])
    && NoMarks(marks[i..])
    && (0 < i < |s| ==> blocks[i - 1] < blocks[i])
  }

  /** Quicksorted: blocks ascending, each beside its record. */
  ghost predicate BlocksAscend(stray: Stray, k: nat, s: seq<Record>, blocks: seq<Word>) {
    && |blocks| == |s| && QS.Sorted(blocks)
    && forall i :: 0 <= i < |s| ==> blocks[i] == Block(stray, s[i], k)
  }

  /** The source's `while`: the end of the run of equal blocks that starts at `i`. */
  method FindRun(cache: array<Word>, i: nat, hi: nat) returns (j: nat)
    requires i < hi <= cache.Length
    ensures i < j <= hi
    ensures forall x :: i <= x < j ==> cache[x] == cache[i]
    ensures j < hi ==> cache[j] != cache[i]
  {
    j := i + 1;
    while j < hi && cache[i] == cache[j]
      invariant i < j <= hi
      invariant forall x :: i <= x < j ==> cache[x] == cache[i]
    {
      j := j + 1;
    }
  }

  method SortRuns(stray: Stray, equals: array<bool>, cache: array<Word>, pointers: array<Record>,
                  cacheWork: array<Word>, pointersWork: array<Record>, lo: nat, hi: nat, nextDepth: nat,
                  ghost bound: nat)
    requires Workspace(equals, cache, pointers, cacheWork, pointersWork, lo, hi)
    requires 8 <= nextDepth <= bound && ByteOf(nextDepth) == 0 && KeysWithin(pointers[..][lo..hi], bound)
    requires forall i :: 0 <= i < hi - lo ==>
      cache[..][lo..hi][i] == Block(stray, pointers[..][lo..hi][i], nextDepth - 8)
    requires NoMarks(equals[..][lo..hi])
    modifies equals, cache, pointers, cacheWork, pointersWork
    ensures RefinedFrom(stray, nextDepth - 8, old(pointers[..][lo..hi]), pointers[..][lo..hi], equals[..][lo..hi])
    ensures Frames(Snapshot(equals, cache, pointers, cacheWork, pointersWork),
      old(Snapshot(equals, cache, pointers, cacheWork, pointersWork)), lo, hi)
    decreases bound - nextDepth, 4
  {
    hide ArrangedIn, Arranged, SameOutside, Frames, RunsDone, BlocksAscend, Block, PairsPermuted, NoMarks, KeysWithin,
      Agree, SortedFrom;
    ghost var k := nextDepth - 8;
    ghost var s0 := pointers[..][lo..hi];
    ghost var a0 := Snapshot(equals, cache, pointers, cacheWork, pointersWork);
    QS.QuickSort(cache, pointers, lo, hi);
    ghost var a1 := Snapshot(equals, cache, pointers, cacheWork, pointersWork);
    ghost var s, blocks := pointers[..][lo..hi], cache[..][lo..hi];
    AfterQuickSort(stray, k, a1, a0, lo, hi, bound);
    var i := lo;
    while i < hi
      invariant lo <= i <= hi
      invariant RunsDone(stray, k, s, blocks, i - lo, pointers[..][lo..hi], cache[..][lo..hi], equals[..][lo..hi])
      invariant Frames(Snapshot(equals, cache, pointers, cacheWork, pointersWork), a0, lo, hi)
    {
      ghost var b := Snapshot(equals, cache, pointers, cacheWork, pointersWork);
      var j := FindRun(cache, i, hi);
      RunFound(stray, k, s, blocks, b, lo, hi, i, j, bound);
      if j - i >= 2 {
        MsdRadixSort(stray, equals, cache, pointers, cacheWork, pointersWork, i, j, nextDepth, false, bound);
        RunSorted(stray, k, s, blocks, Snapshot(equals, cache, pointers, cacheWork, pointersWork), b, a0, lo, hi, i, j);
      }
      i := j;
    }
    RunsFinished(stray, k, s0, s, blocks, pointers[..][lo..hi], cache[..][lo..hi], equals[..][lo..hi]);
  }

  lemma AfterQuickSort(stray: Stray, k: nat, a1: Arrays, a0: Arrays, lo: nat, hi: nat, bound: nat)
    requires lo <= hi <= |a0.equals| && hi <= |a0.cacheWork| && hi <= |a0.pointersWork|
    requires PairsPermuted(a1.cache, a1.pointers, a0.cache, a0.pointers, lo, hi)
    requires a1.equals == a0.equals && a1.cacheWork == a0.cacheWork && a1.pointersWork == a0.pointersWork
    requires QS.Sorted(a1.cache[lo..hi]) && NoMarks(a0.equals[lo..hi]) && KeysWithin(a0.pointers[lo..hi], bound)
    requires forall i :: 0 <= i < hi - lo ==> a0.cache[lo..hi][i] == Block(stray, a0.pointers[lo..hi][i], k)
    ensures BlocksAscend(stray, k, a1.pointers[lo..hi], a1.cache[lo..hi])
    ensures multiset(a1.pointers[lo..hi]) == multiset(a0.pointers[lo..hi])
    ensures RunsDone(stray, k, a1.pointers[lo..hi], a1.cache[lo..hi], 0, a1.pointers[lo..hi], a1.cache[lo..hi],
      a1.equals[lo..hi])
    ensures KeysWithin(a1.pointers[lo..hi], bound)
    ensures Frames(a1, a0, lo, hi)
  {
    hide Block;
    PointersPermuted(a1.cache, a1.pointers, a0.cache, a0.pointers, lo, hi);
    SameMembers(a1.pointers[lo..hi], a0.pointers[lo..hi]);
    forall i | 0 <= i < hi - lo ensures a1.cache[lo..hi][i] == Block(stray, a1.pointers[lo..hi][i], k) {
      var j := PairOrigin(a1.cache, a1.pointers, a0.cache, a0.pointers, lo, hi, lo + i);
      assert a0.cache[lo..hi][j - lo] == Block(stray, a0.pointers[lo..hi][j - lo], k);
    }
  }

  /** Positions `i..j` hold every record with the block found at `i`. */
  ghost predicate IsRun(blocks: seq<Word>, i: int, j: int) {
    && 0 <= i < j <= |blocks|
    && (forall x :: i <= x < j ==> blocks[x] == blocks[i])
    && (j < |blocks| ==> blocks[j] != blocks[i])
  }

  lemma RunIsGroup(stray: Stray, k: nat, s: seq<Record>, blocks: seq<Word>, i: nat, j: nat)
    requires BlocksAscend(stray, k, s, blocks) && IsRun(blocks, i, j)
    requires 0 < i ==> blocks[i - 1] < blocks[i]
    ensures RecordsOf(s[i..j]) == Group(stray, RecordsOf(s), k, blocks[i])
    ensures forall r :: r in s[..i] ==> Block(stray, r, k) < blocks[i]
    ensures forall r :: r in s[i..j] ==> Block(stray, r, k) == blocks[i]
  {
    hide Block;
    forall x | 0 <= x < |s| ensures x < i ==> blocks[x] < blocks[i]
      ensures j <= x ==> blocks[i] < blocks[x]
    {
      if x < i {
        assert blocks[x] <= blocks[i - 1];
      } else if j <= x {
        assert blocks[i] <= blocks[j] <= blocks[x];
      }
    }
    forall r | r in RecordsOf(s) && Block(stray, r, k) == blocks[i] ensures r in s[i..j] {
      var x :| 0 <= x < |s| && s[x] == r;
      assert i <= x < j;
      assert s[i..j][x - i] == r;
    }
    forall r | r in s[..i] ensures Block(stray, r, k) < blocks[i] {
      var x :| 0 <= x < i && s[..i][x] == r;
      assert s[x] == r;
    }
    forall r | r in s[i..j] ensures r in RecordsOf(s) && Block(stray, r, k) == blocks[i] {
      var x :| 0 <= x < j - i && s[i..j][x] == r;
      assert s[i + x] == r && blocks[i + x] == blocks[i];
    }
  }

  /** A finished run extends the finished part. */
  lemma RunStep(stray: Stray, k: nat, s: seq<Record>, blocks: seq<Word>, i: nat, j: nat,
                now: seq<Record>, cache: seq<Word>, marks: seq<bool>,
                now': seq<Record>, cache': seq<Word>, marks': seq<bool>)
    requires BlocksAscend(stray, k, s, blocks) && IsRun(blocks, i, j)
    requires RunsDone(stray, k, s, blocks, i, now, cache, marks)
    requires SameOutside(now', now, i, j) && SameOutside(cache', cache, i, j) && SameOutside(marks', marks, i + 1, j)
    requires multiset(now'[i..j]) == multiset(now[i..j])
    requires Arranged(stray, Group(stray, RecordsOf(s), k, blocks[i]), k + 8, now'[i..j], marks'[i..j])
    ensures RunsDone(stray, k, s, blocks, j, now', cache', marks')
  {
    hide ArrangedIn, Arranged, Block;
    RunIsGroup(stray, k, s, blocks, i, j);
    RunSlices(s, i, j, now, now');
    RunSlices(blocks, i, j, cache, cache');
    SameMembers(now'[i..j], s[i..j]);
    SameMembers(now[..i], s[..i]);
    ArrangedRun(stray, RecordsOf(s), k, blocks[i], now'[i..j], marks'[i..j]);
    assert marks'[i..j][0] == marks'[i] == marks'[..i + 1][i] == marks[..i + 1][i] == marks[i..][0];
    ArrangedAppend(stray, RecordsOf(s), k, now[..i], marks[..i], now'[i..j], marks'[i..j]);
    assert now'[..j] == now[..i] + now'[i..j];
    assert s[..j] == s[..i] + s[i..j];
    assert marks'[..i] == marks'[..i + 1][..i] == marks[..i + 1][..i] == marks[..i];
    assert marks'[..j] == marks[..i] + marks'[i..j];
    assert marks'[j..] == marks[j..] == marks[i..][j - i..];
    assert j < |s| ==> blocks[j - 1] == blocks[i] && blocks[j - 1] <= blocks[j];
  }

  lemma RunSlices<T>(s: seq<T>, i: nat, j: nat, now: seq<T>, now': seq<T>)
    requires i < j <= |s| == |now| && now[i..] == s[i..] && SameOutside(now', now, i, j)
    ensures now[i..j] == s[i..j] && now'[j..] == s[j..] && now'[..i] == now[..i]
  {
    assert now[i..j] == now[i..][..j - i] && s[i..j] == s[i..][..j - i];
    assert now'[j..] == now[j..] == now[i..][j - i..] && s[j..] == s[i..][j - i..];
  }

  lemma RunsTail(stray: Stray, k: nat, s: seq<Record>, blocks: seq<Word>, i: int,
                 now: seq<Record>, cache: seq<Word>, marks: seq<bool>)
    requires RunsDone(stray, k, s, blocks, i, now, cache, marks)
    ensures |blocks| == |now| == |cache| == |marks| == |s| && 0 <= i <= |s|
    ensures now[i..] == s[i..] && cache[i..] == blocks[i..] && NoMarks(marks[i..])
  {
    hide ArrangedIn, NoMarks;
  }

  lemma RunAgrees(stray: Stray, k: nat, s: seq<Record>, blocks: seq<Word>, m: nat, n: nat)
    requires |blocks| == |s| && ByteOf(k) == 0 && IsRun(blocks, m, n)
    ensures Agree(stray, k + 8, s[m..n], blocks[m..n])
  {
    hide Block, High;
    NextBlock(k);
  }

  lemma KeysWithinPart(s: seq<Record>, m: nat, n: nat, bound: nat)
    requires KeysWithin(s, bound) && m <= n <= |s|
    ensures KeysWithin(s[m..n], bound)
  {
    forall r | r in s[m..n] ensures r in s {
      var x :| 0 <= x < n - m && s[m..n][x] == r;
      assert s[m + x] == r;
    }
  }

  /** A run satisfies what the recursive call asks for; a run of one record is already done. */
  lemma RunFound(stray: Stray, k: nat, s: seq<Record>, blocks: seq<Word>, b: Arrays, lo: nat, hi: nat, i: nat, j: nat,
                 bound: nat)
    requires lo <= i < j <= hi && hi <= |b.equals| && hi <= |b.cache| && hi <= |b.pointers| && |s| == hi - lo
    requires BlocksAscend(stray, k, s, blocks) && KeysWithin(s, bound) && ByteOf(k) == 0
    requires RunsDone(stray, k, s, blocks, i - lo, b.pointers[lo..hi], b.cache[lo..hi], b.equals[lo..hi])
    requires forall x :: i <= x < j ==> b.cache[x] == b.cache[i]
    requires j < hi ==> b.cache[j] != b.cache[i]
    ensures IsRun(blocks, i - lo, j - lo)
    ensures KeysWithin(b.pointers[i..j], bound)
    ensures Agree(stray, k + 8, b.pointers[i..j], b.cache[i..j])
    ensures NoMarks(b.equals[i..j])
    ensures b.pointers[i..j] == s[i - lo..j - lo]
    ensures j == i + 1 ==>
      RunsDone(stray, k, s, blocks, j - lo, b.pointers[lo..hi], b.cache[lo..hi], b.equals[lo..hi])
  {
    hide RunsDone, BlocksAscend, Agree, KeysWithin;
    var now, cache, marks, m, n := b.pointers[lo..hi], b.cache[lo..hi], b.equals[lo..hi], i - lo, j - lo;
    RunsTail(stray, k, s, blocks, m, now, cache, marks);
    WindowTail(b.cache, blocks, lo, hi, i, j);
    WindowTail(b.pointers, s, lo, hi, i, j);
    assert IsRun(blocks, m, n);
    RunAgrees(stray, k, s, blocks, m, n);
    Window(b.equals, lo, i, j, hi);
    KeysWithinPart(s, m, n, bound);
    if n == m + 1 {
      RunOfOne(stray, k, s, blocks, m, now, cache, marks);
    }
  }

  lemma WindowTail<T>(a: seq<T>, s: seq<T>, lo: nat, hi: nat, i: nat, j: nat)
    requires lo <= i <= j <= hi <= |a| && |s| == hi - lo && a[lo..hi][i - lo..] == s[i - lo..]
    ensures forall x :: i - lo <= x < |s| ==> s[x] == a[lo + x]
    ensures a[i..j] == s[i - lo..j - lo]
  {
    forall x | i - lo <= x < |s| ensures s[x] == a[lo + x] {
      assert s[i - lo..][x - (i - lo)] == a[lo..hi][i - lo..][x - (i - lo)];
    }
  }

  lemma RunOfOne(stray: Stray, k: nat, s: seq<Record>, blocks: seq<Word>, i: nat,
                 now: seq<Record>, cache: seq<Word>, marks: seq<bool>)
    requires BlocksAscend(stray, k, s, blocks) && IsRun(blocks, i, i + 1)
    requires RunsDone(stray, k, s, blocks, i, now, cache, marks)
    ensures RunsDone(stray, k, s, blocks, i + 1, now, cache, marks)
  {
    hide RunsDone, BlocksAscend, Block;
    assert |now| == |cache| == |marks| == |blocks| by { RunLengths(stray, k, s, blocks, i, now, cache, marks); }
    SameOutsideSelf(now, i, i + 1);
    SameOutsideSelf(cache, i, i + 1);
    SameOutsideSelf(marks, i + 1, i + 1);
    RunStep(stray, k, s, blocks, i, i + 1, now, cache, marks, now, cache, marks);
  }

  lemma RunLengths(stray: Stray, k: nat, s: seq<Record>, blocks: seq<Word>, i: nat,
                   now: seq<Record>, cache: seq<Word>, marks: seq<bool>)
    requires RunsDone(stray, k, s, blocks, i, now, cache, marks)
    ensures |now| == |cache| == |marks| == |blocks| == |s|
  {}

  lemma RunSorted(stray: Stray, k: nat, s: seq<Record>, blocks: seq<Word>, now: Arrays, b: Arrays, a0: Arrays,
                  lo: nat, hi: nat, i: nat, j: nat)
    requires lo <= i < j <= hi && hi <= |b.equals| && hi <= |b.cache| && hi <= |b.pointers| && |s| == hi - lo
    requires hi <= |b.cacheWork| && hi <= |b.pointersWork|
    requires BlocksAscend(stray, k, s, blocks) && IsRun(blocks, i - lo, j - lo) && ByteOf(k) == 0
    requires RunsDone(stray, k, s, blocks, i - lo, b.pointers[lo..hi], b.cache[lo..hi], b.equals[lo..hi])
    requires b.pointers[i..j] == s[i - lo..j - lo]
    requires Frames(now, b, i, j) && Frames(b, a0, lo, hi)
    requires SortedFrom(stray, k + 8, b.pointers[i..j], now.pointers[i..j], now.equals[i..j])
    ensures RunsDone(stray, k, s, blocks, j - lo, now.pointers[lo..hi], now.cache[lo..hi], now.equals[lo..hi])
    ensures Frames(now, a0, lo, hi)
  {
    hide SortedFrom, RunsDone, BlocksAscend, IsRun, Frames, SameOutside;
    assert Frames(now, a0, lo, hi) by {
      FramesWider(now, b, lo, i, j, hi);
      FramesTwice(now, b, a0, lo, hi);
    }
    RunWindows(now, b, lo, i, j, hi);
    RunStepSorted(stray, k, s, blocks, i - lo, j - lo, b.pointers[lo..hi], b.cache[lo..hi], b.equals[lo..hi],
      now.pointers[lo..hi], now.cache[lo..hi], now.equals[lo..hi]);
  }

  /** The windows of a frame. */
  lemma RunWindows(now: Arrays, was: Arrays, lo: nat, i: nat, j: nat, hi: nat)
    requires lo <= i < j <= hi && hi <= |was.equals| && hi <= |was.cache| && hi <= |was.pointers| && Frames(now, was, i, j)
    ensures hi <= |now.equals| && hi <= |now.cache| && hi <= |now.pointers|
    ensures SameOutside(now.pointers[lo..hi], was.pointers[lo..hi], i - lo, j - lo)
    ensures SameOutside(now.cache[lo..hi], was.cache[lo..hi], i - lo, j - lo)
    ensures SameOutside(now.equals[lo..hi], was.equals[lo..hi], i - lo + 1, j - lo)
    ensures now.pointers[lo..hi][i - lo..j - lo] == now.pointers[i..j]
    ensures now.equals[lo..hi][i - lo..j - lo] == now.equals[i..j]
    ensures was.pointers[lo..hi][i - lo..j - lo] == was.pointers[i..j]
  {
    FrameLengths(now, was, i, j);
    SameOutsideWindow(now.pointers, was.pointers, lo, i, j, hi);
    SameOutsideWindow(now.cache, was.cache, lo, i, j, hi);
    SameOutsideWindow(now.equals, was.equals, lo, i + 1, j, hi);
    hide Frames, SameOutside;
    Window(now.pointers, lo, i, j, hi);
    Window(was.pointers, lo, i, j, hi);
    Window(now.equals, lo, i, j, hi);
  }

  lemma RunStepSorted(stray: Stray, k: nat, s: seq<Record>, blocks: seq<Word>, i: nat, j: nat,
                      now: seq<Record>, cache: seq<Word>, marks: seq<bool>,
                      now': seq<Record>, cache': seq<Word>, marks': seq<bool>)
    requires BlocksAscend(stray, k, s, blocks) && IsRun(blocks, i, j) && ByteOf(k) == 0
    requires RunsDone(stray, k, s, blocks, i, now, cache, marks) && now[i..j] == s[i..j]
    requires SameOutside(now', now, i, j) && SameOutside(cache', cache, i, j) && SameOutside(marks', marks, i + 1, j)
    requires SortedFrom(stray, k + 8, s[i..j], now'[i..j], marks'[i..j])
    ensures RunsDone(stray, k, s, blocks, j, now', cache', marks')
  {
    RunStarts(stray, k, s, blocks, i, j, now, cache, marks);
    hide Arranged, RunsDone, BlocksAscend, IsRun, SameOutside, Group, Block;
    NextBlock(k);
    RunIsGroup(stray, k, s, blocks, i, j);
    RunStep(stray, k, s, blocks, i, j, now, cache, marks, now', cache', marks');
  }

  lemma RunStarts(stray: Stray, k: nat, s: seq<Record>, blocks: seq<Word>, i: nat, j: nat,
                  now: seq<Record>, cache: seq<Word>, marks: seq<bool>)
    requires BlocksAscend(stray, k, s, blocks) && IsRun(blocks, i, j)
    requires RunsDone(stray, k, s, blocks, i, now, cache, marks)
    ensures i < j <= |blocks| && (0 < i ==> blocks[i - 1] < blocks[i])
  {
    hide Block, ArrangedIn;
  }

  lemma RunsFinished(stray: Stray, k: nat, s0: seq<Record>, s: seq<Record>, blocks: seq<Word>,
                     now: seq<Record>, cache: seq<Word>, marks: seq<bool>)
    requires multiset(s) == multiset(s0) && ByteOf(k) == 0
    requires RunsDone(stray, k, s, blocks, |s|, now, cache, marks)
    ensures RefinedFrom(stray, k, s0, now, marks)
  {
    SameMembers(s, s0);
    assert RecordsOf(s) == RecordsOf(s0);
    assert now[..|s|] == now && s[..|s|] == s && marks[..|s|] == marks;
  }

  // ----- Buckets

  /** The buckets below `v` are in their final order; the others are as distributed. */
  ghost predicate BucketsDone(stray: Stray, depth: nat, s: seq<Record>, w: seq<Record>, blocks: seq<Word>, v: nat,
                              final: seq<Record>, now: seq<Record>, cache: seq<Word>, marks: seq<bool>)
  {
    var h := Start(CS.ByDigit(stray, depth), s, v);
    && |w| == |blocks| == |final| == |now| == |cache| == |marks| == |s| && h <= |s|
    && now[h..] == w[h..] && cache[h..] == blocks[h..]
    && multiset(final[..h]) == multiset(w[..h])
    && ArrangedIn(stray, RecordsOf(s), BlockStart(depth), final[..h], marks[..h])
    && NoMarks(marks[h..])
  }

  /** At least 256 records: distribute by the byte of this depth and sort every bucket from the
      next depth on, with the two pairs of arrays exchanged. */
  method SortLarge(stray: Stray, equals: array<bool>, cache: array<Word>, pointers: array<Record>,
                   cacheWork: array<Word>, pointersWork: array<Record>, lo: nat, hi: nat, depth: nat,
                   swapped: bool, ghost bound: nat)
    requires Workspace(equals, cache, pointers, cacheWork, pointersWork, lo, hi)
    requires swapped == (depth % 2 == 1)
    requires BlockStart(depth) + 8 <= bound && KeysWithin(pointers[..][lo..hi], bound)
    requires Ready(stray, depth, pointers[..][lo..hi], cache[..][lo..hi])
    requires NoMarks(equals[..][lo..hi])
    modifies equals, cache, pointers, cacheWork, pointersWork
    ensures RefinedFrom(stray, depth, old(pointers[..][lo..hi]),
      (if swapped then pointersWork else pointers)[..][lo..hi], equals[..][lo..hi])
    ensures Frames(Snapshot(equals, cache, pointers, cacheWork, pointersWork),
      old(Snapshot(equals, cache, pointers, cacheWork, pointersWork)), lo, hi)
    decreases bound - depth, 2
  {
    hide ArrangedIn, Arranged, SameOutside, Frames, Ready, Block, CS.Loaded, BucketsDone, NoMarks, Start, KeysWithin,
      Agree, SortedFrom, RefinedFrom, Distributed;
    ghost var s, a0 := pointers[..][lo..hi], Snapshot(equals, cache, pointers, cacheWork, pointersWork);
    ReadyIsLoaded(stray, depth, a0, lo, hi);
    var bins := CS.Distribute(stray, cache, pointers, cacheWork, pointersWork, lo, hi, depth);
    ghost var a1 := Snapshot(equals, cache, pointers, cacheWork, pointersWork);
    ghost var w, blocks := pointersWork[..][lo..hi], cacheWork[..][lo..hi];
    ghost var final := if swapped then pointersWork else pointers;
    AfterDistribute(stray, depth, a1, a0, lo, hi, final[..][lo..hi]);
    DistributedNow(stray, depth, a1, a0, lo, hi);
    StartOfFirst(CS.ByDigit(stray, depth), s);
    NextByte(depth);
    var ends := bins[..];
    var head := 0;
    for v := 0 to CS.BUCKETS
      invariant head == Start(CS.ByDigit(stray, depth), s, v)
      invariant BucketsDone(stray, depth, s, w, blocks, v, final[..][lo..hi], pointersWork[..][lo..hi],
        cacheWork[..][lo..hi], equals[..][lo..hi])
      invariant Frames(Snapshot(equals, cache, pointers, cacheWork, pointersWork), a0, lo, hi)
    {
      var tail := ends[v];
      SortBucket(stray, equals, cache, pointers, cacheWork, pointersWork, lo, hi, depth, swapped, bound,
        s, w, blocks, v, a0, lo + head, lo + tail);
      head := tail;
    }
    BucketsFinished(stray, depth, s, w, blocks, final[..][lo..hi], pointersWork[..][lo..hi], cacheWork[..][lo..hi],
      equals[..][lo..hi]);
  }

  /** One turn of that loop: bucket `v`, which lies in `from..to`. */
  method SortBucket(stray: Stray, equals: array<bool>, cache: array<Word>, pointers: array<Record>,
                    cacheWork: array<Word>, pointersWork: array<Record>, ghost lo: nat, ghost hi: nat, depth: nat,
                    swapped: bool, ghost bound: nat, ghost s: seq<Record>, ghost w: seq<Record>,
                    ghost blocks: seq<Word>, ghost v: nat, ghost a0: Arrays, from: nat, to: nat)
    requires Workspace(equals, cache, pointers, cacheWork, pointersWork, lo, hi)
    requires swapped == (depth % 2 == 1) && |s| == hi - lo
    requires depth + 1 <= bound && KeysWithin(s, bound) && v < CS.BUCKETS
    requires from == lo + Start(CS.ByDigit(stray, depth), s, v) && to == lo + Start(CS.ByDigit(stray, depth), s, v + 1)
    requires Distributed(stray, depth, s, w, blocks)
    requires BucketsDone(stray, depth, s, w, blocks, v, (if swapped then pointersWork else pointers)[..][lo..hi],
      pointersWork[..][lo..hi], cacheWork[..][lo..hi], equals[..][lo..hi])
    requires Frames(Snapshot(equals, cache, pointers, cacheWork, pointersWork), a0, lo, hi)
    modifies equals, cache, pointers, cacheWork, pointersWork
    ensures BucketsDone(stray, depth, s, w, blocks, v + 1, (if swapped then pointersWork else pointers)[..][lo..hi],
      pointersWork[..][lo..hi], cacheWork[..][lo..hi], equals[..][lo..hi])
    ensures Frames(Snapshot(equals, cache, pointers, cacheWork, pointersWork), a0, lo, hi)
    decreases bound - depth, 1
  {
    hide ArrangedIn, Arranged, SameOutside, Frames, Block, BucketsDone, NoMarks, Start, KeysWithin, Agree, SortedFrom,
      Distributed, Select;
    ghost var final := if swapped then pointersWork else pointers;
    ghost var b, f := Snapshot(equals, cache, pointers, cacheWork, pointersWork), final[..];
    BucketReady(stray, depth, s, w, blocks, v, b, f, lo, hi, from, to, bound);
    MsdRadixSort(stray, equals, cacheWork, pointersWork, cache, pointers, from, to, depth + 1, !swapped, bound);
    BucketSorted(stray, depth, s, w, blocks, v, Snapshot(equals, cache, pointers, cacheWork, pointersWork), b, a0,
      final[..], f, swapped, lo, hi, from, to);
  }

  lemma ReadyIsLoaded(stray: Stray, depth: nat, a: Arrays, lo: nat, hi: nat)
    requires lo <= hi <= |a.pointers| && hi <= |a.cache|
    requires Ready(stray, depth, a.pointers[lo..hi], a.cache[lo..hi])
    ensures CS.Loaded(stray, depth, a.pointers[lo..hi], a.cache, lo)
  {
    hide Block;
    forall i | 0 <= i < hi - lo
      ensures a.cache[lo + i] == Block(stray, a.pointers[lo..hi][i], BlockStart(depth))
    {
      assert a.cache[lo..hi][i] == a.cache[lo + i];
    }
  }

  lemma AfterDistribute(stray: Stray, depth: nat, a1: Arrays, a0: Arrays, lo: nat, hi: nat, final: seq<Record>)
    requires lo <= hi <= |a0.equals| && hi <= |a0.cache| && hi <= |a0.pointers|
    requires a1.equals == a0.equals && a1.cache == a0.cache && a1.pointers == a0.pointers
    requires SameOutside(a1.cacheWork, a0.cacheWork, lo, hi) && SameOutside(a1.pointersWork, a0.pointersWork, lo, hi)
    requires NoMarks(a0.equals[lo..hi]) && |final| == hi - lo
    ensures BucketsDone(stray, depth, a0.pointers[lo..hi], a1.pointersWork[lo..hi], a1.cacheWork[lo..hi], 0, final,
      a1.pointersWork[lo..hi], a1.cacheWork[lo..hi], a1.equals[lo..hi])
    ensures Frames(a1, a0, lo, hi)
  {}

  /** The bucketed copy of `s`, with its blocks; the records agree above this depth's byte. */
  ghost predicate Distributed(stray: Stray, depth: nat, s: seq<Record>, w: seq<Record>, blocks: seq<Word>) {
    && |w| == |blocks| == |s|
    && w == Buckets(CS.ByDigit(stray, depth), s, CS.BUCKETS)
    && (forall p :: 0 <= p < |w| ==> blocks[p] == Block(stray, w[p], BlockStart(depth)))
    && (forall r, t {:trigger r in s, t in s} :: r in s && t in s ==>
          High(Block(stray, r, BlockStart(depth)), ByteOf(depth)) == High(Block(stray, t, BlockStart(depth)), ByteOf(depth)))
  }

  /** Bucket `v` of the distributed records. */
  lemma BucketIsSelection(stray: Stray, depth: nat, s: seq<Record>, w: seq<Record>, blocks: seq<Word>, v: nat)
    requires Distributed(stray, depth, s, w, blocks) && v < CS.BUCKETS
    ensures Start(CS.ByDigit(stray, depth), s, v) <= Start(CS.ByDigit(stray, depth), s, v + 1) <= |s|
    ensures w[Start(CS.ByDigit(stray, depth), s, v)..Start(CS.ByDigit(stray, depth), s, v + 1)]
      == Select(CS.ByDigit(stray, depth), s, v)
    ensures w[..Start(CS.ByDigit(stray, depth), s, v)] == Buckets(CS.ByDigit(stray, depth), s, v)
  {
    var tag := CS.ByDigit(stray, depth);
    CS.DigitsBelow(stray, depth, s);
    BucketSlice(tag, s, v, CS.BUCKETS);
    BucketsAscend(tag, s, v, CS.BUCKETS);
  }

  /** The order between buckets, and what the members of one bucket share. */
  lemma {:induction false} BucketOrder(stray: Stray, depth: nat, s: seq<Record>, w: seq<Record>, blocks: seq<Word>, v: nat)
    requires Distributed(stray, depth, s, w, blocks) && v < CS.BUCKETS
    ensures var Q, k := Select(CS.ByDigit(stray, depth), s, v), BlockStart(depth);
      && (forall r, t :: r in Buckets(CS.ByDigit(stray, depth), s, v) && t in Q ==>
            Block(stray, r, k) < Block(stray, t, k))
      && (forall r, t :: r in Q && t in Q ==>
            High(Block(stray, r, k), ByteOf(depth) + 1) == High(Block(stray, t, k), ByteOf(depth) + 1))
      && (forall r, t :: r in s && t in Q && Block(stray, r, k) == Block(stray, t, k) ==> r in Q)
      && (forall r :: r in Q ==> r in s)
  {
    hide Block, High, Digit, BlockStart, ByteOf, Select, Buckets;
    var tag, k := CS.ByDigit(stray, depth), BlockStart(depth);
    var Q := Select(tag, s, v);
    SelectMembers(tag, s, v);
    BucketsMembers(tag, s, v);
    forall r, t | r in s && t in s
      ensures tag(r) < tag(t) ==> Block(stray, r, k) < Block(stray, t, k)
      ensures tag(r) == tag(t) ==> High(Block(stray, r, k), ByteOf(depth) + 1) == High(Block(stray, t, k), ByteOf(depth) + 1)
    {
      DigitOrders(Block(stray, r, k), Block(stray, t, k), depth);
    }
  }

  /** Bucket `v` satisfies what the recursive call asks for. */
  lemma BucketReady(stray: Stray, depth: nat, s: seq<Record>, w: seq<Record>, blocks: seq<Word>, v: nat, b: Arrays,
                    f: seq<Record>, lo: nat, hi: nat, from: int, to: int, bound: nat)
    requires lo <= hi && hi <= |b.equals| && hi <= |b.cacheWork| && hi <= |b.pointersWork| && |s| == hi - lo <= |f| - lo
    requires Distributed(stray, depth, s, w, blocks) && v < CS.BUCKETS && KeysWithin(s, bound)
    requires BucketsDone(stray, depth, s, w, blocks, v, f[lo..hi], b.pointersWork[lo..hi],
      b.cacheWork[lo..hi], b.equals[lo..hi])
    requires from == lo + Start(CS.ByDigit(stray, depth), s, v) && to == lo + Start(CS.ByDigit(stray, depth), s, v + 1)
    ensures lo <= from <= to <= hi
    ensures b.pointersWork[from..to] == Select(CS.ByDigit(stray, depth), s, v)
    ensures KeysWithin(b.pointersWork[from..to], bound)
    ensures Agree(stray, depth + 1, b.pointersWork[from..to], b.cacheWork[from..to])
    ensures NoMarks(b.equals[from..to])
  {
    hide Block, High, Start, Buckets, Select, ArrangedIn, BlockStart, ByteOf, Distributed, KeysWithin, Agree;
    var h, t := from - lo, to - lo;
    BucketIsSelection(stray, depth, s, w, blocks, v);
    Window(b.pointersWork, lo, from, to, hi);
    Window(b.cacheWork, lo, from, to, hi);
    Window(b.equals, lo, from, to, hi);
    Window(w, 0, h, t, |w|);
    Window(blocks, 0, h, t, |blocks|);
    assert w[0..|w|] == w && blocks[0..|blocks|] == blocks;
    BucketAgrees(stray, depth, s, w, blocks, v, h, t, bound);
  }

  lemma BucketAgrees(stray: Stray, depth: nat, s: seq<Record>, w: seq<Record>, blocks: seq<Word>, v: nat,
                     h: nat, t: nat, bound: nat)
    requires Distributed(stray, depth, s, w, blocks) && v < CS.BUCKETS && KeysWithin(s, bound)
    requires h <= t <= |s| && w[h..t] == Select(CS.ByDigit(stray, depth), s, v)
    ensures KeysWithin(w[h..t], bound)
    ensures Agree(stray, depth + 1, w[h..t], blocks[h..t])
  {
    hide Block, High, Buckets, Select, BlockStart, ByteOf;
    NextByte(depth);
    BucketOrder(stray, depth, s, w, blocks, v);
    var q, c := w[h..t], blocks[h..t];
    forall i | 0 <= i < |q| ensures c[i] == Block(stray, q[i], BlockStart(depth)) && q[i] in q {
      assert c[i] == blocks[h + i] && q[i] == w[h + i];
    }
    forall i, j | 0 <= i < |q| && 0 <= j < |q|
      ensures High(c[i], ByteOf(depth) + 1) == High(c[j], ByteOf(depth) + 1)
      ensures ByteOf(depth) == 7 ==> c[i] == c[j]
    {
      HighBounds(c[i]);
      HighBounds(c[j]);
    }
  }

  /** The recursive call's result, as a part of the order at this depth. */
  lemma BucketArranged(stray: Stray, depth: nat, s: seq<Record>, w: seq<Record>, blocks: seq<Word>, v: nat,
                       q: seq<Record>, final: seq<Record>, marks: seq<bool>)
    requires Distributed(stray, depth, s, w, blocks) && v < CS.BUCKETS
    requires q == Select(CS.ByDigit(stray, depth), s, v) && |marks| == |final|
    requires SortedFrom(stray, depth + 1, q, final, marks)
    ensures ArrangedIn(stray, RecordsOf(s), BlockStart(depth), final, marks)
  {
    hide Block, High, Arranged, ArrangedIn, BlockStart, ByteOf, Select, Buckets;
    NextByte(depth);
    var k, P, Q := BlockStart(depth), RecordsOf(s), RecordsOf(q);
    BucketOrder(stray, depth, s, w, blocks, v);
    SameMembers(final, q);
    if |q| == 0 {
      ArrangedInNothing(stray, P, k, final, marks);
    } else if ByteOf(depth) == 7 {
      var block := Block(stray, q[0], k);
      forall r | r in q ensures Block(stray, r, k) == block {
        HighBounds(Block(stray, r, k));
        HighBounds(block);
      }
      assert q[0] in q;
      assert Q == Group(stray, P, k, block);
      ArrangedRun(stray, P, k, block, final, marks);
    } else {
      forall r | r in Q
        ensures Group(stray, Q, k, Block(stray, r, k)) == Group(stray, P, k, Block(stray, r, k))
      {
        assert r in q;
      }
      ArrangedSubset(stray, P, Q, k, final, marks);
    }
  }

  lemma ArrangedInNothing(stray: Stray, P: set<Record>, k: nat, final: seq<Record>, marks: seq<bool>)
    requires |final| == 0 && |marks| == 0
    ensures ArrangedIn(stray, P, k, final, marks)
  {}

  lemma DistributedNow(stray: Stray, depth: nat, a1: Arrays, a0: Arrays, lo: nat, hi: nat)
    requires lo <= hi && hi <= |a0.cache| && hi <= |a0.pointers| && hi <= |a1.cacheWork| && hi <= |a1.pointersWork|
    requires Ready(stray, depth, a0.pointers[lo..hi], a0.cache[lo..hi])
    requires a1.pointersWork[lo..hi] == Buckets(CS.ByDigit(stray, depth), a0.pointers[lo..hi], CS.BUCKETS)
    requires CS.Loaded(stray, depth, a1.pointersWork[lo..hi], a1.cacheWork, lo)
    ensures Distributed(stray, depth, a0.pointers[lo..hi], a1.pointersWork[lo..hi], a1.cacheWork[lo..hi])
  {
    hide Block, High, Buckets;
    var s, c, w := a0.pointers[lo..hi], a0.cache[lo..hi], a1.pointersWork[lo..hi];
    forall p | 0 <= p < |w| ensures a1.cacheWork[lo..hi][p] == Block(stray, w[p], BlockStart(depth)) {
      assert a1.cacheWork[lo..hi][p] == a1.cacheWork[lo + p];
    }
    forall r, t | r in s && t in s
      ensures High(Block(stray, r, BlockStart(depth)), ByteOf(depth))
        == High(Block(stray, t, BlockStart(depth)), ByteOf(depth))
    {
      var i :| 0 <= i < |s| && s[i] == r;
      var j :| 0 <= j < |s| && s[j] == t;
      assert High(c[i], ByteOf(depth)) == High(c[j], ByteOf(depth));
    }
  }

  /** A finished bucket extends the finished part. */
  lemma {:induction false} BucketStep(stray: Stray, depth: nat, s: seq<Record>, w: seq<Record>, blocks: seq<Word>, v: nat,
                   final: seq<Record>, now: seq<Record>, cache: seq<Word>, marks: seq<bool>,
                   final': seq<Record>, now': seq<Record>, cache': seq<Word>, marks': seq<bool>)
    requires Distributed(stray, depth, s, w, blocks) && v < CS.BUCKETS
    requires BucketsDone(stray, depth, s, w, blocks, v, final, now, cache, marks)
    requires var h, t := Start(CS.ByDigit(stray, depth), s, v), Start(CS.ByDigit(stray, depth), s, v + 1);
      && h <= t <= |s|
      && SameOutside(final', final, h, t) && SameOutside(now', now, h, t) && SameOutside(cache', cache, h, t)
      && (if h < t then SameOutside(marks', marks, h + 1, t) else marks' == marks)
      && SortedFrom(stray, depth + 1, Select(CS.ByDigit(stray, depth), s, v), final'[h..t], marks'[h..t])
    ensures BucketsDone(stray, depth, s, w, blocks, v + 1, final', now', cache', marks')
  {
    hide Block, High, Start, Buckets, Select, ArrangedIn, Distributed, BlockStart, ByteOf, SameOutside, NoMarks;
    var tag, k := CS.ByDigit(stray, depth), BlockStart(depth);
    var h, t := Start(tag, s, v), Start(tag, s, v + 1);
    BucketLengths(h, t, now, now', cache, cache', final, final');
    MarkSlices(h, t, marks, marks');
    BucketIsSelection(stray, depth, s, w, blocks, v);
    BucketOrder(stray, depth, s, w, blocks, v);
    BucketArranged(stray, depth, s, w, blocks, v, w[h..t], final'[h..t], marks'[h..t]);
    SameMembers(final'[h..t], w[h..t]);
    SameMembers(final[..h], w[..h]);
    StepSlices(h, t, w, now, now');
    StepSlices(h, t, blocks, cache, cache');
    ArrangedAppend(stray, RecordsOf(s), k, final[..h], marks[..h], final'[h..t], marks'[h..t]);
    FinalSlices(h, t, w, final, final');
  }

  lemma BucketLengths(h: nat, t: nat, now: seq<Record>, now': seq<Record>, cache: seq<Word>, cache': seq<Word>,
                      final: seq<Record>, final': seq<Record>)
    requires h <= t <= |now| && h <= t <= |cache| && h <= t <= |final|
    requires SameOutside(final', final, h, t) && SameOutside(now', now, h, t) && SameOutside(cache', cache, h, t)
    ensures |final'| == |final| && |now'| == |now| && |cache'| == |cache|
  {}

  lemma FinalSlices(h: nat, t: nat, w: seq<Record>, final: seq<Record>, final': seq<Record>)
    requires h <= t <= |w| == |final| && SameOutside(final', final, h, t)
    requires multiset(final[..h]) == multiset(w[..h]) && multiset(final'[h..t]) == multiset(w[h..t])
    ensures final'[..t] == final[..h] + final'[h..t]
    ensures multiset(final'[..t]) == multiset(w[..t])
  {
    assert final'[..t] == final[..h] + final'[h..t];
    assert w[..t] == w[..h] + w[h..t];
  }

  lemma StepSlices<T>(h: nat, t: nat, w: seq<T>, now: seq<T>, now': seq<T>)
    requires h <= t <= |w| == |now| && now[h..] == w[h..] && SameOutside(now', now, h, t)
    ensures now'[t..] == w[t..]
  {
    assert now'[t..] == now[t..] == now[h..][t - h..] && w[t..] == w[h..][t - h..];
  }

  lemma MarkSlices(h: nat, t: nat, marks: seq<bool>, marks': seq<bool>)
    requires h <= t <= |marks| && NoMarks(marks[h..])
    requires if h < t then SameOutside(marks', marks, h + 1, t) else marks' == marks
    ensures |marks'| == |marks| && marks'[..t] == marks[..h] + marks'[h..t] && NoMarks(marks'[t..])
    ensures h < t ==> !marks'[h..t][0]
  {
    if h < t {
      assert marks'[h..t][0] == marks'[h] == marks'[..h + 1][h] == marks[..h + 1][h] == marks[h..][0];
      assert marks'[..h] == marks'[..h + 1][..h] == marks[..h + 1][..h] == marks[..h];
      assert marks'[t..] == marks[t..];
    }
    assert marks'[..t] == marks'[..h] + marks'[h..t];
    assert marks[t..] == marks[h..][t - h..];
  }

  lemma BucketSorted(stray: Stray, depth: nat, s: seq<Record>, w: seq<Record>, blocks: seq<Word>, v: nat,
                     now: Arrays, b: Arrays, a0: Arrays, final: seq<Record>, f: seq<Record>, swapped: bool,
                     lo: nat, hi: nat, from: int, to: int)
    requires lo <= from <= to <= hi && hi <= |b.equals| && hi <= |b.cache| && hi <= |b.pointers| && |s| == hi - lo
    requires hi <= |b.cacheWork| && hi <= |b.pointersWork|
    requires f == (if swapped then b.pointersWork else b.pointers)
    requires final == (if swapped then now.pointersWork else now.pointers)
    requires Distributed(stray, depth, s, w, blocks) && v < CS.BUCKETS
    requires BucketsDone(stray, depth, s, w, blocks, v, f[lo..hi], b.pointersWork[lo..hi], b.cacheWork[lo..hi],
      b.equals[lo..hi])
    requires from == lo + Start(CS.ByDigit(stray, depth), s, v) && to == lo + Start(CS.ByDigit(stray, depth), s, v + 1)
    requires b.pointersWork[from..to] == Select(CS.ByDigit(stray, depth), s, v)
    requires Frames(Swap(now), Swap(b), from, to)
    requires SortedFrom(stray, depth + 1, b.pointersWork[from..to], final[from..to], now.equals[from..to])
    requires Frames(b, a0, lo, hi)
    ensures BucketsDone(stray, depth, s, w, blocks, v + 1, final[lo..hi], now.pointersWork[lo..hi],
      now.cacheWork[lo..hi], now.equals[lo..hi])
    ensures Frames(now, a0, lo, hi)
  {
    hide Start, ArrangedIn, Distributed, BucketsDone, SortedFrom, Select, SameOutside;
    BucketFrames(now, b, a0, final, f, swapped, lo, hi, from, to);
    BucketIsSelection(stray, depth, s, w, blocks, v);
    BucketStep(stray, depth, s, w, blocks, v, f[lo..hi], b.pointersWork[lo..hi], b.cacheWork[lo..hi], b.equals[lo..hi],
      final[lo..hi], now.pointersWork[lo..hi], now.cacheWork[lo..hi], now.equals[lo..hi]);
  }

  lemma BucketFrames(now: Arrays, b: Arrays, a0: Arrays, final: seq<Record>, f: seq<Record>, swapped: bool,
                     lo: nat, hi: nat, from: nat, to: nat)
    requires lo <= from <= to <= hi && hi <= |b.equals| && hi <= |b.cache| && hi <= |b.pointers|
    requires hi <= |b.cacheWork| && hi <= |b.pointersWork|
    requires f == (if swapped then b.pointersWork else b.pointers)
    requires final == (if swapped then now.pointersWork else now.pointers)
    requires Frames(Swap(now), Swap(b), from, to) && Frames(b, a0, lo, hi)
    ensures Frames(now, a0, lo, hi) && |final| == |f| && |now.equals| == |b.equals|
    ensures |now.pointersWork| == |b.pointersWork| && |now.cacheWork| == |b.cacheWork|
    ensures SameOutside(final[lo..hi], f[lo..hi], from - lo, to - lo)
    ensures SameOutside(now.pointersWork[lo..hi], b.pointersWork[lo..hi], from - lo, to - lo)
    ensures SameOutside(now.cacheWork[lo..hi], b.cacheWork[lo..hi], from - lo, to - lo)
    ensures if from < to then SameOutside(now.equals[lo..hi], b.equals[lo..hi], from - lo + 1, to - lo)
            else now.equals[lo..hi] == b.equals[lo..hi]
    ensures final[lo..hi][from - lo..to - lo] == final[from..to]
    ensures now.equals[lo..hi][from - lo..to - lo] == now.equals[from..to]
  {
    FramesSwapped(Swap(now), Swap(b), from, to);
    FramesWider(now, b, lo, from, to, hi);
    FramesTwice(now, b, a0, lo, hi);
    FrameLengths(now, b, from, to);
    hide SameOutside;
    SameOutsideWindow(final, f, lo, from, to, hi);
    SameOutsideWindow(now.pointersWork, b.pointersWork, lo, from, to, hi);
    SameOutsideWindow(now.cacheWork, b.cacheWork, lo, from, to, hi);
    if from < to {
      SameOutsideWindow(now.equals, b.equals, lo, from + 1, to, hi);
    }
    Window(final, lo, from, to, hi);
    Window(now.equals, lo, from, to, hi);
  }

  lemma FrameLengths(now: Arrays, was: Arrays, lo: nat, hi: nat)
    requires Frames(now, was, lo, hi)
    ensures |now.equals| == |was.equals| && |now.cache| == |was.cache| && |now.pointers| == |was.pointers|
    ensures |now.cacheWork| == |was.cacheWork| && |now.pointersWork| == |was.pointersWork|
  {}

  lemma BucketsFinished(stray: Stray, depth: nat, s: seq<Record>, w: seq<Record>, blocks: seq<Word>,
                        final: seq<Record>, now: seq<Record>, cache: seq<Word>, marks: seq<bool>)
    requires Distributed(stray, depth, s, w, blocks)
    requires BucketsDone(stray, depth, s, w, blocks, CS.BUCKETS, final, now, cache, marks)
    ensures RefinedFrom(stray, depth, s, final, marks)
  {
    hide Block, High, Buckets, ArrangedIn;
    var tag := CS.ByDigit(stray, depth);
    CS.DigitsBelow(stray, depth, s);
    BucketsPermute(tag, s, CS.BUCKETS);
    assert final[..|s|] == final && w[..|s|] == w && marks[..|s|] == marks;
  }
}
