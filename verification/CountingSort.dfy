/** One radix pass: records are distributed into 256 buckets by one byte of their block. */
module CountingSort {
  import opened Machine
  import opened KeyBlocks
  import opened Permutations
  import opened Distribution

  const BUCKETS: nat := 256

  /** The byte of the current block that this depth distributes by. */
  ghost function ByDigit(stray: Stray, depth: nat): Record -> int {
    (r: Record) => Digit(Block(stray, r, BlockStart(depth)), depth) as int
  }

  lemma DigitsBelow(stray: Stray, depth: nat, s: seq<Record>)
    ensures TagsBelow(ByDigit(stray, depth), s, BUCKETS)
  {}

  /** `cache[i]` is the block of `pointers[i]`, for the records `s` of the range. */
  ghost predicate Loaded(stray: Stray, depth: nat, s: seq<Record>, cache: seq<Word>, lo: nat)
    requires lo + |s| <= |cache|
  {
    forall i :: 0 <= i < |s| ==> cache[lo + i] == Block(stray, s[i], BlockStart(depth))
  }

  /** Counts how many records carry each digit. */
  method CountDigits(stray: Stray, cache: array<Word>, ghost s: seq<Record>, lo: nat, hi: nat, depth: nat,
                     bins: array<int>)
    requires bins.Length == BUCKETS && lo <= hi <= cache.Length && |s| == hi - lo
    requires Loaded(stray, depth, s, cache[..], lo)
    modifies bins
    ensures forall v :: 0 <= v < BUCKETS ==> bins[v] == |Select(ByDigit(stray, depth), s, v)|
  {
    hide Digit, Select;
    ghost var tag := ByDigit(stray, depth);
    for v := 0 to BUCKETS
      invariant forall u :: 0 <= u < v ==> bins[u] == 0
    {
      bins[v] := 0;
    }
    forall v | 0 <= v < BUCKETS ensures |Select(tag, s[..0], v)| == 0 {
      SelectOfNone(tag, v);
      assert s[..0] == [];
    }
    for i := lo to hi
      invariant forall v :: 0 <= v < BUCKETS ==> bins[v] == |Select(tag, s[..i - lo], v)|
    {
      var d := Digit(cache[i], depth);
      assert cache[..][lo + (i - lo)] == cache[i];
      ghost var t, t' := s[..i - lo], s[..i + 1 - lo];
      forall v | 0 <= v < BUCKETS ensures |Select(tag, t', v)| == |Select(tag, t, v)| + if v == d then 1 else 0 {
        SelectNext(tag, s, i - lo, v);
      }
      bins[d] := bins[d] + 1;
    }
    assert s[..hi - lo] == s;
  }

  /** Turns the counts into start positions. */
  method StartBuckets(ghost tag: Record -> int, ghost s: seq<Record>, bins: array<int>)
    requires bins.Length == BUCKETS
    requires forall v :: 0 <= v < BUCKETS ==> bins[v] == |Select(tag, s, v)|
    modifies bins
    ensures forall v :: 0 <= v < BUCKETS ==> bins[v] == Start(tag, s, v)
  {
    hide Select;
    var sum := 0;
    for v := 0 to BUCKETS
      invariant sum == Start(tag, s, v)
      invariant forall u :: 0 <= u < v ==> bins[u] == Start(tag, s, u)
      invariant forall u :: v <= u < BUCKETS ==> bins[u] == |Select(tag, s, u)|
    {
      var t := bins[v];
      bins[v] := sum;
      sum := sum + t;
    }
  }

  /** After `i` records every bucket is filled up to its cursor, blocks and pointers alike. */
  ghost predicate PartlyFilled(stray: Stray, depth: nat, s: seq<Record>, i: nat, work: seq<Record>, blocks: seq<Word>,
                               bins: seq<int>)
    requires i <= |s| && |work| == |blocks| == |s| && |bins| == BUCKETS
  {
    forall v {:trigger bins[v]} :: 0 <= v < BUCKETS ==>
      && BucketFilled(ByDigit(stray, depth), s, i, work, v, bins[v])
      && BlocksFilled(stray, depth, work, blocks, Start(ByDigit(stray, depth), s, v), bins[v])
  }

  ghost predicate BlocksFilled(stray: Stray, depth: nat, work: seq<Record>, blocks: seq<Word>, from: int, to: int)
    requires |work| == |blocks|
  {
    0 <= from <= to <= |work| &&
    forall p :: from <= p < to ==> blocks[p] == Block(stray, work[p], BlockStart(depth))
  }

  lemma NothingFilled(stray: Stray, depth: nat, s: seq<Record>, work: seq<Record>, blocks: seq<Word>, bins: seq<int>)
    requires |work| == |blocks| == |s| && |bins| == BUCKETS
    requires forall v :: 0 <= v < BUCKETS ==> bins[v] == Start(ByDigit(stray, depth), s, v)
    ensures PartlyFilled(stray, depth, s, 0, work, blocks, bins)
  {
    var tag := ByDigit(stray, depth);
    DigitsBelow(stray, depth, s);
    forall v | 0 <= v < BUCKETS
      ensures BucketFilled(tag, s, 0, work, v, bins[v])
      ensures BlocksFilled(stray, depth, work, blocks, Start(tag, s, v), bins[v])
    {
      hide Buckets, Digit, Block;
      BucketSlice(tag, s, v, BUCKETS);
      assert s[..0] == [];
    }
  }

  lemma PlaceNext(stray: Stray, depth: nat, s: seq<Record>, i: nat, work: seq<Record>, blocks: seq<Word>,
                  bins: seq<int>, block: Word)
    requires i < |s| && |work| == |blocks| == |s| && |bins| == BUCKETS
    requires PartlyFilled(stray, depth, s, i, work, blocks, bins)
    requires block == Block(stray, s[i], BlockStart(depth))
    ensures 0 <= bins[Digit(block, depth)] < |s|
    ensures PartlyFilled(stray, depth, s, i + 1, work[bins[Digit(block, depth)] := s[i]],
      blocks[bins[Digit(block, depth)] := block], bins[Digit(block, depth) := bins[Digit(block, depth)] + 1])
  {
    var tag := ByDigit(stray, depth);
    var d: nat := Digit(block, depth);
    assert tag(s[i]) == d;
    DigitsBelow(stray, depth, s);
    var p := bins[d];
    FillOne(tag, s, BUCKETS, i, work, d, p, d, p);
    forall v: nat | v < BUCKETS
      ensures BucketFilled(tag, s, i + 1, work[p := s[i]], v, bins[d := p + 1][v])
      ensures BlocksFilled(stray, depth, work[p := s[i]], blocks[p := block], Start(tag, s, v), bins[d := p + 1][v])
    {
      hide Select, Buckets, Start, Digit, Block, BucketFilled, ByDigit;
      assert BucketFilled(tag, s, i, work, v, bins[v]);
      FillOne(tag, s, BUCKETS, i, work, d, p, v, bins[v]);
    }
  }

  lemma AllPlaced(stray: Stray, depth: nat, s: seq<Record>, work: seq<Record>, blocks: seq<Word>, bins: seq<int>)
    requires |work| == |blocks| == |s| && |bins| == BUCKETS
    requires PartlyFilled(stray, depth, s, |s|, work, blocks, bins)
    ensures work == Buckets(ByDigit(stray, depth), s, BUCKETS)
    ensures forall v :: 0 <= v < BUCKETS ==> bins[v] == Start(ByDigit(stray, depth), s, v + 1)
    ensures Loaded(stray, depth, work, blocks, 0)
  {
    var tag := ByDigit(stray, depth);
    DigitsBelow(stray, depth, s);
    assert forall u :: 0 <= u < BUCKETS ==> BucketFilled(tag, s, |s|, work, u, bins[u]);
    AllFilled(tag, s, BUCKETS, work, bins);
    BucketsPermute(tag, s, BUCKETS);
    BlocksUpTo(stray, depth, s, work, blocks, bins, BUCKETS);
  }

  lemma {:induction false} BlocksUpTo(stray: Stray, depth: nat, s: seq<Record>, work: seq<Record>, blocks: seq<Word>,
                                      bins: seq<int>, v: nat)
    requires |work| == |blocks| == |s| && |bins| == BUCKETS && v <= BUCKETS
    requires PartlyFilled(stray, depth, s, |s|, work, blocks, bins)
    requires forall u :: 0 <= u < BUCKETS ==> bins[u] == Start(ByDigit(stray, depth), s, u + 1)
    ensures BlocksFilled(stray, depth, work, blocks, 0, Start(ByDigit(stray, depth), s, v))
  {
    hide Block, BucketFilled, ByDigit, Select;
    if v == 0 {
    } else {
      BlocksUpTo(stray, depth, s, work, blocks, bins, v - 1);
      assert bins[v - 1] == Start(ByDigit(stray, depth), s, v);
    }
  }

  /** The whole pass: on return the work arrays hold the buckets in digit order, and `bins[v]`
      is where bucket `v` ends. */
  method Distribute(stray: Stray, cache: array<Word>, pointers: array<Record>, cacheWork: array<Word>,
                    pointersWork: array<Record>, lo: nat, hi: nat, depth: nat) returns (bins: array<int>)
    requires lo <= hi && hi <= cache.Length && hi <= pointers.Length
    requires hi <= cacheWork.Length && hi <= pointersWork.Length
    requires cache != cacheWork && pointers != pointersWork
    requires Loaded(stray, depth, pointers[..][lo..hi], cache[..], lo)
    modifies cacheWork, pointersWork
    ensures fresh(bins) && bins.Length == BUCKETS
    ensures forall v :: 0 <= v < BUCKETS ==>
      bins[v] == Start(ByDigit(stray, depth), pointers[..][lo..hi], v + 1)
    ensures pointersWork[..][lo..hi] == Buckets(ByDigit(stray, depth), pointers[..][lo..hi], BUCKETS)
    ensures Loaded(stray, depth, pointersWork[..][lo..hi], cacheWork[..], lo)
    ensures SameOutside(cacheWork[..], old(cacheWork[..]), lo, hi)
    ensures SameOutside(pointersWork[..], old(pointersWork[..]), lo, hi)
  {
    hide PartlyFilled, SameOutside, Digit, Start, Block, Loaded, ByDigit;
    bins := new int[BUCKETS];
    ghost var s, tag := pointers[..][lo..hi], ByDigit(stray, depth);
    CountDigits(stray, cache, s, lo, hi, depth, bins);
    StartBuckets(tag, s, bins);
    ghost var c0, p0 := cacheWork[..], pointersWork[..];
    SameOutsideSelf(c0, lo, hi);
    SameOutsideSelf(p0, lo, hi);
    NothingFilled(stray, depth, s, pointersWork[..][lo..hi], cacheWork[..][lo..hi], bins[..]);
    for i := lo to hi
      invariant |pointersWork[..][lo..hi]| == |cacheWork[..][lo..hi]| == |s|
      invariant PartlyFilled(stray, depth, s, i - lo, pointersWork[..][lo..hi], cacheWork[..][lo..hi], bins[..])
      invariant SameOutside(cacheWork[..], c0, lo, hi)
      invariant SameOutside(pointersWork[..], p0, lo, hi)
    {
      ghost var w, b, n := pointersWork[..], cacheWork[..], bins[..];
      var d := Digit(cache[i], depth);
      assert s[i - lo] == pointers[i];
      PlaceOne(stray, depth, s, i - lo, cache[..], w, b, n, lo, hi, p0, c0);
      var p := bins[d];
      bins[d] := p + 1;
      cacheWork[lo + p] := cache[i];
      pointersWork[lo + p] := pointers[i];
      assert pointersWork[..] == w[lo + p := pointers[i]];
      assert cacheWork[..] == b[lo + p := cache[i]];
      assert bins[..] == n[d := p + 1];
    }
    AllPlaced(stray, depth, s, pointersWork[..][lo..hi], cacheWork[..][lo..hi], bins[..]);
    LoadedFrom(stray, depth, pointersWork[..][lo..hi], cacheWork[..], lo, hi);
  }

  lemma LoadedFrom(stray: Stray, depth: nat, s: seq<Record>, cache: seq<Word>, lo: nat, hi: nat)
    requires lo <= hi <= |cache| && |s| == hi - lo && Loaded(stray, depth, s, cache[lo..hi], 0)
    ensures Loaded(stray, depth, s, cache, lo)
  {
    forall i | 0 <= i < |s| ensures cache[lo + i] == Block(stray, s[i], BlockStart(depth)) {
      assert cache[lo..hi][0 + i] == cache[lo + i];
    }
  }

  lemma {:induction false} PlaceOne(stray: Stray, depth: nat, s: seq<Record>, i: nat, cache: seq<Word>,
                                     w: seq<Record>, b: seq<Word>,
                 bins: seq<int>, lo: nat, hi: nat, p0: seq<Record>, c0: seq<Word>)
    requires i < |s| == hi - lo && lo <= hi <= |w| && hi <= |b| && hi <= |cache| && |bins| == BUCKETS
    requires PartlyFilled(stray, depth, s, i, w[lo..hi], b[lo..hi], bins)
    requires Loaded(stray, depth, s, cache, lo)
    requires SameOutside(w, p0, lo, hi) && SameOutside(b, c0, lo, hi)
    ensures var block := cache[lo + i];
      var d := Digit(block, depth);
      && 0 <= bins[d] < |s|
      && PartlyFilled(stray, depth, s, i + 1, w[lo + bins[d] := s[i]][lo..hi], b[lo + bins[d] := block][lo..hi],
           bins[d := bins[d] + 1])
      && SameOutside(w[lo + bins[d] := s[i]], p0, lo, hi) && SameOutside(b[lo + bins[d] := block], c0, lo, hi)
  {
    hide PartlyFilled, Digit, Block;
    var block := cache[lo + i];
    PlaceNext(stray, depth, s, i, w[lo..hi], b[lo..hi], bins, block);
    var p := bins[Digit(block, depth)];
    assert w[lo + p := s[i]][lo..hi] == w[lo..hi][p := s[i]];
    assert b[lo + p := block][lo..hi] == b[lo..hi][p := block];
  }
}
