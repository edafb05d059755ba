/** Splitting a sequence by a tag: what both the radix pass and the hash partitioner compute. */
module Distribution {

  /** The elements tagged `v`, in their original order. */
  ghost function Select<T>(tag: T -> int, s: seq<T>, v: int): seq<T> {
    if |s| == 0 then [] else
      Select(tag, s[..|s| - 1], v) + if tag(s[|s| - 1]) == v then [s[|s| - 1]] else []
  }

  /** The selections of the tags below `v`, one after the other. */
  ghost function Buckets<T>(tag: T -> int, s: seq<T>, v: nat): seq<T> {
    if v == 0 then [] else Buckets(tag, s, v - 1) + Select(tag, s, v - 1)
  }

  /** Where the selection of tag `v` starts. */
  ghost function Start<T>(tag: T -> int, s: seq<T>, v: nat): nat {
    |Buckets(tag, s, v)|
  }

  ghost predicate TagsBelow<T>(tag: T -> int, s: seq<T>, n: nat) {
    forall i :: 0 <= i < |s| ==> 0 <= tag(s[i]) < n
  }

  lemma {:induction false} SelectMembers<T>(tag: T -> int, s: seq<T>, v: int)
    ensures forall r :: r in Select(tag, s, v) <==> r in s && tag(r) == v
  {
    if |s| == 0 {
    } else {
      SelectMembers(tag, s[..|s| - 1], v);
      assert s == s[..|s| - 1] + [s[|s| - 1]];
    }
  }

  lemma {:induction false} SelectSum<T>(tag: T -> int, s: seq<T>, t: seq<T>, v: int)
    ensures Select(tag, s + t, v) == Select(tag, s, v) + Select(tag, t, v)
  {
    if |t| == 0 {
      assert s + t == s;
    } else {
      var m := |t| - 1;
      SelectSum(tag, s, t[..m], v);
      assert (s + t)[..|s| + m] == s + t[..m] && (s + t)[|s| + m] == t[m];
    }
  }

  lemma SelectOfNone<T>(tag: T -> int, v: int)
    ensures Select(tag, [], v) == []
  {}

  lemma {:induction false} BucketsMembers<T>(tag: T -> int, s: seq<T>, v: nat)
    ensures forall r :: r in Buckets(tag, s, v) <==> r in s && 0 <= tag(r) < v
  {
    hide Select;
    if v == 0 {
    } else {
      BucketsMembers(tag, s, v - 1);
      SelectMembers(tag, s, v - 1);
    }
  }

  /** One more element only lengthens the selection of its own tag. */
  lemma SelectNext<T>(tag: T -> int, s: seq<T>, i: nat, v: int)
    requires i < |s|
    ensures Select(tag, s[..i + 1], v) == Select(tag, s[..i], v) + if tag(s[i]) == v then [s[i]] else []
  {
    assert s[..i + 1][..i] == s[..i] && s[..i + 1][i] == s[i];
  }

  lemma {:induction false} SelectGrows<T>(tag: T -> int, s: seq<T>, i: nat, v: int)
    requires i <= |s|
    ensures Select(tag, s[..i], v) <= Select(tag, s, v)
    decreases |s| - i
  {
    if i < |s| {
      SelectGrows(tag, s, i + 1, v);
      SelectNext(tag, s, i, v);
    } else {
      assert s[..i] == s;
    }
  }

  lemma {:induction false} BucketsNext<T>(tag: T -> int, s: seq<T>, v: nat)
    requires |s| > 0
    ensures multiset(Buckets(tag, s, v)) == multiset(Buckets(tag, s[..|s| - 1], v)) +
      if 0 <= tag(s[|s| - 1]) < v then multiset{s[|s| - 1]} else multiset{}
  {
    if v == 0 {
    } else {
      var t, r := s[..|s| - 1], s[|s| - 1];
      BucketsNext(tag, s, v - 1);
      AppendBoth(Buckets(tag, s, v - 1), Buckets(tag, t, v - 1), Select(tag, t, v - 1), r, 0 <= tag(r) < v - 1,
        tag(r) == v - 1);
    }
  }

  lemma AppendBoth<T>(a: seq<T>, a0: seq<T>, b: seq<T>, r: T, inFront: bool, inBack: bool)
    requires multiset(a) == multiset(a0) + if inFront then multiset{r} else multiset{}
    requires !(inFront && inBack)
    ensures multiset(a + (b + if inBack then [r] else [])) ==
      multiset(a0 + b) + if inFront || inBack then multiset{r} else multiset{}
  {
    assert a + (b + [r]) == a + b + [r];
    assert b + [] == b;
  }

  lemma {:induction false} BucketsOfNone<T>(tag: T -> int, v: nat)
    ensures Buckets(tag, [], v) == []
  {
    if v == 0 {
    } else {
      BucketsOfNone(tag, v - 1);
    }
  }

  /** Nothing is lost and nothing is duplicated. */
  lemma {:induction false} BucketsPermute<T>(tag: T -> int, s: seq<T>, n: nat)
    requires TagsBelow(tag, s, n)
    ensures multiset(Buckets(tag, s, n)) == multiset(s)
    ensures Start(tag, s, n) == |s|
  {
    hide Buckets, Select;
    if |s| == 0 {
      BucketsOfNone(tag, n);
    } else {
      BucketsPermute(tag, s[..|s| - 1], n);
      BucketsNext(tag, s, n);
      assert s == s[..|s| - 1] + [s[|s| - 1]];
    }
    assert |multiset(s)| == |s|;
    assert |multiset(Buckets(tag, s, n))| == |Buckets(tag, s, n)|;
  }

  lemma {:induction false} BucketsAscend<T>(tag: T -> int, s: seq<T>, u: nat, v: nat)
    requires u <= v
    ensures Buckets(tag, s, u) <= Buckets(tag, s, v)
    decreases v - u
  {
    if u == v {
    } else {
      BucketsAscend(tag, s, u, v - 1);
    }
  }

  lemma StartOfFirst<T>(tag: T -> int, s: seq<T>)
    ensures Start(tag, s, 0) == 0
  {}

  lemma StartsOrdered<T>(tag: T -> int, s: seq<T>, u: nat, v: nat)
    requires u <= v
    ensures Start(tag, s, u) <= Start(tag, s, v)
  {
    BucketsAscend(tag, s, u, v);
  }

  /** Each selection occupies exactly its own stretch of the result. */
  lemma BucketSlice<T>(tag: T -> int, s: seq<T>, v: nat, n: nat)
    requires v < n && TagsBelow(tag, s, n)
    ensures Start(tag, s, v + 1) == Start(tag, s, v) + |Select(tag, s, v)|
    ensures Start(tag, s, v + 1) <= Start(tag, s, n) == |s|
    ensures Buckets(tag, s, n)[Start(tag, s, v)..Start(tag, s, v + 1)] == Select(tag, s, v)
  {
    BucketsPermute(tag, s, n);
    BucketsAscend(tag, s, v + 1, n);
    var all, part := Buckets(tag, s, n), Buckets(tag, s, v + 1);
    assert all[..|part|] == part;
    assert all[Start(tag, s, v)..|part|] == part[Start(tag, s, v)..];
  }

  /** The first elements already sorted into their stretches. */
  ghost predicate BucketFilled<T>(tag: T -> int, s: seq<T>, i: nat, work: seq<T>, v: nat, cursor: int)
    requires i <= |s| && |work| == |s|
  {
    var start := Start(tag, s, v);
    start <= cursor <= |s| && work[start..cursor] == Select(tag, s[..i], v)
  }

  lemma BucketEnd<T>(tag: T -> int, s: seq<T>, n: nat, i: nat, work: seq<T>, v: nat, cursor: int)
    requires i <= |s| == |work| && v < n && TagsBelow(tag, s, n)
    requires BucketFilled(tag, s, i, work, v, cursor)
    ensures Start(tag, s, v) <= cursor <= Start(tag, s, v + 1)
    ensures i < |s| && tag(s[i]) == v ==> cursor < Start(tag, s, v + 1)
  {
    hide Buckets, Select, Start;
    SelectGrows(tag, s, i, v);
    BucketSlice(tag, s, v, n);
    if i < |s| && tag(s[i]) == v {
      SelectNext(tag, s, i, v);
      SelectGrows(tag, s, i + 1, v);
    }
  }

  /** Writing the next element at the cursor of its tag keeps every stretch. */
  lemma FillOne<T>(tag: T -> int, s: seq<T>, n: nat, i: nat, work: seq<T>, d: nat, p: int, v: nat, cursor: int)
    requires i < |s| == |work| && d < n && v < n && TagsBelow(tag, s, n) && tag(s[i]) == d
    requires BucketFilled(tag, s, i, work, d, p) && BucketFilled(tag, s, i, work, v, cursor)
    requires v == d ==> p == cursor
    ensures 0 <= p < |s|
    ensures BucketFilled(tag, s, i + 1, work[p := s[i]], v, if v == d then cursor + 1 else cursor)
    ensures v != d ==> p < Start(tag, s, v) || cursor <= p
  {
    hide Buckets, Select, Start;
    BucketEnd(tag, s, n, i, work, d, p);
    BucketSlice(tag, s, d, n);
    SelectNext(tag, s, i, v);
    var start := Start(tag, s, v);
    if v == d {
      assert work[p := s[i]][start..p + 1] == work[start..p] + [s[i]];
    } else {
      BucketEnd(tag, s, n, i, work, v, cursor);
      if v < d {
        StartsOrdered(tag, s, v + 1, d);
      } else {
        StartsOrdered(tag, s, d + 1, v);
      }
      assert work[p := s[i]][start..cursor] == work[start..cursor];
    }
  }

  /** With the last stretch filled, one more bucket is complete. */
  lemma StretchIsWhole<T>(tag: T -> int, s: seq<T>, n: nat, work: seq<T>, v: nat, cursor: int)
    requires |work| == |s| && v < n && TagsBelow(tag, s, n) && BucketFilled(tag, s, |s|, work, v, cursor)
    requires work[..Start(tag, s, v)] == Buckets(tag, s, v)
    ensures cursor == Start(tag, s, v + 1) <= |s|
    ensures work[..Start(tag, s, v + 1)] == Buckets(tag, s, v + 1)
  {
    assert Buckets(tag, s, v + 1) == Buckets(tag, s, v) + Select(tag, s, v);
    hide Buckets, Select, Start;
    assert s[..|s|] == s;
    BucketSlice(tag, s, v, n);
    assert work[..cursor] == work[..Start(tag, s, v)] + work[Start(tag, s, v)..cursor];
  }

  /** Once every element is placed the stretches make up the whole result. */
  lemma {:induction false} FilledUpTo<T>(tag: T -> int, s: seq<T>, n: nat, work: seq<T>, cursors: seq<int>, v: nat)
    requires |work| == |s| && |cursors| == n && v <= n && TagsBelow(tag, s, n)
    requires forall u :: 0 <= u < n ==> BucketFilled(tag, s, |s|, work, u, cursors[u])
    ensures Start(tag, s, v) <= |s| && work[..Start(tag, s, v)] == Buckets(tag, s, v)
    ensures v > 0 ==> cursors[v - 1] == Start(tag, s, v)
  {
    if v == 0 {
    } else {
      hide Buckets, Start, BucketFilled;
      FilledUpTo(tag, s, n, work, cursors, v - 1);
      StretchIsWhole(tag, s, n, work, v - 1, cursors[v - 1]);
    }
  }

  lemma AllFilled<T>(tag: T -> int, s: seq<T>, n: nat, work: seq<T>, cursors: seq<int>)
    requires |work| == |s| && |cursors| == n && TagsBelow(tag, s, n)
    requires forall u :: 0 <= u < n ==> BucketFilled(tag, s, |s|, work, u, cursors[u])
    ensures work == Buckets(tag, s, n)
    ensures forall v :: 0 <= v < n ==> cursors[v] == Start(tag, s, v + 1)
  {
    hide Buckets, Select, Start, BucketFilled;
    forall v | 0 <= v < n ensures cursors[v] == Start(tag, s, v + 1) {
      FilledUpTo(tag, s, n, work, cursors, v + 1);
    }
    FilledUpTo(tag, s, n, work, cursors, n);
    BucketsPermute(tag, s, n);
    assert work[..|s|] == work;
  }
}
