/** The order the radix sort really imposes, and when it is the order of the keys.

    The sort only ever compares eight-byte blocks, and it stops refining a bucket once every
    key in it is used up. `Before` and `Tied` say exactly that, for arbitrary keys and
    whatever memory lies behind them. `BlockOrderIsKeyOrder` then shows that this is the
    byte-lexicographic order of the keys, for every content of that memory, exactly when no
    two keys collide under zero padding. */
module BlockOrder {
  import opened Machine
  import opened KeyBlocks

  // ----- What the sort compares

  ghost function RecordsOf(s: seq<Record>): set<Record> {
    set r | r in s
  }

  /** The members of a bucket that share a block. */
  ghost function Group(stray: Stray, P: set<Record>, k: nat, block: Word): set<Record> {
    set r | r in P && Block(stray, r, k) == block
  }

  /** No key of the bucket reaches past `k`. */
  ghost predicate Finished(P: set<Record>, k: nat) {
    forall r :: r in P ==> |r.key| <= k
  }

  ghost function LongestKey(P: set<Record>): nat {
    if P == {} then 0 else
      var r :| r in P;
      if |r.key| > LongestKey(P - {r}) then |r.key| else LongestKey(P - {r})
  }

  lemma {:induction false} LongestKeyIsLongest(P: set<Record>)
    ensures forall r :: r in P ==> |r.key| <= LongestKey(P)
    ensures LongestKey(P) == 0 || exists r :: r in P && |r.key| == LongestKey(P)
  {
    if P == {} {
    } else {
      var r :| r in P && LongestKey(P) == if |r.key| > LongestKey(P - {r}) then |r.key| else LongestKey(P - {r});
      LongestKeyIsLongest(P - {r});
      assert forall s :: s in P ==> s == r || s in P - {r};
    }
  }

  ghost function Remaining(P: set<Record>, k: nat): nat {
    if LongestKey(P) > k then LongestKey(P) - k else 0
  }

  lemma RefiningShrinks(P: set<Record>, Q: set<Record>, k: nat)
    requires !Finished(P, k) && Q <= P
    ensures Remaining(Q, k + 8) < Remaining(P, k)
  {
    LongestKeyIsLongest(P);
    LongestKeyIsLongest(Q);
  }

  /** `r` is put before `s` by a bucket `P` that agrees on every block before offset `k`. */
  ghost predicate Before(stray: Stray, P: set<Record>, k: nat, r: Record, s: Record)
    decreases Remaining(P, k)
  {
    !Finished(P, k) &&
    var b, c := Block(stray, r, k), Block(stray, s, k);
    if b != c then b < c else
      RefiningShrinks(P, Group(stray, P, k, b), k);
      Before(stray, Group(stray, P, k, b), k + 8, r, s)
  }

  /** The sort marks `r` and `s` equal when they end up next to each other. */
  ghost predicate Tied(stray: Stray, P: set<Record>, k: nat, r: Record, s: Record)
    decreases Remaining(P, k)
  {
    Finished(P, k) ||
    var b := Block(stray, r, k);
    b == Block(stray, s, k) && (
      RefiningShrinks(P, Group(stray, P, k, b), k);
      Tied(stray, Group(stray, P, k, b), k + 8, r, s))
  }

  /** `Before` and `Tied` for a bucket already known not to be finished at `k`. */
  ghost predicate BeforeIn(stray: Stray, P: set<Record>, k: nat, r: Record, s: Record) {
    var b, c := Block(stray, r, k), Block(stray, s, k);
    b < c || (b == c && Before(stray, Group(stray, P, k, b), k + 8, r, s))
  }

  ghost predicate TiedIn(stray: Stray, P: set<Record>, k: nat, r: Record, s: Record) {
    var b := Block(stray, r, k);
    b == Block(stray, s, k) && Tied(stray, Group(stray, P, k, b), k + 8, r, s)
  }

  /** Where the blocks agree, the next block decides. */
  lemma {:induction false} Refined(stray: Stray, P: set<Record>, k: nat, r: Record, s: Record)
    requires !Finished(P, k) && Block(stray, r, k) == Block(stray, s, k)
    ensures var G := Group(stray, P, k, Block(stray, r, k));
      && Before(stray, P, k, r, s) == Before(stray, G, k + 8, r, s)
      && Tied(stray, P, k, r, s) == Tied(stray, G, k + 8, r, s)
  {}

  // ----- What the sort leaves behind

  /** A bucket in its final order, with the marks that say which neighbours are equal. */
  ghost predicate Arranged(stray: Stray, P: set<Record>, k: nat, s: seq<Record>, marks: seq<bool>) {
    && |s| == |marks|
    && (forall i, j :: 0 <= i < j < |s| ==> !Before(stray, P, k, s[j], s[i]))
    && (forall i :: 0 < i < |s| ==> marks[i] == Tied(stray, P, k, s[i - 1], s[i]))
  }

  ghost predicate ArrangedIn(stray: Stray, P: set<Record>, k: nat, s: seq<Record>, marks: seq<bool>) {
    && |s| == |marks|
    && (forall i, j :: 0 <= i < j < |s| ==> !BeforeIn(stray, P, k, s[j], s[i]))
    && (forall i :: 0 < i < |s| ==> marks[i] == TiedIn(stray, P, k, s[i - 1], s[i]))
  }

  lemma ArrangedUnfinished(stray: Stray, P: set<Record>, k: nat, s: seq<Record>, marks: seq<bool>)
    requires !Finished(P, k) && ArrangedIn(stray, P, k, s, marks)
    ensures Arranged(stray, P, k, s, marks)
  {}

  lemma ArrangedFinished(stray: Stray, P: set<Record>, k: nat, s: seq<Record>, marks: seq<bool>)
    requires Finished(P, k) && |s| == |marks| && forall i :: 0 < i < |s| ==> marks[i]
    ensures Arranged(stray, P, k, s, marks)
  {}

  /** A run of records that share their block, arranged at the next block. */
  lemma ArrangedRun(stray: Stray, P: set<Record>, k: nat, block: Word, s: seq<Record>, marks: seq<bool>)
    requires forall r :: r in s ==> Block(stray, r, k) == block
    requires Arranged(stray, Group(stray, P, k, block), k + 8, s, marks)
    ensures ArrangedIn(stray, P, k, s, marks)
  {}

  /** A sub-bucket that holds whole groups of `P` is arranged the same way in `P`. */
  lemma ArrangedSubset(stray: Stray, P: set<Record>, Q: set<Record>, k: nat, s: seq<Record>, marks: seq<bool>)
    requires forall r :: r in s ==> r in Q
    requires forall q :: q in Q ==> Group(stray, Q, k, Block(stray, q, k)) == Group(stray, P, k, Block(stray, q, k))
    requires ArrangedIn(stray, Q, k, s, marks)
    ensures ArrangedIn(stray, P, k, s, marks)
  {
    forall r, t | r in s && t in s
      ensures BeforeIn(stray, Q, k, r, t) == BeforeIn(stray, P, k, r, t)
      ensures TiedIn(stray, Q, k, r, t) == TiedIn(stray, P, k, r, t)
    {
      assert r in Q;
    }
  }

  /** Appending records with larger blocks. */
  lemma ArrangedAppend(stray: Stray, P: set<Record>, k: nat, s1: seq<Record>, m1: seq<bool>,
                       s2: seq<Record>, m2: seq<bool>)
    requires ArrangedIn(stray, P, k, s1, m1) && ArrangedIn(stray, P, k, s2, m2)
    requires forall r, t :: r in s1 && t in s2 ==> Block(stray, r, k) < Block(stray, t, k)
    requires |s2| > 0 ==> !m2[0]
    ensures ArrangedIn(stray, P, k, s1 + s2, m1 + m2)
  {
    var s, m := s1 + s2, m1 + m2;
    forall i, j | 0 <= i < j < |s| ensures !BeforeIn(stray, P, k, s[j], s[i]) {
      if j < |s1| {
        assert !BeforeIn(stray, P, k, s1[j], s1[i]);
      } else if |s1| <= i {
        assert !BeforeIn(stray, P, k, s2[j - |s1|], s2[i - |s1|]);
      } else {
        assert s[i] in s1 && s[j] in s2;
      }
    }
    forall i | 0 < i < |s| ensures m[i] == TiedIn(stray, P, k, s[i - 1], s[i]) {
      if i < |s1| {
        assert m1[i] == TiedIn(stray, P, k, s1[i - 1], s1[i]);
      } else if i == |s1| {
        assert s[i - 1] in s1 && s[i] in s2;
      } else {
        assert m2[i - |s1|] == TiedIn(stray, P, k, s2[i - |s1| - 1], s2[i - |s1|]);
      }
    }
  }

  // ----- The order of the keys

  /** Byte-lexicographic order from position `n` on; a proper prefix comes first. */
  ghost predicate KeyLessFrom(a: seq<byte>, b: seq<byte>, n: nat)
    decreases |b| - n
  {
    n < |b| && (n >= |a| || a[n] < b[n] || (a[n] == b[n] && KeyLessFrom(a, b, n + 1)))
  }

  ghost predicate KeyLess(a: seq<byte>, b: seq<byte>) {
    KeyLessFrom(a, b, 0)
  }

  /** `a` and `b` differ, but only in zero bytes of `b` up to the end of the block in which `a` ends. */
  ghost predicate Collide(a: seq<byte>, b: seq<byte>) {
    && |a| < |b| && a == b[..|a|]
    && forall j :: |a| <= j < |b| && j < |a| / 8 * 8 + 8 ==> b[j] == 0
  }

  ghost predicate CollisionFree(P: set<Record>) {
    forall r, s {:trigger r in P, s in P} :: r in P && s in P ==> !Collide(r.key, s.key)
  }

  ghost predicate PrefixFree(P: set<Record>) {
    forall r, s :: r in P && s in P && |r.key| < |s.key| ==> r.key != s.key[..|r.key|]
  }

  lemma PrefixFreeIsCollisionFree(P: set<Record>)
    requires PrefixFree(P)
    ensures CollisionFree(P)
  {}

  /** NUL-terminated keys are prefix-free, and so never collide. */
  lemma TerminatedIsPrefixFree(P: set<Record>)
    requires forall r :: r in P ==> |r.key| > 0 && r.key[|r.key| - 1] == 0
    requires forall r, j :: r in P && 0 <= j < |r.key| - 1 ==> r.key[j] != 0
    ensures PrefixFree(P) && CollisionFree(P)
  {
    forall r, s | r in P && s in P && |r.key| < |s.key| ensures r.key != s.key[..|r.key|] {
      assert s.key[|r.key| - 1] != 0;
    }
    PrefixFreeIsCollisionFree(P);
  }

  lemma {:induction false} KeyLessSkips(a: seq<byte>, b: seq<byte>, n: nat)
    requires n <= |a| && n <= |b| && a[..n] == b[..n]
    ensures KeyLess(a, b) == KeyLessFrom(a, b, n)
  {
    if n == 0 {
    } else {
      assert a[..n][..n - 1] == a[..n - 1] && b[..n][..n - 1] == b[..n - 1];
      assert a[n - 1] == a[..n][n - 1] && b[n - 1] == b[..n][n - 1];
      KeyLessSkips(a, b, n - 1);
    }
  }

  lemma {:induction false} FirstDifference(s: seq<byte>, t: seq<byte>) returns (n: nat)
    requires |s| == |t| && s != t
    ensures n < |s| && s[..n] == t[..n] && s[n] != t[n]
  {
    if s[0] != t[0] {
      n := 0;
    } else {
      assert s == [s[0]] + s[1..] && t == [t[0]] + t[1..];
      var m := FirstDifference(s[1..], t[1..]);
      n := m + 1;
      assert s[..n] == [s[0]] + s[1..][..m] && t[..n] == [t[0]] + t[1..][..m];
    }
  }

  /** Two keys that agree up to `k` and differ in their padded block there: the block decides. */
  lemma PaddedBlocksDecide(a: seq<byte>, b: seq<byte>, k: nat)
    requires k <= |a| && k <= |b| && a[..k] == b[..k]
    requires PaddedWord(a, k) < PaddedWord(b, k)
    ensures KeyLess(a, b) && !KeyLess(b, a) && a != b
  {
    var s, t := PaddedBlock(a, k), PaddedBlock(b, k);
    var n := FirstDifference(s, t);
    if s[n] > t[n] {
      BigEndianOrder(t, s, n);
    }
    assert s[n] < t[n];
    // Up to position `m` the two keys agree, and there `b` is larger or `a` has ended.
    var m := Min(|a|, k + n);
    assert m <= |b|;
    forall j | 0 <= j < m ensures a[j] == b[j] {
      if j < k {
        assert a[..k][j] == b[..k][j];
      } else {
        assert s[..n][j - k] == t[..n][j - k];
      }
    }
    assert a[..m] == b[..m];
    KeyLessSkips(a, b, m);
    KeyLessSkips(b, a, m);
  }

  /** Two keys that agree up to `k` and in their padded block there, and do not collide, both go on
      for another block and agree on it, or are equal. */
  lemma PaddedBlocksAgree(a: seq<byte>, b: seq<byte>, k: nat)
    requires k % 8 == 0 && k <= |a| && k <= |b| && a[..k] == b[..k]
    requires PaddedWord(a, k) == PaddedWord(b, k)
    requires !Collide(a, b) && !Collide(b, a)
    ensures a == b || (k + 8 <= |a| && k + 8 <= |b| && a[..k + 8] == b[..k + 8])
  {
    var s, t := PaddedBlock(a, k), PaddedBlock(b, k);
    BigEndianInjective(s, t);
    var m := Min(Min(|a|, |b|), k + 8);
    forall j | 0 <= j < m ensures a[j] == b[j] {
      if j < k {
        assert a[..k][j] == b[..k][j];
      } else {
        assert s[j - k] == t[j - k];
      }
    }
    assert a[..m] == b[..m];
    if m < k + 8 && |a| != |b| {
      if |a| < |b| {
        SpentKeysCollide(a, b, k);
      } else {
        SpentKeysCollide(b, a, k);
      }
    }
  }

  lemma SpentKeysCollide(a: seq<byte>, b: seq<byte>, k: nat)
    requires k % 8 == 0 && k <= |a| < k + 8 && |a| < |b| && a == b[..|a|]
    requires PaddedBlock(a, k) == PaddedBlock(b, k)
    ensures Collide(a, b)
  {
    var s, t := PaddedBlock(a, k), PaddedBlock(b, k);
    assert |a| / 8 * 8 == k;
    forall j | |a| <= j < |b| && j < k + 8 ensures b[j] == 0 {
      assert t[j - k] == b[j] && s[j - k] == 0;
    }
  }

  // ----- When the two orders are the same

  /** All keys of the bucket reach `k` and agree up to there. */
  ghost predicate SharePrefix(P: set<Record>, k: nat) {
    forall r, s :: r in P && s in P ==> k <= |r.key| && k <= |s.key| && r.key[..k] == s.key[..k]
  }

  ghost predicate SameKeys(P: set<Record>) {
    forall r, s :: r in P && s in P ==> r.key == s.key
  }

  ghost predicate KeysFit(P: set<Record>) {
    forall r :: r in P ==> |r.key| + 2 * 8 <= WORD_LIMIT
  }

  lemma {:induction false} GroupsRefine(stray: Stray, P: set<Record>, k: nat, block: Word)
    requires k % 8 == 0 && SharePrefix(P, k) && CollisionFree(P) && KeysFit(P)
    ensures var G := Group(stray, P, k, block);
      CollisionFree(G) && KeysFit(G)
    ensures var G := Group(stray, P, k, block);
      SharePrefix(G, k + 8) || (SameKeys(G) && Finished(G, k + 8))
  {
    var G := Group(stray, P, k, block);
    forall r, s | r in G && s in G
      ensures r.key == s.key ||
        (k + 8 <= |r.key| && k + 8 <= |s.key| && r.key[..k + 8] == s.key[..k + 8])
    {
      BlockOfLiveKey(stray, r, k);
      BlockOfLiveKey(stray, s, k);
      PaddedBlocksAgree(r.key, s.key, k);
    }
    if t :| t in G && |t.key| < k + 8 {
      assert forall r :: r in G ==> r.key == t.key;
    }
  }

  /** Without collisions the blocks order records as their keys do, whatever `stray` is. */
  lemma {:induction false} CollisionFreeOrder(stray: Stray, P: set<Record>, k: nat, r: Record, s: Record)
    requires k % 8 == 0 && CollisionFree(P) && KeysFit(P) && r in P && s in P
    requires SharePrefix(P, k) || (SameKeys(P) && Finished(P, k))
    ensures Before(stray, P, k, r, s) == KeyLess(r.key, s.key)
    ensures Tied(stray, P, k, r, s) == (r.key == s.key)
    decreases Remaining(P, k)
  {
    if Finished(P, k) {
      SpentBucketSharesKeys(P, k, r, s);
    } else {
      BlocksOfLiveKeys(stray, P, k, r, s);
      var b := Block(stray, r, k);
      if b == Block(stray, s, k) {
        var G := Group(stray, P, k, b);
        GroupsRefine(stray, P, k, b);
        RefiningShrinks(P, G, k);
        CollisionFreeOrder(stray, G, k + 8, r, s);
        Refined(stray, P, k, r, s);
      }
    }
  }

  lemma SpentBucketSharesKeys(P: set<Record>, k: nat, r: Record, s: Record)
    requires r in P && s in P && Finished(P, k) && (SharePrefix(P, k) || SameKeys(P))
    ensures r.key == s.key && !KeyLess(r.key, s.key)
  {
    if SharePrefix(P, k) {
      assert r.key == r.key[..k] && s.key == s.key[..k];
    }
    KeyLessSkips(r.key, s.key, |r.key|);
  }

  lemma BlocksOfLiveKeys(stray: Stray, P: set<Record>, k: nat, r: Record, s: Record)
    requires r in P && s in P && SharePrefix(P, k) && KeysFit(P)
    ensures Block(stray, r, k) < Block(stray, s, k) ==>
      KeyLess(r.key, s.key) && !KeyLess(s.key, r.key) && r.key != s.key
    ensures Block(stray, s, k) < Block(stray, r, k) ==>
      KeyLess(s.key, r.key) && !KeyLess(r.key, s.key) && r.key != s.key
  {
    BlockOfLiveKey(stray, r, k);
    BlockOfLiveKey(stray, s, k);
    if Block(stray, r, k) < Block(stray, s, k) {
      PaddedBlocksDecide(r.key, s.key, k);
    } else if Block(stray, s, k) < Block(stray, r, k) {
      PaddedBlocksDecide(s.key, r.key, k);
    }
  }

  /** Memory that happens to look like the rest of `key`. */
  ghost function Mimic(key: seq<byte>): Stray {
    (r: Record, k: nat) => PaddedWord(key, k)
  }

  /** Behind the right memory, a key and one it collides with load the same blocks throughout,
      so the sort marks them equal although they differ. */
  lemma {:induction false} CollidingKeysTie(P: set<Record>, k: nat, r: Record, s: Record)
    requires k % 8 == 0 && r in P && s in P && KeysFit(P) && Collide(r.key, s.key)
    ensures Tied(Mimic(s.key), P, k, r, s)
    decreases Remaining(P, k)
  {
    if Finished(P, k) {
    } else {
      var t :| t in P && k < |t.key|;
      MimicBlocks(r, s, k);
      var G := Group(Mimic(s.key), P, k, Block(Mimic(s.key), r, k));
      RefiningShrinks(P, G, k);
      CollidingKeysTie(G, k + 8, r, s);
    }
  }

  lemma MimicBlocks(r: Record, s: Record, k: nat)
    requires k % 8 == 0 && k + 8 <= WORD_LIMIT && Collide(r.key, s.key)
    requires |s.key| < WORD_LIMIT
    ensures Block(Mimic(s.key), r, k) == Block(Mimic(s.key), s, k)
  {
    var a, b := r.key, s.key;
    if k <= |a| {
      BlockOfLiveKey(Mimic(b), r, k);
      forall i | 0 <= i < 8 ensures PaddedBlock(a, k)[i] == PaddedBlock(b, k)[i] {
        assert k + i < |a| / 8 * 8 + 8;
        assert k + i < |a| ==> b[..|a|][k + i] == b[k + i];
      }
      assert PaddedBlock(a, k) == PaddedBlock(b, k);
    } else {
      BlockOfSpentKey(Mimic(b), r, k);
    }
    if k <= |b| {
      BlockOfLiveKey(Mimic(b), s, k);
    } else {
      BlockOfSpentKey(Mimic(b), s, k);
    }
  }

  /** Whatever memory lies behind the keys, blocks order and mark records as their keys do. */
  ghost predicate OrdersByKey(P: set<Record>) {
    forall stray: Stray, r, s :: r in P && s in P ==>
      && Before(stray, P, 0, r, s) == KeyLess(r.key, s.key)
      && Tied(stray, P, 0, r, s) == (r.key == s.key)
  }

  /** The sort is a sort by key exactly when no two keys collide. */
  lemma BlockOrderIsKeyOrder(P: set<Record>)
    requires KeysFit(P)
    ensures OrdersByKey(P) <==> CollisionFree(P)
  {
    if CollisionFree(P) {
      forall stray: Stray, r, s | r in P && s in P
        ensures Before(stray, P, 0, r, s) == KeyLess(r.key, s.key)
        ensures Tied(stray, P, 0, r, s) == (r.key == s.key)
      {
        CollisionFreeOrder(stray, P, 0, r, s);
      }
    } else {
      var r, s :| r in P && s in P && Collide(r.key, s.key);
      CollidingKeysTie(P, 0, r, s);
      assert Tied(Mimic(s.key), P, 0, r, s) && r.key != s.key;
    }
  }

  /** The smallest collision: the empty key and a zero byte. */
  lemma EmptyAndZeroCollide(r: Record, s: Record)
    requires r.key == [] && s.key == [0]
    ensures Collide(r.key, s.key) && !OrdersByKey({r, s})
  {
    assert s.key[..0] == [];
    assert KeysFit({r, s});
    BlockOrderIsKeyOrder({r, s});
  }

  /** A final order and marks that group records by key. */
  ghost predicate GroupedByKey(s: seq<Record>, marks: seq<bool>) {
    && |s| == |marks|
    && (forall i, j :: 0 <= i < j < |s| ==> !KeyLess(s[j].key, s[i].key))
    && (forall i :: 0 < i < |s| ==> marks[i] == (s[i - 1].key == s[i].key))
  }

  lemma OrderOfRecords(stray: Stray, s: seq<Record>)
    requires KeysFit(RecordsOf(s)) && CollisionFree(RecordsOf(s))
    ensures forall i, j :: 0 <= i < |s| && 0 <= j < |s| ==>
      && Before(stray, RecordsOf(s), 0, s[i], s[j]) == KeyLess(s[i].key, s[j].key)
      && Tied(stray, RecordsOf(s), 0, s[i], s[j]) == (s[i].key == s[j].key)
  {
    var P := RecordsOf(s);
    forall i, j | 0 <= i < |s| && 0 <= j < |s|
      ensures Before(stray, P, 0, s[i], s[j]) == KeyLess(s[i].key, s[j].key)
      ensures Tied(stray, P, 0, s[i], s[j]) == (s[i].key == s[j].key)
    {
      CollisionFreeOrder(stray, P, 0, s[i], s[j]);
    }
  }

  /** What the whole sort leaves behind is what is grouped by key, when no two keys collide. */
  lemma ArrangedIsGrouped(stray: Stray, s: seq<Record>, marks: seq<bool>)
    requires KeysFit(RecordsOf(s)) && CollisionFree(RecordsOf(s))
    ensures Arranged(stray, RecordsOf(s), 0, s, marks) <==> GroupedByKey(s, marks)
  {
    OrderOfRecords(stray, s);
    hide Before, Tied, KeyLess, KeysFit, CollisionFree;
  }

  /** With a collision present, some memory makes every outcome of the sort wrong: two neighbours
      with different keys are marked equal, or equal marks are missing. */
  lemma CollisionSpoilsSort(s: seq<Record>, marks: seq<bool>, i: nat, j: nat)
    requires i < |s| && j < |s| && Collide(s[i].key, s[j].key) && KeysFit(RecordsOf(s))
    requires Arranged(Mimic(s[j].key), RecordsOf(s), 0, s, marks)
    ensures !GroupedByKey(s, marks)
  {
    var stray, P := Mimic(s[j].key), RecordsOf(s);
    CollidingKeysTie(P, 0, s[i], s[j]);
    var lo, hi := Min(i, j), Max(i, j);
    TiedSymmetric(stray, P, 0, s[i], s[j]);
    TiesCover(stray, s, marks, lo, hi);
    if GroupedByKey(s, marks) {
      MarkedRunsShareKeys(s, marks, lo, hi);
    }
  }

  lemma {:induction false} TiedSymmetric(stray: Stray, P: set<Record>, k: nat, r: Record, s: Record)
    ensures Tied(stray, P, k, r, s) == Tied(stray, P, k, s, r)
    decreases Remaining(P, k)
  {
    if !Finished(P, k) && Block(stray, r, k) == Block(stray, s, k) {
      var G := Group(stray, P, k, Block(stray, r, k));
      RefiningShrinks(P, G, k);
      TiedSymmetric(stray, G, k + 8, r, s);
    }
  }

  /** Everything between two tied records is tied to both. */
  lemma {:induction false} TiedBetween(stray: Stray, P: set<Record>, k: nat, r: Record, s: Record, t: Record)
    requires Tied(stray, P, k, r, t) && !Before(stray, P, k, s, r) && !Before(stray, P, k, t, s)
    ensures Tied(stray, P, k, r, s)
    decreases Remaining(P, k)
  {
    if Finished(P, k) {
    } else {
      var G := Group(stray, P, k, Block(stray, r, k));
      RefiningShrinks(P, G, k);
      TiedBetween(stray, G, k + 8, r, s, t);
    }
  }

  lemma {:induction false} TiesCover(stray: Stray, s: seq<Record>, marks: seq<bool>, lo: nat, hi: nat)
    requires lo <= hi < |s| && Arranged(stray, RecordsOf(s), 0, s, marks)
    requires Tied(stray, RecordsOf(s), 0, s[lo], s[hi])
    ensures forall m :: lo < m <= hi ==> marks[m]
    decreases hi - lo
  {
    if lo == hi {
    } else {
      var P := RecordsOf(s);
      var m := lo + 1;
      if m < hi {
        TiedBetween(stray, P, 0, s[lo], s[m], s[hi]);
        TiedTransitive(stray, P, 0, s[lo], s[m], s[hi]);
      }
      TiedReflexive(stray, P, 0, s[hi]);
      TiesCover(stray, s, marks, m, hi);
    }
  }

  lemma {:induction false} TiedReflexive(stray: Stray, P: set<Record>, k: nat, r: Record)
    ensures Tied(stray, P, k, r, r)
    decreases Remaining(P, k)
  {
    if Finished(P, k) {
    } else {
      var G := Group(stray, P, k, Block(stray, r, k));
      RefiningShrinks(P, G, k);
      TiedReflexive(stray, G, k + 8, r);
    }
  }

  lemma {:induction false} TiedTransitive(stray: Stray, P: set<Record>, k: nat, r: Record, s: Record, t: Record)
    requires Tied(stray, P, k, r, s) && Tied(stray, P, k, r, t)
    ensures Tied(stray, P, k, s, t)
    decreases Remaining(P, k)
  {
    if Finished(P, k) {
    } else {
      var G := Group(stray, P, k, Block(stray, r, k));
      RefiningShrinks(P, G, k);
      TiedTransitive(stray, G, k + 8, r, s, t);
    }
  }

  lemma {:induction false} MarkedRunsShareKeys(s: seq<Record>, marks: seq<bool>, lo: nat, hi: nat)
    requires lo <= hi < |s| && GroupedByKey(s, marks)
    requires forall m :: lo < m <= hi ==> marks[m]
    ensures s[lo].key == s[hi].key
    decreases hi - lo
  {
    if lo == hi {
    } else {
      MarkedRunsShareKeys(s, marks, lo, hi - 1);
    }
  }
}
