/** Sorting the values inside every group of a grouped buffer. */
module ValueSort {
  import opened Machine
  import opened Permutations
  import opened Buffers
  import opened ShufflePartition
  import opened GroupWriter
  import opened GroupReader

  /** The user's comparator. */
  type Less = (Value, Value) -> bool

  ghost predicate StrictWeakOrder(less: Less) {
    && (forall a, b :: less(a, b) ==> !less(b, a))
    && (forall a, b, c {:trigger less(a, c), less(a, b)} :: less(a, c) ==> less(a, b) || less(b, c))
  }

  ghost predicate SortedBy(less: Less, s: seq<Value>) {
    forall i, j :: 0 <= i < j < |s| ==> !less(s[j], s[i])
  }

  // ----- Sorting one group, in the place of the library's sort

  method SortValues(less: Less, s: seq<Value>) returns (r: seq<Value>)
    requires StrictWeakOrder(less)
    ensures SortedBy(less, r) && multiset(r) == multiset(s)
  {
    r := [];
    hide SortedBy, StrictWeakOrder;
    assert SortedBy(less, []) by { NothingSorted(less); }
    for i := 0 to |s|
      invariant SortedBy(less, r) && multiset(r) == multiset(s[..i])
    {
      var j := |r|;
      while j > 0 && less(s[i], r[j - 1])
        invariant 0 <= j <= |r| && forall k :: j <= k < |r| ==> less(s[i], r[k])
      {
        j := j - 1;
      }
      InsertionSorted(less, r, s[i], j);
      assert r == r[..j] + r[j..];
      assert s[..i + 1] == s[..i] + [s[i]];
      r := r[..j] + [s[i]] + r[j..];
    }
    assert s[..|s|] == s;
  }

  lemma NothingSorted(less: Less)
    ensures SortedBy(less, [])
  {}

  lemma NotBelow(less: Less, a: Value, b: Value, c: Value)
    requires StrictWeakOrder(less) && !less(a, b) && !less(b, c)
    ensures !less(a, c)
  {}

  lemma InsertionSorted(less: Less, r: seq<Value>, x: Value, j: nat)
    requires StrictWeakOrder(less) && SortedBy(less, r) && j <= |r|
    requires forall k :: j <= k < |r| ==> less(x, r[k])
    requires j > 0 ==> !less(x, r[j - 1])
    ensures SortedBy(less, r[..j] + [x] + r[j..])
  {
    var t := r[..j] + [x] + r[j..];
    forall k | 0 <= k < j ensures !less(x, r[k]) {
      if k < j - 1 {
        NotBelow(less, x, r[j - 1], r[k]);
      }
    }
    forall a, b | 0 <= a < b < |t| ensures !less(t[b], t[a]) {
      assert t[a] == if a < j then r[a] else if a == j then x else r[a - 1];
      assert t[b] == if b < j then r[b] else if b == j then x else r[b - 1];
    }
  }

  // ----- Sizes do not depend on the order

  lemma {:induction false} FlattenedSize(a: seq<Value>, b: seq<Value>)
    requires multiset(a) == multiset(b)
    ensures |Flatten(a)| == |Flatten(b)|
  {
    hide Flatten;
    var j := MatchFirst(a, b);
    if |a| == 0 {
    } else {
      FlattenedSize(a[..0] + a[1..], b[..j] + b[j + 1..]);
      SizeWithout(a, 0);
      SizeWithout(b, j);
    }
  }

  lemma SizeWithout(s: seq<Value>, j: nat)
    requires j < |s|
    ensures |Flatten(s)| == |Flatten(s[..j] + s[j + 1..])| + |s[j]|
  {
    hide Flatten, Offsets;
    assert s == s[..j] + [s[j]] + s[j + 1..];
    FlattenSum(s[..j], s[j + 1..]);
    FlattenSum(s[..j] + [s[j]], s[j + 1..]);
    FlattenNext(s[..j], s[j]);
  }

  // ----- Writing

  /** The values written so far, and their offsets. */
  ghost predicate HoldsValues(values: seq<byte>, offsets: seq<nat>, done: seq<Value>) {
    Flatten(done) <= values && Offsets(done) <= offsets
  }

  lemma ValueFits(values: seq<byte>, offsets: seq<nat>, done: seq<Value>, v: Value)
    requires HoldsValues(values, offsets, done) && |done| + 1 < |offsets| && |Flatten(done + [v])| <= |values|
    ensures offsets[|done|] == |Flatten(done)| && |Flatten(done)| + |v| <= |values|
    ensures HoldsValues(Put(values, |Flatten(done)|, v), offsets[|done| + 1 := |Flatten(done)| + |v|], done + [v])
  {
    FlattenWhole(done);
    FlattenNext(done, v);
    hide Flatten;
    assert Offsets(done)[|done|] == Offset(done, |done|);
    PutExtends(Flatten(done), values, v);
  }

  /** Appends one group's values to the output. */
  method WriteBatch(values: array<byte>, offsets: array<nat>, batch: seq<Value>, w: nat, ghost done: seq<Value>)
    requires w == |done| && HoldsValues(values[..], offsets[..], done)
    requires |done| + |batch| < offsets.Length && |Flatten(done + batch)| <= values.Length
    modifies values, offsets
    ensures HoldsValues(values[..], offsets[..], done + batch)
  {
    hide HoldsValues, Flatten, Put;
    assert done + batch[..0] == done;
    for i := 0 to |batch|
      invariant HoldsValues(values[..], offsets[..], done + batch[..i])
    {
      ghost var now := done + batch[..i];
      assert done + batch[..i + 1] == now + [batch[i]];
      assert done + batch == (now + [batch[i]]) + batch[i + 1..];
      FlattenSum(now + [batch[i]], batch[i + 1..]);
      ValueFits(values[..], offsets[..], now, batch[i]);
      ghost var v0: seq<byte>, o0: seq<nat> := values[..], offsets[..];
      ghost var end: nat := |Flatten(now)| + |batch[i]|;
      CopyBytes(values, offsets[w + i], batch[i]);
      offsets[w + i + 1] := offsets[w + i] + |batch[i]|;
      assert values[..] == Put(v0, |Flatten(now)|, batch[i]) by { PutIsCopy(v0, |Flatten(now)|, batch[i]); }
      assert offsets[..] == o0[|now| + 1 := end];
    }
    assert batch[..|batch|] == batch;
  }

  lemma PutIsCopy(s: seq<byte>, at: nat, bytes: seq<byte>)
    requires at + |bytes| <= |s|
    ensures Put(s, at, bytes) == s[..at] + bytes + s[at + |bytes|..]
  {}

  // ----- The task

  /** Collects the values of one group. */
  method CollectGroup(input: Grouped, v: nat, limit: nat, ghost groups: seq<KeyGroup>)
    returns (values: seq<Value>, next: nat)
    requires input == Layout(groups) && v <= |AllValues(groups)| && limit <= |input.values|
    ensures next == Stop(input.valueOffsets, v, limit) && v <= next <= |AllValues(groups)|
    ensures values == AllValues(groups)[v..next]
  {
    hide Layout, AllValues, Stop, Offset;
    ghost var vals := AllValues(groups);
    var offsets := input.valueOffsets;
    OffsetTable(groups);
    LastOffset(groups);
    values, next := [], v;
    StopStep(offsets, next, limit);
    while offsets[next] < limit
      invariant v <= next <= |vals| && values == vals[v..next]
      invariant Stop(offsets, next, limit) == Stop(offsets, v, limit)
      decreases |vals| - next
    {
      StopStep(offsets, next, limit);
      ValueAt(groups, next);
      values := values + [input.values[offsets[next]..offsets[next + 1]]];
      next := next + 1;
    }
    StopStep(offsets, next, limit);
  }

  /** What one group becomes. */
  ghost predicate SortedBatch(less: Less, batch: seq<Value>, was: seq<Value>) {
    SortedBy(less, batch) && multiset(batch) == multiset(was)
  }

  ghost predicate AllBatches(less: Less, groups: seq<KeyGroup>, batches: seq<seq<Value>>) {
    |batches| <= |groups| && forall g :: 0 <= g < |batches| ==> SortedBatch(less, batches[g], Batch(groups, g))
  }

  /** The batches written so far are the first values in another order. */
  lemma {:induction false} BatchesPermute(less: Less, groups: seq<KeyGroup>, batches: seq<seq<Value>>)
    requires AllBatches(less, groups, batches)
    ensures multiset(Flatten(batches)) == multiset(AllValues(groups)[..Mark(groups, |batches|)])
  {
    var m := |batches|;
    hide SortedBy, AllValues, Mark, Flatten, Offsets, Batch;
    if m == 0 {
      FirstStart(groups);
      FlattenNothing<Value>();
      assert batches == [];
    } else {
      var front, last := batches[..m - 1], batches[m - 1];
      BatchesPermute(less, groups, front);
      assert SortedBatch(less, last, Batch(groups, m - 1));
      assert batches == front + [last];
      FlattenNext(front, last);
      MarkedPrefix(groups, m - 1);
    }
  }

  lemma MarkedPrefix(groups: seq<KeyGroup>, g: nat)
    requires g < |groups|
    ensures AllValues(groups)[..Mark(groups, g + 1)] == AllValues(groups)[..Mark(groups, g)] + Batch(groups, g)
  {
    MarksAscend(groups, g);
    hide AllValues, Mark;
  }

  /** There is room for the next batch. */
  lemma BatchFits(less: Less, groups: seq<KeyGroup>, batches: seq<seq<Value>>)
    requires AllBatches(less, groups, batches)
    ensures |Flatten(batches)| <= |AllValues(groups)| && |Flatten(batches)| == Mark(groups, |batches|)
    ensures |Flatten(Flatten(batches))| <= |Layout(groups).values|
  {
    BatchesPermute(less, groups, batches);
    hide AllValues, Mark, SortedBatch, Flatten, Offsets;
    PrefixSize(AllValues(groups), Mark(groups, |batches|), Flatten(batches));
  }

  lemma PrefixSize(vals: seq<Value>, k: nat, done: seq<Value>)
    requires k <= |vals| && multiset(done) == multiset(vals[..k])
    ensures |done| == k && |Flatten(done)| <= |Flatten(vals)|
  {
    hide Flatten;
    FlattenedSize(done, vals[..k]);
    SameCount(done, vals[..k]);
    FlattenSum(vals[..k], vals[k..]);
    assert vals == vals[..k] + vals[k..];
  }

  /** What a run may leave behind: keys, key offsets and group offsets copied, each batch sorted, the
      batches written one after the other. Offsets that the run does not write are arbitrary. */
  ghost predicate RunResult(less: Less, groups: seq<KeyGroup>, out: Grouped, batches: seq<seq<Value>>) {
    && out.keys == Layout(groups).keys && out.keyOffsets == Layout(groups).keyOffsets
    && out.groupOffsets == Layout(groups).groupOffsets
    && |out.values| == |Layout(groups).values| && |out.valueOffsets| == |Layout(groups).valueOffsets|
    && |batches| == |groups| && AllBatches(less, groups, batches)
    && HoldsValues(out.values, out.valueOffsets, Flatten(batches))
  }

  /** The whole run. Keys and group offsets are copied; the values the loop takes for each group are
      written in sorted order. */
  method Run(less: Less, input: Grouped, ghost groups: seq<KeyGroup>) returns (out: Grouped, ghost batches: seq<seq<Value>>)
    requires StrictWeakOrder(less) && input == Layout(groups)
    ensures RunResult(less, groups, out, batches)
    ensures out.keys == input.keys && out.keyOffsets == input.keyOffsets && out.groupOffsets == input.groupOffsets
  {
    hide Layout, AllValues, Stop, HoldsValues, SortedBy, StrictWeakOrder, Mark, Flatten;
    OffsetTable(groups);
    var groupCount := |input.groupOffsets| - 1;
    var values, offsets := new byte[|input.values|], new nat[|input.valueOffsets|];
    offsets[0] := 0;
    batches := [];
    var v := 0;
    NothingHeld(values[..], offsets[..], groups);
    for g := 0 to groupCount
      invariant |batches| == g && AllBatches(less, groups, batches) && v == Mark(groups, g)
      invariant HoldsValues(values[..], offsets[..], Flatten(batches))
    {
      GroupInside(groups, g);
      var head := v;
      var taken;
      taken, v := CollectGroup(input, head, input.groupOffsets[g + 1], groups);
      var sorted := SortValues(less, taken);
      ghost var done := Flatten(batches);
      assert taken == Batch(groups, g);
      FlattenNext(batches, sorted);
      BatchFits(less, groups, batches);
      BatchFits(less, groups, batches + [sorted]);
      WriteBatch(values, offsets, sorted, head, done);
      batches := batches + [sorted];
    }
    out := Grouped(input.keys, input.keyOffsets, values[..], offsets[..], input.groupOffsets);
  }

  lemma NothingHeld(values: seq<byte>, offsets: seq<nat>, groups: seq<KeyGroup>)
    requires |offsets| > 0 && offsets[0] == 0
    ensures HoldsValues(values, offsets, Flatten([])) && Mark(groups, 0) == 0
  {
    assert Offsets<byte>([]) == [0];
  }

  // ----- When every group keeps its own values

  /** The groups with their values replaced. */
  ghost function WithValues(groups: seq<KeyGroup>, batches: seq<seq<Value>>): (r: seq<KeyGroup>)
    requires |batches| == |groups|
    ensures |r| == |groups| && forall g :: 0 <= g < |r| ==> r[g] == KeyGroup(groups[g].key, batches[g])
  {
    seq(|groups|, g requires 0 <= g < |groups| => KeyGroup(groups[g].key, batches[g]))
  }

  /** Each group holds its own values, sorted. */
  ghost predicate SortedGroupwise(less: Less, groups: seq<KeyGroup>, batches: seq<seq<Value>>) {
    |batches| == |groups| && forall g :: 0 <= g < |groups| ==> SortedBatch(less, batches[g], groups[g].values)
  }

  lemma {:induction false} SameLengthsSameOffsets(a: seq<seq<byte>>, b: seq<seq<byte>>, i: nat)
    requires |a| == |b| && i <= |a| && forall k :: 0 <= k < |a| ==> |a[k]| == |b[k]|
    ensures Offset(a, i) == Offset(b, i)
  {
    if i == 0 {
    } else {
      SameLengthsSameOffsets(a, b, i - 1);
      FlattenSlice(a, i - 1);
      FlattenSlice(b, i - 1);
    }
  }

  lemma SortedLayout(less: Less, groups: seq<KeyGroup>, batches: seq<seq<Value>>)
    requires SortedGroupwise(less, groups, batches)
    ensures AllValues(WithValues(groups, batches)) == Flatten(batches)
    ensures Layout(WithValues(groups, batches)).groupOffsets == Layout(groups).groupOffsets
    ensures Layout(WithValues(groups, batches)).keys == Layout(groups).keys
    ensures Layout(WithValues(groups, batches)).keyOffsets == Layout(groups).keyOffsets
  {
    var sorted := WithValues(groups, batches);
    assert ValueLists(sorted) == batches;
    assert Keys(sorted) == Keys(groups);
    var a, b := GroupBytes(sorted), GroupBytes(groups);
    forall g | 0 <= g < |groups| ensures |a[g]| == |b[g]| {
      assert SortedBatch(less, batches[g], groups[g].values);
      FlattenedSize(batches[g], groups[g].values);
    }
    forall i | 0 <= i <= |groups| ensures Offset(a, i) == Offset(b, i) {
      SameLengthsSameOffsets(a, b, i);
    }
    assert Offsets(a) == Offsets(b);
  }

  /** The batches are the groups' own values exactly when no group ends with an empty value. Then the
      output is the layout of the sorted groups. */
  lemma OwnBatchesIffNoneEndsEmpty(less: Less, groups: seq<KeyGroup>, out: Grouped, batches: seq<seq<Value>>)
    requires RunResult(less, groups, out, batches)
    ensures SortedGroupwise(less, groups, batches) <==> NoGroupEndsEmpty(groups)
    ensures NoGroupEndsEmpty(groups) ==> out == Layout(WithValues(groups, batches))
  {
    hide Layout, Mark, FirstValue, SortedBy, AllValues, HoldsValues;
    if NoGroupEndsEmpty(groups) {
      forall g: nat | g < |groups| ensures SortedBatch(less, batches[g], groups[g].values) {
        MarksAreStarts(groups, g);
        MarksAreStarts(groups, g + 1);
        GroupValues(groups, g);
        assert SortedBatch(less, batches[g], Batch(groups, g));
      }
      WholeOutput(less, groups, out, batches);
    }
    if SortedGroupwise(less, groups, batches) {
      forall g: nat | g <= |groups| ensures Mark(groups, g) == FirstValue(groups, g) {
        OwnValuesOwnStarts(less, groups, batches, g);
      }
      GroupsFoundIffNoneEndsEmpty(groups);
    }
  }

  lemma {:induction false} OwnValuesOwnStarts(less: Less, groups: seq<KeyGroup>, batches: seq<seq<Value>>, g: nat)
    requires |batches| == |groups| && AllBatches(less, groups, batches) && SortedGroupwise(less, groups, batches)
    requires g <= |groups|
    ensures Mark(groups, g) == FirstValue(groups, g)
  {
    hide FirstValue, Mark, AllBatches, SortedGroupwise, AllValues, Batch;
    if g == 0 {
      FirstStart(groups);
    } else {
      OwnValuesOwnStarts(less, groups, batches, g - 1);
      GroupValues(groups, g - 1);
      BatchLength(groups, g - 1);
      OwnLength(less, groups, batches, g - 1);
    }
  }

  lemma OwnLength(less: Less, groups: seq<KeyGroup>, batches: seq<seq<Value>>, g: nat)
    requires |batches| == |groups| && AllBatches(less, groups, batches) && SortedGroupwise(less, groups, batches)
    requires g < |groups|
    ensures |Batch(groups, g)| == |groups[g].values|
  {
    hide SortedBy, Batch;
    assert SortedBatch(less, batches[g], Batch(groups, g));
    assert SortedBatch(less, batches[g], groups[g].values);
    SameCount(Batch(groups, g), groups[g].values);
  }

  lemma SameCount(a: seq<Value>, b: seq<Value>)
    requires multiset(a) == multiset(b)
    ensures |a| == |b|
  {
    assert |multiset(a)| == |a| && |multiset(b)| == |b|;
  }

  lemma WholeOutput(less: Less, groups: seq<KeyGroup>, out: Grouped, batches: seq<seq<Value>>)
    requires |batches| == |groups| && SortedGroupwise(less, groups, batches) && NoGroupEndsEmpty(groups)
    requires AllBatches(less, groups, batches) && HoldsValues(out.values, out.valueOffsets, Flatten(batches))
    requires out.keys == Layout(groups).keys && out.keyOffsets == Layout(groups).keyOffsets
    requires out.groupOffsets == Layout(groups).groupOffsets
    requires |out.values| == |Layout(groups).values| && |out.valueOffsets| == |Layout(groups).valueOffsets|
    ensures out == Layout(WithValues(groups, batches))
  {
    hide Mark, SortedBy, Flatten, SortedGroupwise;
    SortedLayout(less, groups, batches);
    BatchesPermute(less, groups, batches);
    MarksAreStarts(groups, |groups|);
    assert groups[..|groups|] == groups;
    var vals := AllValues(groups);
    assert vals[..|vals|] == vals;
    FlattenedSize(Flatten(batches), vals);
    SameCount(Flatten(batches), vals);
    PrefixIsWhole(Flatten(Flatten(batches)), out.values);
    PrefixIsWhole(Offsets(Flatten(batches)), out.valueOffsets);
  }

  lemma PrefixIsWhole<T>(p: seq<T>, s: seq<T>)
    requires p <= s && |p| == |s|
    ensures p == s
  {}

  // ----- What processors see, for every input

  /** The values that have bytes. */
  ghost function Nonempty(s: seq<Value>): seq<Value> {
    if |s| == 0 then [] else Nonempty(s[..|s| - 1]) + if s[|s| - 1] == [] then [] else [s[|s| - 1]]
  }

  lemma {:induction false} NonemptySum(a: seq<Value>, b: seq<Value>)
    ensures Nonempty(a + b) == Nonempty(a) + Nonempty(b)
  {
    if |b| == 0 {
      assert a + b == a;
    } else {
      NonemptySum(a, b[..|b| - 1]);
      assert (a + b)[..|a + b| - 1] == a + b[..|b| - 1];
    }
  }

  lemma {:induction false} NoBytesNoValues(s: seq<Value>)
    requires Flatten(s) == []
    ensures Nonempty(s) == []
  {
    if |s| == 0 {
    } else {
      NoBytesNoValues(s[..|s| - 1]);
    }
  }

  lemma {:induction false} NonemptyPermuted(a: seq<Value>, b: seq<Value>)
    requires multiset(a) == multiset(b)
    ensures multiset(Nonempty(a)) == multiset(Nonempty(b))
  {
    hide Nonempty;
    var j := MatchFirst(a, b);
    if |a| == 0 {
    } else {
      NonemptyPermuted(a[..0] + a[1..], b[..j] + b[j + 1..]);
      NonemptyWithout(a, 0);
      NonemptyWithout(b, j);
    }
  }

  lemma NonemptyWithout(s: seq<Value>, j: nat)
    requires j < |s|
    ensures multiset(Nonempty(s)) == multiset(Nonempty(s[..j] + s[j + 1..])) + multiset(Nonempty([s[j]]))
  {
    hide Nonempty;
    assert s == s[..j] + [s[j]] + s[j + 1..];
    NonemptySum(s[..j], [s[j]]);
    NonemptySum(s[..j] + [s[j]], s[j + 1..]);
    NonemptySum(s[..j], s[j + 1..]);
  }

  /** Between two places of the value list that start at the same byte there are only empty values. */
  lemma EmptyBetween(vals: seq<Value>, from: nat, to: nat)
    requires from <= to <= |vals| && Offset(vals, from) == Offset(vals, to)
    ensures Nonempty(vals[from..to]) == []
  {
    hide Nonempty, Flatten;
    BytesBetween(vals, from, to);
    NoBytesNoValues(vals[from..to]);
  }

  /** What is taken for a group is its own values, except for empty ones. */
  lemma TakenValues(groups: seq<KeyGroup>, g: nat)
    requires g < |groups|
    ensures Nonempty(Batch(groups, g)) == Nonempty(groups[g].values)
  {
    hide Nonempty, AllValues, Mark, FirstValue, Offset;
    var vals := AllValues(groups);
    var a, b, c, d := Mark(groups, g), FirstValue(groups, g), Mark(groups, g + 1), FirstValue(groups, g + 1);
    MarkIsByteStart(groups, g);
    MarkIsByteStart(groups, g + 1);
    MarksAscend(groups, g);
    GroupValues(groups, g);
    EmptyEnds(vals, a, b, c, d);
  }

  lemma EmptyEnds(vals: seq<Value>, a: nat, b: nat, c: nat, d: nat)
    requires a <= b <= d <= |vals| && a <= c <= d && Offset(vals, a) == Offset(vals, b) && Offset(vals, c) == Offset(vals, d)
    ensures Nonempty(vals[a..c]) == Nonempty(vals[b..d])
  {
    hide Nonempty, Offset;
    EmptyBetween(vals, a, b);
    EmptyBetween(vals, c, d);
    assert vals[a..c] + vals[c..d] == vals[a..d] == vals[a..b] + vals[b..d];
    NonemptySum(vals[a..c], vals[c..d]);
    NonemptySum(vals[a..b], vals[b..d]);
    assert Nonempty(vals[a..c]) + [] == Nonempty(vals[a..c]) && [] + Nonempty(vals[b..d]) == Nonempty(vals[b..d]);
  }

  /** The batches written before a group fill its bytes up to where it starts. */
  lemma BytesBefore(less: Less, groups: seq<KeyGroup>, batches: seq<seq<Value>>, h: nat)
    requires |batches| == |groups| && AllBatches(less, groups, batches) && h <= |groups|
    ensures |Flatten(Flatten(batches[..h]))| == Layout(groups).groupOffsets[h]
  {
    hide AllValues, Flatten, Mark, Layout, SortedBatch, Batch;
    BatchesPermute(less, groups, batches[..h]);
    MarkIsByteStart(groups, h);
    FlattenedSize(Flatten(batches[..h]), AllValues(groups)[..Mark(groups, h)]);
  }

  /** Whatever the values are, the bytes of each group in the output are those of its own values in sorted
      order: only empty values, which have no bytes, ever change groups. */
  lemma GroupBytesSorted(less: Less, groups: seq<KeyGroup>, out: Grouped, batches: seq<seq<Value>>, g: nat)
    requires RunResult(less, groups, out, batches) && g < |groups|
    ensures |out.keyOffsets| == |out.groupOffsets| == |groups| + 1
    ensures ReadBytesOf(out, g) == (groups[g].key, Flatten(batches[g]))
    ensures SortedBy(less, batches[g]) && multiset(Nonempty(batches[g])) == multiset(Nonempty(groups[g].values))
  {
    hide Nonempty, Flatten, AllValues, Mark, SortedBy, Layout, Batch;
    BytesReadBack(groups, g);
    BytesBefore(less, groups, batches, g);
    BytesBefore(less, groups, batches, g + 1);
    var before, upTo, all := Flatten(batches[..g]), Flatten(batches[..g + 1]), Flatten(batches);
    assert batches[..g + 1] == batches[..g] + [batches[g]];
    FlattenNext(batches[..g], batches[g]);
    FlattenSum(before, batches[g]);
    assert batches == batches[..g + 1] + batches[g + 1..];
    FlattenSum(batches[..g + 1], batches[g + 1..]);
    FlattenSum(upTo, Flatten(batches[g + 1..]));
    assert out.values[|Flatten(before)|..|Flatten(upTo)|] == Flatten(batches[g]);
    assert SortedBatch(less, batches[g], Batch(groups, g));
    NonemptyPermuted(batches[g], Batch(groups, g));
    TakenValues(groups, g);
  }

  // ----- The output, whatever comparator is given

  /** Some run with this comparator leaves this output. */
  ghost predicate MayOutput(less: Less, groups: seq<KeyGroup>, out: Grouped) {
    exists batches :: RunResult(less, groups, out, batches)
  }

  /** The output is the layout of the same groups, each a sorted permutation of its own values. */
  ghost predicate OutputSorted(less: Less, groups: seq<KeyGroup>, out: Grouped) {
    exists own :: SortedGroupwise(less, groups, own) && out == Layout(WithValues(groups, own))
  }

  /** Every output under every comparator is sorted group by group if and only if no group ends with an
      empty value. */
  lemma SortsGroupwiseIffNoneEndsEmpty(groups: seq<KeyGroup>)
    ensures NoGroupEndsEmpty(groups) <==>
      forall less: Less, out :: StrictWeakOrder(less) && MayOutput(less, groups, out) ==> OutputSorted(less, groups, out)
  {
    hide RunResult, SortedGroupwise, StrictWeakOrder, Layout;
    if NoGroupEndsEmpty(groups) {
      forall less: Less, out | StrictWeakOrder(less) && MayOutput(less, groups, out)
        ensures OutputSorted(less, groups, out)
      {
        var batches :| RunResult(less, groups, out, batches);
        OwnBatchesIffNoneEndsEmpty(less, groups, out, batches);
        ResultSizes(less, groups, out, batches);
      }
    } else {
      var out := UnsortedOutput(groups);
      LongerFirstIsOrder();
      assert StrictWeakOrder(LongerFirst) && MayOutput(LongerFirst, groups, out);
    }
  }

  // ----- An output that is not sorted

  /** A comparator that puts longer values first. */
  predicate LongerFirst(a: Value, b: Value) {
    |a| > |b|
  }

  lemma LongerFirstIsOrder()
    ensures StrictWeakOrder(LongerFirst)
  {}

  lemma {:induction false} SortExists(s: seq<Value>) returns (r: seq<Value>)
    ensures SortedBy(LongerFirst, r) && multiset(r) == multiset(s)
  {
    hide SortedBy, StrictWeakOrder;
    if |s| == 0 {
      r := [];
      NothingSorted(LongerFirst);
    } else {
      LongerFirstIsOrder();
      var front := SortExists(s[..|s| - 1]);
      var j := PlaceOf(front, s[|s| - 1], |front|);
      InsertionSorted(LongerFirst, front, s[|s| - 1], j);
      r := front[..j] + [s[|s| - 1]] + front[j..];
      assert s == s[..|s| - 1] + [s[|s| - 1]];
      assert front == front[..j] + front[j..];
    }
  }

  /** Where an insertion puts `x`. */
  lemma {:induction false} PlaceOf(r: seq<Value>, x: Value, n: nat) returns (j: nat)
    requires SortedBy(LongerFirst, r) && n <= |r| && forall k :: n <= k < |r| ==> LongerFirst(x, r[k])
    ensures j <= |r| && (forall k :: j <= k < |r| ==> LongerFirst(x, r[k])) && (j > 0 ==> !LongerFirst(x, r[j - 1]))
  {
    if n == 0 || !LongerFirst(x, r[n - 1]) {
      j := n;
    } else {
      j := PlaceOf(r, x, n - 1);
    }
  }

  lemma {:induction false} BatchesExist(groups: seq<KeyGroup>, n: nat) returns (batches: seq<seq<Value>>)
    requires n <= |groups|
    ensures |batches| == n && AllBatches(LongerFirst, groups, batches)
  {
    if n == 0 {
      batches := [];
    } else {
      var front := BatchesExist(groups, n - 1);
      var last := SortExists(Batch(groups, n - 1));
      batches := front + [last];
    }
  }

  /** `s` continued with copies of `x`. */
  ghost function Padded<T>(s: seq<T>, n: nat, x: T): (r: seq<T>)
    requires |s| <= n
    ensures |r| == n && s <= r && forall i :: |s| <= i < n ==> r[i] == x
  {
    s + seq(n - |s|, _ => x)
  }

  /** With a group that ends with an empty value, some run leaves an output that is not sorted: either the
      last offset is never written, or the empty value lands behind a value of a later group. */
  lemma UnsortedOutput(groups: seq<KeyGroup>) returns (out: Grouped)
    requires !NoGroupEndsEmpty(groups)
    ensures MayOutput(LongerFirst, groups, out) && !OutputSorted(LongerFirst, groups, out)
  {
    hide Layout, Mark, NoGroupEndsEmpty, AllValues, FirstValue, SortedBy, Flatten, Offsets, SortedGroupwise;
    var t, n := Layout(groups), |AllValues(groups)|;
    var batches := BatchesExist(groups, |groups|);
    var done := Flatten(batches);
    BatchFits(LongerFirst, groups, batches);
    OffsetTable(groups);
    OffsetsLength(done);
    out := Grouped(t.keys, t.keyOffsets, Padded(Flatten(done), |t.values|, 0),
      Padded(Offsets(done), n + 1, |t.values| + 1), t.groupOffsets);
    assert RunResult(LongerFirst, groups, out, batches);
    var h := MisplacedStart(groups, out, batches);
    if OutputSorted(LongerFirst, groups, out) {
      var own := SortedWitness(LongerFirst, groups, out);
      SortedStarts(LongerFirst, groups, own, h);
    }
  }

  lemma SortedWitness(less: Less, groups: seq<KeyGroup>, out: Grouped) returns (own: seq<seq<Value>>)
    requires OutputSorted(less, groups, out)
    ensures SortedGroupwise(less, groups, own) && out == Layout(WithValues(groups, own))
  {
    own :| SortedGroupwise(less, groups, own) && out == Layout(WithValues(groups, own));
  }

  lemma OffsetsLength(done: seq<Value>)
    ensures |Offsets(done)| == |done| + 1
  {}

  /** In a sorted output every group starts at its first value. */
  lemma SortedStarts(less: Less, groups: seq<KeyGroup>, own: seq<seq<Value>>, h: nat)
    requires SortedGroupwise(less, groups, own) && h <= |groups|
    ensures FirstValue(groups, h) < |Layout(WithValues(groups, own)).valueOffsets|
    ensures h < |Layout(groups).groupOffsets|
    ensures Layout(WithValues(groups, own)).valueOffsets[FirstValue(groups, h)] == Layout(groups).groupOffsets[h]
  {
    var sorted := WithValues(groups, own);
    SortedLayout(less, groups, own);
    SameStarts(less, groups, own, h);
    GroupLimits(sorted, h);
    OffsetTable(sorted);
    OffsetTable(groups);
    hide Layout, FirstValue, SortedGroupwise;
  }

  lemma {:induction false} SameStarts(less: Less, groups: seq<KeyGroup>, own: seq<seq<Value>>, h: nat)
    requires SortedGroupwise(less, groups, own) && h <= |groups|
    ensures FirstValue(WithValues(groups, own), h) == FirstValue(groups, h)
  {
    hide FirstValue, SortedBy;
    if h == 0 {
      FirstStart(groups);
      FirstStart(WithValues(groups, own));
    } else {
      SameStarts(less, groups, own, h - 1);
      GroupValues(groups, h - 1);
      GroupValues(WithValues(groups, own), h - 1);
      assert SortedBatch(less, own[h - 1], groups[h - 1].values);
      SameCount(own[h - 1], groups[h - 1].values);
    }
  }

  /** A group whose first value does not lie where the group starts. */
  lemma MisplacedStart(groups: seq<KeyGroup>, out: Grouped, batches: seq<seq<Value>>) returns (h: nat)
    requires !NoGroupEndsEmpty(groups) && RunResult(LongerFirst, groups, out, batches)
    requires Mark(groups, |groups|) < |AllValues(groups)| ==>
      |out.valueOffsets| > 0 && out.valueOffsets[|out.valueOffsets| - 1] > |Layout(groups).values|
    ensures h <= |groups| && FirstValue(groups, h) < |out.valueOffsets| && h < |Layout(groups).groupOffsets|
    ensures out.valueOffsets[FirstValue(groups, h)] != Layout(groups).groupOffsets[h]
  {
    hide Layout, Mark, AllValues, FirstValue, RunResult;
    assert |out.valueOffsets| == |AllValues(groups)| + 1 && |Layout(groups).groupOffsets| == |groups| + 1 by {
      ResultSizes(LongerFirst, groups, out, batches);
    }
    if Mark(groups, |groups|) < |AllValues(groups)| {
      h := |groups|;
      LastStart(groups);
    } else {
      var g: nat :| g < |groups| && groups[g].values != [] && groups[g].values[|groups[g].values| - 1] == [];
      h := g + 1;
      EmptyValueMoved(groups, out, batches, g);
    }
  }

  lemma ResultSizes(less: Less, groups: seq<KeyGroup>, out: Grouped, batches: seq<seq<Value>>)
    requires RunResult(less, groups, out, batches)
    ensures |out.valueOffsets| == |AllValues(groups)| + 1 && |Layout(groups).groupOffsets| == |groups| + 1
    ensures |batches| == |groups| && AllBatches(less, groups, batches)
    ensures HoldsValues(out.values, out.valueOffsets, Flatten(batches))
  {
    OffsetTable(groups);
    hide AllBatches, HoldsValues, Layout;
  }

  lemma LastStart(groups: seq<KeyGroup>)
    ensures FirstValue(groups, |groups|) == |AllValues(groups)|
    ensures Layout(groups).groupOffsets[|groups|] == |Layout(groups).values|
  {
    assert groups[..|groups|] == groups;
    GroupLimits(groups, |groups|);
    FlattenWhole(AllValues(groups));
  }

  /** When the loop reaches the end, the empty last value of `g` is taken together with a later value that
      is not empty, and comes behind it. */
  lemma EmptyValueMoved(groups: seq<KeyGroup>, out: Grouped, batches: seq<seq<Value>>, g: nat)
    requires RunResult(LongerFirst, groups, out, batches) && Mark(groups, |groups|) == |AllValues(groups)|
    requires g < |groups| && groups[g].values != [] && groups[g].values[|groups[g].values| - 1] == []
    ensures |out.valueOffsets| == |AllValues(groups)| + 1 && |Layout(groups).groupOffsets| == |groups| + 1
    ensures FirstValue(groups, g + 1) <= |AllValues(groups)|
    ensures out.valueOffsets[FirstValue(groups, g + 1)] > Layout(groups).groupOffsets[g + 1]
  {
    hide Layout, Mark, AllValues, FirstValue, RunResult, AllBatches, HoldsValues, Flatten, Offsets;
    ResultSizes(LongerFirst, groups, out, batches);
    GroupValues(groups, g);
    var k := FirstValue(groups, g + 1) - 1;
    EmptyEndIsMissed(groups, g);
    var h := BatchOf(groups, k, g + 1);
    var done := Flatten(batches);
    BatchFits(LongerFirst, groups, batches);
    FirstOfBatch(groups, batches, g, h, k);
    OffsetsAscend(done, Mark(groups, h) + 1, k + 1);
    HeldOffset(out.values, out.valueOffsets, done, k + 1);
  }

  /** The batch that takes a value lying where group `g` ends starts behind that place, with a value that is
      not empty. */
  lemma FirstOfBatch(groups: seq<KeyGroup>, batches: seq<seq<Value>>, g: nat, h: nat, k: nat)
    requires |batches| == |groups| && AllBatches(LongerFirst, groups, batches)
    requires g < h < |groups| && Mark(groups, h) <= k < Mark(groups, h + 1)
    requires |Layout(groups).groupOffsets| == |groups| + 1
    requires Offset(AllValues(groups), k) == Layout(groups).groupOffsets[g + 1]
    ensures Mark(groups, h) < |Flatten(batches)|
    ensures Offset(Flatten(batches), Mark(groups, h) + 1) > Layout(groups).groupOffsets[g + 1]
  {
    hide Layout, Mark, AllValues, AllBatches, Flatten, Offset, Batch;
    MarkReaches(groups, h);
    MarkReaches(groups, h + 1);
    ValueInGroup(groups, h, k);
    GroupOffsetsAscend(groups, g + 1, h);
    FirstIsNotEmpty(groups, batches, h);
    StartOfBatch(LongerFirst, groups, batches, h);
    FlattenSlice(Flatten(batches), Mark(groups, h));
  }

  /** A group that is given bytes has a nonempty value first. */
  lemma FirstIsNotEmpty(groups: seq<KeyGroup>, batches: seq<seq<Value>>, h: nat)
    requires |batches| == |groups| && AllBatches(LongerFirst, groups, batches) && h < |groups|
    requires Offset(AllValues(groups), Mark(groups, h)) < Offset(AllValues(groups), Mark(groups, h + 1))
    ensures |batches[h]| > 0 && |batches[h][0]| > 0
  {
    hide Mark, AllValues, Flatten, AllBatches;
    MarksAscend(groups, h);
    assert SortedBatch(LongerFirst, batches[h], Batch(groups, h)) by { OneBatch(LongerFirst, groups, batches, h); }
    BytesBetween(AllValues(groups), Mark(groups, h), Mark(groups, h + 1));
    FlattenedSize(batches[h], Batch(groups, h));
    if |batches[h]| == 0 || |batches[h][0]| == 0 {
      NothingButEmpty(batches[h]);
    }
  }

  lemma OneBatch(less: Less, groups: seq<KeyGroup>, batches: seq<seq<Value>>, h: nat)
    requires AllBatches(less, groups, batches) && h < |batches|
    ensures SortedBatch(less, batches[h], Batch(groups, h))
  {}

  lemma BytesBetween(vals: seq<Value>, from: nat, to: nat)
    requires from <= to <= |vals|
    ensures |Flatten(vals[from..to])| == Offset(vals, to) - Offset(vals, from)
  {
    FlattenSum(vals[..from], vals[from..to]);
    assert vals[..to] == vals[..from] + vals[from..to];
    hide Flatten;
  }

  lemma {:induction false} NothingButEmpty(batch: seq<Value>)
    requires SortedBy(LongerFirst, batch) && (|batch| == 0 || |batch[0]| == 0)
    ensures Flatten(batch) == []
  {
    if |batch| == 0 {
    } else {
      var m := |batch| - 1;
      assert m > 0 ==> !LongerFirst(batch[m], batch[0]);
      NothingButEmpty(batch[..m]);
    }
  }

  /** Where a batch starts in the output. */
  lemma StartOfBatch(less: Less, groups: seq<KeyGroup>, batches: seq<seq<Value>>, h: nat)
    requires |batches| == |groups| && AllBatches(less, groups, batches) && h < |groups| && |batches[h]| > 0
    ensures Mark(groups, h) < |Flatten(batches)| && Flatten(batches)[Mark(groups, h)] == batches[h][0]
    ensures Offset(Flatten(batches), Mark(groups, h)) == Offset(AllValues(groups), Mark(groups, h))
  {
    hide Mark, AllValues, Flatten, Batch, SortedBatch;
    var done, start := Flatten(batches), Mark(groups, h);
    BatchFits(less, groups, batches[..h]);
    BatchesPermute(less, groups, batches[..h]);
    FlattenSlice(batches, h);
    assert Offset(batches, h) == start;
    assert done[start..Offset(batches, h + 1)][0] == done[start];
    FlattenSum(batches[..h], batches[h..]);
    assert batches[..h] + batches[h..] == batches;
    assert done[..start] == Flatten(batches[..h]);
    FlattenedSize(done[..start], AllValues(groups)[..start]);
  }

  /** The batch that takes value `k`. */
  lemma {:induction false} BatchOf(groups: seq<KeyGroup>, k: nat, from: nat) returns (h: nat)
    requires from <= |groups| && Mark(groups, from) <= k < Mark(groups, |groups|)
    ensures from <= h < |groups| && Mark(groups, h) <= k < Mark(groups, h + 1)
    decreases |groups| - from
  {
    hide Mark, AllValues;
    if k < Mark(groups, from + 1) {
      h := from;
    } else {
      h := BatchOf(groups, k, from + 1);
    }
  }

  // ----- An example

  /** With a comparator that puts longer values first, the empty value changes places with the value of
      the second group, and the output is not the layout of any reordering of the groups. */
  lemma EmptyValueEndsUpElsewhere(out: Grouped, batches: seq<seq<Value>>, reordered: seq<KeyGroup>)
    requires |batches| == 2 && AllBatches(LongerFirst, Example(), batches)
    requires out.groupOffsets == Layout(Example()).groupOffsets
    requires HoldsValues(out.values, out.valueOffsets, Flatten(batches))
    requires |reordered| == 2 && multiset(reordered[0].values) == multiset(Example()[0].values)
    ensures out != Layout(reordered)
  {
    hide Layout, AllBatches, HoldsValues, Flatten, Offsets;
    ExampleTables();
    ExampleOutput(batches);
    OffsetsOfThree([7], [8], []);
    assert out.valueOffsets[2] == 2 by { HeldOffset(out.values, out.valueOffsets, Flatten(batches), 2); }
    ReorderedStart(reordered);
  }

  lemma HeldOffset(values: seq<byte>, offsets: seq<nat>, done: seq<Value>, k: nat)
    requires HoldsValues(values, offsets, done) && k <= |done|
    ensures k < |offsets| && offsets[k] == Offsets(done)[k]
  {}

  lemma ExampleOutput(batches: seq<seq<Value>>)
    requires |batches| == 2 && AllBatches(LongerFirst, Example(), batches)
    ensures Flatten(batches) == [[7], [8], []]
  {
    hide Batch, Flatten;
    ExampleBatches();
    assert SortedBatch(LongerFirst, batches[0], [[7]]);
    assert SortedBatch(LongerFirst, batches[1], [[], [8]]);
    OneValue(batches[0], [7]);
    TwoValues(batches[1]);
    assert batches == [[[7]], [[8], []]];
    FlattenTwo<Value>([[7]], [[8], []]);
  }

  /** In any reordering the second group starts with the third value. */
  lemma ReorderedStart(reordered: seq<KeyGroup>)
    requires |reordered| == 2 && multiset(reordered[0].values) == multiset(Example()[0].values)
    ensures |Layout(reordered).valueOffsets| > 2 && |Layout(reordered).groupOffsets| > 1
    ensures Layout(reordered).groupOffsets[1] == Layout(reordered).valueOffsets[2]
  {
    SameCount(reordered[0].values, Example()[0].values);
    GroupStartsAtFirstValue(reordered, 1);
    GroupValues(reordered, 0);
    OffsetTable(reordered);
    FirstStart(reordered);
    hide Layout, FirstValue;
  }

  lemma OneValue(batch: seq<Value>, v: Value)
    requires multiset(batch) == multiset([v])
    ensures batch == [v]
  {
    SameCount(batch, [v]);
    SameMembers(batch, [v]);
    assert batch[0] in batch;
  }

  lemma TwoValues(batch: seq<Value>)
    requires SortedBatch(LongerFirst, batch, [[], [8]])
    ensures batch == [[8], []]
  {
    var was: seq<Value> := [[], [8]];
    SameCount(batch, was);
    SameMembers(batch, was);
    assert batch[0] in batch && batch[1] in batch;
    assert batch == [batch[0], batch[1]];
    assert was[0] in batch && was[1] in batch;
  }
}
