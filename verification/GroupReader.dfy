/** Reading a grouped buffer back by its tables, as the readers of the engine do: the values of a group are
    those whose offset lies before the end of the group. */
module GroupReader {
  import opened Machine
  import opened Buffers

  type Value = seq<byte>

  // ----- The scan

  /** The scan passes values while their offset lies before the end of the group. */
  function Stop(offsets: seq<nat>, v: nat, limit: nat): nat
    requires v < |offsets|
    decreases |offsets| - v
  {
    if offsets[v] < limit && v + 1 < |offsets| then Stop(offsets, v + 1, limit) else v
  }

  /** Where the scan of group `g` starts. */
  function ScanStart(t: Grouped, g: nat): (v: nat)
    requires |t.valueOffsets| > 0 && g < |t.groupOffsets|
    ensures v < |t.valueOffsets|
  {
    if g == 0 then 0
    else
      StopBounds(t.valueOffsets, ScanStart(t, g - 1), t.groupOffsets[g]);
      Stop(t.valueOffsets, ScanStart(t, g - 1), t.groupOffsets[g])
  }

  function Cut(s: seq<byte>, from: nat, to: nat): seq<byte> {
    if from <= to <= |s| then s[from..to] else []
  }

  function ValuesBetween(t: Grouped, from: nat, to: nat): (vals: seq<Value>)
    requires from <= to < |t.valueOffsets|
    ensures |vals| == to - from
    ensures forall i :: 0 <= i < |vals| ==> vals[i] == Cut(t.values, t.valueOffsets[from + i], t.valueOffsets[from + i + 1])
  {
    seq(to - from, i requires 0 <= i < to - from => Cut(t.values, t.valueOffsets[from + i], t.valueOffsets[from + i + 1]))
  }

  /** What the scan finds for group `g`: the key, and the values from its start to that of the next. */
  function ReadGroup(t: Grouped, g: nat): KeyGroup
    requires |t.valueOffsets| > 0 && g + 1 < |t.groupOffsets| == |t.keyOffsets|
  {
    var from, to := ScanStart(t, g), ScanStart(t, g + 1);
    StopBounds(t.valueOffsets, from, t.groupOffsets[g + 1]);
    KeyGroup(Cut(t.keys, t.keyOffsets[g], t.keyOffsets[g + 1]), ValuesBetween(t, from, to))
  }

  /** The groups of a buffer. */
  function ReadGroups(t: Grouped): seq<KeyGroup> {
    if |t.valueOffsets| > 0 && 0 < |t.groupOffsets| == |t.keyOffsets| then
      seq(|t.groupOffsets| - 1, g requires 0 <= g < |t.groupOffsets| - 1 => ReadGroup(t, g))
    else []
  }

  /** The bytes of each group, which is what processors are given. */
  function ReadBytesOf(t: Grouped, g: nat): (seq<byte>, seq<byte>)
    requires g + 1 < |t.groupOffsets| == |t.keyOffsets|
  {
    (Cut(t.keys, t.keyOffsets[g], t.keyOffsets[g + 1]), Cut(t.values, t.groupOffsets[g], t.groupOffsets[g + 1]))
  }

  /** Where the scan believes that group `g` starts. */
  function Mark(groups: seq<KeyGroup>, g: nat): (v: nat)
    requires g <= |groups|
    ensures v <= |AllValues(groups)|
  {
    ScanStart(Layout(groups), g)
  }

  lemma {:induction false} StopBounds(offsets: seq<nat>, v: nat, limit: nat)
    requires v < |offsets|
    ensures v <= Stop(offsets, v, limit) < |offsets|
    decreases |offsets| - v
  {
    if offsets[v] < limit && v + 1 < |offsets| {
      StopBounds(offsets, v + 1, limit);
    }
  }

  /** The scan passes everything below the limit and stops at the first value that is not. */
  lemma {:induction false} StopFound(offsets: seq<nat>, v: nat, limit: nat, end: nat)
    requires v <= end < |offsets| && (forall i :: v <= i < end ==> offsets[i] < limit) && offsets[end] >= limit
    ensures Stop(offsets, v, limit) == end
    decreases end - v
  {
    if v == end {
    } else {
      StopFound(offsets, v + 1, limit, end);
    }
  }

  ghost predicate NoGroupEndsEmpty(groups: seq<KeyGroup>) {
    forall g :: 0 <= g < |groups| ==>
      groups[g].values == [] || groups[g].values[|groups[g].values| - 1] != []
  }

  lemma {:induction false} OffsetsAscend<T>(vals: seq<seq<T>>, i: nat, j: nat)
    requires i <= j <= |vals|
    ensures Offset(vals, i) <= Offset(vals, j)
  {
    hide Offset;
    if i == j {
    } else {
      OffsetsAscend(vals, i, j - 1);
      FlattenSlice(vals, j - 1);
    }
  }

  /** The values of group `g` are where the group's first value is. */
  lemma GroupValues(groups: seq<KeyGroup>, g: nat)
    requires g < |groups|
    ensures FirstValue(groups, g + 1) == FirstValue(groups, g) + |groups[g].values| <= |AllValues(groups)|
    ensures AllValues(groups)[FirstValue(groups, g)..FirstValue(groups, g + 1)] == groups[g].values
  {
    var lists := ValueLists(groups);
    FlattenSlice(lists, g);
    assert ValueLists(groups[..g]) == lists[..g];
    assert ValueLists(groups[..g + 1]) == lists[..g + 1];
  }

  lemma GroupLimits(groups: seq<KeyGroup>, g: nat)
    requires g <= |groups|
    ensures FirstValue(groups, g) <= |AllValues(groups)|
    ensures Layout(groups).groupOffsets[g] == Offset(AllValues(groups), FirstValue(groups, g))
  {
    GroupStartsAtFirstValue(groups, g);
  }

  lemma BelowGroupEnd(groups: seq<KeyGroup>, g: nat, i: nat)
    requires g < |groups| && NoGroupEndsEmpty(groups)
    requires FirstValue(groups, g) <= i < FirstValue(groups, g + 1)
    ensures i <= |AllValues(groups)|
    ensures Offset(AllValues(groups), i) < Layout(groups).groupOffsets[g + 1]
  {
    hide Layout, AllValues, FirstValue;
    var vals, from, to := AllValues(groups), FirstValue(groups, g), FirstValue(groups, g + 1);
    GroupValues(groups, g);
    GroupLimits(groups, g + 1);
    OffsetsAscend(vals, i, to - 1);
    FlattenSlice(vals, to - 1);
    assert vals[from..to][to - 1 - from] == vals[to - 1];
  }

  lemma {:induction false} MarksAreStarts(groups: seq<KeyGroup>, g: nat)
    requires g <= |groups| && NoGroupEndsEmpty(groups)
    ensures Mark(groups, g) == FirstValue(groups, g)
  {
    hide FirstValue, Mark, NoGroupEndsEmpty;
    if g == 0 {
      FirstStart(groups);
    } else {
      MarksAreStarts(groups, g - 1);
      NextMarkIsStart(groups, g - 1);
    }
  }

  lemma NextMarkIsStart(groups: seq<KeyGroup>, g: nat)
    requires g < |groups| && NoGroupEndsEmpty(groups) && Mark(groups, g) == FirstValue(groups, g)
    ensures Mark(groups, g + 1) == FirstValue(groups, g + 1)
  {
    hide Layout, AllValues, FirstValue, Stop, Offset, Offsets, NoGroupEndsEmpty;
    OffsetTable(groups);
    var from, to := FirstValue(groups, g), FirstValue(groups, g + 1);
    var offsets, limit := Layout(groups).valueOffsets, Layout(groups).groupOffsets[g + 1];
    GroupInside(groups, g);
    GroupValues(groups, g);
    GroupLimits(groups, g + 1);
    hide Mark;
    forall i | from <= i < to ensures offsets[i] < limit {
      BelowGroupEnd(groups, g, i);
    }
    StopFound(offsets, from, limit, to);
  }

  lemma OffsetTable(groups: seq<KeyGroup>)
    ensures |Layout(groups).valueOffsets| == |AllValues(groups)| + 1
    ensures forall i :: 0 <= i <= |AllValues(groups)| ==> Layout(groups).valueOffsets[i] == Offset(AllValues(groups), i)
    ensures |Layout(groups).groupOffsets| == |groups| + 1
  {}

  lemma {:induction false} StopsEarly(offsets: seq<nat>, v: nat, limit: nat, k: nat)
    requires v <= k < |offsets| && offsets[k] >= limit
    ensures Stop(offsets, v, limit) <= k
    decreases k - v
  {
    if v == k {
    } else {
      StopsEarly(offsets, v + 1, limit, k);
    }
  }

  /** What the scan passes lies before the limit, and it only stops there or at the last entry. */
  lemma {:induction false} StopPasses(offsets: seq<nat>, v: nat, limit: nat, k: nat)
    requires v <= k < |offsets|
    ensures Stop(offsets, v, limit) > k ==> offsets[k] < limit
    ensures Stop(offsets, v, limit) == k ==> offsets[k] >= limit || k + 1 == |offsets|
    decreases |offsets| - v
  {
    if offsets[v] < limit && v + 1 < |offsets| {
      if v < k {
        StopPasses(offsets, v + 1, limit, k);
      } else {
        StopBounds(offsets, v + 1, limit);
      }
    }
  }

  /** A group is not read from before its start. */
  lemma MarkReaches(groups: seq<KeyGroup>, g: nat)
    requires g <= |groups|
    ensures Layout(groups).groupOffsets[g] <= Offset(AllValues(groups), Mark(groups, g))
  {
    hide AllValues, Stop, Offset, Layout, FirstValue;
    OffsetTable(groups);
    if g == 0 {
      FirstStart(groups);
      GroupLimits(groups, 0);
    } else {
      GroupInside(groups, g - 1);
      MarksAscend(groups, g - 1);
      LastOffset(groups);
      StopPasses(Layout(groups).valueOffsets, Mark(groups, g - 1), Layout(groups).groupOffsets[g], Mark(groups, g));
    }
  }

  /** Where the scan of a group starts, the bytes of the group start. */
  lemma MarkIsByteStart(groups: seq<KeyGroup>, g: nat)
    requires g <= |groups|
    ensures Layout(groups).groupOffsets[g] == Offset(AllValues(groups), Mark(groups, g))
    ensures Mark(groups, g) <= FirstValue(groups, g) <= |AllValues(groups)|
    ensures Offset(AllValues(groups), FirstValue(groups, g)) == Offset(AllValues(groups), Mark(groups, g))
  {
    hide AllValues, Offset, Layout, FirstValue, Mark;
    MarkReaches(groups, g);
    MarkAtMostStart(groups, g);
    GroupLimits(groups, g);
    OffsetsAscend(AllValues(groups), Mark(groups, g), FirstValue(groups, g));
  }

  /** A value taken for a group lies before its end, and not before the first one taken. */
  lemma ValueInGroup(groups: seq<KeyGroup>, g: nat, k: nat)
    requires g < |groups| && Mark(groups, g) <= k < Mark(groups, g + 1)
    ensures Offset(AllValues(groups), Mark(groups, g)) <= Offset(AllValues(groups), k) < Layout(groups).groupOffsets[g + 1]
  {
    hide AllValues, Stop, Offset, Layout, Mark;
    OffsetTable(groups);
    GroupInside(groups, g);
    StopPasses(Layout(groups).valueOffsets, Mark(groups, g), Layout(groups).groupOffsets[g + 1], k);
    OffsetsAscend(AllValues(groups), Mark(groups, g), k);
  }

  lemma GroupOffsetsAscend(groups: seq<KeyGroup>, g: nat, h: nat)
    requires g <= h <= |groups|
    ensures Layout(groups).groupOffsets[g] <= Layout(groups).groupOffsets[h]
  {
    OffsetsAscend(GroupBytes(groups), g, h);
    hide AllValues, Offset;
  }

  /** The scan tells all groups apart exactly when no group ends with an empty value. */
  lemma GroupsFoundIffNoneEndsEmpty(groups: seq<KeyGroup>)
    ensures (forall g: nat :: g <= |groups| ==> Mark(groups, g) == FirstValue(groups, g)) <==> NoGroupEndsEmpty(groups)
  {
    hide Layout, FirstValue, Mark;
    if NoGroupEndsEmpty(groups) {
      forall g: nat | g <= |groups| ensures Mark(groups, g) == FirstValue(groups, g) {
        MarksAreStarts(groups, g);
      }
    } else {
      var g: nat :| g < |groups| && groups[g].values != [] && groups[g].values[|groups[g].values| - 1] == [];
      EmptyEndIsMissed(groups, g);
    }
  }

  /** The scan never runs past the end of a group. */
  lemma {:induction false} MarkAtMostStart(groups: seq<KeyGroup>, g: nat)
    requires g <= |groups|
    ensures Mark(groups, g) <= FirstValue(groups, g)
  {
    hide FirstValue, AllValues, Layout, Stop, Offset;
    if g == 0 {
      FirstStart(groups);
    } else {
      MarkAtMostStart(groups, g - 1);
      GroupValues(groups, g - 1);
      GroupLimits(groups, g);
      OffsetTable(groups);
      GroupInside(groups, g - 1);
      hide Mark;
      StopsEarly(Layout(groups).valueOffsets, Mark(groups, g - 1), Layout(groups).groupOffsets[g], FirstValue(groups, g));
    }
  }

  /** An empty last value is left to a later group, or to none. */
  lemma EmptyEndIsMissed(groups: seq<KeyGroup>, g: nat)
    requires g < |groups| && groups[g].values != [] && groups[g].values[|groups[g].values| - 1] == []
    ensures Mark(groups, g + 1) < FirstValue(groups, g + 1) <= |AllValues(groups)|
    ensures Offset(AllValues(groups), FirstValue(groups, g + 1) - 1) == Layout(groups).groupOffsets[g + 1]
  {
    hide Layout, AllValues, FirstValue, Stop;
    var vals := AllValues(groups);
    var from, to := FirstValue(groups, g), FirstValue(groups, g + 1);
    GroupValues(groups, g);
    GroupLimits(groups, g + 1);
    OffsetTable(groups);
    FlattenSlice(vals, to - 1);
    assert vals[from..to][to - 1 - from] == vals[to - 1];
    MarkAtMostStart(groups, g);
    GroupInside(groups, g);
    StopsEarly(Layout(groups).valueOffsets, Mark(groups, g), Layout(groups).groupOffsets[g + 1], to - 1);
  }

  lemma StopStep(offsets: seq<nat>, v: nat, limit: nat)
    requires v < |offsets|
    ensures Stop(offsets, v, limit) == if offsets[v] < limit && v + 1 < |offsets| then Stop(offsets, v + 1, limit) else v
  {}

  lemma LastOffset(groups: seq<KeyGroup>)
    ensures Layout(groups).valueOffsets[|AllValues(groups)|] == |Layout(groups).values|
  {
    FlattenWhole(AllValues(groups));
  }

  lemma MarksAscend(groups: seq<KeyGroup>, g: nat)
    requires g < |groups|
    ensures Mark(groups, g) <= Mark(groups, g + 1)
  {
    StopBounds(Layout(groups).valueOffsets, Mark(groups, g), Layout(groups).groupOffsets[g + 1]);
  }

  lemma GroupInside(groups: seq<KeyGroup>, g: nat)
    requires g < |groups|
    ensures Layout(groups).groupOffsets[g + 1] <= |Layout(groups).values|
    ensures Mark(groups, g + 1) == Stop(Layout(groups).valueOffsets, Mark(groups, g), Layout(groups).groupOffsets[g + 1])
  {
    GroupLimits(groups, g + 1);
    OffsetsAscend(AllValues(groups), FirstValue(groups, g + 1), |AllValues(groups)|);
    FlattenWhole(AllValues(groups));
  }

  lemma FirstStart(groups: seq<KeyGroup>)
    ensures Mark(groups, 0) == FirstValue(groups, 0) == 0
  {
    assert groups[..0] == [];
  }

  // ----- What the reader finds

  /** The values the scan takes for group `g`. */
  ghost function Batch(groups: seq<KeyGroup>, g: nat): seq<Value>
    requires g < |groups|
  {
    StopBounds(Layout(groups).valueOffsets, Mark(groups, g), Layout(groups).groupOffsets[g + 1]);
    AllValues(groups)[Mark(groups, g)..Mark(groups, g + 1)]
  }

  lemma BatchLength(groups: seq<KeyGroup>, g: nat)
    requires g < |groups|
    ensures |Batch(groups, g)| == Mark(groups, g + 1) - Mark(groups, g)
  {
    MarksAscend(groups, g);
  }

  /** On a written layout the reader finds every key, and for each group the values the scan takes. */
  lemma ReadLayout(groups: seq<KeyGroup>)
    ensures |ReadGroups(Layout(groups))| == |groups|
    ensures forall g :: 0 <= g < |groups| ==> ReadGroups(Layout(groups))[g] == KeyGroup(groups[g].key, Batch(groups, g))
  {
    var t := Layout(groups);
    OffsetTable(groups);
    KeyTableSize(groups);
    hide ReadGroup, Layout, Batch;
    forall g: nat | g < |groups| ensures ReadGroup(t, g) == KeyGroup(groups[g].key, Batch(groups, g)) {
      ReadKey(groups, g);
      ReadValues(groups, g);
    }
  }

  lemma KeyTableSize(groups: seq<KeyGroup>)
    ensures |Layout(groups).keyOffsets| == |groups| + 1
  {}

  lemma ReadKey(groups: seq<KeyGroup>, g: nat)
    requires g < |groups|
    ensures |Layout(groups).keyOffsets| == |Layout(groups).groupOffsets| == |groups| + 1
    ensures ReadGroup(Layout(groups), g).key == groups[g].key
  {
    FlattenSlice(Keys(groups), g);
    hide Flatten, Offset, AllValues, ScanStart;
  }

  lemma ReadValues(groups: seq<KeyGroup>, g: nat)
    requires g < |groups|
    ensures |Layout(groups).keyOffsets| == |Layout(groups).groupOffsets| == |groups| + 1
    ensures ReadGroup(Layout(groups), g).values == Batch(groups, g)
  {
    KeyTableSize(groups);
    OffsetTable(groups);
    BatchLength(groups, g);
    BetweenMarks(groups, Mark(groups, g), Mark(groups, g + 1));
    hide Layout, AllValues, ScanStart, ValuesBetween;
  }

  lemma BetweenMarks(groups: seq<KeyGroup>, from: nat, to: nat)
    requires from <= to <= |AllValues(groups)|
    ensures |Layout(groups).valueOffsets| == |AllValues(groups)| + 1
    ensures ValuesBetween(Layout(groups), from, to) == AllValues(groups)[from..to]
  {
    OffsetTable(groups);
    hide Layout, AllValues;
    forall i | 0 <= i < to - from
      ensures ValuesBetween(Layout(groups), from, to)[i] == AllValues(groups)[from..to][i]
    {
      ValueAt(groups, from + i);
    }
  }

  lemma {:induction false} ValueAt(groups: seq<KeyGroup>, i: nat)
    requires i < |AllValues(groups)|
    ensures var t := Layout(groups);
      && i + 1 < |t.valueOffsets| && t.valueOffsets[i] <= t.valueOffsets[i + 1] <= |t.values|
      && t.values[t.valueOffsets[i]..t.valueOffsets[i + 1]] == AllValues(groups)[i]
  {
    FlattenSlice(AllValues(groups), i);
  }

  /** When every group is found with as many values as it has, none ends with an empty value. */
  lemma CountsSuffice(groups: seq<KeyGroup>)
    requires forall g :: 0 <= g < |groups| ==> |ReadGroups(Layout(groups))[g].values| == |groups[g].values|
    requires |ReadGroups(Layout(groups))| == |groups|
    ensures NoGroupEndsEmpty(groups)
  {
    ReadLayout(groups);
    forall g: nat | g <= |groups| ensures Mark(groups, g) == FirstValue(groups, g) {
      CountedStart(groups, g);
    }
    GroupsFoundIffNoneEndsEmpty(groups);
  }

  lemma {:induction false} CountedStart(groups: seq<KeyGroup>, g: nat)
    requires |ReadGroups(Layout(groups))| == |groups|
    requires forall h :: 0 <= h < |groups| ==> |ReadGroups(Layout(groups))[h].values| == |groups[h].values|
    requires g <= |groups|
    ensures Mark(groups, g) == FirstValue(groups, g)
  {
    hide ReadGroups, Layout, Mark, FirstValue, AllValues, Batch;
    if g == 0 {
      FirstStart(groups);
    } else {
      CountedStart(groups, g - 1);
      ReadLayout(groups);
      GroupValues(groups, g - 1);
      BatchLength(groups, g - 1);
      assert |ReadGroups(Layout(groups))[g - 1].values| == |Batch(groups, g - 1)|;
    }
  }

  /** The reader finds the groups that were written if and only if none of them ends with an empty value. */
  lemma ReadsBackIffNoneEndsEmpty(groups: seq<KeyGroup>)
    ensures ReadGroups(Layout(groups)) == groups <==> NoGroupEndsEmpty(groups)
  {
    hide ReadGroups, Layout, Mark, FirstValue, AllValues;
    ReadLayout(groups);
    if NoGroupEndsEmpty(groups) {
      forall g: nat | g < |groups| ensures ReadGroups(Layout(groups))[g] == groups[g] {
        MarksAreStarts(groups, g);
        MarksAreStarts(groups, g + 1);
        GroupValues(groups, g);
      }
    }
    if ReadGroups(Layout(groups)) == groups {
      CountsSuffice(groups);
    }
  }

  /** Key and bytes of a group are found whatever the values are. */
  lemma BytesReadBack(groups: seq<KeyGroup>, g: nat)
    requires g < |groups|
    ensures |Layout(groups).keyOffsets| == |Layout(groups).groupOffsets| == |groups| + 1
    ensures ReadBytesOf(Layout(groups), g) == (groups[g].key, Flatten(groups[g].values))
  {
    FlattenSlice(Keys(groups), g);
    FlattenSlice(GroupBytes(groups), g);
    BytesOfValues(groups);
    hide Flatten, Offset, AllValues;
  }

  // ----- An example

  /** Two groups; the first ends with an empty value. */
  function Example(): seq<KeyGroup> {
    [KeyGroup([1], [[7], []]), KeyGroup([2], [[8]])]
  }

  lemma ExampleTables()
    ensures AllValues(Example()) == [[7], [], [8]]
    ensures Layout(Example()).valueOffsets == [0, 1, 1, 2] && Layout(Example()).groupOffsets == [0, 1, 2]
  {
    hide Flatten, Offsets;
    var lists: seq<seq<Value>> := [[[7], []], [[8]]];
    assert ValueLists(Example()) == lists;
    FlattenTwo<Value>([[7], []], [[8]]);
    assert [[7], []] + [[8]] == [[7], [], [8]];
    OffsetsOfThree([7], [], [8]);
    ExampleBytes();
    OffsetsOfTwo([7], [8]);
  }

  lemma ExampleBytes()
    ensures GroupBytes(Example()) == [[7], [8]]
  {
    hide Flatten;
    var bytes: seq<seq<byte>> := [[7], [8]];
    FlattenTwo<byte>([7], []);
    FlattenOne<byte>([8]);
    assert Example()[0].values == [[7], []] && Example()[1].values == [[8]];
    assert [7] + [] == [7];
    assert GroupBytes(Example()) == bytes;
  }

  lemma FlattenTwo<T>(a: seq<T>, b: seq<T>)
    ensures Flatten([a, b]) == a + b
  {
    FlattenNext([a], b);
    FlattenOne(a);
    assert [a] + [b] == [a, b];
  }

  lemma OffsetsOfTwo(a: Value, b: Value)
    ensures Offsets([a, b]) == [0, |a|, |a| + |b|]
  {
    FlattenNext([], a);
    FlattenNext([a], b);
    assert [] + [a] == [a] && [a] + [b] == [a, b];
    FlattenWhole([a]);
    FlattenOne(a);
    assert Offsets<byte>([]) == [0];
  }

  lemma OffsetsOfThree(a: Value, b: Value, c: Value)
    ensures Offsets([a, b, c]) == [0, |a|, |a| + |b|, |a| + |b| + |c|]
  {
    OffsetsOfTwo(a, b);
    FlattenNext([a, b], c);
    assert [a, b] + [c] == [a, b, c];
    assert Offsets([a, b])[2] == Offset([a, b], 2);
  }

  /** The scan leaves the empty value to the second group. */
  lemma ExampleBatches()
    ensures Batch(Example(), 0) == [[7]] && Batch(Example(), 1) == [[], [8]]
  {
    ExampleTables();
    hide Layout, AllValues;
    var table: seq<nat> := [0, 1, 1, 2];
    assert Stop(table, 0, 1) == 1;
    assert Mark(Example(), 0) == 0 && Mark(Example(), 1) == 1;
    assert Stop(table, 1, 2) == 3;
    assert Mark(Example(), 2) == 3;
  }

  /** Another list of groups with the same layout: the tables do not tell which key the empty value
      belongs to. */
  lemma EmptyValueIsAmbiguous()
    ensures Layout([KeyGroup([1], [[7]]), KeyGroup([2], [[], [8]])]) == Layout(Example())
  {
    hide Flatten, Offsets;
    var other: seq<KeyGroup> := [KeyGroup([1], [[7]]), KeyGroup([2], [[], [8]])];
    var lists: seq<seq<Value>>, bytes: seq<seq<byte>> := [[[7]], [[], [8]]], [[7], [8]];
    ExampleTables();
    ExampleBytes();
    assert Keys(other) == Keys(Example());
    assert ValueLists(other) == lists;
    FlattenTwo<Value>([[7]], [[], [8]]);
    assert [[7]] + [[], [8]] == [[7], [], [8]];
    FlattenOne<byte>([7]);
    FlattenTwo<byte>([], [8]);
    assert other[0].values == [[7]] && other[1].values == [[], [8]];
    assert [] + [8] == [8];
    assert GroupBytes(other) == bytes;
  }
}
