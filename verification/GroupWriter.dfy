/** Writing sorted, marked records as a grouped buffer. */
module GroupWriter {
  import opened Machine
  import opened KeyBlocks
  import opened Buffers
  import opened ShufflePartition

  /** Adds a value to the last group. */
  function Extend(groups: seq<KeyGroup>, value: seq<byte>): seq<KeyGroup>
    requires |groups| > 0
  {
    var m := |groups| - 1;
    groups[m := KeyGroup(groups[m].key, groups[m].values + [value])]
  }

  /** A record that is not marked opens a group; a marked one joins the group before it. */
  function GroupsOf(s: seq<Record>, marks: seq<bool>): (groups: seq<KeyGroup>)
    requires |s| == |marks| && (|s| > 0 ==> !marks[0])
    ensures |s| > 0 ==> |groups| > 0
  {
    var m := |s| - 1;
    if |s| == 0 then []
    else if marks[m] then Extend(GroupsOf(s[..m], marks[..m]), s[m].value)
    else GroupsOf(s[..m], marks[..m]) + [KeyGroup(s[m].key, [s[m].value])]
  }

  lemma GroupsNext(s: seq<Record>, marks: seq<bool>, i: nat)
    requires |s| == |marks| && i < |s| && !marks[0]
    ensures marks[i] ==> i > 0
    ensures GroupsOf(s[..i + 1], marks[..i + 1]) ==
      if marks[i] then Extend(GroupsOf(s[..i], marks[..i]), s[i].value)
      else GroupsOf(s[..i], marks[..i]) + [KeyGroup(s[i].key, [s[i].value])]
  {
    assert s[..i + 1][..i] == s[..i] && marks[..i + 1][..i] == marks[..i];
  }

  // ----- How the sections grow

  lemma {:induction false} LayoutOfNewGroup(groups: seq<KeyGroup>, key: seq<byte>, value: seq<byte>)
    ensures var was, now := Layout(groups), Layout(groups + [KeyGroup(key, [value])]);
      && now.keys == was.keys + key
      && now.keyOffsets == was.keyOffsets + [|was.keys| + |key|]
      && now.values == was.values + value
      && now.valueOffsets == was.valueOffsets + [|was.values| + |value|]
      && now.groupOffsets == was.groupOffsets + [|was.values| + |value|]
    ensures AllValues(groups + [KeyGroup(key, [value])]) == AllValues(groups) + [value]
  {
    var more := groups + [KeyGroup(key, [value])];
    hide Flatten, Offsets;
    FlattenWhole(Keys(groups));
    FlattenNext(Keys(groups), key);
    assert Keys(more) == Keys(groups) + [key];
    FlattenNext(ValueLists(groups), [value]);
    assert ValueLists(more) == ValueLists(groups) + [[value]];
    FlattenWhole(AllValues(groups));
    FlattenNext(AllValues(groups), value);
    FlattenWhole(GroupBytes(groups));
    FlattenNext(GroupBytes(groups), value);
    FlattenOne(value);
    assert GroupBytes(more) == GroupBytes(groups) + [value];
    BytesOfValues(groups);
  }

  lemma {:induction false} LayoutOfExtended(groups: seq<KeyGroup>, value: seq<byte>)
    requires |groups| > 0
    ensures var was, now := Layout(groups), Layout(Extend(groups, value));
      && now.keys == was.keys && now.keyOffsets == was.keyOffsets
      && now.values == was.values + value
      && now.valueOffsets == was.valueOffsets + [|was.values| + |value|]
      && now.groupOffsets == was.groupOffsets[|groups| := was.groupOffsets[|groups|] + |value|]
    ensures AllValues(Extend(groups, value)) == AllValues(groups) + [value]
  {
    var more, m := Extend(groups, value), |groups| - 1;
    var front, last := groups[..m], groups[m];
    var longer := KeyGroup(last.key, last.values + [value]);
    assert groups == front + [last] && more == front + [longer];
    assert Keys(more) == Keys(groups);
    {
      hide AllValues, GroupBytes, Flatten, Offsets, Layout, Extend;
      LayoutOfFront(front, last);
      LayoutOfFront(front, longer);
      assert AllValues(front) + (last.values + [value]) == (AllValues(front) + last.values) + [value];
      FlattenNext(last.values, value);
      LayoutWithOneMoreValue(groups, more, value);
      GroupOffsetsEnd(front, last, longer, value);
    }
  }

  lemma {:induction false} GroupOffsetsEnd(front: seq<KeyGroup>, last: KeyGroup, longer: KeyGroup, value: seq<byte>)
    requires Flatten(longer.values) == Flatten(last.values) + value
    ensures var was := Layout(front + [last]).groupOffsets;
      Layout(front + [longer]).groupOffsets == was[|front| + 1 := was[|front| + 1] + |value|]
  {
    hide Layout;
    LayoutOfFront(front, last);
    LayoutOfFront(front, longer);
    GroupOffsetsLength(front);
  }

  lemma GroupOffsetsLength(groups: seq<KeyGroup>)
    ensures |Layout(groups).groupOffsets| == |groups| + 1
  {}

  lemma LayoutWithOneMoreValue(groups: seq<KeyGroup>, more: seq<KeyGroup>, value: seq<byte>)
    requires AllValues(more) == AllValues(groups) + [value]
    ensures Layout(more).values == Layout(groups).values + value
    ensures Layout(more).valueOffsets == Layout(groups).valueOffsets + [|Layout(groups).values| + |value|]
  {
    hide Flatten, Offsets, AllValues;
    FlattenWhole(AllValues(groups));
    FlattenNext(AllValues(groups), value);
  }

  lemma LayoutOfFront(front: seq<KeyGroup>, last: KeyGroup)
    ensures AllValues(front + [last]) == AllValues(front) + last.values
    ensures Layout(front + [last]).groupOffsets ==
      Layout(front).groupOffsets + [|Flatten(GroupBytes(front))| + |Flatten(last.values)|]
  {
    hide Flatten, Offsets;
    assert ValueLists(front + [last]) == ValueLists(front) + [last.values];
    FlattenNext(ValueLists(front), last.values);
    assert GroupBytes(front + [last]) == GroupBytes(front) + [Flatten(last.values)];
    FlattenWhole(GroupBytes(front));
    FlattenNext(GroupBytes(front), Flatten(last.values));
  }

  // ----- Writing

  /** A table or byte section is filled as far as the groups so far reach. */
  ghost predicate Begins(g: Grouped, out: Grouped) {
    && g.keys <= out.keys && g.keyOffsets <= out.keyOffsets
    && g.values <= out.values && g.valueOffsets <= out.valueOffsets
    && g.groupOffsets <= out.groupOffsets
  }

  /** The sizes of the sections are those of `g`. */
  ghost predicate SameSizes(g: Grouped, out: Grouped) {
    && |g.keys| == |out.keys| && |g.keyOffsets| == |out.keyOffsets|
    && |g.values| == |out.values| && |g.valueOffsets| == |out.valueOffsets|
    && |g.groupOffsets| == |out.groupOffsets|
  }

  lemma LayoutSizes(groups: seq<KeyGroup>)
    ensures |Layout(groups).keyOffsets| == |Layout(groups).groupOffsets| == |groups| + 1
    ensures |Layout(groups).valueOffsets| == |AllValues(groups)| + 1
    ensures Layout(groups).keyOffsets[|groups|] == |Layout(groups).keys|
    ensures Layout(groups).valueOffsets[|AllValues(groups)|] == |Layout(groups).values|
    ensures Layout(groups).groupOffsets[|groups|] == |Layout(groups).values|
  {
    FlattenWhole(Keys(groups));
    FlattenWhole(AllValues(groups));
    FlattenWhole(GroupBytes(groups));
    BytesOfValues(groups);
  }

  /** The groups of the first `i` records. */
  function GroupsUpTo(s: seq<Record>, marks: seq<bool>, i: nat): seq<KeyGroup>
    requires i <= |s| == |marks| && (|s| > 0 ==> !marks[0])
  {
    GroupsOf(s[..i], marks[..i])
  }

  /** What one more record adds to the sections. */
  lemma {:induction false} LayoutNext(s: seq<Record>, marks: seq<bool>, i: nat)
    requires i < |s| == |marks| && !marks[0]
    ensures marks[i] ==> i > 0 && |GroupsUpTo(s, marks, i)| > 0
    ensures var was, now := Layout(GroupsUpTo(s, marks, i)), Layout(GroupsUpTo(s, marks, i + 1));
      && now.keys == was.keys + (if marks[i] then [] else s[i].key)
      && now.keyOffsets == was.keyOffsets + (if marks[i] then [] else [|was.keys| + |s[i].key|])
      && now.values == was.values + s[i].value
      && now.valueOffsets == was.valueOffsets + [|was.values| + |s[i].value|]
      && now.groupOffsets == (if marks[i] then was.groupOffsets[..|was.groupOffsets| - 1] else was.groupOffsets)
           + [|was.values| + |s[i].value|]
    ensures |GroupsUpTo(s, marks, i + 1)| == |GroupsUpTo(s, marks, i)| + if marks[i] then 0 else 1
  {
    hide Layout, GroupsOf;
    var groups := GroupsUpTo(s, marks, i);
    GroupsNext(s, marks, i);
    LayoutSizes(groups);
    if marks[i] {
      GroupsNext(s, marks, i - 1);
      LayoutOfExtended(groups, s[i].value);
    } else {
      LayoutOfNewGroup(groups, s[i].key, s[i].value);
    }
  }

  lemma {:induction false} ValuesUpTo(s: seq<Record>, marks: seq<bool>, i: nat)
    requires i <= |s| == |marks| && (|s| > 0 ==> !marks[0])
    ensures |AllValues(GroupsUpTo(s, marks, i))| == i
  {
    if i == 0 {
    } else {
      hide AllValues, Layout;
      ValuesUpTo(s, marks, i - 1);
      LayoutNext(s, marks, i - 1);
      LayoutSizes(GroupsUpTo(s, marks, i));
      LayoutSizes(GroupsUpTo(s, marks, i - 1));
    }
  }

  /** Room for everything still to come. */
  lemma {:induction false} SectionsGrow(s: seq<Record>, marks: seq<bool>, i: nat, j: nat)
    requires i <= j <= |s| == |marks| && (|s| > 0 ==> !marks[0])
    ensures |Layout(GroupsUpTo(s, marks, i)).keys| <= |Layout(GroupsUpTo(s, marks, j)).keys|
    ensures |Layout(GroupsUpTo(s, marks, i)).values| <= |Layout(GroupsUpTo(s, marks, j)).values|
    ensures |GroupsUpTo(s, marks, i)| <= |GroupsUpTo(s, marks, j)|
  {
    hide Layout, GroupsUpTo;
    if i == j {
    } else {
      SectionsGrow(s, marks, i, j - 1);
      LayoutNext(s, marks, j - 1);
    }
  }

  /** Adds up what the output needs. */
  method MeasureGroups(pointers: array<Record>, equals: array<bool>) returns (groups: nat, keyBytes: nat, valueBytes: nat)
    requires pointers.Length == equals.Length && (equals.Length > 0 ==> !equals[0])
    ensures groups == |GroupsOf(pointers[..], equals[..])|
    ensures keyBytes == |Layout(GroupsOf(pointers[..], equals[..])).keys|
    ensures valueBytes == |Layout(GroupsOf(pointers[..], equals[..])).values|
  {
    hide GroupsOf, Layout;
    groups, keyBytes, valueBytes := 0, 0, 0;
    ghost var s, marks := pointers[..], equals[..];
    NoGroups();
    for i := 0 to pointers.Length
      invariant groups == |GroupsUpTo(s, marks, i)|
      invariant keyBytes == |Layout(GroupsUpTo(s, marks, i)).keys|
      invariant valueBytes == |Layout(GroupsUpTo(s, marks, i)).values|
    {
      LayoutNext(s, marks, i);
      valueBytes := valueBytes + |pointers[i].value|;
      if !equals[i] {
        keyBytes := keyBytes + |pointers[i].key|;
        groups := groups + 1;
      }
    }
    assert s[..|s|] == s && marks[..|s|] == marks;
  }

  lemma NoGroups()
    ensures GroupsOf([], []) == [] && Layout([]) == Grouped([], [0], [], [0], [0])
  {}

  /** `s` with `bytes` written at `at`. */
  function Put<T>(s: seq<T>, at: nat, bytes: seq<T>): (t: seq<T>)
    requires at + |bytes| <= |s|
    ensures |t| == |s|
  {
    s[..at] + bytes + s[at + |bytes|..]
  }

  lemma PutExtends<T>(p: seq<T>, s: seq<T>, bytes: seq<T>)
    requires p <= s && |p| + |bytes| <= |s|
    ensures p + bytes <= Put(s, |p|, bytes)
  {}

  ghost function Sections(keys: array<byte>, keyOffsets: array<nat>, values: array<byte>, valueOffsets: array<nat>,
                          groupOffsets: array<nat>): Grouped
    reads keys, keyOffsets, values, valueOffsets, groupOffsets
  {
    Grouped(keys[..], keyOffsets[..], values[..], valueOffsets[..], groupOffsets[..])
  }

  /** The sections hold the first `i` records, and there is room for all of them. */
  ghost predicate Filled(s: seq<Record>, marks: seq<bool>, i: nat, out: Grouped)
    requires i <= |s| == |marks| && (|s| > 0 ==> !marks[0])
  {
    Begins(Layout(GroupsUpTo(s, marks, i)), out) && SameSizes(Layout(GroupsOf(s, marks)), out)
  }

  lemma FilledAtFirst(s: seq<Record>, marks: seq<bool>, out: Grouped)
    requires |s| == |marks| && (|s| > 0 ==> !marks[0])
    requires SameSizes(Layout(GroupsOf(s, marks)), out)
    requires out.keyOffsets[..1] == out.valueOffsets[..1] == out.groupOffsets[..1] == [0]
    ensures Filled(s, marks, 0, out)
  {
    NoGroups();
    assert s[..0] == [] && marks[..0] == [];
  }

  lemma FilledAtLast(s: seq<Record>, marks: seq<bool>, out: Grouped)
    requires |s| == |marks| && (|s| > 0 ==> !marks[0]) && Filled(s, marks, |s|, out)
    ensures out == Layout(GroupsOf(s, marks))
  {
    hide Layout, GroupsOf;
    assert s[..|s|] == s && marks[..|s|] == marks;
  }

  /** Where the next record goes, and that it fits. */
  lemma {:induction false} NextFits(s: seq<Record>, marks: seq<bool>, i: nat, out: Grouped)
    requires i < |s| == |marks| && !marks[0] && Filled(s, marks, i, out)
    ensures var g, j := Layout(GroupsUpTo(s, marks, i)), |GroupsUpTo(s, marks, i)|;
      && j < |out.keyOffsets| == |out.groupOffsets| && (!marks[i] ==> j + 1 < |out.keyOffsets|)
      && i + 1 < |out.valueOffsets|
      && out.keyOffsets[j] == |g.keys| && out.valueOffsets[i] == |g.values| && out.groupOffsets[j] == |g.values|
      && (!marks[i] ==> |g.keys| + |s[i].key| <= |out.keys|)
      && |g.values| + |s[i].value| <= |out.values|
  {
    hide Layout, GroupsOf;
    LayoutNext(s, marks, i);
    SectionsGrow(s, marks, i + 1, |s|);
    assert s[..|s|] == s && marks[..|s|] == marks;
    ValuesUpTo(s, marks, i);
    ValuesUpTo(s, marks, |s|);
    LayoutSizes(GroupsUpTo(s, marks, i));
    LayoutSizes(GroupsOf(s, marks));
  }

  lemma {:induction false} FilledNext(s: seq<Record>, marks: seq<bool>, i: nat, out: Grouped, out': Grouped)
    requires i < |s| == |marks| && !marks[0] && Filled(s, marks, i, out)
    requires var g, j, r := Layout(GroupsUpTo(s, marks, i)), |GroupsUpTo(s, marks, i)|, s[i];
      && (if marks[i] then j else j + 1) < |out.keyOffsets| == |out.groupOffsets|
      && i + 1 < |out.valueOffsets|
      && (!marks[i] ==> |g.keys| + |r.key| <= |out.keys|) && |g.values| + |r.value| <= |out.values|
      && out'.keys == (if marks[i] then out.keys else Put(out.keys, |g.keys|, r.key))
      && out'.keyOffsets == (if marks[i] then out.keyOffsets else out.keyOffsets[j + 1 := |g.keys| + |r.key|])
      && out'.values == Put(out.values, |g.values|, r.value)
      && out'.valueOffsets == out.valueOffsets[i + 1 := |g.values| + |r.value|]
      && out'.groupOffsets == out.groupOffsets[(if marks[i] then j else j + 1) := |g.values| + |r.value|]
    ensures Filled(s, marks, i + 1, out')
  {
    hide Layout, GroupsOf, GroupsUpTo;
    LayoutNext(s, marks, i);
    ValuesUpTo(s, marks, i);
    LayoutSizes(GroupsUpTo(s, marks, i));
    var g := Layout(GroupsUpTo(s, marks, i));
    PutExtends(g.values, out.values, s[i].value);
    if !marks[i] {
      PutExtends(g.keys, out.keys, s[i].key);
    }
  }

  method OpenGroup(r: Record, j: nat, keys: array<byte>, keyOffsets: array<nat>, groupOffsets: array<nat>)
    requires keyOffsets != groupOffsets && j + 1 < keyOffsets.Length == groupOffsets.Length
    requires keyOffsets[j] + |r.key| <= keys.Length
    modifies keys, keyOffsets, groupOffsets
    ensures keys[..] == Put(old(keys[..]), old(keyOffsets[j]), r.key)
    ensures keyOffsets[..] == old(keyOffsets[..])[j + 1 := old(keyOffsets[j]) + |r.key|]
    ensures groupOffsets[..] == old(groupOffsets[..])[j + 1 := old(groupOffsets[j])]
  {
    CopyBytes(keys, keyOffsets[j], r.key);
    keyOffsets[j + 1] := keyOffsets[j] + |r.key|;
    groupOffsets[j + 1] := groupOffsets[j];
  }

  method AddValue(r: Record, i: nat, j: nat, values: array<byte>, valueOffsets: array<nat>, groupOffsets: array<nat>)
    requires valueOffsets != groupOffsets && i + 1 < valueOffsets.Length && j < groupOffsets.Length
    requires valueOffsets[i] + |r.value| <= values.Length
    modifies values, valueOffsets, groupOffsets
    ensures values[..] == Put(old(values[..]), old(valueOffsets[i]), r.value)
    ensures valueOffsets[..] == old(valueOffsets[..])[i + 1 := old(valueOffsets[i]) + |r.value|]
    ensures groupOffsets[..] == old(groupOffsets[..])[j := old(groupOffsets[j]) + |r.value|]
  {
    CopyBytes(values, valueOffsets[i], r.value);
    valueOffsets[i + 1] := valueOffsets[i] + |r.value|;
    groupOffsets[j] := groupOffsets[j] + |r.value|;
  }

  /** One turn of the writing loop. */
  method WriteRecord(pointers: array<Record>, equals: array<bool>, i: nat, j: nat, keys: array<byte>,
                     keyOffsets: array<nat>, values: array<byte>, valueOffsets: array<nat>, groupOffsets: array<nat>)
    returns (next: nat)
    requires i < pointers.Length == equals.Length && !equals[0]
    requires keys != values && keyOffsets != valueOffsets && keyOffsets != groupOffsets && valueOffsets != groupOffsets
    requires j == |GroupsUpTo(pointers[..], equals[..], i)|
    requires Filled(pointers[..], equals[..], i, Sections(keys, keyOffsets, values, valueOffsets, groupOffsets))
    modifies keys, keyOffsets, values, valueOffsets, groupOffsets
    ensures next == |GroupsUpTo(pointers[..], equals[..], i + 1)|
    ensures Filled(pointers[..], equals[..], i + 1, Sections(keys, keyOffsets, values, valueOffsets, groupOffsets))
  {
    hide GroupsOf, Layout, GroupsUpTo, Filled, AllValues, Put;
    ghost var s, marks := pointers[..], equals[..];
    ghost var was := Sections(keys, keyOffsets, values, valueOffsets, groupOffsets);
    NextFits(s, marks, i, was);
    LayoutNext(s, marks, i);
    next := j;
    if !equals[i] {
      OpenGroup(pointers[i], j, keys, keyOffsets, groupOffsets);
      next := j + 1;
    }
    AddValue(pointers[i], i, next, values, valueOffsets, groupOffsets);
    FilledNext(s, marks, i, was, Sections(keys, keyOffsets, values, valueOffsets, groupOffsets));
  }

  /** Writes the grouped buffer. */
  method WriteGroups(pointers: array<Record>, equals: array<bool>) returns (out: Grouped)
    requires pointers.Length == equals.Length && (equals.Length > 0 ==> !equals[0])
    ensures out == Layout(GroupsOf(pointers[..], equals[..]))
  {
    hide GroupsOf, Layout, GroupsUpTo, Filled, AllValues;
    ghost var s, marks := pointers[..], equals[..];
    var groups, keyBytes, valueBytes := MeasureGroups(pointers, equals);
    var keys, keyOffsets := new byte[keyBytes], new nat[groups + 1];
    var values, valueOffsets := new byte[valueBytes], new nat[pointers.Length + 1];
    var groupOffsets := new nat[groups + 1];
    keyOffsets[0], valueOffsets[0], groupOffsets[0] := 0, 0, 0;
    LayoutSizes(GroupsOf(s, marks));
    CountedValues(s, marks);
    FilledAtFirst(s, marks, Sections(keys, keyOffsets, values, valueOffsets, groupOffsets));
    var j := 0;
    NoGroupsUpTo(s, marks);
    for i := 0 to pointers.Length
      invariant j == |GroupsUpTo(s, marks, i)|
      invariant Filled(s, marks, i, Sections(keys, keyOffsets, values, valueOffsets, groupOffsets))
    {
      j := WriteRecord(pointers, equals, i, j, keys, keyOffsets, values, valueOffsets, groupOffsets);
    }
    FilledAtLast(s, marks, Sections(keys, keyOffsets, values, valueOffsets, groupOffsets));
    out := Grouped(keys[..], keyOffsets[..], values[..], valueOffsets[..], groupOffsets[..]);
  }

  lemma NoGroupsUpTo(s: seq<Record>, marks: seq<bool>)
    requires |s| == |marks| && (|s| > 0 ==> !marks[0])
    ensures |GroupsUpTo(s, marks, 0)| == 0
  {}

  lemma CountedValues(s: seq<Record>, marks: seq<bool>)
    requires |s| == |marks| && (|s| > 0 ==> !marks[0])
    ensures |AllValues(GroupsOf(s, marks))| == |s|
  {
    hide AllValues, GroupsOf;
    ValuesUpTo(s, marks, |s|);
    assert s[..|s|] == s && marks[..|s|] == marks;
  }
}
