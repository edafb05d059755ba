/** The whole shuffle: fragments in, one grouped buffer per partition out. */
module Shuffle {
  import opened Machine
  import opened Permutations
  import opened KeyBlocks
  import opened BlockOrder
  import opened Buffers
  import opened Distribution
  import opened HashFunction
  import opened ShufflePartition
  import opened GroupWriter
  import opened GroupReader
  import opened ShuffleSort

  // ----- Reading groups back

  ghost function GroupItems(g: KeyGroup): (s: seq<Item>)
    ensures |s| == |g.values|
    ensures forall i :: 0 <= i < |s| ==> s[i] == Item(g.key, g.values[i])
  {
    seq(|g.values|, i requires 0 <= i < |g.values| => Item(g.key, g.values[i]))
  }

  /** Every value of the groups, with the key of its group. */
  ghost function ItemsOf(groups: seq<KeyGroup>): seq<Item> {
    if |groups| == 0 then [] else ItemsOf(groups[..|groups| - 1]) + GroupItems(groups[|groups| - 1])
  }

  ghost function RecordItems(s: seq<Record>): (t: seq<Item>)
    ensures |t| == |s|
    ensures forall i :: 0 <= i < |s| ==> t[i] == Item(s[i].key, s[i].value)
  {
    seq(|s|, i requires 0 <= i < |s| => Item(s[i].key, s[i].value))
  }

  ghost predicate Ascending(groups: seq<KeyGroup>) {
    forall g, h :: 0 <= g < h < |groups| ==> KeyLess(groups[g].key, groups[h].key)
  }

  ghost predicate NoneEmpty(groups: seq<KeyGroup>) {
    forall g :: 0 <= g < |groups| ==> |groups[g].values| > 0
  }

  lemma ItemsOfNext(groups: seq<KeyGroup>, g: KeyGroup)
    ensures ItemsOf(groups + [g]) == ItemsOf(groups) + GroupItems(g)
  {
    assert (groups + [g])[..|groups|] == groups;
  }

  lemma ItemsOfExtended(groups: seq<KeyGroup>, value: seq<byte>)
    requires |groups| > 0
    ensures ItemsOf(Extend(groups, value)) == ItemsOf(groups) + [Item(groups[|groups| - 1].key, value)]
  {
    hide ItemsOf, GroupItems;
    var front, last := groups[..|groups| - 1], groups[|groups| - 1];
    var longer := KeyGroup(last.key, last.values + [value]);
    assert groups == front + [last] && Extend(groups, value) == front + [longer];
    ItemsOfNext(front, last);
    ItemsOfNext(front, longer);
    GroupItemsNext(last, value);
  }

  lemma GroupItemsNext(g: KeyGroup, value: seq<byte>)
    ensures GroupItems(KeyGroup(g.key, g.values + [value])) == GroupItems(g) + [Item(g.key, value)]
  {}

  // ----- The order of keys is a total order

  lemma {:induction false} KeyLessTotal(a: seq<byte>, b: seq<byte>, n: nat)
    requires n <= |a| && n <= |b| && a[..n] == b[..n]
    ensures a == b || KeyLessFrom(a, b, n) || KeyLessFrom(b, a, n)
    ensures !(KeyLessFrom(a, b, n) && KeyLessFrom(b, a, n))
    ensures a == b ==> !KeyLessFrom(a, b, n)
    decreases |a| - n
  {
    if n < |a| && n < |b| && a[n] == b[n] {
      assert a[..n + 1] == a[..n] + [a[n]] && b[..n + 1] == b[..n] + [b[n]];
      KeyLessTotal(a, b, n + 1);
    } else if n == |a| == |b| {
      assert a == a[..n] && b == b[..n];
    }
  }

  lemma {:induction false} KeyLessTransitive(a: seq<byte>, b: seq<byte>, c: seq<byte>, n: nat)
    requires KeyLessFrom(a, b, n) && KeyLessFrom(b, c, n)
    ensures KeyLessFrom(a, c, n)
    decreases |b| - n
  {
    if n < |a| && a[n] == b[n] && b[n] == c[n] {
      KeyLessTransitive(a, b, c, n + 1);
    }
  }

  // ----- One partition

  /** Sorted records with marks that tell equal neighbours apart become one group per key. */
  lemma {:induction false} GroupsHoldRecords(s: seq<Record>, marks: seq<bool>)
    requires GroupedByKey(s, marks) && (|s| > 0 ==> !marks[0])
    ensures ItemsOf(GroupsOf(s, marks)) == RecordItems(s)
    ensures Ascending(GroupsOf(s, marks)) && NoneEmpty(GroupsOf(s, marks))
    ensures |s| > 0 ==> var groups := GroupsOf(s, marks); groups[|groups| - 1].key == s[|s| - 1].key
  {
    if |s| > 0 {
      hide ItemsOf, GroupsOf, GroupedByKey, RecordItems, Ascending, NoneEmpty, KeyLess;
      var m := |s| - 1;
      var t, groups := s[..m], GroupsUpTo(s, marks, m);
      assert s[..m + 1] == s && marks[..m + 1] == marks;
      GroupsNext(s, marks, m);
      GroupedFront(s, marks);
      GroupsHoldRecords(t, marks[..m]);
      if marks[m] {
        ItemsOfExtended(groups, s[m].value);
        ExtendKeepsKeys(groups, s[m].value);
      } else {
        NewGroupAscends(s, marks, groups);
      }
    } else {
      assert GroupsOf(s, marks) == [];
      assert ItemsOf([]) == RecordItems([]);
    }
  }

  lemma GroupedFront(s: seq<Record>, marks: seq<bool>)
    requires GroupedByKey(s, marks) && |s| > 0
    ensures |s| == |marks| && GroupedByKey(s[..|s| - 1], marks[..|s| - 1])
    ensures |s| > 1 && marks[|s| - 1] ==> s[|s| - 2].key == s[|s| - 1].key
    ensures RecordItems(s) == RecordItems(s[..|s| - 1]) + [Item(s[|s| - 1].key, s[|s| - 1].value)]
  {
    hide KeyLess;
    assert RecordItems(s) == RecordItems(s[..|s| - 1]) + [RecordItems(s)[|s| - 1]];
  }

  lemma ExtendKeepsKeys(groups: seq<KeyGroup>, value: seq<byte>)
    requires |groups| > 0 && Ascending(groups) && NoneEmpty(groups)
    ensures Ascending(Extend(groups, value)) && NoneEmpty(Extend(groups, value))
    ensures |Extend(groups, value)| == |groups|
    ensures Extend(groups, value)[|groups| - 1].key == groups[|groups| - 1].key
  {
    hide KeyLess;
  }

  lemma {:induction false} NewGroupAscends(s: seq<Record>, marks: seq<bool>, groups: seq<KeyGroup>)
    requires GroupedByKey(s, marks) && |s| > 0 && !marks[|s| - 1] && Ascending(groups) && NoneEmpty(groups)
    requires |s| > 1 ==> |groups| > 0 && groups[|groups| - 1].key == s[|s| - 2].key
    requires |s| == 1 ==> groups == []
    ensures var last := KeyGroup(s[|s| - 1].key, [s[|s| - 1].value]);
      && Ascending(groups + [last]) && NoneEmpty(groups + [last])
      && ItemsOf(groups + [last]) == ItemsOf(groups) + [Item(last.key, s[|s| - 1].value)]
  {
    hide ItemsOf;
    var m, g := |s| - 1, |groups| - 1;
    var last := KeyGroup(s[m].key, [s[m].value]);
    ItemsOfNext(groups, last);
    assert GroupItems(last) == [Item(last.key, s[m].value)];
    if m > 0 {
      KeyLessTotal(s[m - 1].key, s[m].key, 0);
      assert !KeyLess(s[m].key, s[m - 1].key);
      forall h | 0 <= h < g ensures KeyLess(groups[h].key, last.key) {
        KeyLessTransitive(groups[h].key, groups[g].key, last.key, 0);
      }
    }
  }

  /** The output of one partition, read as a table from keys to values. */
  ghost predicate KeyTable(groups: seq<KeyGroup>, items: seq<Item>) {
    Ascending(groups) && NoneEmpty(groups) && multiset(ItemsOf(groups)) == multiset(items)
  }

  lemma SortedOutputIsKeyTable(stray: Stray, records: seq<Record>, sorted: seq<Record>, marks: seq<bool>, out: Grouped)
    requires SortedOutput(stray, records, sorted, marks, out)
    requires KeysFit(RecordsOf(records)) && CollisionFree(RecordsOf(records))
    ensures KeyTable(GroupsOf(sorted, marks), RecordItems(records))
  {
    hide Arranged, Layout, GroupedByKey, GroupsOf;
    SameMembers(sorted, records);
    assert RecordsOf(sorted) == RecordsOf(records);
    ArrangedIsGrouped(stray, sorted, marks);
    assert |sorted| == |marks| by { GroupedShape(sorted, marks); }
    GroupsHoldRecords(sorted, marks);
    ItemsPermuted(sorted, records);
  }

  lemma GroupedShape(s: seq<Record>, marks: seq<bool>)
    requires GroupedByKey(s, marks)
    ensures |s| == |marks|
  {}

  lemma {:induction false} ItemsPermuted(a: seq<Record>, b: seq<Record>)
    requires multiset(a) == multiset(b)
    ensures multiset(RecordItems(a)) == multiset(RecordItems(b))
  {
    hide RecordItems;
    var j := MatchFirst(a, b);
    if |a| == 0 {
    } else {
      ItemsPermuted(a[..0] + a[1..], b[..j] + b[j + 1..]);
      ItemsWithout(a, 0);
      ItemsWithout(b, j);
    }
  }

  lemma ItemsWithout(s: seq<Record>, j: nat)
    requires j < |s|
    ensures multiset(RecordItems(s)) ==
      multiset(RecordItems(s[..j] + s[j + 1..])) + multiset{Item(s[j].key, s[j].value)}
  {
    var t := RecordItems(s);
    assert t == t[..j] + [t[j]] + t[j + 1..];
    assert RecordItems(s[..j] + s[j + 1..]) == t[..j] + t[j + 1..];
  }

  // ----- What a key table says about each key

  lemma {:induction false} NoGroupNoItem(groups: seq<KeyGroup>, it: Item)
    requires forall g :: 0 <= g < |groups| ==> groups[g].key != it.key
    ensures multiset(ItemsOf(groups))[it] == 0
  {
    if |groups| == 0 {
    } else {
      NoGroupNoItem(groups[..|groups| - 1], it);
    }
  }

  lemma {:induction false} CountInGroup(key: seq<byte>, values: seq<seq<byte>>, v: seq<byte>)
    ensures multiset(GroupItems(KeyGroup(key, values)))[Item(key, v)] == multiset(values)[v]
  {
    if |values| == 0 {
    } else {
      var m := |values| - 1;
      CountInGroup(key, values[..m], v);
      assert values == values[..m] + [values[m]];
      GroupItemsNext(KeyGroup(key, values[..m]), values[m]);
    }
  }

  /** The group of a key holds exactly the values stored under that key, as often as they were stored. */
  lemma {:induction false} GroupCounts(groups: seq<KeyGroup>, g: nat, v: seq<byte>)
    requires g < |groups| && Ascending(groups)
    ensures multiset(ItemsOf(groups))[Item(groups[g].key, v)] == multiset(groups[g].values)[v]
  {
    var m := |groups| - 1;
    var front, last := groups[..m], groups[m];
    assert groups == front + [last];
    ItemsOfNext(front, last);
    var it := Item(groups[g].key, v);
    hide ItemsOf, KeyLess;
    if g < m {
      GroupCounts(front, g, v);
      DifferentKeys(groups, g, m);
      assert it !in GroupItems(last);
    } else {
      forall h | 0 <= h < m ensures front[h].key != it.key {
        DifferentKeys(groups, h, m);
      }
      NoGroupNoItem(front, it);
      CountInGroup(last.key, last.values, v);
      assert last == KeyGroup(last.key, last.values);
    }
  }

  lemma DifferentKeys(groups: seq<KeyGroup>, g: nat, h: nat)
    requires g < h < |groups| && Ascending(groups)
    ensures groups[g].key != groups[h].key
  {
    KeyLessTotal(groups[g].key, groups[h].key, 0);
  }

  // ----- All partitions

  ghost function OutputItems(outputs: seq<seq<KeyGroup>>): seq<Item> {
    if |outputs| == 0 then [] else OutputItems(outputs[..|outputs| - 1]) + ItemsOf(outputs[|outputs| - 1])
  }

  /** The outputs of all partitions are `items` grouped by key. */
  ghost predicate GroupsByKey(outputs: seq<seq<KeyGroup>>, items: seq<Item>) {
    && multiset(OutputItems(outputs)) == multiset(items)
    && (forall p :: 0 <= p < |outputs| ==> Ascending(outputs[p]) && NoneEmpty(outputs[p]))
    && (forall p, g :: 0 <= p < |outputs| && 0 <= g < |outputs[p]| ==> Hash(outputs[p][g].key, |outputs|) == p)
  }

  /** Two groups have the same key only when they are the same group of the same partition. */
  lemma OneGroupPerKey(outputs: seq<seq<KeyGroup>>, items: seq<Item>, p: nat, g: nat, q: nat, h: nat)
    requires GroupsByKey(outputs, items)
    requires p < |outputs| && g < |outputs[p]| && q < |outputs| && h < |outputs[q]|
    ensures outputs[p][g].key == outputs[q][h].key <==> p == q && g == h
  {
    if p == q && g < h {
      DifferentKeys(outputs[p], g, h);
    } else if p == q && h < g {
      DifferentKeys(outputs[p], h, g);
    }
  }

  lemma {:induction false} OutputCounts(outputs: seq<seq<KeyGroup>>, p: nat, g: nat, v: seq<byte>)
    requires p < |outputs| && g < |outputs[p]|
    requires forall q :: 0 <= q < |outputs| ==> Ascending(outputs[q])
    requires forall q, h :: 0 <= q < |outputs| && 0 <= h < |outputs[q]| && q != p ==> outputs[q][h].key != outputs[p][g].key
    ensures multiset(OutputItems(outputs))[Item(outputs[p][g].key, v)] == multiset(outputs[p][g].values)[v]
  {
    hide Ascending, ItemsOf;
    var m := |outputs| - 1;
    var it := Item(outputs[p][g].key, v);
    if p < m {
      OutputCounts(outputs[..m], p, g, v);
      NoGroupNoItem(outputs[m], it);
    } else {
      NoOutputNoItem(outputs[..m], it);
      GroupCounts(outputs[m], g, v);
    }
  }

  lemma {:induction false} NoOutputNoItem(outputs: seq<seq<KeyGroup>>, it: Item)
    requires forall q, h :: 0 <= q < |outputs| && 0 <= h < |outputs[q]| ==> outputs[q][h].key != it.key
    ensures multiset(OutputItems(outputs))[it] == 0
  {
    if |outputs| == 0 {
    } else {
      NoOutputNoItem(outputs[..|outputs| - 1], it);
      NoGroupNoItem(outputs[|outputs| - 1], it);
    }
  }

  /** Every group collects exactly the values its key had in the input. */
  lemma GroupHoldsAllValues(outputs: seq<seq<KeyGroup>>, items: seq<Item>, p: nat, g: nat, v: seq<byte>)
    requires GroupsByKey(outputs, items) && p < |outputs| && g < |outputs[p]|
    ensures multiset(outputs[p][g].values)[v] == multiset(items)[Item(outputs[p][g].key, v)]
  {
    hide Ascending, NoneEmpty, Hash, OutputItems;
    OutputCounts(outputs, p, g, v);
  }

  /** Every key of the input has its group in the partition the key hashes to. */
  lemma EveryKeyHasItsGroup(outputs: seq<seq<KeyGroup>>, items: seq<Item>, it: Item) returns (g: nat)
    requires GroupsByKey(outputs, items) && it in items
    ensures Hash(it.key, |outputs|) < |outputs| && g < |outputs[Hash(it.key, |outputs|)]|
    ensures outputs[Hash(it.key, |outputs|)][g].key == it.key && it.value in outputs[Hash(it.key, |outputs|)][g].values
  {
    hide Hash, Ascending, NoneEmpty, OutputItems;
    assert multiset(items)[it] > 0;
    if forall q, h :: 0 <= q < |outputs| && 0 <= h < |outputs[q]| ==> outputs[q][h].key != it.key {
      NoOutputNoItem(outputs, it);
      assert false;
    }
    var p, h :| 0 <= p < |outputs| && 0 <= h < |outputs[p]| && outputs[p][h].key == it.key;
    GroupHoldsAllValues(outputs, items, p, h, it.value);
    assert Hash(it.key, |outputs|) == p;
    g := h;
  }

  // ----- What a reader finds in the outputs

  /** Two tables of the same items that have the same keys hold as many values under each key. */
  lemma SameCounts(found: seq<KeyGroup>, groups: seq<KeyGroup>, items: seq<Item>, g: nat)
    requires KeyTable(groups, items) && KeyTable(found, items)
    requires |found| == |groups| && g < |groups| && found[g].key == groups[g].key
    ensures |found[g].values| == |groups[g].values|
  {
    hide Ascending, NoneEmpty, ItemsOf;
    forall v ensures multiset(found[g].values)[v] == multiset(groups[g].values)[v] {
      GroupCounts(found, g, v);
      GroupCounts(groups, g, v);
    }
    assert multiset(found[g].values) == multiset(groups[g].values);
    SameMembers(found[g].values, groups[g].values);
  }

  /** The reader finds the table of the items in the buffer if and only if no group ends with an empty value. */
  lemma ReaderFindsTable(groups: seq<KeyGroup>, items: seq<Item>)
    requires KeyTable(groups, items)
    ensures KeyTable(ReadGroups(Layout(groups)), items) <==> NoGroupEndsEmpty(groups)
  {
    hide KeyTable, ReadGroups, Layout, NoGroupEndsEmpty, Batch;
    ReadsBackIffNoneEndsEmpty(groups);
    var found := ReadGroups(Layout(groups));
    if KeyTable(found, items) {
      ReadLayout(groups);
      forall g: nat | g < |groups| ensures |found[g].values| == |groups[g].values| {
        SameCounts(found, groups, items, g);
      }
      CountsSuffice(groups);
    }
  }

  /** What the reader finds in each output. */
  ghost function FoundTables(outputs: seq<Grouped>): (t: seq<seq<KeyGroup>>)
    ensures |t| == |outputs| && forall p :: 0 <= p < |t| ==> t[p] == ReadGroups(outputs[p])
  {
    seq(|outputs|, p requires 0 <= p < |outputs| => ReadGroups(outputs[p]))
  }

  ghost predicate AreLayouts(outputs: seq<Grouped>, tables: seq<seq<KeyGroup>>) {
    |outputs| == |tables| && forall p :: 0 <= p < |outputs| ==> outputs[p] == Layout(tables[p])
  }

  /** The reader finds all items grouped by key if and only if no group ends with an empty value. */
  lemma ReaderFindsGroups(outputs: seq<Grouped>, tables: seq<seq<KeyGroup>>, items: seq<Item>)
    requires AreLayouts(outputs, tables) && GroupsByKey(tables, items)
    ensures GroupsByKey(FoundTables(outputs), items) <==> forall p :: 0 <= p < |tables| ==> NoGroupEndsEmpty(tables[p])
  {
    hide GroupsByKey, ReadGroups, Layout, NoGroupEndsEmpty;
    var found: seq<seq<KeyGroup>> := FoundTables(outputs);
    if forall p :: 0 <= p < |tables| ==> NoGroupEndsEmpty(tables[p]) {
      forall p | 0 <= p < |tables| ensures found[p] == tables[p] {
        ReadsBackIffNoneEndsEmpty(tables[p]);
      }
      assert found == tables;
    }
    if GroupsByKey(found, items) {
      forall p: nat | p < |tables| ensures NoGroupEndsEmpty(tables[p]) {
        CountsOfPartition(outputs, tables, items, p);
        CountsSuffice(tables[p]);
      }
    }
  }

  lemma CountsOfPartition(outputs: seq<Grouped>, tables: seq<seq<KeyGroup>>, items: seq<Item>, p: nat)
    requires AreLayouts(outputs, tables) && p < |tables|
    requires GroupsByKey(tables, items) && GroupsByKey(FoundTables(outputs), items)
    ensures |ReadGroups(Layout(tables[p]))| == |tables[p]|
    ensures forall g :: 0 <= g < |tables[p]| ==> |ReadGroups(Layout(tables[p]))[g].values| == |tables[p][g].values|
  {
    hide GroupsByKey, ReadGroups, Layout, Batch;
    var found: seq<seq<KeyGroup>> := FoundTables(outputs);
    ReadLayout(tables[p]);
    forall g: nat | g < |tables[p]| ensures |found[p][g].values| == |tables[p][g].values| {
      forall v ensures multiset(found[p][g].values)[v] == multiset(tables[p][g].values)[v] {
        GroupHoldsAllValues(found, items, p, g, v);
        GroupHoldsAllValues(tables, items, p, g, v);
      }
      assert multiset(found[p][g].values) == multiset(tables[p][g].values);
      SameMembers(found[p][g].values, tables[p][g].values);
    }
  }

  ghost predicate NoEmptyValues(items: seq<Item>) {
    forall it :: it in items ==> it.value != []
  }

  lemma NoneEndsEmpty(tables: seq<seq<KeyGroup>>, items: seq<Item>, p: nat)
    requires GroupsByKey(tables, items) && NoEmptyValues(items) && p < |tables|
    ensures NoGroupEndsEmpty(tables[p])
  {
    hide GroupsByKey;
    forall g: nat | g < |tables[p]| && tables[p][g].values != []
      ensures tables[p][g].values[|tables[p][g].values| - 1] != []
    {
      var group := tables[p][g];
      var last := group.values[|group.values| - 1];
      GroupHoldsAllValues(tables, items, p, g, last);
      assert last in group.values;
      assert multiset(group.values)[last] > 0;
      assert Item(group.key, last) in multiset(items);
    }
  }

  // ----- From buffers to outputs

  lemma {:induction false} CollectedItems(buffers: seq<ShuffleBuffer>, received: seq<seq<Item>>, partitions: nat, p: nat)
    requires Holds(buffers, received, partitions) && p < partitions
    ensures RecordItems(Collected(buffers, received, partitions, p))
      == Select(ByPartition(partitions), Flatten(received), p)
  {
    hide Partitions, ByPartition, Select;
    var tag, m := ByPartition(partitions), |buffers| - 1;
    assert forall i :: 0 <= i < |buffers| ==> |buffers[i].offsets| == partitions + 1 by {
      HoldsFirst(buffers, received, partitions, 0);
    }
    if |buffers| == 0 {
      SelectOfNone(tag, p);
    } else {
      HoldsFirst(buffers, received, partitions, m);
      CollectedItems(buffers[..m], received[..m], partitions, p);
      var s := Select(tag, received[m], p);
      SelectSum(tag, Flatten(received[..m]), received[m], p);
      ItemsAppend(Collected(buffers[..m], received[..m], partitions, p), RecordsAt(m, buffers[m].offsets[p], s));
      assert RecordItems(RecordsAt(m, buffers[m].offsets[p], s)) == s;
    }
  }

  lemma ItemsAppend(a: seq<Record>, b: seq<Record>)
    ensures RecordItems(a + b) == RecordItems(a) + RecordItems(b)
  {}

  /** No two keys that hash to the same partition collide. */
  ghost predicate NoCollisions(items: seq<Item>, partitions: nat) {
    forall a, b {:trigger a in items, b in items} ::
      a in items && b in items && Hash(a.key, partitions) == Hash(b.key, partitions) ==> !Collide(a.key, b.key)
  }

  /** Prefix-free keys, such as keys of one length, never collide. */
  lemma PrefixFreeItems(items: seq<Item>, partitions: nat)
    requires forall a, b {:trigger a in items, b in items} ::
      a in items && b in items && |a.key| < |b.key| ==> a.key != b.key[..|a.key|]
    ensures NoCollisions(items, partitions)
  {}

  lemma CollectedCollisionFree(records: seq<Record>, items: seq<Item>, partitions: nat, p: nat)
    requires RecordItems(records) == Select(ByPartition(partitions), items, p) && NoCollisions(items, partitions)
    ensures CollisionFree(RecordsOf(records))
  {
    hide Collide, Hash;
    SelectMembers(ByPartition(partitions), items, p);
    forall r, t {:trigger r in RecordsOf(records), t in RecordsOf(records)} |
      r in RecordsOf(records) && t in RecordsOf(records)
      ensures !Collide(r.key, t.key)
    {
      var i :| 0 <= i < |records| && records[i] == r;
      var j :| 0 <= j < |records| && records[j] == t;
      var x, y := RecordItems(records)[i], RecordItems(records)[j];
      assert x in RecordItems(records) && y in RecordItems(records);
    }
  }

  lemma {:induction false} OutputsAreBuckets(outputs: seq<seq<KeyGroup>>, items: seq<Item>, partitions: nat)
    requires forall p :: 0 <= p < |outputs| ==> KeyTable(outputs[p], Select(ByPartition(partitions), items, p))
    ensures multiset(OutputItems(outputs)) == multiset(Buckets(ByPartition(partitions), items, |outputs|))
  {
    hide Select, ByPartition, Ascending, NoneEmpty, ItemsOf;
    if |outputs| == 0 {
    } else {
      var m := |outputs| - 1;
      OutputsAreBuckets(outputs[..m], items, partitions);
      assert KeyTable(outputs[m], Select(ByPartition(partitions), items, m));
    }
  }

  lemma {:induction false} GroupKeyIsThere(groups: seq<KeyGroup>, g: nat)
    requires g < |groups| && NoneEmpty(groups)
    ensures Item(groups[g].key, groups[g].values[0]) in ItemsOf(groups)
  {
    var m := |groups| - 1;
    if g < m {
      GroupKeyIsThere(groups[..m], g);
    } else {
      assert Item(groups[m].key, groups[m].values[0]) == GroupItems(groups[m])[0];
    }
  }

  /** Key tables of all partitions make up the grouped input. */
  lemma TablesGroupByKey(outputs: seq<seq<KeyGroup>>, items: seq<Item>, partitions: nat)
    requires 0 < partitions <= 0xffff_ffff && |outputs| == partitions
    requires forall p :: 0 <= p < partitions ==> KeyTable(outputs[p], Select(ByPartition(partitions), items, p))
    ensures GroupsByKey(outputs, items)
  {
    hide Select, Ascending, NoneEmpty, ItemsOf, OutputItems, Hash;
    OutputsAreBuckets(outputs, items, partitions);
    HashesBelow(items, partitions);
    BucketsPermute(ByPartition(partitions), items, partitions);
    forall p, g | 0 <= p < partitions && 0 <= g < |outputs[p]|
      ensures Hash(outputs[p][g].key, partitions) == p
    {
      var selected := Select(ByPartition(partitions), items, p);
      assert KeyTable(outputs[p], selected);
      assert |outputs[p][g].values| > 0 by { NotEmpty(outputs[p], g); }
      GroupKeyIsThere(outputs[p], g);
      SameMembers(ItemsOf(outputs[p]), selected);
      SelectMembers(ByPartition(partitions), items, p);
    }
  }

  lemma NotEmpty(groups: seq<KeyGroup>, g: nat)
    requires NoneEmpty(groups) && g < |groups|
    ensures |groups[g].values| > 0
  {}

  // ----- When a partition is grouped by key

  /** The key of a group is the key of a record that is not marked. */
  lemma {:induction false} GroupStarts(s: seq<Record>, marks: seq<bool>, g: nat) returns (i: nat)
    requires |s| == |marks| && (|s| > 0 ==> !marks[0]) && g < |GroupsOf(s, marks)|
    ensures i < |s| && !marks[i] && s[i].key == GroupsOf(s, marks)[g].key
  {
    var m := |s| - 1;
    if g < |GroupsOf(s[..m], marks[..m])| {
      i := GroupStarts(s[..m], marks[..m], g);
    } else {
      i := m;
    }
  }

  /** The same keys in the same order. */
  ghost predicate SameKeysAs(found: seq<KeyGroup>, groups: seq<KeyGroup>) {
    |found| == |groups| && forall g :: 0 <= g < |groups| ==> found[g].key == groups[g].key
  }

  lemma UnmarkedRecordOfKey(s: seq<Record>, marks: seq<bool>, found: seq<KeyGroup>, items: seq<Item>, it: Item)
    returns (i: nat)
    requires |s| == |marks| && (|s| > 0 ==> !marks[0])
    requires SameKeysAs(found, GroupsOf(s, marks)) && KeyTable(found, items) && it in items
    ensures i < |s| && !marks[i] && s[i].key == it.key
  {
    hide Ascending, NoneEmpty, GroupsOf, ItemsOf;
    assert multiset(items)[it] > 0;
    if forall g :: 0 <= g < |found| ==> found[g].key != it.key {
      NoGroupNoItem(found, it);
      assert false;
    }
    var g :| 0 <= g < |found| && found[g].key == it.key;
    i := GroupStarts(s, marks, g);
  }

  /** With two colliding keys in a partition, the right memory behind them makes every outcome of the
      sort miss one of them: its records end up under the other key. */
  lemma CollisionSpoilsOutput(records: seq<Record>, sorted: seq<Record>, marks: seq<bool>, out: Grouped, i: nat, j: nat,
                              found: seq<KeyGroup>)
    requires i < |records| && j < |records| && Collide(records[i].key, records[j].key)
    requires KeysFit(RecordsOf(records))
    requires SortedOutput(Mimic(records[j].key), records, sorted, marks, out)
    requires SameKeysAs(found, GroupsOf(sorted, marks))
    ensures !KeyTable(found, RecordItems(records))
  {
    hide KeyTable, Layout, GroupsOf, KeysFit, SameKeysAs;
    var stray, items := Mimic(records[j].key), RecordItems(records);
    if KeyTable(found, items) {
      SameMembers(sorted, records);
      assert RecordsOf(sorted) == RecordsOf(records);
      assert |sorted| == |marks| by { ArrangedShape(stray, RecordsOf(sorted), 0, sorted, marks); }
      assert items[i] in items && items[j] in items;
      var a := UnmarkedRecordOfKey(sorted, marks, found, items, items[i]);
      var b := UnmarkedRecordOfKey(sorted, marks, found, items, items[j]);
      var lo, hi := Min(a, b), Max(a, b);
      CollidingKeysTie(RecordsOf(sorted), 0, sorted[a], sorted[b]);
      TiedSymmetric(stray, RecordsOf(sorted), 0, sorted[a], sorted[b]);
      TiesCover(stray, sorted, marks, lo, hi);
      assert false;
    }
  }

  lemma ArrangedShape(stray: Stray, P: set<Record>, k: nat, s: seq<Record>, marks: seq<bool>)
    requires Arranged(stray, P, k, s, marks)
    ensures |s| == |marks|
  {}

  /** What the sort of a partition leaves behind. */
  datatype Sorted = Sorted(records: seq<Record>, marks: seq<bool>, out: Grouped)

  ghost predicate Delivers(stray: Stray, records: seq<Record>, o: Sorted) {
    SortedOutput(stray, records, o.records, o.marks, o.out)
  }

  /** The groups that the output is written from. */
  ghost predicate Writes(o: Sorted, groups: seq<KeyGroup>) {
    |o.records| == |o.marks| && (|o.marks| > 0 ==> !o.marks[0]) && groups == GroupsOf(o.records, o.marks)
  }

  /** The output is the layout of a table of the given items. */
  ghost predicate GroupsItems(o: Sorted, items: seq<Item>) {
    exists groups :: Writes(o, groups) && o.out == Layout(groups) && KeyTable(groups, items)
  }

  lemma DeliveredGroups(stray: Stray, records: seq<Record>, o: Sorted) returns (groups: seq<KeyGroup>)
    requires Delivers(stray, records, o)
    ensures Writes(o, groups) && o.out == Layout(groups)
    ensures SameKeysAs(ReadGroups(o.out), groups)
  {
    ArrangedShape(stray, RecordsOf(o.records), 0, o.records, o.marks);
    hide Arranged, Layout, ReadGroups, GroupsOf, Batch;
    groups := GroupsOf(o.records, o.marks);
    ReadLayout(groups);
  }

  /** Without collisions every outcome is written from a table of the records. */
  lemma DeliveredTable(stray: Stray, records: seq<Record>, o: Sorted) returns (groups: seq<KeyGroup>)
    requires Delivers(stray, records, o)
    requires KeysFit(RecordsOf(records)) && CollisionFree(RecordsOf(records))
    ensures Writes(o, groups) && o.out == Layout(groups) && KeyTable(groups, RecordItems(records))
  {
    hide KeyTable, Layout, GroupsOf, KeysFit, Arranged, RecordItems, CollisionFree;
    groups := DeliveredGroups(stray, records, o);
    SortedOutputIsKeyTable(stray, records, o.records, o.marks, o.out);
  }

  /** A record is the last of its group. */
  ghost predicate EndsGroup(marks: seq<bool>, e: nat) {
    e + 1 == |marks| || (e + 1 < |marks| && !marks[e + 1])
  }

  /** The value of the last record of a group is the last value of the group. */
  lemma {:induction false} LastOfGroup(s: seq<Record>, marks: seq<bool>, e: nat) returns (g: nat)
    requires |s| == |marks| && e < |s| && !marks[0] && EndsGroup(marks, e)
    ensures g < |GroupsOf(s, marks)| && (e + 1 < |s| ==> g + 1 < |GroupsOf(s, marks)|)
    ensures var values := GroupsOf(s, marks)[g].values; |values| > 0 && values[|values| - 1] == s[e].value
    decreases |s|
  {
    var m := |s| - 1;
    if e == m {
      g := |GroupsOf(s, marks)| - 1;
    } else {
      g := LastOfGroup(s[..m], marks[..m], e);
    }
  }

  /** The last record of the group of record `i`. */
  lemma {:induction false} EndOfGroup(s: seq<Record>, marks: seq<bool>, i: nat) returns (e: nat)
    requires GroupedByKey(s, marks) && i < |s|
    ensures i <= e < |s| && EndsGroup(marks, e) && s[e].key == s[i].key
    decreases |s| - i
  {
    if EndsGroup(marks, i) {
      e := i;
    } else {
      e := EndOfGroup(s, marks, i + 1);
    }
  }

  /** Records with the same key may change places. */
  lemma KeySwap(s: seq<Record>, marks: seq<bool>, i: nat, e: nat)
    requires GroupedByKey(s, marks) && i < |s| && e < |s| && s[i].key == s[e].key
    ensures GroupedByKey(s[i := s[e]][e := s[i]], marks)
  {
    hide KeyLess;
    var t := s[i := s[e]][e := s[i]];
    assert forall k :: 0 <= k < |s| ==> t[k].key == s[k].key;
  }

  /** An outcome may leave any empty value at the end of its group. */
  lemma EmptyValueLast(stray: Stray, records: seq<Record>, o: Sorted, i: nat) returns (o': Sorted, groups: seq<KeyGroup>)
    requires Delivers(stray, records, o) && KeysFit(RecordsOf(records)) && CollisionFree(RecordsOf(records))
    requires i < |o.records| && o.records[i].value == []
    ensures Delivers(stray, records, o') && Writes(o', groups) && !NoGroupEndsEmpty(groups)
  {
    hide Layout, GroupsOf, KeysFit, CollisionFree, Arranged, GroupedByKey, EndsGroup;
    var s, marks := o.records, o.marks;
    SameMembers(s, records);
    assert RecordsOf(s) == RecordsOf(records);
    ArrangedIsGrouped(stray, s, marks);
    GroupedShape(s, marks);
    var e := EndOfGroup(s, marks, i);
    var t := s[i := s[e]][e := s[i]];
    KeySwap(s, marks, i, e);
    SwapKeepsMultiset(s, i, e);
    SameMembers(t, s);
    assert RecordsOf(t) == RecordsOf(s);
    ArrangedIsGrouped(stray, t, marks);
    groups := GroupsOf(t, marks);
    o' := Sorted(t, marks, Layout(groups));
    var g := LastOfGroup(t, marks, e);
    assert t[e].value == [];
  }

  /** The reader finds the table of the records in whatever the sort may leave behind. */
  ghost predicate AlwaysFound(records: seq<Record>) {
    forall stray: Stray, o :: Delivers(stray, records, o) ==> KeyTable(ReadGroups(o.out), RecordItems(records))
  }

  ghost predicate NoEmptyRecord(records: seq<Record>) {
    forall r :: r in records ==> r.value != []
  }

  /** A partition is written grouped by key, whatever lies in memory behind the keys, exactly when none of its
      keys collide. It is also read back so exactly when, besides, no value is empty.
      `outcome` is what the sort leaves behind for each content of that memory. */
  lemma GroupedExactlyWithoutCollisions(outcome: Stray -> Sorted, records: seq<Record>)
    requires forall stray: Stray :: Delivers(stray, records, outcome(stray))
    requires KeysFit(RecordsOf(records))
    ensures (forall stray: Stray :: GroupsItems(outcome(stray), RecordItems(records)))
      <==> CollisionFree(RecordsOf(records))
    ensures AlwaysFound(records) <==> CollisionFree(RecordsOf(records)) && NoEmptyRecord(records)
  {
    hide KeyTable, Layout, KeysFit, RecordItems, Delivers, ReadGroups, CollisionFree, NoEmptyRecord, Writes;
    if CollisionFree(RecordsOf(records)) {
      forall stray: Stray ensures GroupsItems(outcome(stray), RecordItems(records)) {
        var groups := DeliveredTable(stray, records, outcome(stray));
      }
      FoundExactlyWithoutEmpties(outcome, records);
    } else {
      var stray := CollisionMissesKey(outcome, records);
      assert !GroupsItems(outcome(stray), RecordItems(records));
      assert Delivers(stray, records, outcome(stray));
    }
  }

  lemma FoundExactlyWithoutEmpties(outcome: Stray -> Sorted, records: seq<Record>)
    requires forall stray: Stray :: Delivers(stray, records, outcome(stray))
    requires KeysFit(RecordsOf(records)) && CollisionFree(RecordsOf(records))
    ensures AlwaysFound(records) <==> NoEmptyRecord(records)
  {
    hide KeyTable, Layout, KeysFit, RecordItems, Delivers, ReadGroups, CollisionFree, NoEmptyRecord, Writes;
    if NoEmptyRecord(records) {
      forall stray: Stray, o | Delivers(stray, records, o) ensures KeyTable(ReadGroups(o.out), RecordItems(records)) {
        var groups := DeliveredTable(stray, records, o);
        NoEmptyEnds(groups, records);
        ReaderFindsTable(groups, RecordItems(records));
      }
    } else {
      var stray := Mimic([]);
      assert Delivers(stray, records, outcome(stray));
      var i := EmptyRecord(stray, records, outcome(stray));
      var o, groups := EmptyValueLast(stray, records, outcome(stray), i);
      var table := DeliveredTable(stray, records, o);
      assert groups == table by { OneWriting(o, groups, table); }
      ReaderFindsTable(table, RecordItems(records));
    }
  }

  lemma OneWriting(o: Sorted, a: seq<KeyGroup>, b: seq<KeyGroup>)
    requires Writes(o, a) && Writes(o, b)
    ensures a == b
  {}

  lemma EmptyRecord(stray: Stray, records: seq<Record>, o: Sorted) returns (i: nat)
    requires Delivers(stray, records, o) && !NoEmptyRecord(records)
    ensures i < |o.records| && o.records[i].value == []
  {
    hide Arranged, Layout, GroupsOf;
    SameMembers(o.records, records);
    var r :| r in records && r.value == [];
    i :| 0 <= i < |o.records| && o.records[i] == r;
  }

  lemma NoEmptyEnds(groups: seq<KeyGroup>, records: seq<Record>)
    requires KeyTable(groups, RecordItems(records)) && NoEmptyRecord(records)
    ensures NoGroupEndsEmpty(groups)
  {
    hide ItemsOf;
    forall g: nat | g < |groups| && groups[g].values != [] ensures groups[g].values[|groups[g].values| - 1] != [] {
      var last := groups[g].values[|groups[g].values| - 1];
      GroupCounts(groups, g, last);
      assert multiset(groups[g].values)[last] > 0 by { assert last in groups[g].values; }
      assert Item(groups[g].key, last) in multiset(RecordItems(records));
    }
  }

  /** With two colliding keys, some memory makes the written table, and what the reader finds, wrong. */
  lemma CollisionMissesKey(outcome: Stray -> Sorted, records: seq<Record>) returns (stray: Stray)
    requires forall stray: Stray :: Delivers(stray, records, outcome(stray))
    requires KeysFit(RecordsOf(records)) && !CollisionFree(RecordsOf(records))
    ensures !GroupsItems(outcome(stray), RecordItems(records))
    ensures !KeyTable(ReadGroups(outcome(stray).out), RecordItems(records))
  {
    hide KeyTable, Layout, GroupsOf, KeysFit, RecordItems, ReadGroups, CollisionFree, SortedOutput;
    var i, j := CollidingPair(records);
    stray := Mimic(records[j].key);
    var o := outcome(stray);
    assert Delivers(stray, records, o);
    var groups := DeliveredGroups(stray, records, o);
    CollisionSpoilsOutput(records, o.records, o.marks, o.out, i, j, ReadGroups(o.out));
    CollisionSpoilsOutput(records, o.records, o.marks, o.out, i, j, groups);
  }

  lemma CollidingPair(records: seq<Record>) returns (i: nat, j: nat)
    requires !CollisionFree(RecordsOf(records))
    ensures i < |records| && j < |records| && Collide(records[i].key, records[j].key)
  {
    hide Collide;
    var r, t :| r in RecordsOf(records) && t in RecordsOf(records) && Collide(r.key, t.key);
    i :| 0 <= i < |records| && records[i] == r;
    j :| 0 <= j < |records| && records[j] == t;
  }

  // ----- The task

  /** One sort per partition, each reading all buffers. */
  datatype SortTask = SortTask(partition: nat, sources: seq<ShuffleBuffer>)

  class ShuffleTask {
    const partitionCount: nat
    var buffers: seq<ShuffleBuffer>
    ghost var received: seq<seq<Item>>

    ghost predicate Valid()
      reads this
    {
      0 < partitionCount <= 0xffff_ffff && Holds(buffers, received, partitionCount)
    }

    constructor (partitions: nat)
      requires 0 < partitions <= 0xffff_ffff
      ensures Valid() && partitionCount == partitions && buffers == [] && received == []
    {
      partitionCount := partitions;
      buffers, received := [], [];
    }

    /** Partitions a fragment and keeps the buffer for the sort. */
    method ReceiveFragment(f: Fragment)
      requires Valid() && ValidFragment(f) && ByteSize(Items(f)) + 16 * f.count < WORD_LIMIT
      modifies this
      ensures Valid() && received == old(received) + [Items(f)]
      ensures |buffers| == |old(buffers)| + 1 && old(buffers) <= buffers
    {
      hide Partitions, Items, ByteSize;
      var b := ShufflePartition.PartitionFragment(f, partitionCount);
      buffers := buffers + [b];
      received := received + [Items(f)];
    }

    /** Hands the buffers over to one sort task per partition. */
    method CreateSortTasks() returns (tasks: seq<SortTask>)
      requires Valid()
      modifies this
      ensures |tasks| == partitionCount
      ensures forall p :: 0 <= p < partitionCount ==> tasks[p] == SortTask(p, old(buffers))
      ensures Valid() && buffers == [] && received == []
    {
      hide Partitions;
      tasks := [];
      for p := 0 to partitionCount
        invariant |tasks| == p
        invariant forall q :: 0 <= q < p ==> tasks[q] == SortTask(q, buffers)
      {
        tasks := tasks + [SortTask(p, buffers)];
      }
      buffers, received := [], [];
    }
  }

  ghost function AllItems(fragments: seq<Fragment>): (s: seq<seq<Item>>)
    requires forall i :: 0 <= i < |fragments| ==> ValidFragment(fragments[i])
    ensures |s| == |fragments|
    ensures forall i :: 0 <= i < |s| ==> s[i] == Items(fragments[i])
  {
    seq(|fragments|, i requires 0 <= i < |fragments| => Items(fragments[i]))
  }

  /** A sort task delivers the layout of some groups, which are the key table of its partition unless keys
      collide. */
  lemma PartitionOutput(stray: Stray, buffers: seq<ShuffleBuffer>, received: seq<seq<Item>>, partitions: nat, p: nat,
                        o: Sorted) returns (groups: seq<KeyGroup>)
    requires Holds(buffers, received, partitions) && |buffers| == |received| && p < partitions
    requires Delivers(stray, Collected(buffers, received, partitions, p), o)
    ensures o.out == Layout(groups)
    ensures NoCollisions(Flatten(received), partitions) ==>
      KeyTable(groups, Select(ByPartition(partitions), Flatten(received), p))
  {
    hide Layout, NoCollisions, Holds, Flatten, Select, KeyTable, Delivers, Writes, ReadGroups;
    HoldsFirst(buffers, received, partitions, 0);
    groups := DeliveredGroups(stray, Collected(buffers, received, partitions, p), o);
    if NoCollisions(Flatten(received), partitions) {
      PartitionGrouped(stray, buffers, received, partitions, p, o, groups);
    }
  }

  lemma PartitionGrouped(stray: Stray, buffers: seq<ShuffleBuffer>, received: seq<seq<Item>>, partitions: nat, p: nat,
                         o: Sorted, groups: seq<KeyGroup>)
    requires Holds(buffers, received, partitions) && p < partitions
    requires NoCollisions(Flatten(received), partitions)
    requires Delivers(stray, Collected(buffers, received, partitions, p), o) && Writes(o, groups)
    ensures KeyTable(groups, Select(ByPartition(partitions), Flatten(received), p))
  {
    hide Holds, NoCollisions, Collected, Layout, GroupsOf, Arranged, KeyTable, KeysFit, CollectedUpTo, RecordItems;
    HoldsShape(buffers, received, partitions);
    HoldsFirst(buffers, received, partitions, 0);
    var records := Collected(buffers, received, partitions, p);
    CollectedItems(buffers, received, partitions, p);
    CollectedCollisionFree(records, Flatten(received), partitions, p);
    CollectedAll(buffers, received, partitions, p);
    CollectedKeysFit(buffers, received, partitions, p, |buffers|);
    SortedOutputIsKeyTable(stray, records, o.records, o.marks, o.out);
  }

  /** All sort tasks, one after the other. */
  method RunSorts(stray: Stray, tasks: seq<SortTask>, buffers: seq<ShuffleBuffer>, partitions: nat,
                  ghost received: seq<seq<Item>>)
    returns (outputs: seq<Grouped>, ghost tables: seq<seq<KeyGroup>>)
    requires 0 < partitions <= 0xffff_ffff && |tasks| == partitions && Holds(buffers, received, partitions)
    requires forall p :: 0 <= p < partitions ==> tasks[p] == SortTask(p, buffers)
    ensures |outputs| == partitions && AreLayouts(outputs, tables)
    ensures NoCollisions(Flatten(received), partitions) ==> GroupsByKey(tables, Flatten(received))
  {
    hide Layout, GroupsByKey, NoCollisions, Holds, Flatten, Select, KeyTable, SortedOutput, Collected;
    HoldsShape(buffers, received, partitions);
    outputs, tables := [], [];
    ghost var items := Flatten(received);
    for p := 0 to partitions
      invariant |outputs| == |tables| == p && AreLayouts(outputs, tables)
      invariant NoCollisions(items, partitions) ==>
        forall q :: 0 <= q < p ==> KeyTable(tables[q], Select(ByPartition(partitions), items, q))
    {
      var out, sorted, marks := SortRecords(stray, tasks[p].sources, partitions, tasks[p].partition, received);
      ghost var o := Sorted(sorted, marks, out);
      ghost var groups := PartitionOutput(stray, buffers, received, partitions, p, o);
      outputs, tables := outputs + [out], tables + [groups];
    }
    if NoCollisions(items, partitions) {
      TablesGroupByKey(tables, items, partitions);
    }
  }

  /** A whole shuffle. When no keys collide, the outputs are written from tables that group all items by key,
      and the reader finds all items grouped by key exactly when none of the groups ends with an empty value. */
  method RunShuffle(stray: Stray, fragments: seq<Fragment>, partitions: nat)
    returns (outputs: seq<Grouped>, ghost tables: seq<seq<KeyGroup>>)
    requires 0 < partitions <= 0xffff_ffff
    requires forall i :: 0 <= i < |fragments| ==> ValidFragment(fragments[i])
    requires forall i :: 0 <= i < |fragments| ==>
      ByteSize(Items(fragments[i])) + 16 * fragments[i].count < WORD_LIMIT
    ensures |outputs| == partitions && AreLayouts(outputs, tables)
    ensures NoCollisions(Flatten(AllItems(fragments)), partitions) ==>
      && GroupsByKey(tables, Flatten(AllItems(fragments)))
      && (GroupsByKey(FoundTables(outputs), Flatten(AllItems(fragments)))
          <==> forall p :: 0 <= p < |tables| ==> NoGroupEndsEmpty(tables[p]))
    ensures NoCollisions(Flatten(AllItems(fragments)), partitions) && NoEmptyValues(Flatten(AllItems(fragments))) ==>
      GroupsByKey(FoundTables(outputs), Flatten(AllItems(fragments)))
  {
    hide ValidFragment, Items, ByteSize, GroupsByKey, NoCollisions, Holds, Flatten, AreLayouts, NoEmptyValues;
    hide NoGroupEndsEmpty;
    var task := new ShuffleTask(partitions);
    for i := 0 to |fragments|
      invariant task.Valid() && task.partitionCount == partitions && fresh(task)
      invariant task.received == AllItems(fragments)[..i]
    {
      task.ReceiveFragment(fragments[i]);
      assert AllItems(fragments)[..i + 1] == AllItems(fragments)[..i] + [Items(fragments[i])];
    }
    ghost var received := task.received;
    assert received == AllItems(fragments);
    var buffers := task.buffers;
    var tasks := task.CreateSortTasks();
    outputs, tables := RunSorts(stray, tasks, buffers, partitions, received);
    if NoCollisions(Flatten(received), partitions) {
      WhatIsFound(outputs, tables, Flatten(received));
    }
  }

  lemma WhatIsFound(outputs: seq<Grouped>, tables: seq<seq<KeyGroup>>, items: seq<Item>)
    requires AreLayouts(outputs, tables) && GroupsByKey(tables, items)
    ensures GroupsByKey(FoundTables(outputs), items) <==> forall p :: 0 <= p < |tables| ==> NoGroupEndsEmpty(tables[p])
    ensures NoEmptyValues(items) ==> GroupsByKey(FoundTables(outputs), items)
  {
    hide GroupsByKey, NoGroupEndsEmpty, NoEmptyValues, AreLayouts;
    ReaderFindsGroups(outputs, tables, items);
    if NoEmptyValues(items) {
      forall p | 0 <= p < |tables| ensures NoGroupEndsEmpty(tables[p]) {
        NoneEndsEmpty(tables, items, p);
      }
    }
  }
}
