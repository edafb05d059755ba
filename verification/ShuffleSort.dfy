/** Sorting one partition: collect its records from every buffer, sort them, write them grouped. */
module ShuffleSort {
  import opened Machine
  import opened Permutations
  import opened KeyBlocks
  import opened BlockOrder
  import opened Buffers
  import opened Distribution
  import opened ShufflePartition
  import opened GroupWriter
  import opened RadixSort

  // ----- The records of a partition

  /** The pointers to the records of `s`, encoded one after the other from `start` on. */
  ghost function RecordsAt(fragment: nat, start: nat, s: seq<Item>): (r: seq<Record>)
    ensures |r| == |s|
    ensures forall i :: 0 <= i < |s| ==>
      r[i] == Record(fragment, start + |EncodeAll(s[..i])|, s[i].key, s[i].value)
  {
    seq(|s|, i requires 0 <= i < |s| => Record(fragment, start + |EncodeAll(s[..i])|, s[i].key, s[i].value))
  }

  /** The items of partition `p` in the first fragments, in the order in which they are collected. */
  ghost function Collected(buffers: seq<ShuffleBuffer>, received: seq<seq<Item>>, partitions: nat, p: nat): seq<Record>
    requires |buffers| == |received| && p < partitions
    requires forall i :: 0 <= i < |buffers| ==> |buffers[i].offsets| == partitions + 1
  {
    var m := |buffers| - 1;
    if |buffers| == 0 then [] else
      Collected(buffers[..m], received[..m], partitions, p)
        + RecordsAt(m, buffers[m].offsets[p], Select(ByPartition(partitions), received[m], p))
  }

  /** The buffers hold the received items, and fit in memory. */
  ghost predicate Holds(buffers: seq<ShuffleBuffer>, received: seq<seq<Item>>, partitions: nat) {
    && |buffers| == |received|
    && forall i {:trigger buffers[i]} :: 0 <= i < |buffers| ==>
         Partitions(buffers[i], received[i], partitions) && |buffers[i].data| < WORD_LIMIT
  }

  // ----- Walking a partition

  ghost predicate Stretch(b: ShuffleBuffer, from: nat, to: nat, s: seq<Item>) {
    from <= to <= |b.data| < WORD_LIMIT && b.data[from..to] == EncodeAll(s)
  }

  /** What a record pointer shows: the lengths, the key and the value. */
  lemma {:induction false} RecordInStretch(b: ShuffleBuffer, from: nat, to: nat, s: seq<Item>, i: nat)
    requires Stretch(b, from, to, s) && i < |s|
    ensures var at, it := from + |EncodeAll(s[..i])|, s[i];
      var end := at + 16 + |it.key| + |it.value|;
      && end <= to && end == from + |EncodeAll(s[..i + 1])|
      && ReadBytes(b.data[at..at + 8]) == |it.key| + |it.value|
      && ReadBytes(b.data[at + 8..at + 16]) == |it.key|
      && b.data[at + 16..at + 16 + |it.key|] == it.key
      && b.data[at + 16 + |it.key|..end] == it.value
  {
    hide Encode, EncodeAll, ReadBytes;
    var at, it := from + |EncodeAll(s[..i])|, s[i];
    RecordPlace(b, from, to, s, i);
    ShownAt(b.data, at, it);
  }

  /** Record `i` lies behind the ones before it. */
  lemma {:induction false} RecordPlace(b: ShuffleBuffer, from: nat, to: nat, s: seq<Item>, i: nat)
    requires Stretch(b, from, to, s) && i < |s|
    ensures var at, end := from + |EncodeAll(s[..i])|, from + |EncodeAll(s[..i + 1])|;
      end == at + |Encode(s[i])| <= to && b.data[at..end] == Encode(s[i])
  {
    hide Encode, EncodeAll;
    var head, tail := s[..i + 1], s[i + 1..];
    assert s == head + tail && head == s[..i] + [s[i]];
    EncodeSum(head, tail);
    EncodeNext(s[..i], s[i]);
    SubSlice(b.data, from, EncodeAll(s), |EncodeAll(s[..i])|, |EncodeAll(head)|);
    MiddleSlice(EncodeAll(s[..i]), Encode(s[i]), EncodeAll(tail));
  }

  lemma MiddleSlice<T>(a: seq<T>, b: seq<T>, c: seq<T>)
    ensures (a + b + c)[|a|..|a| + |b|] == b
  {}

  lemma {:induction false} ShownAt(data: seq<byte>, at: nat, it: Item)
    requires at + |Encode(it)| <= |data| < WORD_LIMIT && data[at..at + |Encode(it)|] == Encode(it)
    ensures var end := at + 16 + |it.key| + |it.value|;
      && end == at + |Encode(it)|
      && ReadBytes(data[at..at + 8]) == |it.key| + |it.value|
      && ReadBytes(data[at + 8..at + 16]) == |it.key|
      && data[at + 16..at + 16 + |it.key|] == it.key
      && data[at + 16 + |it.key|..end] == it.value
  {
    hide Encode, ReadBytes;
    var e := Encode(it);
    EncodedRecord(it);
    SubSlice(data, at, e, 0, 8);
    SubSlice(data, at, e, 8, 16);
    SubSlice(data, at, e, 16, 16 + |it.key|);
    SubSlice(data, at, e, 16 + |it.key|, |e|);
  }

  lemma SubSlice(data: seq<byte>, at: nat, e: seq<byte>, i: nat, j: nat)
    requires at + |e| <= |data| && data[at..at + |e|] == e && i <= j <= |e|
    ensures data[at + i..at + j] == e[i..j]
  {
    Window(data, at, at + i, at + j, at + |e|);
  }

  /** Decoding gives back the item. */
  lemma {:induction false} EncodedRecord(it: Item)
    ensures var e := Encode(it);
      && |e| == 16 + |it.key| + |it.value|
      && e[16..16 + |it.key|] == it.key && e[16 + |it.key|..] == it.value
      && (|it.key| + |it.value| < WORD_LIMIT ==>
           ReadBytes(e[..8]) == |it.key| + |it.value| && ReadBytes(e[8..16]) == |it.key|)
  {
    hide Limit, ReadBytes, WordBytes;
    var e := Encode(it);
    var a, b := WordBytes(|it.key| + |it.value|, 8), WordBytes(|it.key|, 8);
    assert e == a + b + it.key + it.value;
    assert e[..8] == a && e[8..16] == b;
    WordLimit();
    if |it.key| + |it.value| < WORD_LIMIT {
      ReadWritten(|it.key| + |it.value|, 8);
      ReadWritten(|it.key|, 8);
    }
  }

  /** The walk stops exactly after the last record. */
  lemma WalkEnds(b: ShuffleBuffer, from: nat, to: nat, s: seq<Item>, i: nat)
    requires Stretch(b, from, to, s) && i <= |s|
    ensures from + |EncodeAll(s[..i])| <= to
    ensures from + |EncodeAll(s[..i])| == to <==> i == |s|
  {
    hide EncodeAll;
    if i < |s| {
      RecordInStretch(b, from, to, s, i);
    } else {
      assert s[..i] == s;
    }
  }

  /** Counts the records of a partition. */
  method CountRecordsIn(b: ShuffleBuffer, from: nat, to: nat, ghost s: seq<Item>) returns (count: nat)
    requires Stretch(b, from, to, s)
    ensures count == |s|
  {
    hide EncodeAll, Stretch, ReadBytes;
    var at := from;
    count := 0;
    WalkStarts(s);
    WalkEnds(b, from, to, s, 0);
    assert to <= |b.data| by { StretchInside(b, from, to, s); }
    while at != to
      invariant count <= |s|
      invariant at == from + |EncodeAll(s[..count])|
      invariant at <= to
      invariant to <= |b.data|
      invariant at == to <==> count == |s|
    {
      RecordInStretch(b, from, to, s, count);
      WalkEnds(b, from, to, s, count + 1);
      var size := ReadBytes(b.data[at..at + 8]);
      at := at + size + 16;
      count := count + 1;
    }
  }

  lemma WalkStarts(s: seq<Item>)
    ensures EncodeAll(s[..0]) == []
  {}

  lemma StretchInside(b: ShuffleBuffer, from: nat, to: nat, s: seq<Item>)
    requires Stretch(b, from, to, s)
    ensures to <= |b.data| < WORD_LIMIT
  {}

  /** Stores a pointer to every record of a partition from `k` on. */
  method CollectRecordsIn(b: ShuffleBuffer, fragment: nat, from: nat, to: nat, pointers: array<Record>, k: nat,
                          ghost s: seq<Item>)
    returns (next: nat)
    requires Stretch(b, from, to, s) && k + |s| <= pointers.Length
    modifies pointers
    ensures next == k + |s|
    ensures pointers[..next] == old(pointers[..k]) + RecordsAt(fragment, from, s)
  {
    hide EncodeAll, Stretch, ReadBytes, RecordsAt;
    var at := from;
    next := k;
    WalkStarts(s);
    WalkEnds(b, from, to, s, 0);
    assert to <= |b.data| by { StretchInside(b, from, to, s); }
    ghost var records := RecordsAt(fragment, from, s);
    while at != to
      invariant k <= next <= k + |s| && at == from + |EncodeAll(s[..next - k])| <= to <= |b.data|
      invariant at == to <==> next == k + |s|
      invariant pointers[..next] == old(pointers[..k]) + records[..next - k]
    {
      RecordInStretch(b, from, to, s, next - k);
      WalkEnds(b, from, to, s, next - k + 1);
      var size, keyLength := ReadBytes(b.data[at..at + 8]), ReadBytes(b.data[at + 8..at + 16]);
      pointers[next] := Record(fragment, at, b.data[at + 16..at + 16 + keyLength],
        b.data[at + 16 + keyLength..at + 16 + size]);
      assert pointers[..next + 1] == pointers[..next] + [pointers[next]];
      assert records[..next - k + 1] == records[..next - k] + [records[next - k]];
      at := at + size + 16;
      next := next + 1;
    }
    assert records[..|s|] == records;
  }

  // ----- Over all buffers

  ghost function ItemsOfPartition(received: seq<seq<Item>>, partitions: nat, p: nat, i: nat): seq<Item>
    requires i < |received|
  {
    Select(ByPartition(partitions), received[i], p)
  }

  ghost function CollectedUpTo(buffers: seq<ShuffleBuffer>, received: seq<seq<Item>>, partitions: nat, p: nat, i: nat):
      seq<Record>
    requires Holds(buffers, received, partitions) && p < partitions && i <= |buffers|
  {
    HoldsFirst(buffers, received, partitions, i);
    Collected(buffers[..i], received[..i], partitions, p)
  }

  lemma HoldsFirst(buffers: seq<ShuffleBuffer>, received: seq<seq<Item>>, partitions: nat, i: nat)
    requires Holds(buffers, received, partitions) && i <= |buffers|
    ensures Holds(buffers[..i], received[..i], partitions)
    ensures forall j :: 0 <= j < |buffers| ==> |buffers[j].offsets| == partitions + 1
  {}

  /** One more buffer adds the records of its partition. */
  lemma CollectedNext(buffers: seq<ShuffleBuffer>, received: seq<seq<Item>>, partitions: nat, p: nat, i: nat)
    requires Holds(buffers, received, partitions) && p < partitions && i < |buffers|
    ensures |buffers[i].offsets| == partitions + 1
    ensures CollectedUpTo(buffers, received, partitions, p, i + 1) == CollectedUpTo(buffers, received, partitions, p, i)
      + RecordsAt(i, buffers[i].offsets[p], ItemsOfPartition(received, partitions, p, i))
    ensures Stretch(buffers[i], buffers[i].offsets[p], buffers[i].offsets[p + 1],
      ItemsOfPartition(received, partitions, p, i))
  {
    hide Select, ByPartition, EncodeAll;
    assert buffers[..i + 1][..i] == buffers[..i] && received[..i + 1][..i] == received[..i];
    assert Partitions(buffers[i], received[i], partitions);
  }

  lemma {:induction false} CollectedGrows(buffers: seq<ShuffleBuffer>, received: seq<seq<Item>>, partitions: nat, p: nat,
                                          i: nat, j: nat)
    requires Holds(buffers, received, partitions) && p < partitions && i <= j <= |buffers|
    ensures |CollectedUpTo(buffers, received, partitions, p, i)| <= |CollectedUpTo(buffers, received, partitions, p, j)|
  {
    hide Holds, CollectedUpTo;
    if i == j {
    } else {
      CollectedGrows(buffers, received, partitions, p, i, j - 1);
      CollectedNext(buffers, received, partitions, p, j - 1);
    }
  }

  lemma CollectedAll(buffers: seq<ShuffleBuffer>, received: seq<seq<Item>>, partitions: nat, p: nat)
    requires Holds(buffers, received, partitions) && p < partitions
    ensures CollectedUpTo(buffers, received, partitions, p, 0) == []
    ensures CollectedUpTo(buffers, received, partitions, p, |buffers|) == Collected(buffers, received, partitions, p)
  {
    hide Partitions;
    assert buffers[..|buffers|] == buffers && received[..|buffers|] == received;
  }

  method CountPartition(buffers: seq<ShuffleBuffer>, partitions: nat, p: nat, ghost received: seq<seq<Item>>)
    returns (total: nat)
    requires Holds(buffers, received, partitions) && p < partitions
    ensures total == |Collected(buffers, received, partitions, p)|
  {
    hide Holds, Collected, CollectedUpTo, Stretch, RecordsAt, ItemsOfPartition;
    total := 0;
    CollectedAll(buffers, received, partitions, p);
    assert |received| == |buffers| by { HoldsShape(buffers, received, partitions); }
    for i := 0 to |buffers|
      invariant total == |CollectedUpTo(buffers, received, partitions, p, i)|
    {
      CollectedNext(buffers, received, partitions, p, i);
      var count := CountRecordsIn(buffers[i], buffers[i].offsets[p], buffers[i].offsets[p + 1],
        ItemsOfPartition(received, partitions, p, i));
      total := total + count;
      RecordsAtLength(i, buffers[i].offsets[p], ItemsOfPartition(received, partitions, p, i));
    }
  }

  lemma HoldsShape(buffers: seq<ShuffleBuffer>, received: seq<seq<Item>>, partitions: nat)
    requires Holds(buffers, received, partitions)
    ensures |received| == |buffers|
  {}

  lemma RecordsAtLength(fragment: nat, start: nat, s: seq<Item>)
    ensures |RecordsAt(fragment, start, s)| == |s|
  {}

  method CollectPartition(buffers: seq<ShuffleBuffer>, partitions: nat, p: nat, pointers: array<Record>,
                          ghost received: seq<seq<Item>>)
    requires Holds(buffers, received, partitions) && p < partitions
    requires pointers.Length == |Collected(buffers, received, partitions, p)|
    modifies pointers
    ensures pointers[..] == Collected(buffers, received, partitions, p)
  {
    hide Holds, Collected, CollectedUpTo, Stretch, RecordsAt, ItemsOfPartition;
    var k: nat := 0;
    CollectedAll(buffers, received, partitions, p);
    assert |received| == |buffers| by { HoldsShape(buffers, received, partitions); }
    for i := 0 to |buffers|
      invariant k <= pointers.Length && pointers[..k] == CollectedUpTo(buffers, received, partitions, p, i)
    {
      CollectedNext(buffers, received, partitions, p, i);
      CollectedGrows(buffers, received, partitions, p, i + 1, |buffers|);
      RecordsAtLength(i, buffers[i].offsets[p], ItemsOfPartition(received, partitions, p, i));
      k := CollectRecordsIn(buffers[i], i, buffers[i].offsets[p], buffers[i].offsets[p + 1], pointers, k,
        ItemsOfPartition(received, partitions, p, i));
    }
    assert pointers[..k] == pointers[..];
  }

  // ----- Sorting and writing

  /** Every key read from a buffer in memory leaves room for its record header. */
  lemma {:induction false} CollectedKeysFit(buffers: seq<ShuffleBuffer>, received: seq<seq<Item>>, partitions: nat,
                                            p: nat, i: nat)
    requires Holds(buffers, received, partitions) && p < partitions && i <= |buffers|
    ensures KeysFit(RecordsOf(CollectedUpTo(buffers, received, partitions, p, i)))
  {
    hide Holds, CollectedUpTo, Stretch, Encode, EncodeAll;
    if i == 0 {
      CollectedAll(buffers, received, partitions, p);
    } else {
      hide KeysFit, RecordsAt;
      CollectedKeysFit(buffers, received, partitions, p, i - 1);
      CollectedNext(buffers, received, partitions, p, i - 1);
      HoldsShape(buffers, received, partitions);
      var b, s := buffers[i - 1], ItemsOfPartition(received, partitions, p, i - 1);
      StretchKeysFit(b, i - 1, b.offsets[p], b.offsets[p + 1], s);
      KeysFitTogether(CollectedUpTo(buffers, received, partitions, p, i - 1), RecordsAt(i - 1, b.offsets[p], s));
    }
  }

  lemma StretchKeysFit(b: ShuffleBuffer, fragment: nat, from: nat, to: nat, s: seq<Item>)
    requires Stretch(b, from, to, s)
    ensures KeysFit(RecordsOf(RecordsAt(fragment, from, s)))
  {
    hide Stretch, EncodeAll, ReadBytes;
    forall j | 0 <= j < |s| ensures |s[j].key| + 2 * 8 <= WORD_LIMIT {
      RecordInStretch(b, from, to, s, j);
      assert to < WORD_LIMIT by { StretchInside(b, from, to, s); }
    }
  }

  lemma KeysFitTogether(a: seq<Record>, b: seq<Record>)
    requires KeysFit(RecordsOf(a)) && KeysFit(RecordsOf(b))
    ensures KeysFit(RecordsOf(a + b))
  {}

  ghost function RoundedUp(n: nat): nat {
    n + (8 - n % 8) % 8
  }

  lemma RoundedUpIsMultiple(n: nat)
    ensures n <= RoundedUp(n) && RoundedUp(n) % 8 == 0
  {}

  lemma KeysBounded(s: seq<Record>)
    ensures KeysWithin(s, RoundedUp(LongestKey(RecordsOf(s))))
  {
    hide LongestKey, RoundedUp;
    LongestKeyIsLongest(RecordsOf(s));
    RoundedUpIsMultiple(LongestKey(RecordsOf(s)));
  }

  /** What sorting one partition delivers: the grouped layout of its records in block order. */
  ghost predicate SortedOutput(stray: Stray, records: seq<Record>, sorted: seq<Record>, marks: seq<bool>, out: Grouped) {
    && multiset(sorted) == multiset(records)
    && Arranged(stray, RecordsOf(sorted), 0, sorted, marks)
    && (|marks| > 0 ==> !marks[0])
    && out == Layout(GroupsOf(sorted, marks))
  }

  method SortRecords(stray: Stray, buffers: seq<ShuffleBuffer>, partitions: nat, p: nat, ghost received: seq<seq<Item>>)
    returns (out: Grouped, ghost sorted: seq<Record>, ghost marks: seq<bool>)
    requires Holds(buffers, received, partitions) && p < partitions
    ensures SortedOutput(stray, Collected(buffers, received, partitions, p), sorted, marks, out)
  {
    hide Holds, Collected, Layout, GroupsOf, Arranged, Frames, KeysWithin, LongestKey, RoundedUp;
    var total := CountPartition(buffers, partitions, p, received);
    var equals := new bool[total](_ => false);
    var frontCache, backCache := new Word[total](_ => 0), new Word[total](_ => 0);
    var frontPointers, backPointers := new Record[total](_ => NO_RECORD), new Record[total](_ => NO_RECORD);
    CollectPartition(buffers, partitions, p, frontPointers, received);
    ghost var s := frontPointers[..];
    ghost var bound := RoundedUp(LongestKey(RecordsOf(s)));
    KeysBounded(s);
    assert frontPointers[..][0..total] == s;
    assert equals[..][0..total] == equals[..];
    FreshAgree(stray, s, frontCache[..][0..total]);
    ghost var was := Snapshot(equals, frontCache, frontPointers, backCache, backPointers);
    MsdRadixSort(stray, equals, frontCache, frontPointers, backCache, backPointers, 0, total, 0, false, bound);
    FirstMarkKept(Snapshot(equals, frontCache, frontPointers, backCache, backPointers), was, total);
    SortedIsArranged(stray, s, frontPointers[..][0..total], equals[..][0..total]);
    assert frontPointers[..][0..total] == frontPointers[..] && equals[..][0..total] == equals[..];
    out := WriteGroups(frontPointers, equals);
    sorted, marks := frontPointers[..], equals[..];
  }

  /** The content of a pointer array before it is filled. */
  const NO_RECORD: Record := Record(0, 0, [], [])

  lemma FreshAgree(stray: Stray, s: seq<Record>, cache: seq<Word>)
    requires |s| == |cache| && forall i :: 0 <= i < |cache| ==> cache[i] == 0
    ensures Agree(stray, 0, s, cache)
  {}

  lemma FirstMarkKept(now: Arrays, was: Arrays, n: nat)
    requires Frames(now, was, 0, n) && |was.equals| == n && NoMarks(was.equals)
    ensures |now.equals| == n && (n > 0 ==> !now.equals[0])
  {
    if n > 0 {
      SameAt(now.equals, was.equals, 1, n, 0);
    }
  }

  lemma SortedIsArranged(stray: Stray, was: seq<Record>, now: seq<Record>, marks: seq<bool>)
    requires SortedFrom(stray, 0, was, now, marks)
    ensures multiset(now) == multiset(was) && Arranged(stray, RecordsOf(now), 0, now, marks)
  {
    hide Arranged;
    SameMembers(now, was);
    assert RecordsOf(now) == RecordsOf(was);
  }
}
