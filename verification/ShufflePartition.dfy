/** Hash partitioning of one fragment into a shuffle buffer. */
module ShufflePartition {
  import opened Machine
  import opened Buffers
  import opened Distribution
  import opened HashFunction
  import opened Permutations

  // ----- Fragments

  datatype Item = Item(key: seq<byte>, value: seq<byte>)

  /** A key-value buffer as the producer filled it: record `i` is `data[offsets[i]..offsets[i + 1]]`
      and its first `keyLengths[i]` bytes are the key. */
  datatype Fragment = Fragment(data: seq<byte>, offsets: seq<nat>, keyLengths: seq<nat>, count: nat)

  ghost predicate ValidFragment(f: Fragment) {
    && f.count < |f.offsets| && f.count <= |f.keyLengths|
    && |f.data| < WORD_LIMIT
    && (forall i :: 0 <= i <= f.count ==> f.offsets[i] <= |f.data|)
    && (forall i :: 0 <= i < f.count ==> f.offsets[i] + f.keyLengths[i] <= f.offsets[i + 1])
  }

  function ItemAt(f: Fragment, i: nat): (it: Item)
    requires ValidFragment(f) && i < f.count
    ensures |it.key| == f.keyLengths[i] && f.offsets[i] <= f.offsets[i + 1] <= |f.data|
    ensures it.key + it.value == f.data[f.offsets[i]..f.offsets[i + 1]]
  {
    var mid := f.offsets[i] + f.keyLengths[i];
    assert mid <= f.offsets[i + 1] <= |f.data|;
    Item(f.data[f.offsets[i]..mid], f.data[mid..f.offsets[i + 1]])
  }

  function Items(f: Fragment): (s: seq<Item>)
    requires ValidFragment(f)
    ensures |s| == f.count
    ensures forall i :: 0 <= i < f.count ==> s[i] == ItemAt(f, i)
  {
    seq(f.count, i requires 0 <= i < f.count => ItemAt(f, i))
  }

  // ----- Encoded records

  /** Record length, key length, key and value. */
  function Encode(it: Item): seq<byte> {
    WordBytes(|it.key| + |it.value|, 8) + WordBytes(|it.key|, 8) + (it.key + it.value)
  }

  function EncodeAll(s: seq<Item>): seq<byte> {
    if |s| == 0 then [] else EncodeAll(s[..|s| - 1]) + Encode(s[|s| - 1])
  }

  function ByteSize(s: seq<Item>): nat {
    if |s| == 0 then 0 else ByteSize(s[..|s| - 1]) + |s[|s| - 1].key| + |s[|s| - 1].value|
  }

  lemma EncodeNext(s: seq<Item>, it: Item)
    ensures EncodeAll(s + [it]) == EncodeAll(s) + Encode(it)
    ensures ByteSize(s + [it]) == ByteSize(s) + |it.key| + |it.value|
  {
    assert (s + [it])[..|s|] == s;
  }

  lemma {:induction false} EncodeSum(a: seq<Item>, b: seq<Item>)
    ensures EncodeAll(a + b) == EncodeAll(a) + EncodeAll(b)
  {
    hide Encode, EncodeAll;
    if |b| == 0 {
      assert a + b == a && b == [];
      NothingEncoded();
    } else {
      var c, last := b[..|b| - 1], b[|b| - 1];
      assert b == c + [last] && a + b == (a + c) + [last];
      EncodeSum(a, c);
      EncodeNext(c, last);
      EncodeNext(a + c, last);
    }
  }

  lemma NothingEncoded()
    ensures EncodeAll([]) == [] && ByteSize([]) == 0
  {}

  lemma {:induction false} EncodedSize(s: seq<Item>)
    ensures |EncodeAll(s)| == ByteSize(s) + 16 * |s|
  {
    if |s| == 0 {
    } else {
      EncodedSize(s[..|s| - 1]);
    }
  }

  // ----- The partitioned buffer

  ghost function ByPartition(partitions: nat): Item -> int {
    (it: Item) => Hash(it.key, partitions) as int
  }

  /** Partition `p` lies at `data[offsets[p]..offsets[p + 1]]`. */
  datatype ShuffleBuffer = ShuffleBuffer(offsets: seq<nat>, data: seq<byte>)

  /** Where the records of partition `p` start. */
  ghost function ByteStart(items: seq<Item>, partitions: nat, p: nat): nat {
    |EncodeAll(Buckets(ByPartition(partitions), items, p))|
  }

  /** What partitioning promises: every partition holds the encoded records that hash to it, in
      their original order, and the partitions fill the buffer without gaps. */
  ghost predicate Partitions(b: ShuffleBuffer, items: seq<Item>, partitions: nat) {
    && |b.offsets| == partitions + 1 && b.offsets[0] == 0 && b.offsets[partitions] == |b.data|
    && forall p {:trigger b.offsets[p]} :: 0 <= p < partitions ==>
         && b.offsets[p] <= b.offsets[p + 1] <= |b.data|
         && b.data[b.offsets[p]..b.offsets[p + 1]] == EncodeAll(Select(ByPartition(partitions), items, p))
  }

  lemma HashesBelow(items: seq<Item>, partitions: nat)
    requires 0 < partitions <= 0xffff_ffff
    ensures TagsBelow(ByPartition(partitions), items, partitions)
  {
    forall i | 0 <= i < |items| ensures 0 <= ByPartition(partitions)(items[i]) < partitions {
      HashBelow(items[i].key, partitions);
    }
  }

  /** Each partition's stretch is as long as its encoded records. */
  lemma ByteStretch(items: seq<Item>, partitions: nat, p: nat)
    ensures ByteStart(items, partitions, p + 1)
      == ByteStart(items, partitions, p) + |EncodeAll(Select(ByPartition(partitions), items, p))|
  {
    var tag := ByPartition(partitions);
    EncodeSum(Buckets(tag, items, p), Select(tag, items, p));
  }

  lemma {:induction false} ByteStartsOrdered(items: seq<Item>, partitions: nat, p: nat, q: nat)
    requires p <= q
    ensures ByteStart(items, partitions, p) <= ByteStart(items, partitions, q)
    decreases q - p
  {
    hide ByteStart, EncodeAll, Select, ByPartition, Hash;
    if p == q {
    } else {
      ByteStartsOrdered(items, partitions, p, q - 1);
      ByteStretch(items, partitions, q - 1);
    }
  }

  /** The records written so far make up the beginning of every partition. */
  ghost predicate Written(items: seq<Item>, partitions: nat, i: nat, data: seq<byte>, p: nat, cursor: int)
    requires i <= |items|
  {
    var start := ByteStart(items, partitions, p);
    && start <= cursor <= |data|
    && data[start..cursor] == EncodeAll(Select(ByPartition(partitions), items[..i], p))
  }

  lemma RoomForNext(items: seq<Item>, partitions: nat, i: nat, data: seq<byte>, p: nat, cursor: int)
    requires i < |items| && Written(items, partitions, i, data, p, cursor)
    requires ByPartition(partitions)(items[i]) == p
    ensures cursor + |Encode(items[i])| <= ByteStart(items, partitions, p + 1)
  {
    hide Encode, ByPartition, Buckets;
    var tag := ByPartition(partitions);
    SelectNext(tag, items, i, p);
    EncodeNext(Select(tag, items[..i], p), items[i]);
    SelectGrows(tag, items, i + 1, p);
    var some, all := Select(tag, items[..i + 1], p), Select(tag, items, p);
    assert all == some + all[|some|..];
    EncodeSum(some, all[|some|..]);
    ByteStretch(items, partitions, p);
  }

  lemma CursorInStretch(items: seq<Item>, partitions: nat, i: nat, data: seq<byte>, p: nat, cursor: int)
    requires i <= |items| && Written(items, partitions, i, data, p, cursor)
    ensures ByteStart(items, partitions, p) <= cursor <= ByteStart(items, partitions, p + 1)
  {
    hide Encode, ByPartition, Buckets;
    var tag := ByPartition(partitions);
    SelectGrows(tag, items, i, p);
    var some, all := Select(tag, items[..i], p), Select(tag, items, p);
    assert all == some + all[|some|..];
    EncodeSum(some, all[|some|..]);
    ByteStretch(items, partitions, p);
  }

  /** Writing record `i` at the cursor of its partition disturbs no other partition. */
  lemma WriteOne(items: seq<Item>, partitions: nat, i: nat, data: seq<byte>, data': seq<byte>, d: nat, at: int,
                 p: nat, cursor: int)
    requires i < |items| && ByPartition(partitions)(items[i]) == d
    requires Written(items, partitions, i, data, d, at) && Written(items, partitions, i, data, p, cursor)
    requires p == d ==> cursor == at
    requires ByteStart(items, partitions, partitions) == |data| == |data'| && d < partitions && p < partitions
    requires at + |Encode(items[i])| <= |data|
    requires data' == data[..at] + Encode(items[i]) + data[at + |Encode(items[i])|..]
    ensures Written(items, partitions, i + 1, data', p, if p == d then cursor + |Encode(items[i])| else cursor)
  {
    hide Encode, ByPartition, Buckets, Select, ByteStart;
    var tag, e := ByPartition(partitions), Encode(items[i]);
    var start := ByteStart(items, partitions, p);
    SelectNext(tag, items, i, p);
    if p == d {
      EncodeNext(Select(tag, items[..i], p), items[i]);
      assert data'[start..at + |e|] == data[start..at] + e;
    } else {
      CursorInStretch(items, partitions, i, data, p, cursor);
      RoomForNext(items, partitions, i, data, d, at);
      assert ByteStart(items, partitions, d) <= at;
      if p < d {
        ByteStartsOrdered(items, partitions, p + 1, d);
      } else {
        ByteStartsOrdered(items, partitions, d + 1, p);
      }
      assert Select(tag, items[..i], p) + [] == Select(tag, items[..i], p);
      assert cursor <= at || at + |e| <= start;
      assert data'[start..cursor] == data[start..cursor];
    }
  }

  // ----- The three loops

  /** Hashes every record and adds up how many records and bytes each partition gets. */
  method CountRecords(f: Fragment, partitions: nat)
    returns (counts: array<nat>, sizes: array<nat>, chosen: array<nat>)
    requires ValidFragment(f) && 0 < partitions <= 0xffff_ffff
    ensures fresh(counts) && fresh(sizes) && fresh(chosen)
    ensures counts.Length == sizes.Length == partitions && chosen.Length == f.count
    ensures forall p :: 0 <= p < partitions ==> counts[p] == |Select(ByPartition(partitions), Items(f), p)|
    ensures forall p :: 0 <= p < partitions ==> sizes[p] == ByteSize(Select(ByPartition(partitions), Items(f), p))
    ensures forall i :: 0 <= i < f.count ==>
      chosen[i] == ByPartition(partitions)(Items(f)[i]) && chosen[i] < partitions
  {
    hide Select, ByteSize, Hash, ValidFragment, Encode, EncodeAll;
    counts, sizes := new nat[partitions](_ => 0), new nat[partitions](_ => 0);
    chosen := new nat[f.count];
    ghost var items, tag := Items(f), ByPartition(partitions);
    forall p ensures Select(tag, items[..0], p) == [] && ByteSize([]) == 0 {
      assert items[..0] == [];
      NothingSelected(tag, p);
    }
    for i := 0 to f.count
      invariant forall p :: 0 <= p < partitions ==> counts[p] == |Select(tag, items[..i], p)|
      invariant forall p :: 0 <= p < partitions ==> sizes[p] == ByteSize(Select(tag, items[..i], p))
      invariant forall j :: 0 <= j < i ==> chosen[j] == tag(items[j]) && chosen[j] < partitions
    {
      FragmentBounds(f, i);
      var from := f.offsets[i];
      var p := HashByteSequence(f.data[from..from + f.keyLengths[i]], partitions);
      ghost var was, now := items[..i], items[..i + 1];
      forall q
        ensures |Select(tag, now, q)| == |Select(tag, was, q)| + if q == p then 1 else 0
        ensures ByteSize(Select(tag, now, q)) == ByteSize(Select(tag, was, q)) +
          if q == p then f.offsets[i + 1] - f.offsets[i] else 0
      {
        CountNext(tag, items, i, q);
      }
      counts[p] := counts[p] + 1;
      sizes[p] := sizes[p] + (f.offsets[i + 1] - f.offsets[i]);
      chosen[i] := p;
    }
    assert items[..f.count] == items;
  }

  lemma CountNext(tag: Item -> int, items: seq<Item>, i: nat, q: int)
    requires i < |items|
    ensures |Select(tag, items[..i + 1], q)| == |Select(tag, items[..i], q)| + if q == tag(items[i]) then 1 else 0
    ensures ByteSize(Select(tag, items[..i + 1], q)) == ByteSize(Select(tag, items[..i], q)) +
      if q == tag(items[i]) then |items[i].key| + |items[i].value| else 0
  {
    hide Select;
    var was := Select(tag, items[..i], q);
    SelectNext(tag, items, i, q);
    EncodeNext(was, items[i]);
    assert was + [] == was;
  }

  lemma NothingSelected(tag: Item -> int, p: int)
    ensures Select(tag, [], p) == [] && ByteSize([]) == 0
  {}

  lemma FragmentBounds(f: Fragment, i: nat)
    requires ValidFragment(f) && i < f.count
    ensures f.count < |f.offsets| && f.count <= |f.keyLengths|
    ensures f.offsets[i] + f.keyLengths[i] <= f.offsets[i + 1] <= |f.data|
    ensures Items(f)[i].key == f.data[f.offsets[i]..f.offsets[i] + f.keyLengths[i]]
    ensures Items(f)[i].key + Items(f)[i].value == f.data[f.offsets[i]..f.offsets[i + 1]]
    ensures |Items(f)[i].key| == f.keyLengths[i]
    ensures |Items(f)[i].key| + |Items(f)[i].value| == f.offsets[i + 1] - f.offsets[i] < WORD_LIMIT
  {}

  /** The offset table: each partition needs its bytes and two words for every record. */
  method PlacePartitions(ghost items: seq<Item>, counts: array<nat>, sizes: array<nat>, partitions: nat)
    returns (offsets: array<nat>, cursors: array<int>)
    requires 0 < partitions <= 0xffff_ffff && counts.Length == sizes.Length == partitions
    requires forall p :: 0 <= p < partitions ==> counts[p] == |Select(ByPartition(partitions), items, p)|
    requires forall p :: 0 <= p < partitions ==> sizes[p] == ByteSize(Select(ByPartition(partitions), items, p))
    ensures fresh(offsets) && fresh(cursors) && offsets.Length == partitions + 1 && cursors.Length == partitions
    ensures forall p :: 0 <= p <= partitions ==> offsets[p] == ByteStart(items, partitions, p)
    ensures forall p :: 0 <= p < partitions ==> cursors[p] == ByteStart(items, partitions, p)
  {
    hide Select, ByteSize, ByteStart;
    offsets, cursors := new nat[partitions + 1], new int[partitions];
    offsets[0] := 0;
    NoBytesBefore(items, partitions);
    for p := 0 to partitions
      invariant forall q :: 0 <= q <= p ==> offsets[q] == ByteStart(items, partitions, q)
      invariant forall q :: 0 <= q < p ==> cursors[q] == ByteStart(items, partitions, q)
    {
      ByteStretch(items, partitions, p);
      EncodedSize(Select(ByPartition(partitions), items, p));
      offsets[p + 1] := offsets[p] + sizes[p] + 16 * counts[p];
      cursors[p] := offsets[p];
    }
  }

  lemma NoBytesBefore(items: seq<Item>, partitions: nat)
    ensures ByteStart(items, partitions, 0) == 0
  {}

  /** memcpy. */
  method CopyBytes(data: array<byte>, at: nat, bytes: seq<byte>)
    requires at + |bytes| <= data.Length
    modifies data
    ensures data[..] == old(data[..at]) + bytes + old(data[at + |bytes|..])
  {
    ghost var was := data[..];
    for i := 0 to |bytes|
      invariant forall k :: 0 <= k < i ==> data[at + k] == bytes[k]
      invariant forall k :: 0 <= k < data.Length && (k < at || at + i <= k) ==> data[k] == was[k]
    {
      data[at + i] := bytes[i];
    }
    assert data[..] == was[..at] + bytes + was[at + |bytes|..];
  }

  ghost predicate AllWritten(items: seq<Item>, partitions: nat, i: nat, data: seq<byte>, cursors: seq<int>)
    requires i <= |items| && |cursors| == partitions
  {
    |data| == ByteStart(items, partitions, partitions) &&
    forall p {:trigger cursors[p]} :: 0 <= p < partitions ==> Written(items, partitions, i, data, p, cursors[p])
  }

  lemma NothingWritten(items: seq<Item>, partitions: nat, data: seq<byte>, cursors: seq<int>)
    requires |cursors| == partitions && |data| == ByteStart(items, partitions, partitions)
    requires forall p :: 0 <= p < partitions ==> cursors[p] == ByteStart(items, partitions, p)
    ensures AllWritten(items, partitions, 0, data, cursors)
  {
    forall p {:trigger cursors[p]} | 0 <= p < partitions ensures Written(items, partitions, 0, data, p, cursors[p]) {
      hide Buckets, ByteStart;
      ByteStartsOrdered(items, partitions, p, partitions);
      assert items[..0] == [];
      NothingSelected(ByPartition(partitions), p);
    }
  }

  lemma WriteNext(items: seq<Item>, partitions: nat, i: nat, data: seq<byte>, data': seq<byte>, cursors: seq<int>,
                  d: nat)
    requires i < |items| && |cursors| == partitions && AllWritten(items, partitions, i, data, cursors)
    requires d < partitions && d == ByPartition(partitions)(items[i])
    requires 0 <= cursors[d] && cursors[d] + |Encode(items[i])| <= |data| == |data'|
    requires data' == data[..cursors[d]] + Encode(items[i]) + data[cursors[d] + |Encode(items[i])|..]
    ensures AllWritten(items, partitions, i + 1, data', cursors[d := cursors[d] + |Encode(items[i])|])
  {
    hide Written, Encode, ByteStart, ByPartition;
    var cursors' := cursors[d := cursors[d] + |Encode(items[i])|];
    forall p | 0 <= p < partitions ensures Written(items, partitions, i + 1, data', p, cursors'[p]) {
      WriteOne(items, partitions, i, data, data', d, cursors[d], p, cursors[p]);
    }
  }

  lemma RoomInData(items: seq<Item>, partitions: nat, i: nat, data: seq<byte>, cursors: seq<int>, d: nat)
    requires i < |items| && |cursors| == partitions && AllWritten(items, partitions, i, data, cursors)
    requires d < partitions && d == ByPartition(partitions)(items[i])
    ensures 0 <= cursors[d] && cursors[d] + |Encode(items[i])| <= |data|
  {
    hide Encode, ByteStart, ByPartition, Select;
    assert Written(items, partitions, i, data, d, cursors[d]);
    RoomForNext(items, partitions, i, data, d, cursors[d]);
    ByteStartsOrdered(items, partitions, d + 1, partitions);
  }

  /** Everything written: each cursor has reached the start of the next partition. */
  lemma PartitionsComplete(items: seq<Item>, partitions: nat, data: seq<byte>, cursors: seq<int>, offsets: seq<nat>)
    requires 0 < partitions <= 0xffff_ffff && |cursors| == partitions && |offsets| == partitions + 1
    requires AllWritten(items, partitions, |items|, data, cursors)
    requires forall p :: 0 <= p <= partitions ==> offsets[p] == ByteStart(items, partitions, p)
    ensures Partitions(ShuffleBuffer(offsets, data), items, partitions)
    ensures forall p :: 0 <= p < partitions ==> cursors[p] == offsets[p + 1]
  {
    hide Select, Buckets, ByteStart, ByPartition;
    NoBytesBefore(items, partitions);
    assert items[..|items|] == items;
    forall p {:trigger offsets[p]} | 0 <= p < partitions
      ensures cursors[p] == offsets[p + 1]
      ensures offsets[p] <= offsets[p + 1] <= |data|
      ensures data[offsets[p]..offsets[p + 1]] == EncodeAll(Select(ByPartition(partitions), items, p))
    {
      assert Written(items, partitions, |items|, data, p, cursors[p]);
      ByteStretch(items, partitions, p);
    }
  }

  /** Writes every record, headers included, at the cursor of its partition. */
  method WriteRecords(f: Fragment, partitions: nat, chosen: array<nat>, cursors: array<int>, data: array<byte>)
    requires ValidFragment(f) && 0 < partitions <= 0xffff_ffff
    requires chosen.Length == f.count && cursors.Length == partitions
    requires forall i :: 0 <= i < f.count ==>
      chosen[i] == ByPartition(partitions)(Items(f)[i]) && chosen[i] < partitions
    requires AllWritten(Items(f), partitions, 0, data[..], cursors[..])
    modifies cursors, data
    ensures AllWritten(Items(f), partitions, f.count, data[..], cursors[..])
  {
    hide AllWritten, ByPartition, ValidFragment, Items;
    ghost var items := Items(f);
    for i := 0 to f.count
      invariant |items| == f.count
      invariant AllWritten(items, partitions, i, data[..], cursors[..])
    {
      FragmentBounds(f, i);
      var p := chosen[i];
      ghost var was, c := data[..], cursors[..];
      RoomInData(items, partitions, i, was, c, p);
      var record := f.data[f.offsets[i]..f.offsets[i + 1]];
      var bytes := WordBytes(|record|, 8) + WordBytes(f.keyLengths[i], 8) + record;
      assert bytes == Encode(items[i]);
      CopyBytes(data, cursors[p], bytes);
      cursors[p] := cursors[p] + |bytes|;
      assert cursors[..] == c[p := c[p] + |bytes|];
      WriteNext(items, partitions, i, was, data[..], c, p);
    }
  }

  /** Partitions one fragment. */
  method PartitionFragment(f: Fragment, partitions: nat) returns (b: ShuffleBuffer)
    requires ValidFragment(f) && 0 < partitions <= 0xffff_ffff
    ensures Partitions(b, Items(f), partitions)
    ensures |b.data| == ByteSize(Items(f)) + 16 * f.count
  {
    hide AllWritten, Partitions, ByteStart, Select, ByteSize, ValidFragment, Items, ByPartition;
    ghost var items := Items(f);
    var counts, sizes, chosen := CountRecords(f, partitions);
    var offsets, cursors := PlacePartitions(items, counts, sizes, partitions);
    TotalSize(f, partitions);
    var total := TotalBytes(f) + 16 * f.count;
    var data := new byte[total];
    NothingWritten(items, partitions, data[..], cursors[..]);
    WriteRecords(f, partitions, chosen, cursors, data);
    PartitionsComplete(items, partitions, data[..], cursors[..], offsets[..]);
    b := ShuffleBuffer(offsets[..], data[..]);
  }

  function TotalBytes(f: Fragment): nat
    requires ValidFragment(f)
  {
    TableAscends(f, f.count);
    f.offsets[f.count] - f.offsets[0]
  }

  lemma {:induction false} TableAscends(f: Fragment, i: nat)
    requires ValidFragment(f) && i <= f.count
    ensures f.offsets[0] <= f.offsets[i]
  {
    if i == 0 {
    } else {
      TableAscends(f, i - 1);
    }
  }

  /** The buffer size computed from the offset table is exactly what the partitions need. */
  lemma TotalSize(f: Fragment, partitions: nat)
    requires ValidFragment(f) && 0 < partitions <= 0xffff_ffff
    ensures |Items(f)| == f.count && ByteSize(Items(f)) == TotalBytes(f)
    ensures ByteStart(Items(f), partitions, partitions) == TotalBytes(f) + 16 * f.count
  {
    hide Select, Encode;
    var items, tag := Items(f), ByPartition(partitions);
    HashesBelow(items, partitions);
    BucketsPermute(tag, items, partitions);
    EncodedSize(Buckets(tag, items, partitions));
    SizePermuted(Buckets(tag, items, partitions), items);
    SizeUpTo(f, f.count);
    assert items[..f.count] == items;
  }

  lemma {:induction false} SizeUpTo(f: Fragment, i: nat)
    requires ValidFragment(f) && i <= f.count
    ensures f.offsets[0] <= f.offsets[i] && ByteSize(Items(f)[..i]) == f.offsets[i] - f.offsets[0]
  {
    if i == 0 {
    } else {
      SizeUpTo(f, i - 1);
      FragmentBounds(f, i - 1);
      assert Items(f)[..i] == Items(f)[..i - 1] + [Items(f)[i - 1]];
      EncodeNext(Items(f)[..i - 1], Items(f)[i - 1]);
    }
  }

  lemma {:induction false} SizePermuted(a: seq<Item>, b: seq<Item>)
    requires multiset(a) == multiset(b)
    ensures ByteSize(a) == ByteSize(b)
  {
    hide ByteSize;
    var j := MatchFirst(a, b);
    if |a| == 0 {
    } else {
      SizePermuted(a[..0] + a[1..], b[..j] + b[j + 1..]);
      SizeWithout(a, 0);
      SizeWithout(b, j);
    }
  }

  lemma {:induction false} SizeWithout(s: seq<Item>, j: nat)
    requires j < |s|
    ensures ByteSize(s) == ByteSize(s[..j] + s[j + 1..]) + |s[j].key| + |s[j].value|
  {
    hide ByteSize, EncodeAll;
    var t, last := s[..|s| - 1], s[|s| - 1];
    assert s == t + [last];
    EncodeNext(t, last);
    if j == |t| {
      assert s[..j] + s[j + 1..] == t;
    } else {
      SizeWithout(t, j);
      assert s[..j] + s[j + 1..] == (t[..j] + t[j + 1..]) + [last];
      EncodeNext(t[..j] + t[j + 1..], last);
    }
  }
}
