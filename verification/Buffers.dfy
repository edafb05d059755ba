/** Byte layouts shared by the shuffle and the value sort: concatenated chunks with offset
    tables, length words, and grouped buffers. */
module Buffers {
  import opened Machine

  // ----- Chunks

  function Flatten<T>(chunks: seq<seq<T>>): seq<T> {
    if |chunks| == 0 then [] else Flatten(chunks[..|chunks| - 1]) + chunks[|chunks| - 1]
  }

  /** Where chunk `i` starts. */
  function Offset<T>(chunks: seq<seq<T>>, i: nat): nat
    requires i <= |chunks|
  {
    |Flatten(chunks[..i])|
  }

  /** The offset table: the start of every chunk, and the end of the last one. */
  function Offsets<T>(chunks: seq<seq<T>>): (table: seq<nat>)
    ensures |table| == |chunks| + 1
    ensures forall i :: 0 <= i <= |chunks| ==> table[i] == Offset(chunks, i)
  {
    seq(|chunks| + 1, i requires 0 <= i <= |chunks| => Offset(chunks, i))
  }

  lemma FlattenNext<T>(chunks: seq<seq<T>>, c: seq<T>)
    ensures Flatten(chunks + [c]) == Flatten(chunks) + c
    ensures |Offsets(chunks + [c])| == |Offsets(chunks)| + 1
    ensures Offsets(chunks + [c]) == Offsets(chunks) + [Offset(chunks, |chunks|) + |c|]
  {
    var longer := chunks + [c];
    assert longer[..|chunks|] == chunks == chunks[..|chunks|];
    assert longer[..|longer|] == longer;
    forall i | 0 <= i <= |chunks| ensures Offset(longer, i) == Offset(chunks, i) {
      assert longer[..i] == chunks[..i];
    }
  }

  lemma {:induction false} FlattenSum<T>(a: seq<seq<T>>, b: seq<seq<T>>)
    ensures Flatten(a + b) == Flatten(a) + Flatten(b)
  {
    hide Flatten, Offsets;
    if |b| == 0 {
      assert a + b == a && b == [];
      FlattenNothing<T>();
    } else {
      var c, last := b[..|b| - 1], b[|b| - 1];
      assert b == c + [last] && a + b == (a + c) + [last];
      FlattenSum(a, c);
      FlattenNext(c, last);
      FlattenNext(a + c, last);
    }
  }

  lemma FlattenNothing<T>()
    ensures Flatten<T>([]) == []
  {}

  /** The offset table finds every chunk again. */
  lemma FlattenSlice<T>(chunks: seq<seq<T>>, i: nat)
    requires i < |chunks|
    ensures Offset(chunks, i) <= Offset(chunks, i + 1) <= |Flatten(chunks)|
    ensures Offset(chunks, i + 1) == Offset(chunks, i) + |chunks[i]|
    ensures Flatten(chunks)[Offset(chunks, i)..Offset(chunks, i + 1)] == chunks[i]
  {
    var head, tail := chunks[..i + 1], chunks[i + 1..];
    assert chunks == head + tail;
    FlattenSum(head, tail);
    assert head == chunks[..i] + [chunks[i]];
    FlattenNext(chunks[..i], chunks[i]);
  }

  lemma FlattenWhole<T>(chunks: seq<seq<T>>)
    ensures Offset(chunks, |chunks|) == |Flatten(chunks)|
  {
    assert chunks[..|chunks|] == chunks;
  }

  lemma FlattenOne<T>(chunk: seq<T>)
    ensures Flatten([chunk]) == chunk
  {
    FlattenNext([], chunk);
    assert [] + [chunk] == [chunk];
  }

  // ----- Length words

  /** `size` bytes of `n`, least significant first. */
  function WordBytes(n: nat, size: nat): (b: seq<byte>)
    ensures |b| == size
  {
    if size == 0 then [] else [n % 256] + WordBytes(n / 256, size - 1)
  }

  function ReadBytes(b: seq<byte>): nat {
    if |b| == 0 then 0 else b[0] + 256 * ReadBytes(b[1..])
  }

  function Limit(size: nat): nat {
    if size == 0 then 1 else 256 * Limit(size - 1)
  }

  lemma {:induction false} ReadWritten(n: nat, size: nat)
    requires n < Limit(size)
    ensures ReadBytes(WordBytes(n, size)) == n
  {
    if size == 0 {
    } else {
      ReadWritten(n / 256, size - 1);
      assert WordBytes(n, size)[1..] == WordBytes(n / 256, size - 1);
    }
  }

  lemma WordLimit()
    ensures Limit(8) == WORD_LIMIT
  {
    assert Limit(4) == 0x1_0000_0000;
  }

  // ----- Grouped buffers

  /** A key and the values that belong to it. */
  datatype KeyGroup = KeyGroup(key: seq<byte>, values: seq<seq<byte>>)

  /** The sections of a grouped buffer. */
  datatype Grouped = Grouped(keys: seq<byte>, keyOffsets: seq<nat>, values: seq<byte>, valueOffsets: seq<nat>,
                             groupOffsets: seq<nat>)

  function Keys(groups: seq<KeyGroup>): (k: seq<seq<byte>>)
    ensures |k| == |groups|
    ensures forall i :: 0 <= i < |k| ==> k[i] == groups[i].key
  {
    seq(|groups|, i requires 0 <= i < |groups| => groups[i].key)
  }

  function ValueLists(groups: seq<KeyGroup>): (v: seq<seq<seq<byte>>>)
    ensures |v| == |groups|
    ensures forall i :: 0 <= i < |v| ==> v[i] == groups[i].values
  {
    seq(|groups|, i requires 0 <= i < |groups| => groups[i].values)
  }

  function AllValues(groups: seq<KeyGroup>): seq<seq<byte>> {
    Flatten(ValueLists(groups))
  }

  /** The bytes of each group's values. */
  function GroupBytes(groups: seq<KeyGroup>): (b: seq<seq<byte>>)
    ensures |b| == |groups|
    ensures forall i :: 0 <= i < |b| ==> b[i] == Flatten(groups[i].values)
  {
    seq(|groups|, i requires 0 <= i < |groups| => Flatten(groups[i].values))
  }

  function Layout(groups: seq<KeyGroup>): Grouped {
    Grouped(Flatten(Keys(groups)), Offsets(Keys(groups)), Flatten(AllValues(groups)), Offsets(AllValues(groups)),
      Offsets(GroupBytes(groups)))
  }

  /** How many values come before group `g`. */
  function FirstValue(groups: seq<KeyGroup>, g: nat): nat
    requires g <= |groups|
  {
    |AllValues(groups[..g])|
  }

  lemma {:induction false} BytesOfValues(groups: seq<KeyGroup>)
    ensures Flatten(AllValues(groups)) == Flatten(GroupBytes(groups))
  {
    if |groups| == 0 {
    } else {
      var m := |groups| - 1;
      BytesOfValues(groups[..m]);
      assert ValueLists(groups)[..m] == ValueLists(groups[..m]);
      assert GroupBytes(groups)[..m] == GroupBytes(groups[..m]);
      FlattenSum(AllValues(groups[..m]), groups[m].values);
    }
  }

  lemma AllValuesSplit(groups: seq<KeyGroup>, g: nat)
    requires g <= |groups|
    ensures AllValues(groups) == AllValues(groups[..g]) + AllValues(groups[g..])
  {
    FlattenSum(ValueLists(groups[..g]), ValueLists(groups[g..]));
    assert ValueLists(groups) == ValueLists(groups[..g]) + ValueLists(groups[g..]);
  }

  /** A group starts where its first value starts. */
  lemma GroupStartsAtFirstValue(groups: seq<KeyGroup>, g: nat)
    requires g <= |groups|
    ensures FirstValue(groups, g) <= |AllValues(groups)|
    ensures Layout(groups).groupOffsets[g] == Layout(groups).valueOffsets[FirstValue(groups, g)]
  {
    AllValuesSplit(groups, g);
    var all := AllValues(groups);
    assert all[..FirstValue(groups, g)] == AllValues(groups[..g]);
    BytesOfValues(groups[..g]);
    assert GroupBytes(groups)[..g] == GroupBytes(groups[..g]);
  }
}
