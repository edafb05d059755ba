/** The sections of a serialized buffer: where the allocators put them, and where a reader of the headers
    finds them again. Offsets and sizes are in bytes; memory is an array of eight-byte words. */
module SerializedBuffer {
  import opened Machine
  import opened Options

  // ----- Alignment

  const WORD_ALIGN: nat := 8
  const MAX_ALIGN: nat := 16

  /** `(x + align - 1) & ~(align - 1)` on 64-bit words. */
  function AlignCeil(x: Word, align: nat): Word
    requires align == WORD_ALIGN || align == MAX_ALIGN
  {
    var y := WrapAdd(x, align - 1);
    if align == WORD_ALIGN then y - y % 8 else y - y % 16
  }

  /** Masking the low bits off is subtracting the remainder. */
  lemma MaskIsRemainder(y: bv64)
    ensures y & !7 == y - y % 8
    ensures y & !15 == y - y % 16
  {}

  /** Rounding up without a limit. */
  function Ceil(x: nat, align: nat): nat
    requires align == WORD_ALIGN || align == MAX_ALIGN
  {
    if align == WORD_ALIGN then (x + 7) / 8 * 8 else (x + 15) / 16 * 16
  }

  /** The rounded word is right whenever it fits. */
  lemma AlignCeilFacts(x: Word, align: nat)
    requires (align == WORD_ALIGN || align == MAX_ALIGN) && Ceil(x, align) < WORD_LIMIT
    ensures AlignCeil(x, align) == Ceil(x, align)
  {
    CeilBounds(x, align);
    if align == WORD_ALIGN {
      MultipleBelow8(x + 7);
    } else {
      MultipleBelow16(x + 15);
    }
  }

  lemma MultipleBelow8(y: nat)
    ensures y - y % 8 == y / 8 * 8 && (y / 8 * 8 < WORD_LIMIT ==> y < WORD_LIMIT)
  {}

  lemma MultipleBelow16(y: nat)
    ensures y - y % 16 == y / 16 * 16 && (y / 16 * 16 < WORD_LIMIT ==> y < WORD_LIMIT)
  {}

  lemma CeilBounds(x: nat, align: nat)
    requires align == WORD_ALIGN || align == MAX_ALIGN
    ensures x <= Ceil(x, align) < x + align
    ensures Ceil(x, align) % 8 == 0 && (align == MAX_ALIGN ==> Ceil(x, align) % 16 == 0)
  {
    if align == MAX_ALIGN {
      var q := (x + 15) / 16;
      assert q * 16 == 8 * (2 * q);
    }
  }

  // ----- Sections

  const COMMON_HEADER: nat := 16
  const KEYS_HEADER: nat := 16
  const VALUES_HEADER: nat := 24

  datatype KeySections = KeySections(header: nat, data: nat, offsets: nat)

  datatype ValueSections = ValueSections(header: nat, data: nat, offsets: nat, keyLengths: Option<nat>,
                                         groupOffsets: Option<nat>)

  /** What a buffer object points to. */
  datatype View = View(keys: Option<KeySections>, values: Option<ValueSections>)

  /** The keys section: header, data, offset table. */
  function KeysAt(base: nat, dataSize: nat): KeySections {
    var data := Ceil(base + KEYS_HEADER, 16);
    KeySections(base, data, data + dataSize)
  }

  function KeysEnd(base: nat, dataSize: nat, groups: nat): nat {
    KeysAt(base, dataSize).offsets + 8 * (groups + 1)
  }

  function ValuesDataAt(base: nat): nat {
    Ceil(base + VALUES_HEADER, 16)
  }

  /** Where the value offsets end. */
  function OffsetsEnd(base: nat, dataSize: nat, records: nat): nat {
    ValuesDataAt(base) + dataSize + 8 * (records + 1)
  }

  function ValuesAt(base: nat, dataSize: nat, records: nat, kind: Kind): ValueSections {
    var end := OffsetsEnd(base, dataSize, records);
    ValueSections(base, ValuesDataAt(base), ValuesDataAt(base) + dataSize,
      if kind.KeyValue? then Some(end) else None, if kind.Grouped? then Some(end) else None)
  }

  datatype Kind = ValueOnly | KeyValue | Grouped

  /** What is asked for. `groups` and `keySize` matter only for grouped buffers. */
  datatype Request = Request(kind: Kind, records: Word, size: Word, groups: Word, keySize: Word)

  function ValuesBase(r: Request): nat {
    if r.kind.Grouped? then KeysEnd(COMMON_HEADER, Ceil(r.keySize, 8), r.groups) else COMMON_HEADER
  }

  function Tail(r: Request): nat {
    match r.kind
    case ValueOnly => 0
    case KeyValue => 8 * r.records
    case Grouped => 8 * (r.groups + 1)
  }

  /** The size without wrap-around. */
  function TotalSize(r: Request): nat {
    OffsetsEnd(ValuesBase(r), Ceil(r.size, 8), r.records) + Tail(r)
  }

  function Layout(r: Request): View {
    View(if r.kind.Grouped? then Some(KeysAt(COMMON_HEADER, Ceil(r.keySize, 8))) else None,
      Some(ValuesAt(ValuesBase(r), Ceil(r.size, 8), r.records, r.kind)))
  }

  // ----- Headers

  ghost predicate WordAt(words: seq<Word>, offset: nat, w: nat) {
    offset % 8 == 0 && offset / 8 < |words| && words[offset / 8] == w
  }

  /** The headers an allocator leaves behind. */
  ghost predicate HeadersFor(words: seq<Word>, r: Request) {
    var base := ValuesBase(r);
    && WordAt(words, 0, base - COMMON_HEADER) && WordAt(words, 8, TotalSize(r) - base)
    && (r.kind.Grouped? ==> WordAt(words, 16, Ceil(r.keySize, 8)) && WordAt(words, 24, r.groups))
    && WordAt(words, base, Ceil(r.size, 8)) && WordAt(words, base + 8, r.records) && WordAt(words, base + 16, 0)
  }

  /** Reading a word that may lie outside. */
  function Read(words: seq<Word>, offset: nat): Word {
    if offset / 8 < |words| then words[offset / 8] else 0
  }

  /** What the headers say. */
  function Parse(words: seq<Word>): View {
    var keyBytes, valueBytes := Read(words, 0), Read(words, 8);
    var tail := COMMON_HEADER + keyBytes + valueBytes;
    var keys := if keyBytes > 0 then Some(KeysAt(COMMON_HEADER, Read(words, 16))) else None;
    var base := if keyBytes > 0 then KeysEnd(COMMON_HEADER, Read(words, 16), Read(words, 24)) else COMMON_HEADER;
    if valueBytes == 0 then View(keys, None)
    else
      var size, records := Read(words, base), Read(words, base + 8);
      var end := OffsetsEnd(base, size, records);
      View(keys, Some(ValuesAt(base, size, records,
        if end == tail then ValueOnly else if keyBytes == 0 then KeyValue else Grouped)))
  }

  // ----- The round trip

  lemma BaseFacts(r: Request)
    ensures ValuesBase(r) % 8 == 0 && ValuesBase(r) >= COMMON_HEADER
    ensures r.kind.Grouped? ==> ValuesBase(r) >= 40
    ensures ValuesBase(r) + VALUES_HEADER <= ValuesDataAt(ValuesBase(r)) < TotalSize(r)
  {
    CeilBounds(r.keySize, 8);
    CeilBounds(r.size, 8);
    CeilBounds(ValuesBase(r) + VALUES_HEADER, 16);
    assert Ceil(COMMON_HEADER + KEYS_HEADER, 16) == 32;
  }

  lemma WordsRead(words: seq<Word>, offset: nat, w: nat)
    requires WordAt(words, offset, w)
    ensures Read(words, offset) == w
  {}

  /** Reading the headers of a fresh buffer finds every section where the allocator put it, and the kind
      it was allocated as. A key-value buffer without room for records is the one exception: it reads as
      value-only. */
  lemma ReparseFindsLayout(words: seq<Word>, r: Request)
    requires HeadersFor(words, r)
    ensures Parse(words) == Layout(if r.kind.KeyValue? && r.records == 0 then r.(kind := ValueOnly) else r)
    ensures Parse(words) == Layout(r) <==> !(r.kind.KeyValue? && r.records == 0)
  {
    var base := ValuesBase(r);
    BaseFacts(r);
    WordsRead(words, 0, base - COMMON_HEADER);
    WordsRead(words, 8, TotalSize(r) - base);
    if r.kind.Grouped? {
      WordsRead(words, 16, Ceil(r.keySize, 8));
      WordsRead(words, 24, r.groups);
    }
    WordsRead(words, base, Ceil(r.size, 8));
    WordsRead(words, base + 8, r.records);
    hide Read, Ceil, WordAt;
  }

  /** The smallest such buffer: seven words, of which only the size of the values is not zero. */
  lemma KeyValueWithoutRecords()
    ensures HeadersFor([0, 40, 0, 0, 0, 0, 0], Request(KeyValue, 0, 0, 0, 0))
    ensures Parse([0, 40, 0, 0, 0, 0, 0]) == Layout(Request(ValueOnly, 0, 0, 0, 0)) != Layout(Request(KeyValue, 0, 0, 0, 0))
  {
    ReparseFindsLayout([0, 40, 0, 0, 0, 0, 0], Request(KeyValue, 0, 0, 0, 0));
  }

  // ----- Where the sections lie

  datatype Section = Section(start: nat, end: nat)

  function ValueSectionsOf(r: Request): seq<Section> {
    var v := Layout(r).values.value;
    [Section(v.header, v.header + VALUES_HEADER), Section(v.data, v.data + r.size),
     Section(v.offsets, v.offsets + 8 * (r.records + 1))]
  }

  function SectionsOf(r: Request): seq<Section> {
    var v, common, values := Layout(r).values.value, Section(0, COMMON_HEADER), ValueSectionsOf(r);
    match r.kind
    case ValueOnly => [common, values[0], values[1], values[2]]
    case KeyValue =>
      [common, values[0], values[1], values[2], Section(v.keyLengths.value, v.keyLengths.value + 8 * r.records)]
    case Grouped =>
      var k := Layout(r).keys.value;
      [common, Section(k.header, k.header + KEYS_HEADER), Section(k.data, k.data + r.keySize),
       Section(k.offsets, k.offsets + 8 * (r.groups + 1)), values[0], values[1], values[2],
       Section(v.groupOffsets.value, v.groupOffsets.value + 8 * (r.groups + 1))]
  }

  /** Sections follow each other, inside the buffer, on word boundaries. */
  ghost predicate WellPlaced(sections: seq<Section>, size: nat) {
    && (forall i :: 0 <= i < |sections| ==> sections[i].start % 8 == 0 && sections[i].start <= sections[i].end <= size)
    && (forall i, j :: 0 <= i < j < |sections| ==> sections[i].end <= sections[j].start)
  }

  /** No space is left but for alignment: less than sixteen bytes before a section, less than eight at the end. */
  ghost predicate Tight(sections: seq<Section>, size: nat) {
    && (forall i :: 0 <= i < |sections| - 1 ==> sections[i + 1].start < sections[i].end + 16)
    && |sections| > 0 && size < sections[|sections| - 1].end + 8
  }

  lemma SectionsAreDisjoint(r: Request)
    ensures WellPlaced(SectionsOf(r), TotalSize(r))
    ensures Layout(r).values.value.data % 16 == 0
    ensures r.kind.Grouped? ==> Layout(r).keys.value.data % 16 == 0
    ensures Tight(SectionsOf(r), TotalSize(r))
  {
    DataAligned(r);
    match r.kind {
      case ValueOnly => PlainSections(r);
      case KeyValue => PlainSections(r);
      case Grouped => GroupedSections(r);
    }
    hide SectionsOf, TotalSize, Layout;
    StepwiseOrdered(SectionsOf(r), TotalSize(r));
  }

  lemma DataAligned(r: Request)
    ensures Layout(r).values.value.data % 16 == 0
    ensures r.kind.Grouped? ==> Layout(r).keys.value.data % 16 == 0
  {
    CeilBounds(ValuesBase(r) + VALUES_HEADER, 16);
    CeilBounds(COMMON_HEADER + KEYS_HEADER, 16);
    hide Ceil, ValuesBase;
  }

  ghost predicate Stepwise(s: seq<Section>, size: nat) {
    && (forall i :: 0 <= i < |s| ==> s[i].start % 8 == 0 && s[i].start <= s[i].end <= size)
    && (forall i :: 0 <= i < |s| - 1 ==> s[i].end <= s[i + 1].start)
  }

  lemma PlainSections(r: Request)
    requires !r.kind.Grouped?
    ensures Stepwise(SectionsOf(r), TotalSize(r)) && Tight(SectionsOf(r), TotalSize(r))
  {
    ValuePart(r);
    assert ValuesBase(r) == COMMON_HEADER;
    hide Ceil, ValuesBase, ValueSectionsOf, ValuesAt, KeysAt, TotalSize;
  }

  lemma GroupedSections(r: Request)
    requires r.kind.Grouped?
    ensures Stepwise(SectionsOf(r), TotalSize(r)) && Tight(SectionsOf(r), TotalSize(r))
  {
    ValuePart(r);
    KeyPart(r);
    hide Ceil, ValuesBase, ValueSectionsOf, ValuesAt, KeysAt, TotalSize;
  }

  lemma {:induction false} ValuePart(r: Request)
    ensures var v, s := Layout(r).values.value, ValueSectionsOf(r);
      && COMMON_HEADER <= ValuesBase(r) == s[0].start && s[0].start % 8 == s[1].start % 8 == s[2].start % 8 == 0
      && s[0].end <= s[1].start <= s[1].end <= s[2].start <= s[2].end <= TotalSize(r)
      && (r.kind.KeyValue? ==> v.keyLengths == Some(s[2].end) && s[2].end + 8 * r.records == TotalSize(r))
      && (r.kind.Grouped? ==> v.groupOffsets == Some(s[2].end) && s[2].end + 8 * (r.groups + 1) == TotalSize(r))
      && s[2].end % 8 == 0 && s[1].start < s[0].end + 16 && s[2].start < s[1].end + 8
      && (r.kind.ValueOnly? ==> s[2].end == TotalSize(r))
  {
    BaseFacts(r);
    var data := ValuesDataAt(ValuesBase(r));
    CeilBounds(ValuesBase(r) + VALUES_HEADER, 16);
    CeilBounds(r.size, 8);
    hide Ceil, ValuesBase;
    SumOfEights(data, Ceil(r.size, 8), r.records + 1);
  }

  lemma SumOfEights(a: nat, b: nat, n: nat)
    requires a % 8 == 0 && b % 8 == 0
    ensures (a + b) % 8 == 0 && (a + b + 8 * n) % 8 == 0
  {}

  lemma {:induction false} KeyPart(r: Request)
    requires r.kind.Grouped?
    ensures var k := Layout(r).keys.value;
      && k.header == 16 && k.data == 32 && k.offsets % 8 == 0 && k.data + r.keySize <= k.offsets
      && k.offsets + 8 * (r.groups + 1) == ValuesBase(r) && k.offsets < k.data + r.keySize + 8
  {
    CeilBounds(r.keySize, 8);
    assert Ceil(COMMON_HEADER + KEYS_HEADER, 16) == 32;
    hide Ceil;
    SumOfEights(32, Ceil(r.keySize, 8), 0);
  }

  lemma StepwiseOrdered(s: seq<Section>, size: nat)
    requires Stepwise(s, size)
    ensures WellPlaced(s, size)
  {
    forall i, j | 0 <= i < j < |s| ensures s[i].end <= s[j].start {
      StepsBetween(s, i, j);
    }
  }

  lemma {:induction false} StepsBetween(s: seq<Section>, i: nat, j: nat)
    requires i < j < |s|
    requires forall k :: 0 <= k < |s| ==> s[k].start <= s[k].end
    requires forall k :: 0 <= k < |s| - 1 ==> s[k].end <= s[k + 1].start
    ensures s[i].end <= s[j].start
  {
    if i < j - 1 {
      StepsBetween(s, i, j - 1);
    }
  }

  // ----- The object

  /** The words the constructor reads lie inside the memory. */
  ghost predicate HeadersInside(words: seq<Word>) {
    && |words| >= 2
    && (words[0] > 0 ==> |words| >= 4)
    && (words[1] > 0 ==> ParsedBase(words) / 8 + 1 < |words|)
  }

  function ParsedBase(words: seq<Word>): nat {
    if Read(words, 0) > 0 then KeysEnd(COMMON_HEADER, Read(words, 16), Read(words, 24)) else COMMON_HEADER
  }

  class SerializedBuffer {
    const memory: array<Word>
    var keys: Option<KeySections>
    var values: Option<ValueSections>

    function Sections(): View
      reads this
    {
      View(keys, values)
    }

    /** Walks over the headers. */
    constructor (mem: array<Word>)
      requires HeadersInside(mem[..])
      ensures memory == mem && Sections() == Parse(mem[..])
    {
      ghost var words := mem[..];
      var cur: int := COMMON_HEADER;
      var tail := COMMON_HEADER + mem[0] + mem[1];
      var k: Option<KeySections>, v: Option<ValueSections> := None, None;
      if mem[0] > 0 {
        var header := cur;
        cur := Ceil(cur + KEYS_HEADER, MAX_ALIGN);
        var data := cur;
        cur := cur + mem[header / 8];
        k := Some(KeySections(header, data, cur));
        var groups: int := mem[header / 8 + 1];
        cur := cur + 8 * (groups + 1);
      }
      if mem[1] > 0 {
        var header := cur;
        cur := Ceil(cur + VALUES_HEADER, MAX_ALIGN);
        var data := cur;
        cur := cur + mem[header / 8];
        var offsets := cur;
        var records: int := mem[header / 8 + 1];
        cur := cur + 8 * (records + 1);
        v := Some(ValueSections(header, data, offsets, None, None));
        if cur != tail {
          if mem[0] == 0 {
            v := Some(ValueSections(header, data, offsets, Some(cur), None));
          } else {
            v := Some(ValueSections(header, data, offsets, None, Some(cur)));
          }
        }
      }
      memory, keys, values := mem, k, v;
    }
  }

  lemma HeadersAreInside(words: seq<Word>, r: Request)
    requires HeadersFor(words, r)
    ensures HeadersInside(words)
  {
    BaseFacts(r);
    WordsRead(words, 0, ValuesBase(r) - COMMON_HEADER);
    if r.kind.Grouped? {
      WordsRead(words, 16, Ceil(r.keySize, 8));
      WordsRead(words, 24, r.groups);
    }
    hide Ceil;
  }

  // ----- The allocators

  /** What every allocator delivers. */
  ghost predicate Delivered(b: SerializedBuffer, r: Request)
    reads b, b.memory
  {
    && b.memory.Length * 8 == TotalSize(r) && HeadersFor(b.memory[..], r)
    && b.Sections() == Layout(if r.kind.KeyValue? && r.records == 0 then r.(kind := ValueOnly) else r)
  }

  /** The wrapped sums of a value section are the exact ones. */
  lemma ValueSums(base: Word, size: Word, records: Word, total: nat)
    requires OffsetsEnd(base, Ceil(size, 8), records) <= total < WORD_LIMIT
    ensures Ceil(size, 8) < WORD_LIMIT && AlignCeil(size, 8) == Ceil(size, 8)
    ensures base + VALUES_HEADER < WORD_LIMIT && AlignCeil(base + VALUES_HEADER, 16) == ValuesDataAt(base) < WORD_LIMIT
    ensures records + 1 < WORD_LIMIT && 8 * (records + 1) < WORD_LIMIT
    ensures ValuesDataAt(base) + Ceil(size, 8) < WORD_LIMIT
  {
    CeilBounds(base + VALUES_HEADER, 16);
    CeilBounds(size, 8);
    AlignCeilFacts(size, 8);
    AlignCeilFacts(base + VALUES_HEADER, 16);
  }

  lemma NoWrap()
    ensures forall a: Word, b: Word {:trigger WrapAdd(a, b)} :: a + b < WORD_LIMIT ==> WrapAdd(a, b) == a + b
    ensures forall a: Word {:trigger WrapMul(a, 8)} :: a * 8 < WORD_LIMIT ==> WrapMul(a, 8) == 8 * a
  {}

  method AllocateValueOnlyBuffer(records: Word, size: Word) returns (b: SerializedBuffer)
    requires TotalSize(Request(ValueOnly, records, size, 0, 0)) < WORD_LIMIT
    ensures fresh(b) && fresh(b.memory) && Delivered(b, Request(ValueOnly, records, size, 0, 0))
  {
    hide Ceil, Delivered, HeadersFor, HeadersInside, Parse, Layout, WrapAdd, WrapMul, AlignCeil;
    NoWrap();
    ghost var r := Request(ValueOnly, records, size, 0, 0);
    ValueSums(16, size, records, TotalSize(r));
    BaseFacts(r);
    var bufferSize: Word := COMMON_HEADER;
    var header := bufferSize;
    bufferSize := WrapAdd(bufferSize, VALUES_HEADER);
    bufferSize := AlignCeil(bufferSize, MAX_ALIGN);
    var data := bufferSize;
    bufferSize := WrapAdd(bufferSize, AlignCeil(size, WORD_ALIGN));
    var offsets := bufferSize;
    bufferSize := WrapAdd(bufferSize, WrapMul(WrapAdd(records, 1), 8));
    b := Finish(r, bufferSize, 0, 0, header, offsets - data, records);
  }

  method AllocateKeyValueBuffer(records: Word, size: Word) returns (b: SerializedBuffer)
    requires TotalSize(Request(KeyValue, records, size, 0, 0)) < WORD_LIMIT
    ensures fresh(b) && fresh(b.memory) && Delivered(b, Request(KeyValue, records, size, 0, 0))
  {
    hide Ceil, Delivered, HeadersFor, HeadersInside, Parse, Layout, WrapAdd, WrapMul, AlignCeil;
    NoWrap();
    ghost var r := Request(KeyValue, records, size, 0, 0);
    ValueSums(16, size, records, TotalSize(r));
    BaseFacts(r);
    var bufferSize: Word := COMMON_HEADER;
    var header := bufferSize;
    bufferSize := WrapAdd(bufferSize, VALUES_HEADER);
    bufferSize := AlignCeil(bufferSize, MAX_ALIGN);
    var data := bufferSize;
    bufferSize := WrapAdd(bufferSize, AlignCeil(size, WORD_ALIGN));
    var offsets := bufferSize;
    bufferSize := WrapAdd(bufferSize, WrapMul(WrapAdd(records, 1), 8));
    bufferSize := WrapAdd(bufferSize, WrapMul(records, 8));
    b := Finish(r, bufferSize, 0, 0, header, offsets - data, records);
  }

  method AllocateGroupedBuffer(records: Word, groups: Word, keySize: Word, size: Word) returns (b: SerializedBuffer)
    requires TotalSize(Request(Grouped, records, size, groups, keySize)) < WORD_LIMIT
    ensures fresh(b) && fresh(b.memory) && Delivered(b, Request(Grouped, records, size, groups, keySize))
  {
    hide Ceil, Delivered, HeadersFor, HeadersInside, Parse, Layout, WrapAdd, WrapMul, AlignCeil;
    NoWrap();
    ghost var r := Request(Grouped, records, size, groups, keySize);
    BaseFacts(r);
    KeySums(r);
    ValueSums(ValuesBase(r), size, records, TotalSize(r));
    var bufferSize: Word := COMMON_HEADER;
    bufferSize := WrapAdd(bufferSize, KEYS_HEADER);
    bufferSize := AlignCeil(bufferSize, MAX_ALIGN);
    var keysData := bufferSize;
    bufferSize := WrapAdd(bufferSize, AlignCeil(keySize, WORD_ALIGN));
    var keysOffsets := bufferSize;
    bufferSize := WrapAdd(bufferSize, WrapMul(WrapAdd(groups, 1), 8));
    var header := bufferSize;
    bufferSize := WrapAdd(bufferSize, VALUES_HEADER);
    bufferSize := AlignCeil(bufferSize, MAX_ALIGN);
    var data := bufferSize;
    bufferSize := WrapAdd(bufferSize, AlignCeil(size, WORD_ALIGN));
    var offsets := bufferSize;
    bufferSize := WrapAdd(bufferSize, WrapMul(WrapAdd(records, 1), 8));
    bufferSize := WrapAdd(bufferSize, WrapMul(WrapAdd(groups, 1), 8));
    b := Finish(r, bufferSize, keysOffsets - keysData, groups, header, offsets - data, records);
  }

  lemma KeySums(r: Request)
    requires r.kind.Grouped? && TotalSize(r) < WORD_LIMIT
    ensures Ceil(r.keySize, 8) < WORD_LIMIT && AlignCeil(r.keySize, 8) == Ceil(r.keySize, 8)
    ensures AlignCeil(COMMON_HEADER + KEYS_HEADER, 16) == 32 && 32 + Ceil(r.keySize, 8) < WORD_LIMIT
    ensures r.groups + 1 < WORD_LIMIT && 8 * (r.groups + 1) < WORD_LIMIT
    ensures ValuesBase(r) == 32 + Ceil(r.keySize, 8) + 8 * (r.groups + 1) < WORD_LIMIT
  {
    BaseFacts(r);
    CeilBounds(r.keySize, 8);
    assert Ceil(COMMON_HEADER + KEYS_HEADER, 16) == 32;
    AlignCeilFacts(COMMON_HEADER + KEYS_HEADER, 16);
    AlignCeilFacts(r.keySize, 8);
  }

  /** Allocates the memory, writes the headers and reads them back. */
  method Finish(ghost r: Request, bufferSize: Word, keyBytes: Word, groups: Word, header: Word, valueBytes: Word,
                records: Word)
    returns (b: SerializedBuffer)
    requires bufferSize == TotalSize(r) && header == ValuesBase(r) && valueBytes == Ceil(r.size, 8) && records == r.records
    requires r.kind.Grouped? ==> keyBytes == Ceil(r.keySize, 8) && groups == r.groups
    ensures fresh(b) && fresh(b.memory) && Delivered(b, r)
  {
    BaseFacts(r);
    SizeIsWords(r);
    hide Ceil;
    var mem := new Word[bufferSize / 8];
    mem[0], mem[1] := header - COMMON_HEADER, bufferSize - header;
    if header > COMMON_HEADER {
      mem[2], mem[3] := keyBytes, groups;
    }
    mem[header / 8], mem[header / 8 + 1], mem[header / 8 + 2] := valueBytes, records, 0;
    assert HeadersFor(mem[..], r);
    HeadersAreInside(mem[..], r);
    ReparseFindsLayout(mem[..], r);
    hide HeadersFor, HeadersInside, Parse, Layout;
    b := new SerializedBuffer(mem);
  }

  lemma SizeIsWords(r: Request)
    ensures TotalSize(r) % 8 == 0 && ValuesBase(r) / 8 + 2 < TotalSize(r) / 8
    ensures r.kind.Grouped? <==> ValuesBase(r) > COMMON_HEADER
  {
    hide Ceil, TotalSize, ValuesDataAt, Tail;
    BaseFacts(r);
    SizeIsEven(r);
    WordsBetween(ValuesBase(r), TotalSize(r));
    hide KeysEnd;
  }

  lemma SizeIsEven(r: Request)
    ensures TotalSize(r) % 8 == 0
  {
    BaseFacts(r);
    CeilBounds(ValuesBase(r) + VALUES_HEADER, 16);
    CeilBounds(r.size, 8);
    hide Ceil, ValuesBase;
    SumOfEights(ValuesDataAt(ValuesBase(r)), Ceil(r.size, 8), r.records + 1);
    match r.kind {
      case ValueOnly =>
      case KeyValue => SumOfEights(OffsetsEnd(ValuesBase(r), Ceil(r.size, 8), r.records), 0, r.records);
      case Grouped => SumOfEights(OffsetsEnd(ValuesBase(r), Ceil(r.size, 8), r.records), 0, r.groups + 1);
    }
  }

  lemma WordsBetween(base: nat, size: nat)
    requires base % 8 == 0 && size % 8 == 0 && base + 24 < size
    ensures base / 8 + 2 < size / 8
  {}
}
