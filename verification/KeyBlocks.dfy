/** Records of the shuffle buffers and the eight-byte key blocks the radix sort compares. */
module KeyBlocks {
  import opened Machine

  /** What a record pointer leads to: the fragment and offset where the record lies, and its bytes. */
  datatype Record = Record(fragment: nat, offset: nat, key: seq<byte>, value: seq<byte>)

  /** The word found in memory `k` bytes past the start of a key that ends before `k`:
      whatever happens to follow the key. */
  type Stray = (Record, nat) -> Word

  // ----- Blocks

  function BigEndian(s: seq<byte>): nat {
    if |s| == 0 then 0 else BigEndian(s[..|s| - 1]) * 256 + s[|s| - 1]
  }

  /** Eight bytes of the key from `k` on, zeros standing in for what is missing. */
  function PaddedBlock(key: seq<byte>, k: nat): (block: seq<byte>)
    ensures |block| == 8
    ensures forall i :: 0 <= i < 8 ==> block[i] == if k + i < |key| then key[k + i] else 0
  {
    seq(8, i requires 0 <= i < 8 => if k + i < |key| then key[k + i] else 0)
  }

  function PaddedWord(key: seq<byte>, k: nat): Word {
    BigEndianBound(PaddedBlock(key, k));
    BigEndian(PaddedBlock(key, k))
  }

  /** The block loaded at offset `k`. The remaining length is an unsigned difference, so a key
      that ended before `k` appears to have a very long rest and memory behind it is read. */
  function Block(stray: Stray, r: Record, k: nat): Word {
    if (|r.key| - k) % WORD_LIMIT >= 8 && |r.key| < k + 8 then stray(r, k) else PaddedWord(r.key, k)
  }

  function Pow256(n: nat): nat {
    if n == 0 then 1 else 256 * Pow256(n - 1)
  }

  lemma {:induction false} BigEndianBelow(s: seq<byte>)
    ensures BigEndian(s) < Pow256(|s|)
  {
    if |s| == 0 {
    } else {
      BigEndianBelow(s[..|s| - 1]);
    }
  }

  lemma BigEndianBound(s: seq<byte>)
    requires |s| == 8
    ensures BigEndian(s) < WORD_LIMIT
  {
    BigEndianBelow(s);
    assert Pow256(4) == 0x1_0000_0000;
    assert Pow256(8) == WORD_LIMIT;
  }

  /** The first differing byte decides, as it does for the bytes themselves. */
  lemma {:induction false} BigEndianOrder(s: seq<byte>, t: seq<byte>, n: nat)
    requires |s| == |t| && n < |s| && s[..n] == t[..n] && s[n] < t[n]
    ensures BigEndian(s) < BigEndian(t)
  {
    var m := |s| - 1;
    if n == m {
      assert s[..m] == t[..m];
    } else {
      assert s[..m][..n] == s[..n] && t[..m][..n] == t[..n];
      BigEndianOrder(s[..m], t[..m], n);
    }
  }

  /** Blocks of one length are equal exactly when their bytes are. */
  lemma {:induction false} BigEndianInjective(s: seq<byte>, t: seq<byte>)
    requires |s| == |t| && BigEndian(s) == BigEndian(t)
    ensures s == t
  {
    if |s| == 0 {
    } else {
      var m := |s| - 1;
      BigEndianInjective(s[..m], t[..m]);
      assert s == s[..m] + [s[m]] && t == t[..m] + [t[m]];
    }
  }

  /** The load as the source performs it: a word access when eight bytes remain, otherwise
      a loop that shifts in one byte, or a zero, at a time. */
  method GetBlock(stray: Stray, r: Record, k: nat) returns (block: Word)
    ensures block == Block(stray, r, k)
  {
    var rest := (|r.key| - k) % WORD_LIMIT;
    if rest >= 8 {
      if k + 8 <= |r.key| {
        block := WordAt(r.key, k);
      } else {
        block := stray(r, k);
      }
    } else {
      ghost var bytes := PaddedBlock(r.key, k);
      var shifted: nat := 0;
      for i := 0 to 8
        invariant shifted == BigEndian(bytes[..i])
      {
        assert bytes[..i + 1][..i] == bytes[..i];
        shifted := shifted * 256;
        if k + i < |r.key| {
          shifted := shifted + r.key[k + i];
        }
      }
      assert bytes[..8] == bytes;
      BigEndianBound(bytes);
      block := shifted;
    }
  }

  /** Eight key bytes read at once, most significant first. */
  function WordAt(key: seq<byte>, k: nat): Word
    requires k + 8 <= |key|
    ensures WordAt(key, k) == PaddedWord(key, k)
  {
    assert key[k..k + 8] == PaddedBlock(key, k);
    BigEndianBound(key[k..k + 8]);
    BigEndian(key[k..k + 8])
  }

  lemma BlockOfLiveKey(stray: Stray, r: Record, k: nat)
    requires k <= |r.key| < WORD_LIMIT
    ensures Block(stray, r, k) == PaddedWord(r.key, k)
  {}

  lemma BlockOfSpentKey(stray: Stray, r: Record, k: nat)
    requires |r.key| < k && k + 8 <= WORD_LIMIT
    ensures Block(stray, r, k) == stray(r, k)
  {
    assert (|r.key| - k) % WORD_LIMIT == |r.key| - k + WORD_LIMIT;
  }

  // ----- Bytes of a block, most significant first

  /** The offset of the block that byte `depth` lies in, and its place in that block. */
  function BlockStart(depth: nat): nat {
    depth - depth % 8
  }

  function ByteOf(depth: nat): (i: nat)
    ensures i < 8
  {
    depth % 8
  }

  lemma NextByte(depth: nat)
    ensures ByteOf(depth) < 7 ==> ByteOf(depth + 1) == ByteOf(depth) + 1 && BlockStart(depth + 1) == BlockStart(depth)
    ensures ByteOf(depth) == 7 ==> ByteOf(depth + 1) == 0 && BlockStart(depth + 1) == depth + 1 == BlockStart(depth) + 8
    ensures BlockStart(depth) <= depth < BlockStart(depth) + 8
  {}

  lemma NextBlock(k: nat)
    requires ByteOf(k) == 0
    ensures ByteOf(k + 8) == 0 && BlockStart(k) == k && BlockStart(k + 8) == k + 8
  {}

  /** `w >> 8 * n`. */
  function Shr(w: nat, n: nat): nat {
    if n == 0 then w else Shr(w, n - 1) / 256
  }

  /** The `n` most significant bytes of a block. */
  function High(w: Word, n: nat): nat
    requires n <= 8
  {
    Shr(w, 8 - n)
  }

  /** The byte the counting sort distributes by at this depth. */
  function Digit(w: Word, depth: nat): byte {
    Shr(w, 7 - ByteOf(depth)) % 256
  }

  lemma {:induction false} ShrMonotone(w: nat, v: nat, n: nat)
    requires w <= v
    ensures Shr(w, n) <= Shr(v, n)
  {
    if n == 0 {
    } else {
      ShrMonotone(w, v, n - 1);
    }
  }

  /** Words that agree above a byte are ordered by that byte. */
  lemma DigitOrders(w: Word, v: Word, depth: nat)
    requires High(w, ByteOf(depth)) == High(v, ByteOf(depth))
    ensures Digit(w, depth) < Digit(v, depth) ==> w < v
    ensures Digit(w, depth) == Digit(v, depth) ==> High(w, ByteOf(depth) + 1) == High(v, ByteOf(depth) + 1)
  {
    var n := 7 - ByteOf(depth);
    var a, b := Shr(w, n), Shr(v, n);
    assert a / 256 == b / 256;
    if Digit(w, depth) < Digit(v, depth) {
      assert a < b;
      if v <= w {
        ShrMonotone(v, w, n);
      }
    }
  }

  lemma HighBounds(w: Word)
    ensures High(w, 0) == 0
    ensures High(w, 8) == w
  {
    assert Pow256(4) == 0x1_0000_0000;
    assert Pow256(8) == WORD_LIMIT;
    ShrBelow(w, 0, 8);
  }

  lemma {:induction false} ShrBelow(w: nat, m: nat, n: nat)
    requires w < Pow256(m + n)
    ensures Shr(w, n) < Pow256(m)
    decreases n
  {
    if n == 0 {
    } else {
      ShrBelow(w, m + 1, n - 1);
    }
  }
}
