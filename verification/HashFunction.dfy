/** MurmurHash3 over a key, reduced to a partition number by a multiplication and a shift. */
module HashFunction {
  import opened Machine

  const C1 := 0xcc9e2d51
  const C2 := 0x1b873593
  const SEED := 0x7a2be187

  // ----- 32-bit words

  type Word32 = n: nat | n < 0x1_0000_0000

  /** Exclusive or, bit by bit. */
  function Xor(a: nat, b: nat): nat {
    if a == 0 && b == 0 then 0 else 2 * Xor(a / 2, b / 2) + (a + b) % 2
  }

  function XorWords(a: Word32, b: Word32): Word32 {
    assert Pow2(32) == 0x1_0000_0000 by { WordLimit(); }
    XorBelow(a, b, 0x1_0000_0000, 32);
    Xor(a, b)
  }

  function Mul(x: Word32, c: nat): Word32 {
    x * c % 0x1_0000_0000
  }

  /** Rotations; the two parts have no bit in common. */
  function Rotl15(x: Word32): Word32 {
    x * 0x8000 % 0x1_0000_0000 + x / 0x2_0000
  }

  function Rotl13(x: Word32): Word32 {
    x * 0x2000 % 0x1_0000_0000 + x / 0x8_0000
  }

  // ----- The hash as a function of the key bytes

  function Mix(k: Word32): Word32 {
    Mul(Rotl15(Mul(k, C1)), C2)
  }

  function Absorb(h: Word32, k: Word32): Word32 {
    (Mul(Rotl13(XorWords(h, Mix(k))), 5) + 0xe6546b64) % 0x1_0000_0000
  }

  /** The little-endian word at byte `i`. */
  function WordAt(key: seq<byte>, i: nat): Word32
    requires i + 4 <= |key|
  {
    key[i] + (key[i + 1] as nat) * 0x100 + (key[i + 2] as nat) * 0x1_0000 + (key[i + 3] as nat) * 0x100_0000
  }

  function Blocks(key: seq<byte>, n: nat): Word32
    requires 4 * n <= |key|
  {
    if n == 0 then SEED else Absorb(Blocks(key, n - 1), WordAt(key, 4 * (n - 1)))
  }

  /** Up to three bytes after the last whole word. */
  function Tail(key: seq<byte>, t: nat): Word32
    requires t < |key| <= t + 3
  {
    var third: Word32 := if |key| == t + 3 then XorWords(0, (key[t + 2] as nat) * 0x1_0000) else 0;
    var second := if |key| >= t + 2 then XorWords(third, (key[t + 1] as nat) * 0x100) else third;
    XorWords(second, key[t])
  }

  /** `x ^ x >> 16`, and `x ^ x >> 13`. */
  function Fold16(x: Word32): Word32 {
    XorWords(x, x / 0x1_0000)
  }

  function Fold13(x: Word32): Word32 {
    XorWords(x, x / 0x2000)
  }

  function Finish(h: Word32, length: nat): Word32 {
    Fold16(Mul(Fold13(Mul(Fold16(XorWords(h, length % 0x1_0000_0000)), 0x85ebca6b)), 0xc2b2ae35))
  }

  function Murmur(key: seq<byte>): Word32 {
    var n := |key| / 4;
    var h := Blocks(key, n);
    Finish(if |key| % 4 == 0 then h else XorWords(h, Mix(Tail(key, 4 * n))), |key|)
  }

  /** `(h * modulo) >> 32`. */
  function Reduce(h: nat, modulo: nat): nat {
    h * modulo / 0x1_0000_0000
  }

  function Hash(key: seq<byte>, modulo: nat): nat {
    Reduce(Murmur(key), modulo)
  }

  // ----- Range

  lemma DivideBelow(x: nat, d: nat, q: nat)
    requires d > 0 && x < d * q
    ensures x / d < q
  {
    if q <= x / d {
      MultiplyOrdered(d, q, x / d);
    }
  }

  lemma MultiplyOrdered(d: nat, a: nat, b: nat)
    requires a <= b
    ensures d * a <= d * b
  {}

  /** The reduction maps 32-bit hashes into the partitions and keeps their order. */
  lemma ReduceCovers(modulo: nat, h: nat, g: nat)
    requires 0 < modulo <= 0x1_0000_0000 && g <= h < 0x1_0000_0000
    ensures Reduce(h, modulo) < modulo
    ensures Reduce(g, modulo) <= Reduce(h, modulo)
  {
    assert h * modulo < 0x1_0000_0000 * modulo;
    DivideBelow(h * modulo, 0x1_0000_0000, modulo);
    assert g * modulo <= h * modulo;
  }

  /** Every partition is the image of some 32-bit hash. Whether a key has that hash is another matter. */
  lemma ReduceReaches(modulo: nat, p: nat) returns (h: nat)
    requires p < modulo <= 0x1_0000_0000
    ensures h < 0x1_0000_0000 && Reduce(h, modulo) == p
  {
    var x := p * 0x1_0000_0000;
    h := (x + modulo - 1) / modulo;
    var r := (x + modulo - 1) % modulo;
    assert h * modulo == x + modulo - 1 - r;
    assert x <= h * modulo < x + modulo;
    assert h * modulo / 0x1_0000_0000 == p by {
      assert x <= h * modulo < x + 0x1_0000_0000;
    }
    if h >= 0x1_0000_0000 {
      MultiplyOrdered(modulo, 0x1_0000_0000, h);
    }
  }

  /** The partition is the hash, scaled down from 32 bits to the modulus. */
  lemma HashIsScaled(key: seq<byte>, modulo: nat)
    ensures Hash(key, modulo) == Murmur(key) * modulo / 0x1_0000_0000
    ensures Hash(key, modulo) * 0x1_0000_0000 <= Murmur(key) * modulo < (Hash(key, modulo) + 1) * 0x1_0000_0000
  {
    hide Murmur;
    var x := Murmur(key) * modulo;
    assert x == 0x1_0000_0000 * (x / 0x1_0000_0000) + x % 0x1_0000_0000;
  }

  lemma HashBelow(key: seq<byte>, modulo: nat)
    requires 0 < modulo <= 0x1_0000_0000
    ensures Hash(key, modulo) < modulo
  {
    ReduceCovers(modulo, Murmur(key), 0);
  }

  // ----- The loop and the fall-through switch of the source

  method HashByteSequence(key: seq<byte>, modulo: nat) returns (p: nat)
    requires modulo <= 0xffff_ffff
    ensures p == Hash(key, modulo)
    ensures modulo > 0 ==> p < modulo
  {
    hide Absorb, Mix, WordAt, Tail, Finish;
    var n := |key| / 4;
    var h := SEED;
    for i := 0 to n
      invariant h == Blocks(key, i)
    {
      h := Absorb(h, WordAt(key, 4 * i));
    }
    if |key| % 4 > 0 {
      var k := TailWord(key, 4 * n);
      h := XorWords(h, Mix(k));
    }
    h := Finish(h, |key|);
    p := Reduce(h, modulo);
    if modulo > 0 {
      HashBelow(key, modulo);
    }
  }

  method TailWord(key: seq<byte>, t: nat) returns (k: Word32)
    requires t < |key| <= t + 3
    ensures k == Tail(key, t)
  {
    hide XorWords;
    k := 0;
    var rest := |key| - t;
    if rest == 3 {
      k := XorWords(k, (key[t + 2] as nat) * 0x1_0000);
    }
    if rest >= 2 {
      k := XorWords(k, (key[t + 1] as nat) * 0x100);
    }
    k := XorWords(k, key[t]);
  }

  // ----- Exclusive or

  lemma {:induction false} XorBelow(a: nat, b: nat, limit: nat, n: nat)
    requires limit == Pow2(n) && a < limit && b < limit
    ensures Xor(a, b) < limit
  {
    if n == 0 {
    } else {
      XorBelow(a / 2, b / 2, limit / 2, n - 1);
    }
  }

  lemma WordLimit()
    ensures Pow2(32) == 0x1_0000_0000
  {
    assert Pow2(8) == 0x100;
    assert Pow2(16) == 0x1_0000;
    assert Pow2(24) == 0x100_0000;
  }

  function Pow2(n: nat): (p: nat)
    ensures p > 0
  {
    if n == 0 then 1 else 2 * Pow2(n - 1)
  }

  lemma XorHalves(a: nat, b: nat)
    ensures Xor(a, b) / 2 == Xor(a / 2, b / 2) && Xor(a, b) % 2 == (a + b) % 2
  {}

  lemma {:induction false} XorComm(a: nat, b: nat)
    ensures Xor(a, b) == Xor(b, a)
  {
    if a == 0 && b == 0 {
    } else {
      XorComm(a / 2, b / 2);
    }
  }

  /** Exclusive or undoes itself. */
  lemma {:induction false} XorBack(a: nat, b: nat)
    ensures Xor(Xor(a, b), b) == a
    decreases a + b
  {
    if a == 0 && b == 0 {
    } else {
      hide Xor;
      XorBack(a / 2, b / 2);
      XorHalves(a, b);
      XorHalves(Xor(a, b), b);
      SameParity(Xor(a, b), a, b);
      SameNumber(Xor(Xor(a, b), b), a);
    }
  }

  lemma SameParity(y: nat, a: nat, b: nat)
    requires y % 2 == (a + b) % 2
    ensures (y + b) % 2 == a % 2
  {}

  lemma SameNumber(x: nat, a: nat)
    requires x / 2 == a / 2 && x % 2 == a % 2
    ensures x == a
  {}

  lemma XorInjective(a: nat, b: nat, c: nat)
    ensures Xor(a, c) == Xor(b, c) ==> a == b
    ensures Xor(c, a) == Xor(c, b) ==> a == b
  {
    XorBack(a, c);
    XorBack(b, c);
    XorComm(c, a);
    XorComm(c, b);
  }

  /** `k` bits shifted out. */
  function Halved(a: nat, k: nat): nat {
    if k == 0 then a else Halved(a, k - 1) / 2
  }

  lemma {:induction false} XorHalved(a: nat, b: nat, k: nat)
    ensures Halved(Xor(a, b), k) == Xor(Halved(a, k), Halved(b, k))
  {
    hide Xor;
    if k == 0 {
    } else {
      XorHalved(a, b, k - 1);
      XorHalves(Halved(a, k - 1), Halved(b, k - 1));
    }
  }

  lemma {:induction false} HalvedTwice(a: nat, j: nat, k: nat)
    ensures Halved(Halved(a, j), k) == Halved(a, j + k)
  {
    if k == 0 {
    } else {
      HalvedTwice(a, j, k - 1);
    }
  }

  lemma HalvedFour(a: nat)
    ensures Halved(a, 4) == a / 0x10
  {
    assert Halved(a, 1) == a / 2 && Halved(a, 2) == a / 4 && Halved(a, 3) == a / 8;
  }

  lemma SixteenTwice(a: nat)
    ensures a / 0x10 / 0x10 == a / 0x100
  {}

  lemma SixteenThrice(a: nat)
    ensures a / 0x100 / 0x10 == a / 0x1000
  {}

  lemma SixteenMore(a: nat)
    ensures a / 0x1000 / 0x10 == a / 0x1_0000 && a / 0x1000 / 2 == a / 0x2000
  {}

  lemma HalvedIsShifted(a: nat)
    ensures Halved(a, 13) == a / 0x2000 && Halved(a, 16) == a / 0x1_0000
  {
    assert Halved(a / 0x1000, 1) == a / 0x1000 / 2;
    hide Halved;
    HalvedFour(a);
    HalvedFour(a / 0x10);
    HalvedFour(a / 0x100);
    HalvedFour(a / 0x1000);
    HalvedTwice(a, 4, 4);
    HalvedTwice(a, 8, 4);
    HalvedTwice(a, 12, 4);
    HalvedTwice(a, 12, 1);
    SixteenTwice(a);
    SixteenThrice(a);
    SixteenMore(a);
  }

  lemma {:induction false} HalvedLess(a: nat, k: nat)
    requires a > 0 && k > 0
    ensures Halved(a, k) < a
  {
    if k == 1 {
      assert Halved(a, 1) == a / 2;
    } else {
      HalvedLess(a, k - 1);
    }
  }

  /** `x ^ x >> k` can be undone. */
  lemma {:induction false} FoldIsInjective(a: nat, b: nat, k: nat)
    requires k > 0 && Xor(a, Halved(a, k)) == Xor(b, Halved(b, k))
    ensures a == b
    decreases a + b
  {
    hide Xor, Halved;
    if a == 0 && b == 0 {
    } else {
      var s, t := Halved(a, k), Halved(b, k);
      XorHalved(a, s, k);
      XorHalved(b, t, k);
      HalvedAtMost(a, k);
      HalvedAtMost(b, k);
      FoldIsInjective(s, t, k);
      XorInjective(a, b, s);
    }
  }

  lemma HalvedAtMost(a: nat, k: nat)
    requires k > 0
    ensures Halved(a, k) <= a && (a > 0 ==> Halved(a, k) < a)
  {
    if a > 0 {
      HalvedLess(a, k);
    } else {
      HalvedZero(k);
    }
  }

  lemma {:induction false} HalvedZero(k: nat)
    ensures Halved(0, k) == 0
  {
    if k == 0 {
    } else {
      HalvedZero(k - 1);
    }
  }

  // ----- Every step can be undone

  /** An odd factor has an inverse. */
  lemma MulIsInjective(x: Word32, y: Word32, c: nat, d: nat, t: nat)
    requires c * d == t * 0x1_0000_0000 + 1 && Mul(x, c) == Mul(y, c)
    ensures x == y
  {
    MulBack(x, c, d, t);
    MulBack(y, c, d, t);
  }

  lemma MulBack(x: Word32, c: nat, d: nat, t: nat)
    requires c * d == t * 0x1_0000_0000 + 1
    ensures Mul(x, c) * d % 0x1_0000_0000 == x
  {
    var q, r := x * c / 0x1_0000_0000, Mul(x, c);
    assert x * c == 0x1_0000_0000 * q + r;
    assert x * c * d == x * (t * 0x1_0000_0000 + 1) by { assert x * c * d == x * (c * d); }
    assert r * d == 0x1_0000_0000 * (x * t - q * d) + x by {
      assert (0x1_0000_0000 * q + r) * d == 0x1_0000_0000 * (q * d) + r * d;
      assert x * (t * 0x1_0000_0000 + 1) == 0x1_0000_0000 * (x * t) + x;
    }
    RemainderIs(r * d, x * t - q * d, x);
  }

  lemma RemainderIs(a: nat, q: int, x: Word32)
    requires a == 0x1_0000_0000 * q + x
    ensures a % 0x1_0000_0000 == x
  {}

  lemma FactorsAreOdd()
    ensures C1 * 0xdee13bb1 == 0xb2253208 * 0x1_0000_0000 + 1
    ensures C2 * 0x56ed309b == 0x0958ed66 * 0x1_0000_0000 + 1
    ensures 5 * 0xcccccccd == 0x00000004 * 0x1_0000_0000 + 1
    ensures 0x85ebca6b * 0xa5cb9243 == 0x56bb77f4 * 0x1_0000_0000 + 1
    ensures 0xc2b2ae35 * 0x7ed1b41d == 0x60736e9a * 0x1_0000_0000 + 1
  {}

  lemma RotationsAreInjective(x: Word32, y: Word32)
    ensures Rotl15(x) == Rotl15(y) ==> x == y
    ensures Rotl13(x) == Rotl13(y) ==> x == y
  {
    Rotated15(x);
    Rotated15(y);
    Rotated13(x);
    Rotated13(y);
  }

  lemma Rotated15(x: Word32)
    ensures Rotl15(x) / 0x8000 == x % 0x2_0000 && Rotl15(x) % 0x8000 == x / 0x2_0000
  {
    var h, l := x / 0x2_0000, x % 0x2_0000;
    assert x == 0x2_0000 * h + l;
    RemainderIs(x * 0x8000, h, l * 0x8000);
    assert Rotl15(x) == l * 0x8000 + h;
    hide Rotl15;
  }

  lemma Rotated13(x: Word32)
    ensures Rotl13(x) / 0x2000 == x % 0x8_0000 && Rotl13(x) % 0x2000 == x / 0x8_0000
  {
    var h, l := x / 0x8_0000, x % 0x8_0000;
    assert x == 0x8_0000 * h + l;
    RemainderIs(x * 0x2000, h, l * 0x2000);
    assert Rotl13(x) == l * 0x2000 + h;
    hide Rotl13;
  }

  lemma MixIsInjective(k: Word32, l: Word32)
    ensures Mix(k) == Mix(l) ==> k == l
  {
    hide Mul, Rotl15;
    FactorsAreOdd();
    if Mix(k) == Mix(l) {
      MulIsInjective(Rotl15(Mul(k, C1)), Rotl15(Mul(l, C1)), C2, 0x56ed309b, 0x0958ed66);
      RotationsAreInjective(Mul(k, C1), Mul(l, C1));
      MulIsInjective(k, l, C1, 0xdee13bb1, 0xb2253208);
    }
  }

  /** Different hashes stay different when the same word is absorbed; different words make them differ. */
  lemma AbsorbIsInjective(g: Word32, h: Word32, k: Word32, l: Word32)
    ensures Absorb(g, k) == Absorb(h, k) ==> g == h
    ensures Absorb(h, k) == Absorb(h, l) ==> k == l
  {
    hide Mul, Rotl13, Mix, XorWords;
    FactorsAreOdd();
    SameSums(Mul(Rotl13(XorWords(g, Mix(k))), 5), Mul(Rotl13(XorWords(h, Mix(k))), 5));
    SameSums(Mul(Rotl13(XorWords(h, Mix(k))), 5), Mul(Rotl13(XorWords(h, Mix(l))), 5));
    if Absorb(g, k) == Absorb(h, k) {
      MulIsInjective(Rotl13(XorWords(g, Mix(k))), Rotl13(XorWords(h, Mix(k))), 5, 0xcccccccd, 0x00000004);
      RotationsAreInjective(XorWords(g, Mix(k)), XorWords(h, Mix(k)));
      XorWordsInjective(g, h, Mix(k));
    }
    if Absorb(h, k) == Absorb(h, l) {
      MulIsInjective(Rotl13(XorWords(h, Mix(k))), Rotl13(XorWords(h, Mix(l))), 5, 0xcccccccd, 0x00000004);
      RotationsAreInjective(XorWords(h, Mix(k)), XorWords(h, Mix(l)));
      XorWordsInjective(Mix(k), Mix(l), h);
      MixIsInjective(k, l);
    }
  }

  lemma SameSums(x: Word32, y: Word32)
    ensures (x + 0xe6546b64) % 0x1_0000_0000 == (y + 0xe6546b64) % 0x1_0000_0000 ==> x == y
  {}

  lemma XorWordsInjective(a: Word32, b: Word32, c: Word32)
    ensures XorWords(a, c) == XorWords(b, c) ==> a == b
    ensures XorWords(c, a) == XorWords(c, b) ==> a == b
  {
    hide Xor;
    XorInjective(a, b, c);
  }

  lemma FoldsAreInjective(x: Word32, y: Word32)
    ensures Fold16(x) == Fold16(y) ==> x == y
    ensures Fold13(x) == Fold13(y) ==> x == y
  {
    hide Xor, Halved;
    HalvedIsShifted(x);
    HalvedIsShifted(y);
    if Fold16(x) == Fold16(y) {
      FoldIsInjective(x, y, 16);
    }
    if Fold13(x) == Fold13(y) {
      FoldIsInjective(x, y, 13);
    }
  }

  lemma FinishIsInjective(g: Word32, h: Word32, length: nat)
    ensures Finish(g, length) == Finish(h, length) ==> g == h
  {
    hide Mul, Fold16, Fold13, XorWords;
    if Finish(g, length) == Finish(h, length) {
      var l: Word32 := length % 0x1_0000_0000;
      FinishedEqually(Fold16(XorWords(g, l)), Fold16(XorWords(h, l)));
      FoldsAreInjective(XorWords(g, l), XorWords(h, l));
      XorWordsInjective(g, h, l);
    }
  }

  /** The length counts, too. */
  lemma FinishTellsLengths(h: Word32, m: Word32, n: Word32)
    ensures Finish(h, m) == Finish(h, n) ==> m == n
  {
    hide Mul, Fold16, Fold13, XorWords;
    if Finish(h, m) == Finish(h, n) {
      var a, a' := Fold16(XorWords(h, m)), Fold16(XorWords(h, n));
      FinishedEqually(a, a');
      FoldsAreInjective(XorWords(h, m), XorWords(h, n));
      XorWordsInjective(m, n, h);
    }
  }

  lemma FinishedEqually(a: Word32, a': Word32)
    requires Fold16(Mul(Fold13(Mul(a, 0x85ebca6b)), 0xc2b2ae35)) == Fold16(Mul(Fold13(Mul(a', 0x85ebca6b)), 0xc2b2ae35))
    ensures a == a'
  {
    hide Mul, Fold16, Fold13;
    FactorsAreOdd();
    var b, b' := Fold13(Mul(a, 0x85ebca6b)), Fold13(Mul(a', 0x85ebca6b));
    FoldsAreInjective(Mul(b, 0xc2b2ae35), Mul(b', 0xc2b2ae35));
    MulIsInjective(b, b', 0xc2b2ae35, 0x7ed1b41d, 0x60736e9a);
    FoldsAreInjective(Mul(a, 0x85ebca6b), Mul(a', 0x85ebca6b));
    MulIsInjective(a, a', 0x85ebca6b, 0xa5cb9243, 0x56bb77f4);
  }

  // ----- Every byte counts

  /** The keys differ, but only in the four bytes from `4 * i` on, or what there is of them. */
  ghost predicate DifferInGroup(a: seq<byte>, b: seq<byte>, i: nat) {
    && |a| == |b| && a != b
    && forall j :: 0 <= j < |a| && (j < 4 * i || 4 * i + 4 <= j) ==> a[j] == b[j]
  }

  lemma WordsTellApart(a: seq<byte>, b: seq<byte>, t: nat)
    requires t + 4 <= |a| && t + 4 <= |b| && WordAt(a, t) == WordAt(b, t)
    ensures a[t] == b[t] && a[t + 1] == b[t + 1] && a[t + 2] == b[t + 2] && a[t + 3] == b[t + 3]
  {
    DigitsOf(a[t], a[t + 1], a[t + 2], a[t + 3], WordAt(a, t));
    DigitsOf(b[t], b[t + 1], b[t + 2], b[t + 3], WordAt(b, t));
  }

  lemma DigitsOf(p: byte, q: byte, r: byte, s: byte, n: nat)
    requires n == p + (q as nat) * 0x100 + (r as nat) * 0x1_0000 + (s as nat) * 0x100_0000
    ensures p == n % 0x100 && q == n / 0x100 % 0x100
    ensures r == n / 0x100 / 0x100 % 0x100 && s == n / 0x100 / 0x100 / 0x100
  {
    LowDigit(r, s);
    LowDigit(q, r + (s as nat) * 0x100);
    LowDigit(p, q + (r + (s as nat) * 0x100) * 0x100);
  }

  lemma LowDigit(p: byte, m: nat)
    ensures (p + m * 0x100) % 0x100 == p && (p + m * 0x100) / 0x100 == m
  {}

  /** Numbers with no bit in common are added. */
  lemma {:induction false} XorAdds(m: nat, b: nat, k: nat)
    requires b < Pow2(k)
    ensures Xor(m * Pow2(k), b) == m * Pow2(k) + b
  {
    if k == 0 {
      XorBack(m, 0);
      XorZero(m);
    } else {
      assert m * Pow2(k) == 2 * (m * Pow2(k - 1)) by { assert m * (2 * Pow2(k - 1)) == 2 * (m * Pow2(k - 1)); }
      XorAdds(m, b / 2, k - 1);
      XorHalves(m * Pow2(k), b);
      hide Xor;
      HalfAndBit(Xor(m * Pow2(k), b), m * Pow2(k - 1), b);
    }
  }

  lemma HalfAndBit(x: nat, y: nat, b: nat)
    requires x / 2 == y + b / 2 && x % 2 == (2 * y + b) % 2
    ensures x == 2 * y + b
  {}

  lemma {:induction false} XorZero(m: nat)
    ensures Xor(m, 0) == m && Xor(0, m) == m
  {
    if m == 0 {
    } else {
      XorZero(m / 2);
    }
  }

  lemma TailIsSum(key: seq<byte>, t: nat)
    requires t < |key| <= t + 3
    ensures Tail(key, t) == key[t] + (if |key| >= t + 2 then (key[t + 1] as nat) * 0x100 else 0)
      + if |key| == t + 3 then (key[t + 2] as nat) * 0x1_0000 else 0
  {
    hide Xor;
    PowersOfTail();
    var p: nat, q: nat, r: nat := key[t], if |key| >= t + 2 then key[t + 1] else 0, if |key| == t + 3 then key[t + 2] else 0;
    XorZero(r * 0x1_0000);
    XorZero(p);
    XorZero(q * 0x100);
    XorAdds(r, q * 0x100, 16);
    XorAdds(q + r * 0x100, p, 8);
  }

  lemma PowersOfTail()
    ensures Pow2(8) == 0x100 && Pow2(16) == 0x1_0000
  {
    assert Pow2(8) == 0x100;
  }

  lemma TailDigits(key: seq<byte>, t: nat)
    requires t < |key| <= t + 3
    ensures key[t] == Tail(key, t) % 0x100
    ensures |key| >= t + 2 ==> key[t + 1] == Tail(key, t) / 0x100 % 0x100
    ensures |key| == t + 3 ==> key[t + 2] == Tail(key, t) / 0x100 / 0x100 % 0x100
  {
    TailIsSum(key, t);
    hide Tail;
    var q: byte, r: byte := if |key| >= t + 2 then key[t + 1] else 0, if |key| == t + 3 then key[t + 2] else 0;
    DigitsOf(key[t], q, r, 0, Tail(key, t));
  }

  lemma TailsTellApart(a: seq<byte>, b: seq<byte>, t: nat)
    requires t < |a| == |b| <= t + 3 && Tail(a, t) == Tail(b, t)
    ensures forall j :: t <= j < |a| ==> a[j] == b[j]
  {
    TailDigits(a, t);
    TailDigits(b, t);
    hide Tail;
  }

  /** Equal words are absorbed equally; after a different word the hashes stay apart. */
  lemma {:induction false} BlocksTellApart(a: seq<byte>, b: seq<byte>, i: nat, n: nat)
    requires |a| == |b| && 4 * n <= |a| && DifferInGroup(a, b, i)
    ensures n <= i ==> Blocks(a, n) == Blocks(b, n)
    ensures n > i ==> Blocks(a, n) != Blocks(b, n)
  {
    hide Absorb, WordAt;
    if n == 0 {
    } else {
      BlocksTellApart(a, b, i, n - 1);
      var t := 4 * (n - 1);
      if n - 1 == i {
        OnlyHere(a, b, i);
        if WordAt(a, t) == WordAt(b, t) {
          WordsTellApart(a, b, t);
        }
        AbsorbIsInjective(Blocks(a, n - 1), Blocks(a, n - 1), WordAt(a, t), WordAt(b, t));
      } else {
        SameWord(a, b, t);
        AbsorbIsInjective(Blocks(a, n - 1), Blocks(b, n - 1), WordAt(a, t), WordAt(a, t));
      }
    }
  }

  lemma SameWord(a: seq<byte>, b: seq<byte>, t: nat)
    requires t + 4 <= |a| == |b| && forall j :: t <= j < t + 4 ==> a[j] == b[j]
    ensures WordAt(a, t) == WordAt(b, t)
  {}

  /** Keys that differ in one group do differ there. */
  lemma OnlyHere(a: seq<byte>, b: seq<byte>, i: nat)
    requires DifferInGroup(a, b, i)
    ensures exists j :: 4 * i <= j < 4 * i + 4 && j < |a| && a[j] != b[j]
  {
    var j :| 0 <= j < |a| && a[j] != b[j];
  }

  /** Two keys of one length that differ only within one group of four bytes, or only in what is left over at the
      end, have different hashes: no byte is ignored. */
  lemma MurmurTellsApart(a: seq<byte>, b: seq<byte>, i: nat)
    requires DifferInGroup(a, b, i)
    ensures Murmur(a) != Murmur(b)
  {
    hide Blocks, Mix, Finish, Tail, XorWords;
    var n := |a| / 4;
    BlocksTellApart(a, b, i, n);
    OnlyHere(a, b, i);
    var g, h := Blocks(a, n), Blocks(b, n);
    if |a| % 4 == 0 {
      FinishIsInjective(g, h, |a|);
    } else {
      var k, l := Tail(a, 4 * n), Tail(b, 4 * n);
      FinishIsInjective(XorWords(g, Mix(k)), XorWords(h, Mix(l)), |a|);
      if i < n {
        SameTail(a, b, 4 * n);
        XorWordsInjective(g, h, Mix(k));
      } else {
        if k == l {
          TailsTellApart(a, b, 4 * n);
        }
        MixIsInjective(k, l);
        XorWordsInjective(Mix(k), Mix(l), g);
      }
    }
  }

  lemma SameTail(a: seq<byte>, b: seq<byte>, t: nat)
    requires t < |a| == |b| <= t + 3 && forall j :: t <= j < |a| ==> a[j] == b[j]
    ensures Tail(a, t) == Tail(b, t)
  {
    hide XorWords;
  }
}
