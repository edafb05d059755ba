/** Unsigned 64-bit words, bytes, and the few facts about them the rest of the project uses. */
module Machine {

  const WORD_LIMIT := 0x1_0000_0000_0000_0000

  type byte = n: nat | n < 256
  type Word = n: nat | n < 0x1_0000_0000_0000_0000

  /** size_type addition, subtraction and multiplication: results are reduced modulo 2^64. */
  function WrapAdd(a: Word, b: Word): Word {
    (a + b) % WORD_LIMIT
  }

  function WrapSub(a: Word, b: Word): Word {
    (a - b) % WORD_LIMIT
  }

  function WrapMul(a: Word, b: Word): Word {
    (a * b) % WORD_LIMIT
  }

  function Min(a: int, b: int): int {
    if a <= b then a else b
  }

  function Max(a: int, b: int): int {
    if a <= b then b else a
  }
}
