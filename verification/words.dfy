/** Machine words of the analysed virtual machine: bytes, 256-bit words and the
    handful of word operations the analyser folds (big-endian decoding, bitwise
    and, logical shifts). Integers are unbounded here, so every width limit of
    the original (U256 overflow, usize casts) is written out explicitly. */
module Words {

  type byte = b: int | 0 <= b < 256

  /** 2^n */
  function Pow2(n: nat): (r: nat)
    ensures r >= 1
  {
    if n == 0 then 1 else 2 * Pow2(n - 1)
  }

  /** Number of distinct 256-bit words, 2^256. */
  const WORD_MODULUS: nat := 0x1_0000_0000_0000_0000_0000_0000_0000_0000_0000_0000_0000_0000_0000_0000_0000_0000

  /** Number of distinct values of the host's `usize` (a 64-bit target), 2^64. */
  const USIZE_MODULUS: nat := 0x1_0000_0000_0000_0000

  type U256 = x: nat | x < WORD_MODULUS

  lemma {:induction false} Pow2Add(a: nat, b: nat)
    ensures Pow2(a + b) == Pow2(a) * Pow2(b)
  {
    if a > 0 {
      Pow2Add(a - 1, b);
    }
  }

  lemma {:induction false} Pow2Monotone(a: nat, b: nat)
    requires a <= b
    ensures Pow2(a) <= Pow2(b)
  {
    if a < b {
      Pow2Monotone(a, b - 1);
    }
  }

  lemma {:induction false} Pow2Double(a: nat)
    ensures Pow2(a + a) == Pow2(a) * Pow2(a)
  {
    Pow2Add(a, a);
  }

  lemma Pow2Byte()
    ensures Pow2(8) == 256
  {
    assert Pow2(2) == 4;
    Pow2Double(2);
    Pow2Double(4);
  }

  lemma Pow2Usize()
    ensures Pow2(64) == USIZE_MODULUS
  {
    Pow2Byte();
    Pow2Double(8);
    assert Pow2(16) == 0x1_0000;
    Pow2Double(16);
    assert Pow2(32) == 0x1_0000_0000;
    Pow2Double(32);
  }

  lemma Pow2Word()
    ensures Pow2(256) == WORD_MODULUS
  {
    Pow2Usize();
    Pow2Double(64);
    assert Pow2(128) == 0x1_0000_0000_0000_0000_0000_0000_0000_0000;
    Pow2Double(128);
  }

  /** The value of a byte string read most-significant byte first. */
  function BigEndian(bs: seq<byte>): nat
  {
    if |bs| == 0 then 0 else BigEndian(bs[..|bs| - 1]) * 256 + bs[|bs| - 1]
  }

  /** n bytes never encode a value of 2^(8n) or more. */
  lemma {:induction false} BigEndianBound(bs: seq<byte>)
    ensures BigEndian(bs) < Pow2(8 * |bs|)
  {
    if |bs| > 0 {
      var init := bs[..|bs| - 1];
      BigEndianBound(init);
      Pow2Add(8 * |init|, 8);
      Pow2Byte();
      assert 8 * |bs| == 8 * |init| + 8;
      calc {
        BigEndian(bs);
        BigEndian(init) * 256 + bs[|bs| - 1];
      <= (Pow2(8 * |init|) - 1) * 256 + 255;
        Pow2(8 * |init|) * 256 - 1;
      <  Pow2(8 * |bs|);
      }
    }
  }

  /** Up to 32 bytes always decode to a word. */
  lemma BigEndianIsWord(bs: seq<byte>)
    requires |bs| <= 32
    ensures BigEndian(bs) < WORD_MODULUS
  {
    BigEndianBound(bs);
    Pow2Monotone(8 * |bs|, 256);
    Pow2Word();
  }

  /** Bitwise and of two naturals, bit by bit from the least significant end. */
  function BitAnd(x: nat, y: nat): (r: nat)
    ensures r <= x && r <= y
  {
    if x == 0 || y == 0 then 0
    else 2 * BitAnd(x / 2, y / 2) + (if x % 2 == 1 && y % 2 == 1 then 1 else 0)
  }

  /** `x << s` on a word: bits shifted past bit 255 are lost. */
  function ShiftLeft(x: U256, s: nat): (r: U256)
    ensures s == 0 ==> r == x
  {
    (x * Pow2(s)) % WORD_MODULUS
  }

  /** Multiplying by a positive number never makes a natural smaller. */
  lemma {:induction false} MulNoSmaller(q: nat, d: nat)
    requires d >= 1
    ensures q <= q * d
    decreases d
  {
    if d > 1 {
      MulNoSmaller(q, d - 1);
      assert q * d == q * (d - 1) + q;
    }
  }

  /** Dividing by a positive number never makes a natural larger. */
  lemma DivNoLarger(x: nat, d: nat)
    requires d >= 1
    ensures 0 <= x / d <= x
  {
    var q := x / d;
    assert q * d + x % d == x;
    MulNoSmaller(q, d);
  }

  /** `x >> s` on a word. */
  function ShiftRight(x: U256, s: nat): (r: U256)
    ensures r <= x
    ensures s == 0 ==> r == x
  {
    if s == 0 then x
    else
      var d := Pow2(s);
      DivNoLarger(x, d);
      x / d
  }
}
