/**
 * Arithmetic of the packed references a zone stores in place of pointers.
 *
 * A reference is a word of W bits holding `((block << (W - bits)) | offset) + 1`:
 * the top `bits` bits name a block, the low `W - bits` bits a byte offset inside
 * it, and the +1 bias keeps block 0 offset 0 apart from the null reference 0.
 * Words are unbounded naturals here; shifts and masks are written as division
 * and remainder by powers of two, and the uintptr_t wrap-around as `% Pow2(W)`.
 */
module BlockCodec {

  /** 2^n. */
  function Pow2(n: nat): (r: nat)
    ensures r >= 1
  {
    if n == 0 then 1 else 2 * Pow2(n - 1)
  }

  lemma {:induction false} Pow2Add(a: nat, b: nat)
    ensures Pow2(a + b) == Pow2(a) * Pow2(b)
  {
    if a > 0 {
      Pow2Add(a - 1, b);
      assert Pow2(a + b) == 2 * Pow2(a - 1 + b);
    }
  }

  lemma {:induction false} Pow2Exceeds(n: nat)
    ensures n < Pow2(n)
  {
    if n > 0 {
      Pow2Exceeds(n - 1);
    }
  }

  lemma {:induction false} Pow2Monotonic(a: nat, b: nat)
    requires a <= b
    ensures Pow2(a) <= Pow2(b)
  {
    Pow2Add(a, b - a);
    MulLe(1, Pow2(b - a), Pow2(a));
  }

  /** 2^31: one past the largest block number the 32-bit block type holds. */
  lemma Pow2Is31()
    ensures Pow2(31) == 0x8000_0000
  {
    Pow2Add(1, 1);
    Pow2Add(2, 2);
    Pow2Add(4, 4);
    Pow2Add(8, 8);
    Pow2Add(8, 4);
    Pow2Add(12, 2);
    Pow2Add(14, 1);
    Pow2Add(16, 15);
  }

  /** Block numbers of at most 31 bits fit the 32-bit block type unchanged. */
  lemma SmallBlockNumbers(bits: nat)
    ensures bits <= 31 ==> Pow2(bits) <= 0x8000_0000
  {
    if bits <= 31 {
      Pow2Monotonic(bits, 31);
      Pow2Is31();
    }
  }

  lemma MulSucc(a: nat, m: nat)
    ensures (a + 1) * m == a * m + m
  {
  }

  lemma {:induction false} MulLe(a: nat, b: nat, m: nat)
    requires a <= b
    ensures a * m <= b * m
    decreases b - a
  {
    if a < b {
      MulLe(a, b - 1, m);
      MulSucc(b - 1, m);
    }
  }

  /** Division by a positive m determines quotient and remainder uniquely. */
  lemma DivModUnique(x: nat, m: nat, q: nat, r: nat)
    requires m > 0 && r < m && x == q * m + r
    ensures x / m == q && x % m == r
  {
    var q', r' := x / m, x % m;
    assert x == q' * m + r';
    if q' < q {
      MulLe(q' + 1, q, m);
      MulSucc(q', m);
      assert false;
    } else if q < q' {
      MulLe(q + 1, q', m);
      MulSucc(q, m);
      assert false;
    }
  }

  lemma DivMod(x: nat, m: nat)
    requires m > 0
    ensures x == x / m * m + x % m
  {
  }

  lemma QuotientBound(x: nat, a: nat, m: nat)
    requires m > 0 && x < a * m
    ensures x / m < a
  {
    DivMod(x, m);
    if a <= x / m {
      MulLe(a, x / m, m);
    }
  }

  /** The quotient reaches a exactly when x reaches a multiples of m. */
  lemma QuotientAtLeast(x: nat, a: nat, m: nat)
    requires m > 0
    ensures x / m >= a <==> x >= a * m
  {
    DivMod(x, m);
    if x / m >= a {
      MulLe(a, x / m, m);
    } else {
      MulSucc(x / m, m);
      MulLe(x / m + 1, a, m);
    }
  }

  /** `x >> k` on an unsigned word. */
  function ShiftRight(x: nat, k: nat): nat
  {
    Quotient(x, Pow2(k))
  }

  /** x / m for a positive m. */
  function Quotient(x: nat, m: nat): nat
    requires m > 0
  {
    x / m
  }

  /** `x & ((1 << k) - 1)`: the low k bits of x. */
  function LowBits(x: nat, k: nat): (r: nat)
    ensures r < Pow2(k)
  {
    x % Pow2(k)
  }

  /** A cast to the 32-bit signed block number type: two's complement of the low 32 bits. */
  function ToInt32(x: nat): (r: int)
    ensures -0x8000_0000 <= r < 0x8000_0000
    ensures r <= x
    ensures x < 0x8000_0000 ==> r == x
    ensures (x - r) % 0x1_0000_0000 == 0
  {
    var low := x % 0x1_0000_0000;
    if low < 0x8000_0000 then low else low - 0x1_0000_0000
  }

  /** `code - 1` in W-bit unsigned arithmetic: removes the null bias (0 wraps to all ones). */
  function Unbias(code: nat, w: nat): (r: nat)
    requires code < Pow2(w)
    ensures r < Pow2(w)
  {
    if code == 0 then Pow2(w) - 1 else code - 1
  }

  /** The block number a reference names (its top `bits` bits, cast to the block type). */
  function DecodeBlockNum(code: nat, w: nat, bits: nat): (r: int)
    requires bits <= w && code < Pow2(w)
    ensures -0x8000_0000 <= r < 0x8000_0000
    ensures bits <= 31 ==> 0 <= r < Pow2(bits)
  {
    var top := ShiftRight(Unbias(code, w), w - bits);
    Pow2Add(bits, w - bits);
    QuotientBound(Unbias(code, w), Pow2(bits), Pow2(w - bits));
    SmallBlockNumbers(bits);
    ToInt32(top)
  }

  /** The byte offset a reference names (its low `w - bits` bits). */
  function DecodeBlockOffset(code: nat, w: nat, bits: nat): (r: nat)
    requires bits <= w && code < Pow2(w)
    ensures r < Pow2(w - bits)
  {
    LowBits(Unbias(code, w), w - bits)
  }

  /** The packed word before the bias fits in w bits whenever block fits in `bits` bits. */
  lemma PackedFits(block: nat, offset: nat, w: nat, bits: nat)
    requires bits <= w && block < Pow2(bits) && offset < Pow2(w - bits)
    ensures block * Pow2(w - bits) + offset < Pow2(w)
  {
    var m := Pow2(w - bits);
    Pow2Add(bits, w - bits);
    MulSucc(block, m);
    MulLe(block + 1, Pow2(bits), m);
  }

  /**
   * The reference a zone writer stores for (block, offset):
   * `((block << (w - bits)) | offset) + 1` in w-bit unsigned arithmetic.
   */
  function EncodeReference(block: nat, offset: nat, w: nat, bits: nat): (code: nat)
    requires bits <= w && block < Pow2(bits) && offset < Pow2(w - bits)
    ensures code < Pow2(w)
  {
    PackedFits(block, offset, w, bits);
    var packed := block * Pow2(w - bits) + offset;
    if packed + 1 < Pow2(w) then packed + 1 else 0
  }

  /**
   * Decoding an encoded pair gives the pair back, for every block that fits in
   * `bits` bits and in the block number type, and every offset that fits in the
   * low `w - bits` bits.
   */
  lemma DecodeEncode(block: nat, offset: nat, w: nat, bits: nat)
    requires bits <= w && block < Pow2(bits) && block < 0x8000_0000 && offset < Pow2(w - bits)
    ensures DecodeBlockNum(EncodeReference(block, offset, w, bits), w, bits) == block
    ensures DecodeBlockOffset(EncodeReference(block, offset, w, bits), w, bits) == offset
  {
    var x := block * Pow2(w - bits) + offset;
    PackedFits(block, offset, w, bits);
    assert Unbias(EncodeReference(block, offset, w, bits), w) == x;
    DivModUnique(x, Pow2(w - bits), block, offset);
  }

  /** A word below 2^w splits into its top `bits` bits and its low `w - bits` bits. */
  lemma SplitWord(x: nat, w: nat, bits: nat)
    requires bits <= w && x < Pow2(w)
    ensures ShiftRight(x, w - bits) < Pow2(bits)
    ensures x == ShiftRight(x, w - bits) * Pow2(w - bits) + LowBits(x, w - bits)
  {
    var m := Pow2(w - bits);
    DivMod(x, m);
    Pow2Add(bits, w - bits);
    QuotientBound(x, Pow2(bits), m);
  }

  /** Encoding the two halves of an unbiased word puts the bias back on it. */
  lemma EncodeSplit(q: nat, r: nat, x: nat, w: nat, bits: nat)
    requires bits <= w && q < Pow2(bits) && r < Pow2(w - bits)
    requires x == q * Pow2(w - bits) + r
    ensures EncodeReference(q, r, w, bits) == if x + 1 < Pow2(w) then x + 1 else 0
  {
  }

  /** Unbias followed by the +1 bias in w-bit arithmetic is the identity. */
  lemma RebiasUnbias(code: nat, w: nat)
    requires code < Pow2(w)
    ensures code == if Unbias(code, w) + 1 < Pow2(w) then Unbias(code, w) + 1 else 0
  {
  }

  /** Every word below 2^w is the encoding of the pair it decodes to. */
  lemma EncodeDecode(code: nat, w: nat, bits: nat)
    requires bits <= w && code < Pow2(w)
    ensures ShiftRight(Unbias(code, w), w - bits) < Pow2(bits)
    ensures EncodeReference(ShiftRight(Unbias(code, w), w - bits), DecodeBlockOffset(code, w, bits), w, bits) == code
  {
    var x := Unbias(code, w);
    SplitWord(x, w, bits);
    EncodeSplit(ShiftRight(x, w - bits), LowBits(x, w - bits), x, w, bits);
    RebiasUnbias(code, w);
  }
}
