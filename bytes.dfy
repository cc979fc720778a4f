/**
 * Bytes as the driver handles them, and the JavaScript integer conversions
 * its arithmetic relies on: storing a number into a Uint8Array or a DataView
 * keeps it modulo 256 (or 2^16, 2^32), and the shift and bitwise operators
 * first wrap their operands to 32-bit two's complement. Bits are counted
 * arithmetically: bit k of x is (x / 2^k) % 2, which for a negative x is the
 * bit of its two's-complement form because `/` and `%` round toward minus
 * infinity here.
 */
module Bytes {

  type Byte = x: int | 0 <= x < 256

  /** The byte a Uint8Array or DataView.setUint8 stores for an integer (ToUint8). */
  function Low8(x: int): Byte
  {
    x % 256
  }

  /** A byte is its own low byte. */
  lemma Low8OfByte(b: Byte)
    ensures Low8(b) == b
  {
    DivModUnique(b, 256, 0, b);
  }

  function Pow2(k: nat): (p: int)
    ensures p >= 1
  {
    if k == 0 then 1 else 2 * Pow2(k - 1)
  }

  /** Bit `k` of `x`. */
  function Bit(x: int, k: nat): int
  {
    (x / Pow2(k)) % 2
  }

  /** ToInt32: the 32-bit two's-complement value JavaScript's `>>`, `<<`, `&` and `|` work on. */
  function ToInt32(x: int): (r: int)
    ensures -0x8000_0000 <= r < 0x8000_0000
    ensures (x - r) % 0x1_0000_0000 == 0
  {
    (x + 0x8000_0000) % 0x1_0000_0000 - 0x8000_0000
  }

  /** A non-negative value below 2^31 is its own 32-bit form. */
  lemma ToInt32Small(x: int)
    requires 0 <= x < 0x8000_0000
    ensures ToInt32(x) == x
  {
    DivModUnique(x + 0x8000_0000, 0x1_0000_0000, 0, x + 0x8000_0000);
  }

  /** `x >> k` on a JavaScript number: arithmetic shift of the 32-bit value. */
  function ShiftRight(x: int, k: nat): int
  {
    ToInt32(x) / Pow2(k)
  }

  /** Element `i` of a typed array, where an index past the end reads `undefined`, which every bitwise operator treats as 0. */
  function ByteAt(s: seq<Byte>, i: int): (b: Byte)
    ensures 0 <= i < |s| ==> b == s[i]
    ensures !(0 <= i < |s|) ==> b == 0
  {
    if 0 <= i < |s| then s[i] else 0
  }

  // ---------------------------------------------------------------------------
  // Masked writes: (prev & ~mask) | (value & mask), bit by bit.

  /** The low `n` bits of `(prev & ~mask) | (value & mask)`. */
  function MaskBits(prev: int, value: int, mask: int, n: nat): (r: int)
    ensures 0 <= r < Pow2(n)
    decreases n
  {
    if n == 0 then 0
    else (if mask % 2 == 1 then value % 2 else prev % 2) + 2 * MaskBits(prev / 2, value / 2, mask / 2, n - 1)
  }

  /**
   * The byte a masked register write stores: `(prev & ~mask) | (value & mask)`
   * truncated to a byte, so only the low bytes of `value` and `mask` matter.
   */
  function MaskMerge(prev: Byte, value: int, mask: int): Byte
  {
    MaskBits(prev, value, mask, 8)
  }

  lemma {:induction false} BitOfHalf(x: int, k: nat)
    ensures Bit(x, k + 1) == Bit(x / 2, k)
  {
    Pow2Split(x, k);
  }

  lemma Pow2Split(x: int, k: nat)
    ensures x / Pow2(k + 1) == (x / 2) / Pow2(k)
  {
    ModMul(x, 2, Pow2(k));
  }

  /** Halving `a * 2^m + lo` halves both parts. */
  lemma HalfOfSplit(a: int, lo: int, m: nat)
    requires m > 0 && 0 <= lo < Pow2(m)
    ensures (a * Pow2(m) + lo) / 2 == a * Pow2(m - 1) + lo / 2
    ensures (a * Pow2(m) + lo) % 2 == lo % 2
    ensures 0 <= lo / 2 < Pow2(m - 1)
  {
    var x := a * Pow2(m) + lo;
    assert x == 2 * (a * Pow2(m - 1) + lo / 2) + lo % 2;
    DivModUnique(x, 2, a * Pow2(m - 1) + lo / 2, lo % 2);
  }

  /** Below bit `m`, the bits of `a * 2^m + lo` are those of `lo`. */
  lemma {:induction false} BitLow(a: int, lo: int, m: nat, k: nat)
    requires 0 <= lo < Pow2(m) && k < m
    ensures Bit(a * Pow2(m) + lo, k) == Bit(lo, k)
    decreases k
  {
    HalfOfSplit(a, lo, m);
    if k > 0 {
      BitOfHalf(a * Pow2(m) + lo, k - 1);
      BitOfHalf(lo, k - 1);
      BitLow(a, lo / 2, m - 1, k - 1);
    }
  }

  /** From bit `m` on, the bits of `a * 2^m + lo` are those of `a`. */
  lemma {:induction false} BitHigh(a: int, lo: int, m: nat, k: nat)
    requires 0 <= lo < Pow2(m)
    ensures Bit(a * Pow2(m) + lo, m + k) == Bit(a, k)
    decreases m
  {
    if m > 0 {
      HalfOfSplit(a, lo, m);
      BitOfHalf(a * Pow2(m) + lo, m - 1 + k);
      BitHigh(a, lo / 2, m - 1, k);
    }
  }

  /** Bit `k` of a masked merge comes from `value` where `mask` has a 1 and from `prev` elsewhere. */
  lemma {:induction false} MaskBitsBit(prev: int, value: int, mask: int, n: nat, k: nat)
    requires k < n
    ensures Bit(MaskBits(prev, value, mask, n), k) == if Bit(mask, k) == 1 then Bit(value, k) else Bit(prev, k)
    decreases n
  {
    var rest := MaskBits(prev / 2, value / 2, mask / 2, n - 1);
    var low := if mask % 2 == 1 then value % 2 else prev % 2;
    assert MaskBits(prev, value, mask, n) == low + 2 * rest;
    AppendLowBit(low, rest);
    if k == 0 {
      BitZero(low + 2 * rest);
      BitZero(mask);
      BitZero(value);
      BitZero(prev);
    } else {
      BitOfHalf(low + 2 * rest, k - 1);
      BitOfHalf(mask, k - 1);
      BitOfHalf(value, k - 1);
      BitOfHalf(prev, k - 1);
      MaskBitsBit(prev / 2, value / 2, mask / 2, n - 1, k - 1);
    }
  }

  lemma BitZero(x: int)
    ensures Bit(x, 0) == x % 2
  {
  }

  /** `low + 2 * rest` has `low` as its last bit and `rest` above it. */
  lemma AppendLowBit(low: int, rest: int)
    requires 0 <= low < 2
    ensures (low + 2 * rest) % 2 == low && (low + 2 * rest) / 2 == rest
  {
    DivModUnique(low + 2 * rest, 2, rest, low);
  }

  /** Where the mask has all `n` low bits set, the merge is the value's low bits. */
  lemma {:induction false} MaskBitsFull(prev: int, value: int, mask: int, n: nat)
    requires mask % Pow2(n) == Pow2(n) - 1
    ensures MaskBits(prev, value, mask, n) == value % Pow2(n)
    decreases n
  {
    if n > 0 {
      ModMul(mask, 2, Pow2(n - 1));
      ModMul(value, 2, Pow2(n - 1));
      assert mask % 2 == 1 && (mask / 2) % Pow2(n - 1) == Pow2(n - 1) - 1 by {
        assert mask % Pow2(n) == (mask / 2) % Pow2(n - 1) * 2 + mask % 2;
      }
      MaskBitsFull(prev / 2, value / 2, mask / 2, n - 1);
    }
  }

  /** Where the mask has none of the `n` low bits set, the merge keeps the previous bits. */
  lemma {:induction false} MaskBitsEmpty(prev: int, value: int, mask: int, n: nat)
    requires mask % Pow2(n) == 0
    ensures MaskBits(prev, value, mask, n) == prev % Pow2(n)
    decreases n
  {
    if n > 0 {
      ModMul(mask, 2, Pow2(n - 1));
      ModMul(prev, 2, Pow2(n - 1));
      assert mask % 2 == 0 && (mask / 2) % Pow2(n - 1) == 0 by {
        assert mask % Pow2(n) == (mask / 2) % Pow2(n - 1) * 2 + mask % 2;
      }
      MaskBitsEmpty(prev / 2, value / 2, mask / 2, n - 1);
    }
  }

  /** Of two merges through the same mask, the second decides the masked bits and the first is forgotten. */
  lemma {:induction false} MaskBitsLastWins(prev: int, v1: int, v2: int, mask: int, n: nat)
    ensures MaskBits(MaskBits(prev, v1, mask, n), v2, mask, n) == MaskBits(prev, v2, mask, n)
    decreases n
  {
    if n > 0 {
      var first := MaskBits(prev, v1, mask, n);
      var low := if mask % 2 == 1 then v1 % 2 else prev % 2;
      var rest := MaskBits(prev / 2, v1 / 2, mask / 2, n - 1);
      assert first == low + 2 * rest;
      DivModUnique(first, 2, rest, low);
      MaskBitsLastWins(prev / 2, v1 / 2, v2 / 2, mask / 2, n - 1);
    }
  }

  /** The low `k` bits of a merge of `n >= k` bits are the merge of `k` bits. */
  lemma {:induction false} MaskBitsLow(prev: int, value: int, mask: int, n: nat, k: nat)
    requires k <= n
    ensures MaskBits(prev, value, mask, n) % Pow2(k) == MaskBits(prev, value, mask, k)
    decreases k
  {
    if k > 0 {
      var low := if mask % 2 == 1 then value % 2 else prev % 2;
      MaskBitsLow(prev / 2, value / 2, mask / 2, n - 1, k - 1);
      ModOfDouble(low, MaskBits(prev / 2, value / 2, mask / 2, n - 1), Pow2(k - 1));
    }
  }

  /** Appending a low bit below `q` and taking the remainder by `2 * p`. */
  lemma ModOfDouble(low: int, q: int, p: int)
    requires 0 <= low < 2 && p > 0
    ensures (low + 2 * q) % (2 * p) == low + 2 * (q % p)
  {
    DivMod(q, p);
    assert low + 2 * q == 2 * p * (q / p) + (low + 2 * (q % p));
    DivModUnique(low + 2 * q, 2 * p, q / p, low + 2 * (q % p));
  }

  lemma Pow2Eight()
    ensures Pow2(8) == 256
  {
    assert Pow2(4) == 16;
  }

  /** 2^8 and 2^16, the byte and half-word moduli. */
  lemma Pow2Wide()
    ensures Pow2(8) == 0x100 && Pow2(16) == 0x10000
  {
    assert Pow2(4) == 16;
    assert Pow2(8) == 16 * Pow2(4) by {
      assert Pow2(8) == 2 * 2 * 2 * 2 * Pow2(4);
    }
    assert Pow2(12) == 16 * Pow2(8) by {
      assert Pow2(12) == 2 * 2 * 2 * 2 * Pow2(8);
    }
    assert Pow2(16) == 16 * Pow2(12) by {
      assert Pow2(16) == 2 * 2 * 2 * 2 * Pow2(12);
    }
  }

  /** A full mask writes the low byte of the value. */
  lemma MaskMergeFull(prev: Byte, value: int)
    ensures MaskMerge(prev, value, 0xff) == Low8(value)
  {
    Pow2Eight();
    MaskBitsFull(prev, value, 0xff, 8);
    assert MaskBits(prev, value, 0xff, 8) == value % 256;
  }

  /** An empty mask keeps the previous byte. */
  lemma MaskMergeEmpty(prev: Byte, value: int)
    ensures MaskMerge(prev, value, 0) == prev
  {
    Pow2Eight();
    MaskBitsEmpty(prev, value, 0, 8);
    assert MaskBits(prev, value, 0, 8) == prev % 256;
    DivModUnique(prev, 256, 0, prev);
  }

  /** The meaning of a masked write, bit by bit. */
  lemma MaskMergeBits(prev: Byte, value: int, mask: int, k: nat)
    requires k < 8
    ensures Bit(MaskMerge(prev, value, mask), k) == if Bit(mask, k) == 1 then Bit(value, k) else Bit(prev, k)
  {
    MaskBitsBit(prev, value, mask, 8, k);
  }

  /** Writing twice through one mask leaves what the second write alone would. */
  lemma MaskMergeLastWins(prev: Byte, v1: int, v2: int, mask: int)
    ensures MaskMerge(MaskMerge(prev, v1, mask), v2, mask) == MaskMerge(prev, v2, mask)
  {
    MaskBitsLastWins(prev, v1, v2, mask, 8);
  }

  // ---------------------------------------------------------------------------
  // Euclidean division facts.

  /** The defining equation of division with remainder. */
  lemma DivMod(a: int, d: int)
    requires d > 0
    ensures a == d * (a / d) + a % d && 0 <= a % d < d
  {
  }

  // Single steps of multiplication, stated once so that the division proofs
  // below can name the instance they need.

  lemma MulSucc(a: int, b: int)
    ensures a * (b + 1) == a * b + a
  {
  }

  lemma MulMono(a: int, b: int, c: int)
    requires a >= 0 && b <= c
    ensures a * b <= a * c
  {
  }

  lemma MulDistrib(a: int, b: int, c: int)
    ensures a * (b + c) == a * b + a * c
  {
  }

  lemma MulAssoc(a: int, b: int, c: int)
    ensures a * (b * c) == (a * b) * c
  {
  }

  lemma MulAtLeast(d: int, k: int)
    requires d > 0 && k >= 1
    ensures d * k >= d
  {
  }

  /** Division with remainder has exactly one answer. */
  lemma DivModUnique(a: int, d: int, q: int, r: int)
    requires d > 0 && a == d * q + r && 0 <= r < d
    ensures a / d == q && a % d == r
  {
    var q', r' := a / d, a % d;
    assert a == d * q' + r';
    assert d * (q - q') == r' - r;
    if q > q' {
      MulAtLeast(d, q - q');
      assert false;
    } else if q < q' {
      MulAtLeast(d, q' - q);
      assert false;
    }
  }

  /** Splitting a remainder modulo `b * c` into a remainder modulo `b` and a digit below `c`. */
  lemma ModMul(a: int, b: int, c: int)
    requires b > 0 && c > 0
    ensures a % (b * c) == (a / b) % c * b + a % b
    ensures a / (b * c) == (a / b) / c
  {
    var q, r := a / b, a % b;
    var q2, r2 := q / c, q % c;
    DivMod(a, b);
    DivMod(q, c);
    MulDistrib(b, c * q2, r2);
    MulAssoc(b, c, q2);
    MulMono(b, r2, c - 1);
    MulSucc(b, c - 1);
    DivModUnique(a, b * c, q2, b * r2 + r);
  }

  /** Numbers that differ by a multiple of `a * b` agree modulo `a`. */
  lemma ModOfCongruent(x: int, y: int, a: int, b: int)
    requires a > 0 && b > 0 && (x - y) % (a * b) == 0
    ensures x % a == y % a
  {
    var k := (x - y) / (a * b);
    DivMod(x - y, a * b);
    assert x == y + a * (b * k);
    DivMod(y, a);
    DivModUnique(x, a, y / a + b * k, y % a);
  }

  /** Dividing by a positive number at most `n / d` gives at least `d`. */
  lemma DivisorAtMostQuotient(n: int, d: int, m: int)
    requires n >= 0 && d > 0 && 0 < m <= n / d
    ensures n / m >= d
  {
    DivMod(n, d);
    MulMono(d, m, n / d);
    assert d * m <= n;
    var k := n / m;
    DivMod(n, m);
    if k < d {
      MulMono(m, k, d - 1);
      MulSucc(m, d - 1);
      assert false;
    }
  }
}
