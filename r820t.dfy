/**
 * The R820T tuner behind the demodulator's I2C master (src/r820t.ts). The
 * driver keeps a shadow copy of the chip's registers 0x05..0x1f, because the
 * chip returns its registers bit-reversed and only from register 0: every
 * masked write merges into the shadow byte and sends the merged byte.
 */
module Tuner {
  import opened Bytes
  import opened Results
  import opened Bus

  /** The tuner's I2C address. */
  const I2C_ADDR := 0x34
  /** The first shadowed register and the number of shadowed registers. */
  const FIRST_REG := 5
  const REG_COUNT := 27
  /** The identification byte register 0 answers with. */
  const CHIP_ID := 0x69

  /** Power-on values of registers 0x05..0x1f. */
  const REGISTERS: seq<int> := [
    0x83, 0x32, 0x75, 0xc0, 0x40, 0xd6, 0x6c, 0xf5, 0x63, 0x75, 0x68, 0x6c,
    0x83, 0x80, 0x00, 0x0f, 0x00, 0xc0, 0x30, 0x48, 0xcc, 0x60, 0x00, 0x54,
    0xae, 0x4a, 0xc0]

  /** A band of the multiplexer: lowest frequency in MHz and the values for registers 0x17, 0x1a and 0x1b. */
  datatype MuxCfg = MuxCfg(mhz: int, r17: int, r1a: int, r1b: int)

  const MUX_CFGS: seq<MuxCfg> := [
    MuxCfg(0, 0x08, 0x02, 0xdf),
    MuxCfg(50, 0x08, 0x02, 0xbe),
    MuxCfg(55, 0x08, 0x02, 0x8b),
    MuxCfg(60, 0x08, 0x02, 0x7b),
    MuxCfg(65, 0x08, 0x02, 0x69),
    MuxCfg(70, 0x08, 0x02, 0x58),
    MuxCfg(75, 0x00, 0x02, 0x44),
    MuxCfg(90, 0x00, 0x02, 0x34),
    MuxCfg(110, 0x00, 0x02, 0x24),
    MuxCfg(140, 0x00, 0x02, 0x14),
    MuxCfg(180, 0x00, 0x02, 0x13),
    MuxCfg(250, 0x00, 0x02, 0x11),
    MuxCfg(280, 0x00, 0x02, 0x00),
    MuxCfg(310, 0x00, 0x41, 0x00),
    MuxCfg(588, 0x00, 0x40, 0x00)]

  /** The 4-bit reversal of each nibble. */
  const BIT_REVS: seq<int> := [0x0, 0x8, 0x4, 0xc, 0x2, 0xa, 0x6, 0xe, 0x1, 0x9, 0x5, 0xd, 0x3, 0xb, 0x7, 0xf]

  // ---------------------------------------------------------------------------
  // Reading registers: the chip sends every byte bit-reversed.

  /** `BIT_REVS[b & 0xf] << 4 | BIT_REVS[b >> 4]`: the nibbles swapped, each reversed. */
  function BitRev(b: Byte): Byte
  {
    BIT_REVS[b % 16] * 16 + BIT_REVS[b / 16]
  }

  lemma Pow2Small()
    ensures Pow2(0) == 1 && Pow2(1) == 2 && Pow2(2) == 4 && Pow2(3) == 8
    ensures Pow2(4) == 16 && Pow2(5) == 32 && Pow2(6) == 64 && Pow2(7) == 128
  {
  }

  /** The table reverses the four bits of a nibble. */
  lemma NibbleReversed(n: int, j: nat)
    requires 0 <= n < 16 && j < 4
    ensures Bit(BIT_REVS[n], j) == Bit(n, 3 - j)
  {
    Pow2Small();
    if j == 0 {
      assert Bit(BIT_REVS[n], 0) == BIT_REVS[n] % 2 && Bit(n, 3) == n / 8 % 2;
    } else if j == 1 {
      assert Bit(BIT_REVS[n], 1) == BIT_REVS[n] / 2 % 2 && Bit(n, 2) == n / 4 % 2;
    } else if j == 2 {
      assert Bit(BIT_REVS[n], 2) == BIT_REVS[n] / 4 % 2 && Bit(n, 1) == n / 2 % 2;
    } else {
      assert Bit(BIT_REVS[n], 3) == BIT_REVS[n] / 8 % 2 && Bit(n, 0) == n % 2;
    }
    assert n in {0, 1, 2, 3, 4, 5, 6, 7, 8, 9, 10, 11, 12, 13, 14, 15};
  }

  /** Looking a nibble up twice gives it back. */
  lemma NibbleTwice(n: int)
    requires 0 <= n < 16
    ensures 0 <= BIT_REVS[n] < 16 && BIT_REVS[BIT_REVS[n]] == n
  {
    assert n in {0, 1, 2, 3, 4, 5, 6, 7, 8, 9, 10, 11, 12, 13, 14, 15};
  }

  /** Bits of a byte put together from two nibbles. */
  lemma BitOfNibbles(hi: int, lo: int, k: nat)
    requires 0 <= hi < 16 && 0 <= lo < 16 && k < 8
    ensures k < 4 ==> Bit(hi * 16 + lo, k) == Bit(lo, k)
    ensures k >= 4 ==> Bit(hi * 16 + lo, k) == Bit(hi, k - 4)
  {
    Pow2Small();
    if k < 4 {
      BitLow(hi, lo, 4, k);
    } else {
      BitHigh(hi, lo, 4, k - 4);
    }
  }

  /** Reading a register through the table gives the byte with its eight bits in reverse order. */
  lemma BitRevReverses(b: Byte, k: nat)
    requires k < 8
    ensures Bit(BitRev(b), k) == Bit(b, 7 - k)
  {
    var hi, lo := b / 16, b % 16;
    assert b == hi * 16 + lo;
    BitOfNibbles(BIT_REVS[lo], BIT_REVS[hi], k);
    BitOfNibbles(hi, lo, 7 - k);
    if k < 4 {
      NibbleReversed(hi, k);
    } else {
      NibbleReversed(lo, k - 4);
    }
  }

  /** Reversing twice gives the byte back. */
  lemma BitRevInvolution(b: Byte)
    ensures BitRev(BitRev(b)) == b
  {
    var hi, lo := b / 16, b % 16;
    NibbleTwice(hi);
    NibbleTwice(lo);
    var x := BIT_REVS[lo] * 16 + BIT_REVS[hi];
    assert x / 16 == BIT_REVS[lo] && x % 16 == BIT_REVS[hi];
  }

  // ---------------------------------------------------------------------------
  // Band selection (setMux).

  /** The lower edge of band `k`, in Hz. */
  function BandEdge(k: nat): int
    requires k < |MUX_CFGS|
  {
    MUX_CFGS[k].mhz * 1000000
  }

  /** The band edges ascend strictly. */
  lemma BandEdgesAscend(j: nat, k: nat)
    requires j < k < |MUX_CFGS|
    ensures BandEdge(j) < BandEdge(k)
  {
    assert forall i :: 0 <= i < |MUX_CFGS| - 1 ==> MUX_CFGS[i].mhz < MUX_CFGS[i + 1].mhz;
    if k > j + 1 {
      BandEdgesAscend(j, k - 1);
    }
  }

  /** How many of the edges of bands 1..k-1 lie at or below `freq`. */
  function EdgesBelow(freq: int, k: nat): (c: nat)
    requires k <= |MUX_CFGS|
    ensures c <= k && (k > 0 ==> c < k)
  {
    if k <= 1 then 0 else EdgesBelow(freq, k - 1) + (if BandEdge(k - 1) <= freq then 1 else 0)
  }

  /** The band for `freq`: the number of band edges above the first that `freq` has reached. */
  function MuxIndex(freq: int): (i: nat)
    ensures i < |MUX_CFGS|
  {
    EdgesBelow(freq, |MUX_CFGS|)
  }

  /** Since the edges ascend, the edges reached are exactly the first ones. */
  lemma {:induction false} EdgesBelowPrefix(freq: int, k: nat, j: nat)
    requires k <= |MUX_CFGS| && 1 <= j < k
    ensures j <= EdgesBelow(freq, k) <==> BandEdge(j) <= freq
    decreases k
  {
    if j < k - 1 {
      EdgesBelowPrefix(freq, k - 1, j);
      if BandEdge(k - 1) <= freq {
        BandEdgesAscend(j, k - 1);
      }
      if EdgesBelow(freq, k - 1) == k - 2 && BandEdge(k - 1) <= freq {
        EdgesBelowPrefix(freq, k - 1, k - 2);
      }
    } else if k > 2 {
      if BandEdge(k - 1) <= freq {
        EdgesBelowPrefix(freq, k - 1, k - 2);
        BandEdgesAscend(k - 2, k - 1);
      }
    }
  }

  /**
   * The selected band is the last one whose lower edge is at or below
   * `freq`, and band 0 below 50 MHz: `freq` lies in [edge i, edge i+1).
   */
  lemma MuxIndexBand(freq: int)
    ensures MuxIndex(freq) == 0 || BandEdge(MuxIndex(freq)) <= freq
    ensures MuxIndex(freq) == |MUX_CFGS| - 1 || freq < BandEdge(MuxIndex(freq) + 1)
  {
    var i := MuxIndex(freq);
    if i > 0 {
      EdgesBelowPrefix(freq, |MUX_CFGS|, i);
    }
    if i < |MUX_CFGS| - 1 {
      EdgesBelowPrefix(freq, |MUX_CFGS|, i + 1);
    }
  }

  /** Only one band index satisfies the band condition. */
  lemma MuxIndexUnique(freq: int, i: nat)
    requires i < |MUX_CFGS|
    requires i == 0 || BandEdge(i) <= freq
    requires i == |MUX_CFGS| - 1 || freq < BandEdge(i + 1)
    ensures i == MuxIndex(freq)
  {
    var m := MuxIndex(freq);
    MuxIndexBand(freq);
    if i < m {
      BandEdgesAscend(i + 1, m);
    } else if m < i {
      BandEdgesAscend(m + 1, i);
    }
  }

  /** A higher frequency never selects a lower band. */
  lemma {:induction false} EdgesBelowMonotonic(f1: int, f2: int, k: nat)
    requires f1 <= f2 && k <= |MUX_CFGS|
    ensures EdgesBelow(f1, k) <= EdgesBelow(f2, k)
    decreases k
  {
    if k > 1 {
      EdgesBelowMonotonic(f1, f2, k - 1);
    }
  }

  lemma MuxIndexMonotonic(f1: int, f2: int)
    requires f1 <= f2
    ensures MuxIndex(f1) <= MuxIndex(f2)
  {
    EdgesBelowMonotonic(f1, f2, |MUX_CFGS|);
  }

  // ---------------------------------------------------------------------------
  // PLL arithmetic (setPll).

  /** The highest frequency the divider computation covers: half the top of the VCO range. */
  const VCO_MIN := 1770000000

  /** floor(log2(x)). */
  function Log2Floor(x: int): (k: nat)
    requires x >= 1
    ensures Pow2(k) <= x < Pow2(k + 1)
  {
    if x < 2 then 0 else 1 + Log2Floor(x / 2)
  }

  /**
   * `min(6, floor(log(1.77e9 / freq) / LN2))`: how many times `freq` can be
   * doubled without leaving the lower half of the VCO range, at most 6.
   */
  function DivNum(freq: int): (d: int)
    requires 0 < freq <= VCO_MIN
    ensures 0 <= d <= 6
  {
    var l := Log2Floor(VCO_MIN / freq);
    if l < 6 then l else 6
  }

  /** `1 << (divNum + 1)`: the mixer divider, from the divider number before the fine-tune step. */
  function MixDiv(freq: int): (m: int)
    requires 0 < freq <= VCO_MIN
    ensures 2 <= m <= 128
  {
    Pow2Small();
    Pow2(DivNum(freq) + 1)
  }

  lemma Pow2Monotonic(j: nat, k: nat)
    requires j <= k
    ensures Pow2(j) <= Pow2(k)
  {
    if j < k {
      Pow2Monotonic(j, k - 1);
    }
  }

  /** The divider never takes the VCO above 3.54e9. */
  lemma VcoAtMost(freq: int)
    requires 0 < freq <= VCO_MIN
    ensures freq * MixDiv(freq) <= 2 * VCO_MIN
  {
    var q := VCO_MIN / freq;
    var d := DivNum(freq);
    Pow2Monotonic(d, Log2Floor(q));
    DivMod(VCO_MIN, freq);
    DoubledAtMost(freq, q, Pow2(d));
  }

  lemma DoubledAtMost(freq: int, q: int, pd: int)
    requires freq > 0 && 1 <= pd <= q && freq * q <= VCO_MIN
    ensures freq * (2 * pd) <= 2 * VCO_MIN
  {
    MulMono(freq, pd, q);
  }

  /** Above 1.77e9 / 128 Hz the divider takes the VCO above 1.77e9. */
  lemma VcoAbove(freq: int)
    requires 0 < freq <= VCO_MIN && freq * 128 > VCO_MIN
    ensures VCO_MIN < freq * MixDiv(freq)
  {
    var q := VCO_MIN / freq;
    var l := Log2Floor(q);
    Pow2Small();
    DivMod(VCO_MIN, freq);
    assert q < 128 by {
      if q >= 128 {
        MulMono(freq, 128, q);
      }
    }
    if l >= 7 {
      Pow2Monotonic(7, l);
      assert false;
    }
    assert MixDiv(freq) == Pow2(l + 1);
    MulSucc(freq, q);
    MulMono(freq, q + 1, Pow2(l + 1));
  }

  /** `(status[4] & 0x30) >> 4`: the VCO fine-tune field of status byte 4 (0 when the reply is short). */
  function FineTune(status: seq<Byte>): (f: int)
    ensures 0 <= f < 4
  {
    (ByteAt(status, 4) / 16) % 4
  }

  /** The fine-tune field moves the divider number down above 2 and up below 2. */
  function AdjustDivNum(divNum: int, fine: int): (d: int)
    ensures fine > 2 ==> d == divNum - 1
    ensures fine < 2 ==> d == divNum + 1
    ensures fine == 2 ==> d == divNum
  {
    if fine > 2 then divNum - 1 else if fine < 2 then divNum + 1 else divNum
  }

  /** The integer part of the PLL multiplier: `floor(vco / (2 * pllRef))`. */
  function Nint(freq: int, pllRef: int): int
    requires 0 < freq <= VCO_MIN && pllRef > 0
  {
    freq * MixDiv(freq) / (2 * pllRef)
  }

  /** The remainder the sigma-delta modulator has to make up: `vco % (2 * pllRef)`. */
  function VcoFra(freq: int, pllRef: int): (f: int)
    requires 0 < freq <= VCO_MIN && pllRef > 0
    ensures 0 <= f < 2 * pllRef
  {
    freq * MixDiv(freq) % (2 * pllRef)
  }

  /** The remainder of a division truncated toward zero, JavaScript's `%`. */
  function TruncRem(a: int, d: int): (r: int)
    requires d > 0
    ensures -d < r < d
    ensures a >= 0 ==> r == a % d
  {
    if a >= 0 then a % d else -((-a) % d)
  }

  /** `ni + (si << 6)` with `ni = floor((nint - 13) / 4)` and `si = (nint - 13) % 4`: the byte for register 0x14. */
  function NReg(nint: int): int
  {
    (nint - 13) / 4 + TruncRem(nint - 13, 4) * 64
  }

  /** For 13 <= nint <= 63 the register byte holds ni in bits 0..5 and si in bits 6..7, and nint can be read back from it. */
  lemma NRegRoundTrip(nint: int)
    requires 13 <= nint <= 63
    ensures 0 <= NReg(nint) < 256 && Low8(NReg(nint)) == NReg(nint)
    ensures 13 + 4 * (NReg(nint) % 64) + NReg(nint) / 64 == nint
  {
    var a := nint - 13;
    var ni, si := a / 4, a % 4;
    assert NReg(nint) == si * 64 + ni;
    DivModUnique(NReg(nint), 64, si, ni);
  }

  /** `min(65535, floor(32768 * vcoFra / pllRef))`: the fractional part, in 1/65536 steps of 2 * pllRef. */
  function Sdm(vcoFra: int, pllRef: int): int
    requires pllRef > 0
  {
    var s := 32768 * vcoFra / pllRef;
    if s < 65535 then s else 65535
  }

  /** Since vcoFra < 2 * pllRef, the 65535 cap never applies, and the value fits the two register bytes. */
  lemma SdmRange(vcoFra: int, pllRef: int)
    requires pllRef > 0 && 0 <= vcoFra < 2 * pllRef
    ensures Sdm(vcoFra, pllRef) == 32768 * vcoFra / pllRef
    ensures 0 <= Sdm(vcoFra, pllRef) < 65536
    ensures Sdm(vcoFra, pllRef) * (2 * pllRef) <= 65536 * vcoFra < (Sdm(vcoFra, pllRef) + 1) * (2 * pllRef)
  {
    var x := 32768 * vcoFra;
    var s := x / pllRef;
    assert x == pllRef * s + x % pllRef;
    assert pllRef * s <= x < pllRef * (s + 1);
    if s >= 65536 {
      MulMono(pllRef, 65536, s);
      assert false;
    }
    assert s * (2 * pllRef) == 2 * (pllRef * s);
    assert (s + 1) * (2 * pllRef) == 2 * (pllRef * (s + 1));
  }

  /** `2 * pllRef * (nint + sdm / 65536) / mixDiv`: the frequency the PLL settles on. */
  function ActualFreq(pllRef: int, nint: int, sdm: int, mixDiv: int): real
    requires mixDiv > 0
  {
    (2 * pllRef) as real * (nint as real + sdm as real / 65536.0) / mixDiv as real
  }

  /** The frequency setPll reports: 0 when the multiplier does not fit, the synthesised frequency otherwise. */
  function PllResult(freq: int, pllRef: int): real
    requires 0 < freq <= VCO_MIN && pllRef > 0
  {
    var nint := Nint(freq, pllRef);
    if nint > 63 then 0.0
    else ActualFreq(pllRef, nint, Sdm(VcoFra(freq, pllRef), pllRef), MixDiv(freq))
  }

  /** The real-number step of the resolution bound: dropping a fraction below one modulator step. */
  lemma ActualFreqBracket(freq: int, mix: int, pllRef: int, nint: int, fra: int, sdm: int)
    requires mix > 0 && pllRef > 0
    requires freq * mix == 2 * pllRef * nint + fra
    requires sdm * (2 * pllRef) <= 65536 * fra < (sdm + 1) * (2 * pllRef)
    ensures var a := ActualFreq(pllRef, nint, sdm, mix);
      a <= freq as real && freq as real - a < (2 * pllRef) as real / (65536 * mix) as real
  {
    var p2 := 2 * pllRef;
    var m, p, n, f, s := mix as real, p2 as real, nint as real, fra as real, sdm as real;
    var a := p * (n + s / 65536.0) / m;
    var top := p * (n + s / 65536.0);
    assert a * m == top;
    assert top == p * n + (s * p) / 65536.0;
    assert (s * p) / 65536.0 <= f;
    assert f < (s * p + p) / 65536.0;
    assert freq as real * m == p * n + f;
    assert top <= freq as real * m;
    assert freq as real * m - top < p / 65536.0;
    assert a <= freq as real;
    assert (freq as real - a) * m < p / 65536.0;
    assert p / (65536 * mix) as real == (p / 65536.0) / m;
  }

  /**
   * The synthesised frequency is at most the one asked for, and short of it
   * by less than one step of the modulator, 2 * pllRef / 65536 / mixDiv.
   */
  lemma PllResolution(freq: int, pllRef: int)
    requires 0 < freq <= VCO_MIN && pllRef > 0
    requires Nint(freq, pllRef) <= 63
    ensures var actual := PllResult(freq, pllRef);
      actual <= freq as real &&
      freq as real - actual < (2 * pllRef) as real / (65536 * MixDiv(freq)) as real
  {
    var mix := MixDiv(freq);
    var nint, fra := Nint(freq, pllRef), VcoFra(freq, pllRef);
    var sdm := Sdm(fra, pllRef);
    SdmRange(fra, pllRef);
    var vco := freq * mix;
    DivMod(vco, 2 * pllRef);
    ActualFreqBracket(freq, mix, pllRef, nint, fra, sdm);
    assert PllResult(freq, pllRef) == ActualFreq(pllRef, nint, sdm, mix);
  }

  /**
   * With a crystal between 28.1 and 68 MHz, every frequency above 1.77e9 / 128
   * Hz gets a multiplier nint in 13..63: setPll then never takes its unlocked
   * path.
   */
  lemma NintInRange(freq: int, pllRef: int)
    requires 0 < freq <= VCO_MIN && freq * 128 > VCO_MIN
    requires 28100000 <= pllRef <= 68000000
    ensures 13 <= Nint(freq, pllRef) <= 63
  {
    VcoAtMost(freq);
    VcoAbove(freq);
    var vco := freq * MixDiv(freq);
    var p2 := 2 * pllRef;
    var n := vco / p2;
    DivMod(vco, p2);
    if n > 63 {
      MulMono(p2, 64, n);
      assert false;
    }
    if n < 13 {
      MulMono(p2, n, 12);
      assert false;
    }
  }

  // ---------------------------------------------------------------------------
  // Gain and filter calibration.

  /** The gain step clamped to the 31 steps the tuner has. */
  function ClampStep(step: int): (s: int)
    ensures 0 <= s <= 30
    ensures 0 <= step <= 30 ==> s == step
  {
    if step < 0 then 0 else if step > 30 then 30 else step
  }

  /** `floor(step / 2)`: the LNA gain index. */
  function LnaValue(step: int): int
  {
    step / 2
  }

  /** `floor((step - 1) / 2)`: the mixer gain index. */
  function MixerValue(step: int): int
  {
    (step - 1) / 2
  }

  /**
   * A clamped step splits into an LNA index in 0..15 and a mixer index in
   * -1..14 that add up to step - 1, the LNA taking the larger half; step 0
   * gives the mixer -1, which the 4-bit field stores as 15.
   */
  lemma GainSplit(step: int)
    requires 0 <= step <= 30
    ensures 0 <= LnaValue(step) <= 15 && -1 <= MixerValue(step) <= 14
    ensures LnaValue(step) + MixerValue(step) == step - 1
    ensures LnaValue(step) - MixerValue(step) == (if step % 2 == 0 then 1 else 0)
    ensures step == 0 ==> MixerValue(step) == -1 && MixerValue(step) % 16 == 15
    ensures LnaValue(step) % 16 == LnaValue(step)
  {
  }

  /** `status[4] & 0x0f` with 0x0f read as 0: the filter capacitor setting the calibration found. */
  function FilterCap(status: seq<Byte>): (c: int)
    ensures 0 <= c <= 14
    ensures c == 0 || c == ByteAt(status, 4) % 16
  {
    var c := ByteAt(status, 4) % 16;
    if c == 0x0f then 0 else c
  }

  // ---------------------------------------------------------------------------
  // Register write tables.

  /** One line of a tuner write table: register, value, mask. */
  datatype Line = Line(addr: int, value: int, mask: int)

  /** Every line addresses a shadowed register, 0x05..0x1f. */
  predicate Shadowed(lines: seq<Line>)
  {
    forall k :: 0 <= k < |lines| ==> FIRST_REG <= lines[k].addr < FIRST_REG + REG_COUNT
  }

  const CLOSE_LINES: seq<Line> := [
    Line(0x06, 0xb1, 0xff), Line(0x05, 0xb3, 0xff), Line(0x07, 0x3a, 0xff), Line(0x08, 0x40, 0xff),
    Line(0x09, 0xc0, 0xff), Line(0x0a, 0x36, 0xff), Line(0x0c, 0x35, 0xff), Line(0x0f, 0x68, 0xff),
    Line(0x11, 0x03, 0xff), Line(0x17, 0xf4, 0xff), Line(0x19, 0x0c, 0xff)]

  const ELECTRONICS_LINES: seq<Line> := [Line(0x0c, 0x00, 0x0f), Line(0x13, 49, 0x3f), Line(0x1d, 0x00, 0x38)]

  /** The second table of initElectronics; `0x10 | filterCap` is 0x10 + filterCap as the capacitor setting is below 16. */
  function ElectronicsLines(filterCap: int): seq<Line>
  {
    [Line(0x0a, 0x10 + filterCap, 0x1f), Line(0x0b, 0x6b, 0xef), Line(0x07, 0x00, 0x80), Line(0x06, 0x10, 0x30),
     Line(0x1e, 0x40, 0x60), Line(0x05, 0x00, 0x80), Line(0x1f, 0x00, 0x80), Line(0x0f, 0x00, 0x80),
     Line(0x19, 0x60, 0x60), Line(0x1d, 0xe5, 0xc7), Line(0x1c, 0x24, 0xf8), Line(0x0d, 0x53, 0xff),
     Line(0x0e, 0x75, 0xff), Line(0x05, 0x00, 0x60), Line(0x06, 0x00, 0x08), Line(0x11, 0x38, 0x08),
     Line(0x17, 0x30, 0x30), Line(0x0a, 0x40, 0x60), Line(0x1d, 0x00, 0x38), Line(0x1c, 0x00, 0x04),
     Line(0x06, 0x00, 0x40), Line(0x1a, 0x30, 0x30), Line(0x1d, 0x18, 0x38), Line(0x1c, 0x24, 0x04),
     Line(0x1e, 0x0d, 0x1f), Line(0x1a, 0x20, 0x30)]
  }

  const AUTO_GAIN_LINES: seq<Line> := [Line(0x05, 0x00, 0x10), Line(0x07, 0x10, 0x10), Line(0x0c, 0x0b, 0x9f)]

  function ManualGainLines(step: int): seq<Line>
  {
    [Line(0x05, 0x10, 0x10), Line(0x07, 0x00, 0x10), Line(0x0c, 0x08, 0x9f),
     Line(0x05, LnaValue(step), 0x0f), Line(0x07, MixerValue(step), 0x0f)]
  }

  const CALIBRATE_LINES: seq<Line> := [Line(0x0b, 0x6b, 0x60), Line(0x0f, 0x04, 0x04), Line(0x10, 0x00, 0x03)]
  const CALIBRATE_DONE_LINES: seq<Line> := [Line(0x0b, 0x10, 0x10), Line(0x0b, 0x00, 0x10), Line(0x0f, 0x00, 0x04)]

  function MuxLines(cfg: MuxCfg): seq<Line>
  {
    [Line(0x17, cfg.r17, 0x08), Line(0x1a, cfg.r1a, 0xc3), Line(0x1b, cfg.r1b, 0xff),
     Line(0x10, 0x00, 0x0b), Line(0x08, 0x00, 0x3f), Line(0x09, 0x00, 0x3f)]
  }

  const PLL_LINES: seq<Line> := [Line(0x10, 0x00, 0x10), Line(0x1a, 0x00, 0x0c), Line(0x12, 0x80, 0xe0)]

  function NintLines(nint: int, vcoFra: int): seq<Line>
  {
    [Line(0x14, NReg(nint), 0xff), Line(0x12, if vcoFra == 0 then 0x08 else 0x00, 0x08)]
  }

  /** `sdm >> 8` and `sdm & 0xff` into registers 0x16 and 0x15. */
  function SdmLines(sdm: int): seq<Line>
  {
    [Line(0x16, ShiftRight(sdm, 8), 0xff), Line(0x15, ToInt32(sdm) % 256, 0xff)]
  }

  // ---------------------------------------------------------------------------
  // What each tuner operation does: its result, the bus trace, the shadow
  // registers and the lock flag it leaves.

  /**
   * The bus trace, the shadow registers, whether initRegisters has created
   * them yet (`shadowRegs` is undefined until then), and the lock flag.
   */
  datatype TState = TState(trace: seq<Transfer>, shadow: seq<Byte>, hasShadow: bool, lock: bool)
  datatype Step<T> = Step(result: Result<T>, state: TState)

  function Fail<T, U>(e: Step<T>): Step<U>
    requires e.result.Failure?
  {
    Step(Failure(e.result.error), e.state)
  }

  /**
   * writeRegMask: the shadow byte (0 past the end of the shadow) merged with
   * `value` under `mask`, stored back into the shadow and then written to the
   * chip. Before initRegisters there is no shadow to index, and nothing is sent.
   */
  function RegMaskEffect(dev: Device, s: TState, addr: int, value: int, mask: int): Step<()>
  {
    if !s.hasShadow then Step(Failure(NoShadowRegisters), s) else
    var i := addr - FIRST_REG;
    var rc := if 0 <= i < |s.shadow| then s.shadow[i] else 0;
    var v := MaskMerge(rc, value, mask);
    var e := WriteI2CRegEffect(dev, s.trace, I2C_ADDR, addr, v);
    Step(e.result, s.(trace := e.trace, shadow := if 0 <= i < |s.shadow| then s.shadow[i := v] else s.shadow))
  }

  /** writeEach: the lines in order, stopping at the first failed write. */
  function LinesEffect(dev: Device, s: TState, lines: seq<Line>): Step<()>
  {
    if lines == [] then Step(Success(()), s)
    else
      var e := LinesEffect(dev, s, lines[..|lines| - 1]);
      var l := lines[|lines| - 1];
      if e.result.Failure? then e else RegMaskEffect(dev, e.state, l.addr, l.value, l.mask)
  }

  /** readRegBuffer: `len` bytes from register `addr` on, each bit-reversed. */
  function ReadBufferEffect(dev: Device, s: TState, addr: int, len: nat): Step<seq<Byte>>
  {
    var e := ReadI2CRegBufferEffect(dev, s.trace, I2C_ADDR, addr, len);
    var st := s.(trace := e.trace);
    if e.result.Failure? then Step(Failure(e.result.error), st)
    else Step(Success(BitRevAll(e.result.value)), st)
  }

  /** Every byte of a reply bit-reversed. */
  function BitRevAll(d: seq<Byte>): (r: seq<Byte>)
    ensures |r| == |d| && forall k :: 0 <= k < |d| ==> r[k] == BitRev(d[k])
  {
    seq(|d|, k requires 0 <= k < |d| => BitRev(d[k]))
  }

  /** Bit 6 of status byte 2 (`arr[2] & 0x40`): the PLL has locked. */
  predicate LockBit(status: seq<Byte>)
  {
    Bit(ByteAt(status, 2), 6) == 1
  }

  /** getPllLock: read the status; without lock, nudge register 0x12 once and read again. */
  function PllLockEffect(dev: Device, s: TState, firstTry: bool): Step<bool>
    decreases firstTry
  {
    var e := ReadBufferEffect(dev, s, 0x00, 3);
    if e.result.Failure? then Fail(e)
    else if LockBit(e.result.value) then Step(Success(true), e.state.(lock := true))
    else if firstTry then
      var w := RegMaskEffect(dev, e.state, 0x12, 0x60, 0xe0);
      if w.result.Failure? then Fail(w) else PllLockEffect(dev, w.state, false)
    else Step(Success(false), e.state.(lock := false))
  }

  /** setPll, from its three preparatory writes to the final write of register 0x1a. */
  function PllEffect(dev: Device, pllRef: int, s: TState, freq: int): Step<real>
    requires 0 < freq <= VCO_MIN && pllRef > 0
  {
    var e := PllPrepare(dev, pllRef, s, freq);
    if e.result.Failure? then Fail(e) else PllTune(dev, pllRef, e.state, freq)
  }

  /** The second half of setPll: give up above nint 63, else write nint and sdm, check the lock and set bit 3 of register 0x1a. */
  function PllTune(dev: Device, pllRef: int, s: TState, freq: int): Step<real>
    requires 0 < freq <= VCO_MIN && pllRef > 0
  {
    var nint := Nint(freq, pllRef);
    var fra := VcoFra(freq, pllRef);
    if nint > 63 then Step(Success(0.0), s.(lock := false)) else
    var e4 := LinesEffect(dev, s, NintLines(nint, fra));
    if e4.result.Failure? then Fail(e4) else
    var sdm := Sdm(fra, pllRef);
    var e5 := LinesEffect(dev, e4.state, SdmLines(sdm));
    if e5.result.Failure? then Fail(e5) else
    var e6 := PllLockEffect(dev, e5.state, true);
    if e6.result.Failure? then Fail(e6) else
    var e7 := RegMaskEffect(dev, e6.state, 0x1a, 0x08, 0x08);
    if e7.result.Failure? then Fail(e7) else
    Step(Success(ActualFreq(pllRef, nint, sdm, MixDiv(freq))), e7.state)
  }

  /** The first half of setPll: the three preparatory writes, the status read and the divider write to register 0x10. */
  function PllPrepare(dev: Device, pllRef: int, s: TState, freq: int): Step<()>
    requires 0 < freq <= VCO_MIN && pllRef > 0
  {
    var e1 := LinesEffect(dev, s, PLL_LINES);
    if e1.result.Failure? then e1 else
    var e2 := ReadBufferEffect(dev, e1.state, 0x00, 5);
    if e2.result.Failure? then Fail(e2) else
    var divNum := AdjustDivNum(DivNum(freq), FineTune(e2.result.value));
    RegMaskEffect(dev, e2.state, 0x10, ToInt32(divNum * 32), 0xe0)
  }

  /** calibrateFilter: tune the PLL to 56 MHz, trigger the calibration and read the capacitor; one retry. */
  function CalibrateEffect(dev: Device, pllRef: int, s: TState, firstTry: bool): Step<int>
    requires pllRef > 0
    decreases firstTry
  {
    var e1 := LinesEffect(dev, s, CALIBRATE_LINES);
    if e1.result.Failure? then Fail(e1) else
    var e2 := PllEffect(dev, pllRef, e1.state, 56000000);
    if e2.result.Failure? then Fail(e2) else
    if !e2.state.lock then Step(Failure(PllNotLocked), e2.state) else
    var e3 := LinesEffect(dev, e2.state, CALIBRATE_DONE_LINES);
    if e3.result.Failure? then Fail(e3) else
    var e4 := ReadBufferEffect(dev, e3.state, 0x00, 5);
    if e4.result.Failure? then Fail(e4) else
    var cap := FilterCap(e4.result.value);
    if cap != 0 && firstTry then CalibrateEffect(dev, pllRef, e4.state, false)
    else Step(Success(cap), e4.state)
  }

  function ElectronicsEffect(dev: Device, pllRef: int, s: TState): Step<()>
    requires pllRef > 0
  {
    var e1 := LinesEffect(dev, s, ELECTRONICS_LINES);
    if e1.result.Failure? then e1 else
    var e2 := CalibrateEffect(dev, pllRef, e1.state, true);
    if e2.result.Failure? then Fail(e2) else
    LinesEffect(dev, e2.state, ElectronicsLines(e2.result.value))
  }

  /** The write batch of initRegisters: register i + 5 gets byte i of the image. */
  function InitCommands(regs: seq<int>): (cmds: seq<Command>)
    ensures |cmds| == |regs|
  {
    seq(|regs|, k requires 0 <= k < |regs| => Command(CMD_I2CREG, I2C_ADDR, k + FIRST_REG, regs[k], 0))
  }

  /** initRegisters: the shadow becomes the image, then the image is written out register by register. */
  function InitRegistersEffect(dev: Device, s: TState, regs: seq<int>): Step<()>
  {
    var e := BatchEffect(dev, s.trace, InitCommands(regs));
    Step(e.result, s.(trace := e.trace, shadow := seq(|regs|, k requires 0 <= k < |regs| => Low8(regs[k])), hasShadow := true))
  }

  function InitEffect(dev: Device, pllRef: int, s: TState): Step<()>
    requires pllRef > 0
  {
    var e := InitRegistersEffect(dev, s, REGISTERS);
    if e.result.Failure? then e else ElectronicsEffect(dev, pllRef, e.state)
  }

  function SetFrequencyEffect(dev: Device, pllRef: int, s: TState, freq: int): Step<real>
    requires 0 < freq <= VCO_MIN && pllRef > 0
  {
    var e := LinesEffect(dev, s, MuxLines(MUX_CFGS[MuxIndex(freq)]));
    if e.result.Failure? then Fail(e) else PllEffect(dev, pllRef, e.state, freq)
  }

  // ---------------------------------------------------------------------------
  // The shadow mirrors the chip: for each register, the last byte written to it.

  /** A write to the tuner over I2C: the register number followed by one or more bytes for consecutive registers. */
  predicate TunerWrite(r: Request)
  {
    r.ControlOut? && r.value == I2C_ADDR && r.index == WriteIndex(BLOCK_I2C) && |r.data| >= 2
  }

  /** What request `r` stores into tuner register `reg`, if anything. */
  function ImageOf(r: Request, reg: int): Option<Byte>
  {
    if TunerWrite(r) && r.data[0] <= reg < r.data[0] + |r.data| - 1 then Some(r.data[reg - r.data[0] + 1]) else None
  }

  /** The byte last written to tuner register `reg` by the requests `reqs`. */
  function TunerImage(reqs: seq<Request>, reg: int): Option<Byte>
  {
    if reqs == [] then None
    else
      var o := ImageOf(reqs[|reqs| - 1], reg);
      if o.Some? then o else TunerImage(reqs[..|reqs| - 1], reg)
  }

  /** The shadow holds, for each of the 27 registers, the byte the trace last wrote to it. */
  predicate Synced(t: seq<Transfer>, shadow: seq<Byte>)
  {
    |shadow| == REG_COUNT &&
    forall i :: 0 <= i < REG_COUNT ==> TunerImage(Requests(t), i + FIRST_REG) == Some(shadow[i])
  }

  lemma ImageAppend(reqs: seq<Request>, r: Request, reg: int)
    ensures TunerImage(reqs + [r], reg) == if ImageOf(r, reg).Some? then ImageOf(r, reg) else TunerImage(reqs, reg)
  {
    assert (reqs + [r])[..|reqs|] == reqs;
  }

  /** Transfers that write nothing to the tuner leave every register image as it was. */
  lemma {:induction false} ImageAppendOthers(t: seq<Transfer>, extra: seq<Transfer>, reg: int)
    requires forall k :: 0 <= k < |extra| ==> !TunerWrite(extra[k].request)
    ensures TunerImage(Requests(t + extra), reg) == TunerImage(Requests(t), reg)
    decreases |extra|
  {
    if extra != [] {
      var init := extra[..|extra| - 1];
      assert t + extra == (t + init) + [extra[|extra| - 1]];
      RequestsAppend(t + init, [extra[|extra| - 1]]);
      ImageAppend(Requests(t + init), extra[|extra| - 1].request, reg);
      ImageAppendOthers(t, init, reg);
    } else {
      assert t + extra == t;
    }
  }

  /** Writing byte `v` to register `addr` and storing it in the shadow keeps the two in step. */
  lemma SyncAfterWrite(t: seq<Transfer>, shadow: seq<Byte>, x: Transfer, addr: int, v: Byte)
    requires Synced(t, shadow)
    requires FIRST_REG <= addr < FIRST_REG + REG_COUNT
    requires x.request == ControlOut(I2C_ADDR, WriteIndex(BLOCK_I2C), [addr, v])
    ensures Synced(t + [x], shadow[addr - FIRST_REG := v])
  {
    RequestsAppend(t, [x]);
    var after := shadow[addr - FIRST_REG := v];
    forall i | 0 <= i < REG_COUNT
      ensures TunerImage(Requests(t + [x]), i + FIRST_REG) == Some(after[i])
    {
      ImageAppend(Requests(t), x.request, i + FIRST_REG);
    }
  }

  /** A masked write to a shadowed register keeps the shadow in step with the chip. */
  lemma RegMaskKeepsSync(dev: Device, s: TState, addr: int, value: int, mask: int)
    requires Synced(s.trace, s.shadow)
    requires FIRST_REG <= addr < FIRST_REG + REG_COUNT
    ensures var e := RegMaskEffect(dev, s, addr, value, mask);
      e.result.Success? ==> Synced(e.state.trace, e.state.shadow)
  {
    var e := RegMaskEffect(dev, s, addr, value, mask);
    if e.result.Success? {
      var v := MaskMerge(s.shadow[addr - FIRST_REG], value, mask);
      Low8OfByte(addr);
      Low8OfByte(v);
      var x := e.state.trace[|s.trace|];
      assert e.state.trace == s.trace + [x];
      SyncAfterWrite(s.trace, s.shadow, x, addr, v);
    }
  }

  /** Reading registers writes only the start register, which stores nothing. */
  lemma ReadBufferKeepsSync(dev: Device, s: TState, addr: int, len: nat)
    requires Synced(s.trace, s.shadow)
    ensures var e := ReadBufferEffect(dev, s, addr, len);
      e.state.shadow == s.shadow && e.state.lock == s.lock && Synced(e.state.trace, e.state.shadow)
  {
    var e := ReadBufferEffect(dev, s, addr, len);
    var extra := e.state.trace[|s.trace|..];
    ReadBufferWritesNothing(dev, s.trace, addr, len);
    assert e.state.trace == s.trace + extra;
    forall i | 0 <= i < REG_COUNT
      ensures TunerImage(Requests(e.state.trace), i + FIRST_REG) == Some(e.state.shadow[i])
    {
      ImageAppendOthers(s.trace, extra, i + FIRST_REG);
    }
  }

  /** The transfers of a register read: the start register alone, which is no tuner write, and the reply. */
  lemma ReadBufferWritesNothing(dev: Device, t: seq<Transfer>, addr: int, len: nat)
    ensures var e := ReadI2CRegBufferEffect(dev, t, I2C_ADDR, addr, len);
      t <= e.trace && forall k :: |t| <= k < |e.trace| ==> !TunerWrite(e.trace[k].request)
  {
    var w := WriteCtrlMsgEffect(dev, t, I2C_ADDR, WriteIndex(BLOCK_I2C), [Low8(addr)]);
    if w.result.Success? {
      var r := ReadCtrlMsgEffect(dev, w.trace, I2C_ADDR, BLOCK_I2C, len);
      assert |w.trace| == |t| + 1 && w.trace[|t|].request.data == [Low8(addr)];
      assert |r.trace| <= |w.trace| + 1 && w.trace <= r.trace;
    }
  }

  /** A write table whose registers are all shadowed keeps the shadow in step with the chip. */
  lemma {:induction false} LinesKeepSync(dev: Device, s: TState, lines: seq<Line>)
    requires Synced(s.trace, s.shadow) && Shadowed(lines)
    ensures var e := LinesEffect(dev, s, lines);
      e.state.lock == s.lock && (e.result.Success? ==> Synced(e.state.trace, e.state.shadow))
    decreases |lines|
  {
    if lines != [] {
      var init := lines[..|lines| - 1];
      LinesKeepSync(dev, s, init);
      var e := LinesEffect(dev, s, init);
      if e.result.Success? {
        var l := lines[|lines| - 1];
        RegMaskKeepsSync(dev, e.state, l.addr, l.value, l.mask);
      }
    }
  }

  // ---------------------------------------------------------------------------
  // Lock detection and the PLL registers.

  /** The number of status reads (control reads from the tuner's address) in a trace. */
  function StatusReads(t: seq<Transfer>): nat
  {
    if t == [] then 0
    else StatusReads(t[..|t| - 1]) + (if IsStatusRead(t[|t| - 1].request) then 1 else 0)
  }

  predicate IsStatusRead(r: Request)
  {
    r.ControlIn? && r.value == I2C_ADDR && r.index == BLOCK_I2C
  }

  /** Bits 0..n-1 of `a` and `b` agree. */
  predicate SameLowBits(a: int, b: int, n: nat)
  {
    forall j :: 0 <= j < n ==> Bit(a, j) == Bit(b, j)
  }

  lemma {:induction false} StatusReadsAppend(a: seq<Transfer>, b: seq<Transfer>)
    ensures StatusReads(a + b) == StatusReads(a) + StatusReads(b)
    decreases |b|
  {
    if b == [] {
      assert a + b == a;
    } else {
      assert (a + b)[..|a + b| - 1] == a + b[..|b| - 1];
      StatusReadsAppend(a, b[..|b| - 1]);
    }
  }

  /** Status reads after `t0` split at any later prefix `t1`. */
  lemma StatusReadsSplit(t0: seq<Transfer>, t1: seq<Transfer>, t2: seq<Transfer>)
    requires t0 <= t1 <= t2
    ensures StatusReads(t2[|t0|..]) == StatusReads(t1[|t0|..]) + StatusReads(t2[|t1|..])
  {
    assert t2[|t0|..] == t1[|t0|..] + t2[|t1|..];
    StatusReadsAppend(t1[|t0|..], t2[|t1|..]);
  }

  /** A masked write extends the trace by one write and touches only its own shadow byte. */
  lemma RegMaskFrame(dev: Device, s: TState, addr: int, value: int, mask: int)
    ensures var e := RegMaskEffect(dev, s, addr, value, mask);
      e.state.lock == s.lock && |e.state.shadow| == |s.shadow| &&
      (forall i :: 0 <= i < |s.shadow| && i != addr - FIRST_REG ==> e.state.shadow[i] == s.shadow[i]) &&
      s.trace <= e.state.trace &&
      StatusReads(e.state.trace[|s.trace|..]) == 0
  {
    var e := RegMaskEffect(dev, s, addr, value, mask);
    var extra := e.state.trace[|s.trace|..];
    if |extra| == 1 {
      assert StatusReads(extra) == StatusReads([]) + 0;
    }
  }

  /** A register read extends the trace by the start-register write and one status read. */
  lemma ReadBufferFrame(dev: Device, s: TState, addr: int, len: nat)
    ensures var e := ReadBufferEffect(dev, s, addr, len);
      e.state.lock == s.lock && e.state.shadow == s.shadow &&
      s.trace <= e.state.trace &&
      (e.result.Success? ==>
        |e.state.trace| == |s.trace| + 2 &&
        StatusReads(e.state.trace[|s.trace|..]) == 1 &&
        e.state.trace[|e.state.trace| - 1].request == ControlIn(I2C_ADDR, BLOCK_I2C, if len < 8 then 8 else len) &&
        e.result.value == BitRevAll(Prefix(e.state.trace[|e.state.trace| - 1].data, len)))
  {
    var e := ReadBufferEffect(dev, s, addr, len);
    if e.result.Success? {
      var w := WriteCtrlMsgEffect(dev, s.trace, I2C_ADDR, WriteIndex(BLOCK_I2C), [Low8(addr)]);
      assert w.result.Success?;
      var extra := e.state.trace[|s.trace|..];
      assert extra == [w.trace[|s.trace|], e.state.trace[|w.trace|]];
      assert !IsStatusRead(extra[0].request) && IsStatusRead(extra[1].request);
      var one := extra[..1];
      assert one[..0] == [] && one[0] == extra[0];
      assert StatusReads(one) == 0;
      assert extra[..|extra| - 1] == one;
      assert StatusReads(extra) == StatusReads(one) + 1;
    }
  }

  /** The last transfer of `t` is a status read whose byte 2, bit-reversed, has bit 6 equal to `locked`. */
  predicate LastStatusSays(t: seq<Transfer>, locked: bool)
  {
    |t| > 0 && t[|t| - 1].request == ControlIn(I2C_ADDR, BLOCK_I2C, 8) &&
    (locked <==> LockBit(BitRevAll(Prefix(t[|t| - 1].data, 3))))
  }

  lemma PrefixTrans<T>(a: seq<T>, b: seq<T>, c: seq<T>, d: seq<T>)
    requires a <= b <= c < d
    ensures a < d
  {
  }

  /** The second try of getPllLock: one status read decides the flag. */
  lemma PllLockLastTry(dev: Device, s: TState)
    ensures var e := PllLockEffect(dev, s, false);
      e.result.Success? ==>
        e.result.value == e.state.lock && LastStatusSays(e.state.trace, e.result.value) &&
        s.trace < e.state.trace
  {
    ReadBufferFrame(dev, s, 0x00, 3);
  }

  /** The flag getPllLock sets and returns is bit 6 of byte 2 of its last status read. */
  lemma PllLockResult(dev: Device, s: TState, firstTry: bool)
    ensures var e := PllLockEffect(dev, s, firstTry);
      e.result.Success? ==>
        e.result.value == e.state.lock && LastStatusSays(e.state.trace, e.result.value) &&
        s.trace < e.state.trace
  {
    var e := PllLockEffect(dev, s, firstTry);
    var r := ReadBufferEffect(dev, s, 0x00, 3);
    ReadBufferFrame(dev, s, 0x00, 3);
    if !firstTry {
      PllLockLastTry(dev, s);
    } else if e.result.Success? && !LockBit(r.result.value) {
      var w := RegMaskEffect(dev, r.state, 0x12, 0x60, 0xe0);
      RegMaskFrame(dev, r.state, 0x12, 0x60, 0xe0);
      PllLockLastTry(dev, w.state);
      assert e == PllLockEffect(dev, w.state, false);
      PrefixTrans(s.trace, r.state.trace, w.state.trace, e.state.trace);
    }
  }

  /** The second try of getPllLock reads the status once. */
  lemma PllLockLastTryReads(dev: Device, s: TState)
    ensures var e := PllLockEffect(dev, s, false);
      s.trace <= e.state.trace && (e.result.Success? ==> StatusReads(e.state.trace[|s.trace|..]) == 1)
  {
    ReadBufferFrame(dev, s, 0x00, 3);
  }

  /** getPllLock reads the status at most twice, and once when it is not the first try. */
  lemma PllLockReads(dev: Device, s: TState, firstTry: bool)
    ensures var e := PllLockEffect(dev, s, firstTry);
      s.trace <= e.state.trace &&
      (e.result.Success? ==> 1 <= StatusReads(e.state.trace[|s.trace|..]) <= (if firstTry then 2 else 1))
  {
    var e := PllLockEffect(dev, s, firstTry);
    var r := ReadBufferEffect(dev, s, 0x00, 3);
    ReadBufferFrame(dev, s, 0x00, 3);
    if !firstTry {
      PllLockLastTryReads(dev, s);
    } else if r.result.Success? && !LockBit(r.result.value) {
      var w := RegMaskEffect(dev, r.state, 0x12, 0x60, 0xe0);
      RegMaskFrame(dev, r.state, 0x12, 0x60, 0xe0);
      if w.result.Success? {
        PllLockLastTryReads(dev, w.state);
        assert e == PllLockEffect(dev, w.state, false);
        StatusReadsSplit(s.trace, r.state.trace, w.state.trace);
        StatusReadsSplit(s.trace, w.state.trace, e.state.trace);
      }
    }
  }

  /** The two transfers of a status read: the start register 0, then 8 bytes read back. */
  function StatusRead(): seq<Request>
  {
    [ControlOut(I2C_ADDR, BLOCK_I2C + WRITE_FLAG, [0]), ControlIn(I2C_ADDR, BLOCK_I2C, 8)]
  }

  /**
   * When the first status read of getPllLock shows no lock and the retry
   * succeeds, exactly one register write lies between the two status reads:
   * bits 5..7 of register 0x12 set to 011, merged into its shadow byte.
   */
  lemma PllLockNudge(dev: Device, s: TState)
    ensures var r := ReadBufferEffect(dev, s, 0x00, 3);
      var e := PllLockEffect(dev, s, true);
      r.result.Success? && !LockBit(r.result.value) && e.result.Success? ==>
        Requests(e.state.trace) ==
          Requests(s.trace) + StatusRead() +
          [ControlOut(I2C_ADDR, BLOCK_I2C + WRITE_FLAG, [0x12, MaskMerge(ByteAt(s.shadow, 0x12 - FIRST_REG), 0x60, 0xe0)])] +
          StatusRead()
  {
    var r := ReadBufferEffect(dev, s, 0x00, 3);
    var e := PllLockEffect(dev, s, true);
    if r.result.Success? && !LockBit(r.result.value) && e.result.Success? {
      StatusReadRequests(dev, s);
      var w := RegMaskEffect(dev, r.state, 0x12, 0x60, 0xe0);
      NudgeRequests(dev, r.state);
      assert r.state.shadow == s.shadow;
      assert e == PllLockEffect(dev, w.state, false);
      StatusReadRequests(dev, w.state);
    }
  }

  /** A status read, and the second try of getPllLock, send exactly the two transfers of a status read. */
  lemma StatusReadRequests(dev: Device, s: TState)
    ensures var r := ReadBufferEffect(dev, s, 0x00, 3);
      r.result.Success? ==> Requests(r.state.trace) == Requests(s.trace) + StatusRead()
    ensures var e := PllLockEffect(dev, s, false);
      e.result.Success? ==> Requests(e.state.trace) == Requests(s.trace) + StatusRead()
  {
    ReadI2CRegBufferRequests(dev, s.trace, I2C_ADDR, 0x00, 3);
  }

  /** The nudge of getPllLock sends `[0x12, merge]` to the tuner. */
  lemma NudgeRequests(dev: Device, s: TState)
    ensures var w := RegMaskEffect(dev, s, 0x12, 0x60, 0xe0);
      w.result.Success? ==>
        Requests(w.state.trace) ==
          Requests(s.trace) + [ControlOut(I2C_ADDR, BLOCK_I2C + WRITE_FLAG, [0x12, MaskMerge(ByteAt(s.shadow, 0x12 - FIRST_REG), 0x60, 0xe0)])]
  {
    var v := MaskMerge(ByteAt(s.shadow, 0x12 - FIRST_REG), 0x60, 0xe0);
    WriteI2CRequests(dev, s.trace, I2C_ADDR, 0x12, v, []);
    Low8OfByte(v);
  }

  lemma LowBitsOfE0(j: nat)
    requires j < 5
    ensures Bit(0xe0, j) == 0
  {
    Pow2Small();
    if j == 0 {
    } else if j == 1 {
    } else if j == 2 {
    } else if j == 3 {
    } else {
    }
  }

  /** getPllLock leaves every shadow byte alone except bits 5..7 of register 0x12. */
  lemma {:induction false} PllLockShadow(dev: Device, s: TState, firstTry: bool)
    requires |s.shadow| == REG_COUNT
    ensures var e := PllLockEffect(dev, s, firstTry);
      |e.state.shadow| == REG_COUNT &&
      (forall i :: 0 <= i < REG_COUNT && i != 0x12 - FIRST_REG ==> e.state.shadow[i] == s.shadow[i]) &&
      SameLowBits(e.state.shadow[0x12 - FIRST_REG], s.shadow[0x12 - FIRST_REG], 5)
    decreases firstTry
  {
    var r := ReadBufferEffect(dev, s, 0x00, 3);
    if r.result.Success? && !LockBit(r.result.value) && firstTry {
      var w := RegMaskEffect(dev, r.state, 0x12, 0x60, 0xe0);
      var i := 0x12 - FIRST_REG;
      forall j | 0 <= j < 5
        ensures Bit(w.state.shadow[i], j) == Bit(s.shadow[i], j)
      {
        LowBitsOfE0(j);
        MaskMergeBits(s.shadow[i], 0x60, 0xe0, j);
      }
      PllLockShadow(dev, w.state, false);
    }
  }

  /** getPllLock keeps the shadow in step with the chip. */
  lemma {:induction false} PllLockKeepsSync(dev: Device, s: TState, firstTry: bool)
    requires Synced(s.trace, s.shadow)
    ensures var e := PllLockEffect(dev, s, firstTry);
      e.result.Success? ==> Synced(e.state.trace, e.state.shadow)
    decreases firstTry
  {
    var r := ReadBufferEffect(dev, s, 0x00, 3);
    ReadBufferKeepsSync(dev, s, 0x00, 3);
    if r.result.Success? && !LockBit(r.result.value) && firstTry {
      var w := RegMaskEffect(dev, r.state, 0x12, 0x60, 0xe0);
      RegMaskKeepsSync(dev, r.state, 0x12, 0x60, 0xe0);
      if w.result.Success? {
        PllLockKeepsSync(dev, w.state, false);
      }
    }
  }

  // ---------------------------------------------------------------------------
  // What setPll leaves in the PLL registers.

  /** Some line of the table writes register `reg`. */
  predicate Addressed(lines: seq<Line>, reg: int)
  {
    exists k :: 0 <= k < |lines| && lines[k].addr == reg
  }

  /** A write table extends the trace, keeps the lock flag and changes only the shadow bytes of the registers it names. */
  lemma {:induction false} LinesFrame(dev: Device, s: TState, lines: seq<Line>)
    ensures var e := LinesEffect(dev, s, lines);
      e.state.lock == s.lock && |e.state.shadow| == |s.shadow| && s.trace <= e.state.trace &&
      forall i :: 0 <= i < |s.shadow| ==> Addressed(lines, i + FIRST_REG) || e.state.shadow[i] == s.shadow[i]
    decreases |lines|
  {
    if lines != [] {
      var init := lines[..|lines| - 1];
      var l := lines[|lines| - 1];
      LinesFrame(dev, s, init);
      var e := LinesEffect(dev, s, init);
      RegMaskFrame(dev, e.state, l.addr, l.value, l.mask);
      var f := LinesEffect(dev, s, lines);
      forall i | 0 <= i < |s.shadow|
        ensures Addressed(lines, i + FIRST_REG) || f.state.shadow[i] == s.shadow[i]
      {
        AddressedPrefix(lines, |lines| - 1, i + FIRST_REG);
        assert lines[|lines| - 1].addr == l.addr;
      }
    }
  }

  /** A register written by a prefix of a table is written by the table. */
  lemma AddressedPrefix(lines: seq<Line>, n: nat, reg: int)
    requires n <= |lines|
    ensures Addressed(lines[..n], reg) ==> Addressed(lines, reg)
  {
    if Addressed(lines[..n], reg) {
      var k :| 0 <= k < n && lines[..n][k].addr == reg;
      assert lines[k].addr == reg;
    }
  }

  /** A table of two lines is the two masked writes in order. */
  lemma LinesPair(dev: Device, s: TState, a: Line, b: Line)
    ensures LinesEffect(dev, s, [a, b]) ==
      var e := RegMaskEffect(dev, s, a.addr, a.value, a.mask);
      if e.result.Failure? then e else RegMaskEffect(dev, e.state, b.addr, b.value, b.mask)
  {
    LinesOne(dev, s, a);
    assert [a, b][..1] == [a];
    var e := LinesEffect(dev, s, [a]);
    assert LinesEffect(dev, s, [a, b]) == if e.result.Failure? then e else RegMaskEffect(dev, e.state, b.addr, b.value, b.mask);
  }

  lemma LinesOne(dev: Device, s: TState, a: Line)
    ensures LinesEffect(dev, s, [a]) == RegMaskEffect(dev, s, a.addr, a.value, a.mask)
  {
    assert [a][..0] == [];
  }

  /** A full-mask write to a shadowed register stores the low byte of the value. */
  lemma RegMaskFullStores(dev: Device, s: TState, addr: int, value: int)
    requires FIRST_REG <= addr < FIRST_REG + |s.shadow|
    ensures var e := RegMaskEffect(dev, s, addr, value, 0xff);
      s.hasShadow ==> e.state.shadow[addr - FIRST_REG] == Low8(value)
  {
    MaskMergeFull(s.shadow[addr - FIRST_REG], value);
  }

  /** The nint table leaves the multiplier byte in register 0x14 and the "no fraction" flag in bit 3 of register 0x12. */
  lemma NintLinesWrite(dev: Device, s: TState, nint: int, fra: int)
    requires |s.shadow| == REG_COUNT
    ensures var e := LinesEffect(dev, s, NintLines(nint, fra));
      |e.state.shadow| == REG_COUNT &&
      (e.result.Success? ==>
        e.state.shadow[0x14 - FIRST_REG] == Low8(NReg(nint)) &&
        Bit(e.state.shadow[0x12 - FIRST_REG], 3) == (if fra == 0 then 1 else 0))
  {
    var flag := if fra == 0 then 0x08 else 0x00;
    LinesPair(dev, s, Line(0x14, NReg(nint), 0xff), Line(0x12, flag, 0x08));
    var e1 := RegMaskEffect(dev, s, 0x14, NReg(nint), 0xff);
    RegMaskFullStores(dev, s, 0x14, NReg(nint));
    RegMaskFrame(dev, s, 0x14, NReg(nint), 0xff);
    var e2 := RegMaskEffect(dev, e1.state, 0x12, flag, 0x08);
    RegMaskFrame(dev, e1.state, 0x12, flag, 0x08);
    FlagBit(e1.state.shadow[0x12 - FIRST_REG], flag);
  }

  /** Bit 3 of a merge through mask 0x08 is bit 3 of the value. */
  lemma FlagBit(prev: Byte, flag: int)
    requires flag == 0x08 || flag == 0x00
    ensures Bit(MaskMerge(prev, flag, 0x08), 3) == (if flag == 0x08 then 1 else 0)
  {
    MaskMergeBits(prev, flag, 0x08, 3);
    Pow2Small();
  }

  /** `sdm >> 8` and `sdm & 0xff` are the two bytes of a 16-bit sdm. */
  lemma SdmBytes(sdm: int)
    requires 0 <= sdm < 65536
    ensures SdmLines(sdm) == [Line(0x16, sdm / 256, 0xff), Line(0x15, sdm % 256, 0xff)]
    ensures 0 <= sdm / 256 < 256 && Low8(sdm / 256) == sdm / 256 && Low8(sdm % 256) == sdm % 256
  {
    ToInt32Small(sdm);
    Pow2Eight();
    Low8OfByte(sdm / 256);
    Low8OfByte(sdm % 256);
  }

  /** The sdm table leaves the high byte of sdm in register 0x16 and the low byte in register 0x15, and nothing else. */
  lemma SdmLinesWrite(dev: Device, s: TState, sdm: int)
    requires |s.shadow| == REG_COUNT && 0 <= sdm < 65536
    ensures var e := LinesEffect(dev, s, SdmLines(sdm));
      |e.state.shadow| == REG_COUNT &&
      (forall i :: 0 <= i < REG_COUNT && i != 0x16 - FIRST_REG && i != 0x15 - FIRST_REG ==> e.state.shadow[i] == s.shadow[i]) &&
      (e.result.Success? ==> e.state.shadow[0x16 - FIRST_REG] as int * 256 + e.state.shadow[0x15 - FIRST_REG] == sdm)
  {
    SdmBytes(sdm);
    var hi, lo := sdm / 256, sdm % 256;
    LinesPair(dev, s, Line(0x16, hi, 0xff), Line(0x15, lo, 0xff));
    var e1 := RegMaskEffect(dev, s, 0x16, hi, 0xff);
    RegMaskFullStores(dev, s, 0x16, hi);
    RegMaskFrame(dev, s, 0x16, hi, 0xff);
    RegMaskFullStores(dev, e1.state, 0x15, lo);
    RegMaskFrame(dev, e1.state, 0x15, lo, 0xff);
  }

  /**
   * What setPll returns when it succeeds: the synthesised frequency, or 0 with
   * the lock flag cleared when nint exceeds 63. In that case nothing is sent
   * and no shadow byte changes after the divider write to register 0x10.
   */
  lemma PllOutcome(dev: Device, pllRef: int, s: TState, freq: int)
    requires 0 < freq <= VCO_MIN && pllRef > 0
    ensures var e := PllEffect(dev, pllRef, s, freq);
      e.result.Success? ==>
        e.result.value == PllResult(freq, pllRef) &&
        (Nint(freq, pllRef) > 63 ==> !e.state.lock)
    ensures var p := PllPrepare(dev, pllRef, s, freq);
      p.result.Success? && Nint(freq, pllRef) > 63 ==>
        PllEffect(dev, pllRef, s, freq) == Step(Success(0.0), p.state.(lock := false))
  {
    var e := PllPrepare(dev, pllRef, s, freq);
    if e.result.Success? {
      PllTuneOutcome(dev, pllRef, e.state, freq);
    }
  }

  lemma PllTuneOutcome(dev: Device, pllRef: int, s: TState, freq: int)
    requires 0 < freq <= VCO_MIN && pllRef > 0
    ensures var e := PllTune(dev, pllRef, s, freq);
      e.result.Success? ==>
        e.result.value == PllResult(freq, pllRef) &&
        (Nint(freq, pllRef) > 63 ==> !e.state.lock)
    ensures Nint(freq, pllRef) > 63 ==> PllTune(dev, pllRef, s, freq) == Step(Success(0.0), s.(lock := false))
  {
  }

  /** The tail of setPll, from the sdm write on: registers 0x14, 0x15, 0x16 and bit 3 of 0x12 survive the lock check and the final write. */
  lemma PllTailKeeps(dev: Device, s: TState, sdm: int)
    requires |s.shadow| == REG_COUNT && 0 <= sdm < 65536
    ensures var e5 := LinesEffect(dev, s, SdmLines(sdm));
      var e6 := PllLockEffect(dev, e5.state, true);
      var e7 := RegMaskEffect(dev, e6.state, 0x1a, 0x08, 0x08);
      |e7.state.shadow| == REG_COUNT &&
      (e5.result.Success? ==> e7.state.shadow[0x16 - FIRST_REG] as int * 256 + e7.state.shadow[0x15 - FIRST_REG] == sdm) &&
      e7.state.shadow[0x14 - FIRST_REG] == s.shadow[0x14 - FIRST_REG] &&
      Bit(e7.state.shadow[0x12 - FIRST_REG], 3) == Bit(s.shadow[0x12 - FIRST_REG], 3)
  {
    var e5 := LinesEffect(dev, s, SdmLines(sdm));
    SdmLinesWrite(dev, s, sdm);
    var e6 := PllLockEffect(dev, e5.state, true);
    PllLockShadow(dev, e5.state, true);
    assert Bit(e6.state.shadow[0x12 - FIRST_REG], 3) == Bit(e5.state.shadow[0x12 - FIRST_REG], 3);
    RegMaskFrame(dev, e6.state, 0x1a, 0x08, 0x08);
  }

  /**
   * After a successful setPll with nint <= 63, register 0x14 holds the
   * multiplier byte, registers 0x16 and 0x15 hold sdm, high byte first, and
   * bit 3 of register 0x12 says whether the VCO frequency needed no fraction.
   */
  lemma PllRegisters(dev: Device, pllRef: int, s: TState, freq: int)
    requires 0 < freq <= VCO_MIN && pllRef > 0 && |s.shadow| == REG_COUNT
    ensures var e := PllEffect(dev, pllRef, s, freq);
      var nint, fra := Nint(freq, pllRef), VcoFra(freq, pllRef);
      e.result.Success? && nint <= 63 ==>
        |e.state.shadow| == REG_COUNT &&
        e.state.shadow[0x14 - FIRST_REG] == Low8(NReg(nint)) &&
        e.state.shadow[0x16 - FIRST_REG] as int * 256 + e.state.shadow[0x15 - FIRST_REG] == Sdm(fra, pllRef) &&
        Bit(e.state.shadow[0x12 - FIRST_REG], 3) == (if fra == 0 then 1 else 0)
  {
    var e := PllPrepare(dev, pllRef, s, freq);
    PllPrepareKeeps(dev, pllRef, s, freq);
    if e.result.Success? {
      PllTuneRegisters(dev, pllRef, e.state, freq);
    }
  }

  lemma PllTuneRegisters(dev: Device, pllRef: int, s: TState, freq: int)
    requires 0 < freq <= VCO_MIN && pllRef > 0 && |s.shadow| == REG_COUNT
    ensures var e := PllTune(dev, pllRef, s, freq);
      var nint, fra := Nint(freq, pllRef), VcoFra(freq, pllRef);
      e.result.Success? && nint <= 63 ==>
        |e.state.shadow| == REG_COUNT &&
        e.state.shadow[0x14 - FIRST_REG] == Low8(NReg(nint)) &&
        e.state.shadow[0x16 - FIRST_REG] as int * 256 + e.state.shadow[0x15 - FIRST_REG] == Sdm(fra, pllRef) &&
        Bit(e.state.shadow[0x12 - FIRST_REG], 3) == (if fra == 0 then 1 else 0)
  {
    var nint, fra := Nint(freq, pllRef), VcoFra(freq, pllRef);
    if nint <= 63 {
      var e4 := LinesEffect(dev, s, NintLines(nint, fra));
      NintLinesWrite(dev, s, nint, fra);
      SdmRange(fra, pllRef);
      PllTailKeeps(dev, e4.state, Sdm(fra, pllRef));
    }
  }

  // ---------------------------------------------------------------------------
  // Errors: below calibrateFilter, the tuner fails only when a transfer fails
  // or when it writes a register before initRegisters has created the shadow.

  /** `e` keeps whether the shadow exists, and its only errors are a failed transfer and a missing shadow. */
  predicate BusErrorsOnly<T>(s: TState, e: Step<T>)
  {
    e.state.hasShadow == s.hasShadow &&
    (e.result.Failure? ==>
      e.result.error == TransferFailed || (e.result.error == NoShadowRegisters && !s.hasShadow))
  }

  lemma RegMaskErrors(dev: Device, s: TState, addr: int, value: int, mask: int)
    ensures var e := RegMaskEffect(dev, s, addr, value, mask);
      BusErrorsOnly(s, e) && (e.result.Failure? ==> e.state.trace == s.trace)
    ensures !s.hasShadow ==> RegMaskEffect(dev, s, addr, value, mask) == Step(Failure(NoShadowRegisters), s)
  {
  }

  lemma {:induction false} LinesErrors(dev: Device, s: TState, lines: seq<Line>)
    ensures var e := LinesEffect(dev, s, lines);
      BusErrorsOnly(s, e)
    decreases |lines|
  {
    if lines != [] {
      var l := lines[|lines| - 1];
      LinesErrors(dev, s, lines[..|lines| - 1]);
      RegMaskErrors(dev, LinesEffect(dev, s, lines[..|lines| - 1]).state, l.addr, l.value, l.mask);
    }
  }

  lemma ReadBufferErrors(dev: Device, s: TState, addr: int, len: nat)
    ensures var e := ReadBufferEffect(dev, s, addr, len);
      BusErrorsOnly(s, e)
  {
  }

  lemma {:induction false} PllLockErrors(dev: Device, s: TState, firstTry: bool)
    ensures var e := PllLockEffect(dev, s, firstTry);
      BusErrorsOnly(s, e)
    decreases firstTry
  {
    var r := ReadBufferEffect(dev, s, 0x00, 3);
    ReadBufferErrors(dev, s, 0x00, 3);
    if r.result.Success? && !LockBit(r.result.value) && firstTry {
      var w := RegMaskEffect(dev, r.state, 0x12, 0x60, 0xe0);
      RegMaskErrors(dev, r.state, 0x12, 0x60, 0xe0);
      if w.result.Success? {
        PllLockErrors(dev, w.state, false);
      }
    }
  }

  lemma PllPrepareErrors(dev: Device, pllRef: int, s: TState, freq: int)
    requires 0 < freq <= VCO_MIN && pllRef > 0
    ensures var e := PllPrepare(dev, pllRef, s, freq);
      BusErrorsOnly(s, e)
  {
    LinesErrors(dev, s, PLL_LINES);
    var e1 := LinesEffect(dev, s, PLL_LINES);
    if e1.result.Success? {
      var e2 := ReadBufferEffect(dev, e1.state, 0x00, 5);
      ReadBufferErrors(dev, e1.state, 0x00, 5);
      if e2.result.Success? {
        var divNum := AdjustDivNum(DivNum(freq), FineTune(e2.result.value));
        RegMaskErrors(dev, e2.state, 0x10, ToInt32(divNum * 32), 0xe0);
      }
    }
  }

  lemma PllErrors(dev: Device, pllRef: int, s: TState, freq: int)
    requires 0 < freq <= VCO_MIN && pllRef > 0
    ensures var e := PllEffect(dev, pllRef, s, freq);
      BusErrorsOnly(s, e)
  {
    var e3 := PllPrepare(dev, pllRef, s, freq);
    PllPrepareErrors(dev, pllRef, s, freq);
    if e3.result.Success? {
      PllTuneErrors(dev, pllRef, e3.state, freq);
    }
  }

  lemma PllTuneErrors(dev: Device, pllRef: int, s: TState, freq: int)
    requires 0 < freq <= VCO_MIN && pllRef > 0
    ensures var e := PllTune(dev, pllRef, s, freq);
      BusErrorsOnly(s, e)
  {
    var nint, fra := Nint(freq, pllRef), VcoFra(freq, pllRef);
    if nint <= 63 {
      var e4 := LinesEffect(dev, s, NintLines(nint, fra));
      LinesErrors(dev, s, NintLines(nint, fra));
      if e4.result.Success? {
        var e5 := LinesEffect(dev, e4.state, SdmLines(Sdm(fra, pllRef)));
        LinesErrors(dev, e4.state, SdmLines(Sdm(fra, pllRef)));
        if e5.result.Success? {
          var e6 := PllLockEffect(dev, e5.state, true);
          PllLockErrors(dev, e5.state, true);
          if e6.result.Success? {
            RegMaskErrors(dev, e6.state, 0x1a, 0x08, 0x08);
          }
        }
      }
    }
  }

  // ---------------------------------------------------------------------------
  // Filter calibration.

  /**
   * calibrateFilter succeeds only with the PLL locked and a capacitor setting
   * in 0..14; it fails because a transfer failed, because there is no shadow
   * yet, or with "PLL not locked", and then the lock flag is cleared.
   */
  lemma {:induction false} CalibrateOutcome(dev: Device, pllRef: int, s: TState, firstTry: bool)
    requires pllRef > 0
    ensures var e := CalibrateEffect(dev, pllRef, s, firstTry);
      (e.result.Success? ==> 0 <= e.result.value <= 14 && e.state.lock) &&
      e.state.hasShadow == s.hasShadow &&
      (e.result.Failure? ==>
        e.result.error == TransferFailed || (e.result.error == PllNotLocked && !e.state.lock) ||
        (e.result.error == NoShadowRegisters && !s.hasShadow))
    decreases firstTry
  {
    var e1 := LinesEffect(dev, s, CALIBRATE_LINES);
    LinesErrors(dev, s, CALIBRATE_LINES);
    if e1.result.Success? {
      var e2 := PllEffect(dev, pllRef, e1.state, 56000000);
      PllErrors(dev, pllRef, e1.state, 56000000);
      if e2.result.Success? && e2.state.lock {
        var e3 := LinesEffect(dev, e2.state, CALIBRATE_DONE_LINES);
        LinesFrame(dev, e2.state, CALIBRATE_DONE_LINES);
        LinesErrors(dev, e2.state, CALIBRATE_DONE_LINES);
        if e3.result.Success? {
          var e4 := ReadBufferEffect(dev, e3.state, 0x00, 5);
          ReadBufferFrame(dev, e3.state, 0x00, 5);
          ReadBufferErrors(dev, e3.state, 0x00, 5);
          if e4.result.Success? && FilterCap(e4.result.value) != 0 && firstTry {
            CalibrateOutcome(dev, pllRef, e4.state, false);
          }
        }
      }
    }
  }

  // ---------------------------------------------------------------------------
  // Every tuner operation keeps the shadow in step with the chip.

  lemma TablesShadowed(cap: int, step: int, cfg: MuxCfg, nint: int, fra: int, sdm: int)
    ensures Shadowed(CLOSE_LINES) && Shadowed(ELECTRONICS_LINES) && Shadowed(ElectronicsLines(cap))
    ensures Shadowed(AUTO_GAIN_LINES) && Shadowed(ManualGainLines(step))
    ensures Shadowed(CALIBRATE_LINES) && Shadowed(CALIBRATE_DONE_LINES) && Shadowed(MuxLines(cfg))
    ensures Shadowed(PLL_LINES) && Shadowed(NintLines(nint, fra)) && Shadowed(SdmLines(sdm))
  {
  }

  /** The first half of setPll keeps the lock flag, the shadow's size, and the shadow in step with the chip. */
  lemma PllPrepareKeeps(dev: Device, pllRef: int, s: TState, freq: int)
    requires 0 < freq <= VCO_MIN && pllRef > 0
    ensures var e := PllPrepare(dev, pllRef, s, freq);
      e.state.lock == s.lock && |e.state.shadow| == |s.shadow| &&
      (Synced(s.trace, s.shadow) && e.result.Success? ==> Synced(e.state.trace, e.state.shadow))
  {
    TablesShadowed(0, 0, MUX_CFGS[0], 0, 0, 0);
    var e1 := LinesEffect(dev, s, PLL_LINES);
    LinesFrame(dev, s, PLL_LINES);
    if Synced(s.trace, s.shadow) {
      LinesKeepSync(dev, s, PLL_LINES);
    }
    if e1.result.Success? {
      var e2 := ReadBufferEffect(dev, e1.state, 0x00, 5);
      ReadBufferFrame(dev, e1.state, 0x00, 5);
      if Synced(e1.state.trace, e1.state.shadow) {
        ReadBufferKeepsSync(dev, e1.state, 0x00, 5);
      }
      if e2.result.Success? {
        var divNum := AdjustDivNum(DivNum(freq), FineTune(e2.result.value));
        RegMaskFrame(dev, e2.state, 0x10, ToInt32(divNum * 32), 0xe0);
        if Synced(e2.state.trace, e2.state.shadow) {
          RegMaskKeepsSync(dev, e2.state, 0x10, ToInt32(divNum * 32), 0xe0);
        }
      }
    }
  }

  /** The first half of setPll only appends to the trace. */
  lemma PllPrepareExtends(dev: Device, pllRef: int, s: TState, freq: int)
    requires 0 < freq <= VCO_MIN && pllRef > 0
    ensures s.trace <= PllPrepare(dev, pllRef, s, freq).state.trace
  {
    var e1 := LinesEffect(dev, s, PLL_LINES);
    LinesFrame(dev, s, PLL_LINES);
    if e1.result.Success? {
      var e2 := ReadBufferEffect(dev, e1.state, 0x00, 5);
      ReadBufferFrame(dev, e1.state, 0x00, 5);
      if e2.result.Success? {
        RegMaskFrame(dev, e2.state, 0x10, ToInt32(AdjustDivNum(DivNum(freq), FineTune(e2.result.value)) * 32), 0xe0);
      }
    }
  }

  /** The second half of setPll only appends to the trace. */
  lemma PllTuneExtends(dev: Device, pllRef: int, s: TState, freq: int)
    requires 0 < freq <= VCO_MIN && pllRef > 0
    ensures s.trace <= PllTune(dev, pllRef, s, freq).state.trace
  {
    var nint, fra := Nint(freq, pllRef), VcoFra(freq, pllRef);
    if nint <= 63 {
      var e4 := LinesEffect(dev, s, NintLines(nint, fra));
      LinesFrame(dev, s, NintLines(nint, fra));
      if e4.result.Success? {
        var e5 := LinesEffect(dev, e4.state, SdmLines(Sdm(fra, pllRef)));
        LinesFrame(dev, e4.state, SdmLines(Sdm(fra, pllRef)));
        if e5.result.Success? {
          var e6 := PllLockEffect(dev, e5.state, true);
          PllLockReads(dev, e5.state, true);
          if e6.result.Success? {
            RegMaskFrame(dev, e6.state, 0x1a, 0x08, 0x08);
          }
        }
      }
    }
  }

  /** setFrequency only appends to the trace. */
  lemma SetFrequencyExtends(dev: Device, pllRef: int, s: TState, freq: int)
    requires 0 < freq <= VCO_MIN && pllRef > 0
    ensures s.trace <= SetFrequencyEffect(dev, pllRef, s, freq).state.trace
  {
    var lines := MuxLines(MUX_CFGS[MuxIndex(freq)]);
    var e := LinesEffect(dev, s, lines);
    LinesFrame(dev, s, lines);
    if e.result.Success? {
      var p := PllPrepare(dev, pllRef, e.state, freq);
      PllPrepareExtends(dev, pllRef, e.state, freq);
      if p.result.Success? {
        PllTuneExtends(dev, pllRef, p.state, freq);
      }
    }
  }

  /** setPll keeps the shadow in step with the chip. */
  lemma PllKeepsSync(dev: Device, pllRef: int, s: TState, freq: int)
    requires 0 < freq <= VCO_MIN && pllRef > 0 && Synced(s.trace, s.shadow)
    ensures var e := PllEffect(dev, pllRef, s, freq);
      e.result.Success? ==> Synced(e.state.trace, e.state.shadow)
  {
    var e := PllPrepare(dev, pllRef, s, freq);
    PllPrepareKeeps(dev, pllRef, s, freq);
    if e.result.Success? {
      PllTuneKeepsSync(dev, pllRef, e.state, freq);
    }
  }

  lemma PllTuneKeepsSync(dev: Device, pllRef: int, s: TState, freq: int)
    requires 0 < freq <= VCO_MIN && pllRef > 0 && Synced(s.trace, s.shadow)
    ensures var e := PllTune(dev, pllRef, s, freq);
      e.result.Success? ==> Synced(e.state.trace, e.state.shadow)
  {
    var nint, fra := Nint(freq, pllRef), VcoFra(freq, pllRef);
    if nint <= 63 {
      TablesShadowed(0, 0, MUX_CFGS[0], nint, fra, Sdm(fra, pllRef));
      var e4 := LinesEffect(dev, s, NintLines(nint, fra));
      LinesKeepSync(dev, s, NintLines(nint, fra));
      if e4.result.Success? {
        var e5 := LinesEffect(dev, e4.state, SdmLines(Sdm(fra, pllRef)));
        LinesKeepSync(dev, e4.state, SdmLines(Sdm(fra, pllRef)));
        if e5.result.Success? {
          var e6 := PllLockEffect(dev, e5.state, true);
          PllLockKeepsSync(dev, e5.state, true);
          if e6.result.Success? {
            RegMaskKeepsSync(dev, e6.state, 0x1a, 0x08, 0x08);
          }
        }
      }
    }
  }

  /** calibrateFilter keeps the shadow in step with the chip. */
  lemma {:induction false} CalibrateKeepsSync(dev: Device, pllRef: int, s: TState, firstTry: bool)
    requires pllRef > 0 && Synced(s.trace, s.shadow)
    ensures var e := CalibrateEffect(dev, pllRef, s, firstTry);
      e.result.Success? ==> Synced(e.state.trace, e.state.shadow)
    decreases firstTry
  {
    var e := CalibrateEffect(dev, pllRef, s, firstTry);
    if e.result.Success? {
      TablesShadowed(0, 0, MUX_CFGS[0], 0, 0, 0);
      var e1 := LinesEffect(dev, s, CALIBRATE_LINES);
      LinesKeepSync(dev, s, CALIBRATE_LINES);
      var e2 := PllEffect(dev, pllRef, e1.state, 56000000);
      PllKeepsSync(dev, pllRef, e1.state, 56000000);
      var e3 := LinesEffect(dev, e2.state, CALIBRATE_DONE_LINES);
      LinesKeepSync(dev, e2.state, CALIBRATE_DONE_LINES);
      var e4 := ReadBufferEffect(dev, e3.state, 0x00, 5);
      ReadBufferKeepsSync(dev, e3.state, 0x00, 5);
      if FilterCap(e4.result.value) != 0 && firstTry {
        CalibrateKeepsSync(dev, pllRef, e4.state, false);
      }
    }
  }

  /** initElectronics keeps the shadow in step with the chip. */
  lemma ElectronicsKeepsSync(dev: Device, pllRef: int, s: TState)
    requires pllRef > 0 && Synced(s.trace, s.shadow)
    ensures var e := ElectronicsEffect(dev, pllRef, s);
      e.result.Success? ==> Synced(e.state.trace, e.state.shadow)
  {
    var e1 := LinesEffect(dev, s, ELECTRONICS_LINES);
    TablesShadowed(0, 0, MUX_CFGS[0], 0, 0, 0);
    LinesKeepSync(dev, s, ELECTRONICS_LINES);
    if e1.result.Success? {
      var e2 := CalibrateEffect(dev, pllRef, e1.state, true);
      CalibrateKeepsSync(dev, pllRef, e1.state, true);
      if e2.result.Success? {
        TablesShadowed(e2.result.value, 0, MUX_CFGS[0], 0, 0, 0);
        LinesKeepSync(dev, e2.state, ElectronicsLines(e2.result.value));
      }
    }
  }

  /** The k-th step of initRegisters is the I2C write of register k+4, after the steps before it. */
  lemma InitStep(dev: Device, t: seq<Transfer>, regs: seq<int>, k: nat)
    requires 0 < k <= |regs|
    ensures var p := BatchEffect(dev, t, InitCommands(regs)[..k - 1]);
      BatchEffect(dev, t, InitCommands(regs)[..k]) ==
        if p.result.Failure? then p else WriteI2CRegEffect(dev, p.trace, I2C_ADDR, k - 1 + FIRST_REG, regs[k - 1])
  {
    var cmds := InitCommands(regs);
    assert cmds[..k][..k - 1] == cmds[..k - 1];
    assert cmds[..k][k - 1] == Command(CMD_I2CREG, I2C_ADDR, k - 1 + FIRST_REG, regs[k - 1], 0);
  }

  /** A successful I2C register write appends exactly its own request to the trace. */
  lemma I2CWriteRequests(dev: Device, t: seq<Transfer>, reg: Byte, value: int)
    ensures var w := WriteI2CRegEffect(dev, t, I2C_ADDR, reg, value);
      w.result.Success? ==>
        Requests(w.trace) == Requests(t) + [ControlOut(I2C_ADDR, WriteIndex(BLOCK_I2C), [reg, Low8(value)])]
  {
    var w := WriteI2CRegEffect(dev, t, I2C_ADDR, reg, value);
    if w.result.Success? {
      Low8OfByte(reg);
      var x := w.trace[|t|];
      assert w.trace == t + [x];
      RequestsAppend(t, [x]);
    }
  }

  /** A single-register I2C write stores its byte into that register only. */
  lemma ImageOfSingle(reg: Byte, v: Byte, q: int)
    ensures ImageOf(ControlOut(I2C_ADDR, WriteIndex(BLOCK_I2C), [reg, v]), q) == if q == reg then Some(v) else None
  {
  }

  /** After the first k commands of initRegisters, registers 5..k+4 hold the low bytes of the image. */
  lemma {:induction false} InitPrefixImage(dev: Device, t: seq<Transfer>, regs: seq<int>, k: nat)
    requires k <= |regs| <= REG_COUNT
    ensures var e := BatchEffect(dev, t, InitCommands(regs)[..k]);
      e.result.Success? ==>
        forall i :: 0 <= i < k ==> TunerImage(Requests(e.trace), i + FIRST_REG) == Some(Low8(regs[i]))
    decreases k
  {
    var e := BatchEffect(dev, t, InitCommands(regs)[..k]);
    if k > 0 && e.result.Success? {
      var p := BatchEffect(dev, t, InitCommands(regs)[..k - 1]);
      InitStep(dev, t, regs, k);
      InitPrefixImage(dev, t, regs, k - 1);
      I2CWriteRequests(dev, p.trace, k - 1 + FIRST_REG, regs[k - 1]);
      ImageAfterInitWrite(Requests(p.trace), regs, k);
    }
  }

  /** Writing register k+4 after registers 5..k+3 extends the image by one register. */
  lemma ImageAfterInitWrite(reqs: seq<Request>, regs: seq<int>, k: nat)
    requires 0 < k <= |regs| <= REG_COUNT
    requires forall i :: 0 <= i < k - 1 ==> TunerImage(reqs, i + FIRST_REG) == Some(Low8(regs[i]))
    ensures var r := ControlOut(I2C_ADDR, WriteIndex(BLOCK_I2C), [k - 1 + FIRST_REG, Low8(regs[k - 1])]);
      forall i :: 0 <= i < k ==> TunerImage(reqs + [r], i + FIRST_REG) == Some(Low8(regs[i]))
  {
    var reg := k - 1 + FIRST_REG;
    var r := ControlOut(I2C_ADDR, WriteIndex(BLOCK_I2C), [reg, Low8(regs[k - 1])]);
    forall i | 0 <= i < k
      ensures TunerImage(reqs + [r], i + FIRST_REG) == Some(Low8(regs[i]))
    {
      ImageAppend(reqs, r, i + FIRST_REG);
      ImageOfSingle(reg, Low8(regs[k - 1]), i + FIRST_REG);
    }
  }

  /** initRegisters with a full image leaves the shadow in step with the chip, whatever came before. */
  lemma InitRegistersSync(dev: Device, s: TState, regs: seq<int>)
    requires |regs| == REG_COUNT
    ensures var e := InitRegistersEffect(dev, s, regs);
      e.result.Success? ==> Synced(e.state.trace, e.state.shadow)
  {
    var cmds := InitCommands(regs);
    assert cmds[..|regs|] == cmds;
    InitPrefixImage(dev, s.trace, regs, |regs|);
  }

  /** init leaves the shadow in step with the chip, whatever came before. */
  lemma InitKeepsSync(dev: Device, pllRef: int, s: TState)
    requires pllRef > 0
    ensures var e := InitEffect(dev, pllRef, s);
      e.result.Success? ==> Synced(e.state.trace, e.state.shadow)
  {
    var e := InitRegistersEffect(dev, s, REGISTERS);
    InitRegistersSync(dev, s, REGISTERS);
    if e.result.Success? {
      ElectronicsKeepsSync(dev, pllRef, e.state);
    }
  }

  /** setFrequency keeps the shadow in step with the chip. */
  lemma SetFrequencyKeepsSync(dev: Device, pllRef: int, s: TState, freq: int)
    requires 0 < freq <= VCO_MIN && pllRef > 0 && Synced(s.trace, s.shadow)
    ensures var e := SetFrequencyEffect(dev, pllRef, s, freq);
      e.result.Success? ==> Synced(e.state.trace, e.state.shadow)
  {
    var lines := MuxLines(MUX_CFGS[MuxIndex(freq)]);
    TablesShadowed(0, 0, MUX_CFGS[MuxIndex(freq)], 0, 0, 0);
    LinesKeepSync(dev, s, lines);
    var e := LinesEffect(dev, s, lines);
    if e.result.Success? {
      PllKeepsSync(dev, pllRef, e.state, freq);
    }
  }

  /** Once a prefix of a table fails, the rest of the table changes nothing. */
  lemma {:induction false} LinesFailureStops(dev: Device, s: TState, lines: seq<Line>, k: nat)
    requires k <= |lines|
    requires LinesEffect(dev, s, lines[..k]).result.Failure?
    ensures LinesEffect(dev, s, lines) == LinesEffect(dev, s, lines[..k])
    decreases |lines| - k
  {
    if k < |lines| {
      assert lines[..k + 1][..k] == lines[..k];
      LinesFailureStops(dev, s, lines, k + 1);
    } else {
      assert lines[..k] == lines;
    }
  }

  /** Running `a + b` is running `a`, then, if it succeeded, `b`. */
  lemma {:induction false} LinesAppend(dev: Device, s: TState, a: seq<Line>, b: seq<Line>)
    ensures LinesEffect(dev, s, a + b) ==
      var e := LinesEffect(dev, s, a);
      if e.result.Failure? then e else LinesEffect(dev, e.state, b)
    decreases |b|
  {
    if b == [] {
      assert a + b == a;
    } else {
      assert (a + b)[..|a + b| - 1] == a + b[..|b| - 1];
      assert (a + b)[|a + b| - 1] == b[|b| - 1];
      LinesAppend(dev, s, a, b[..|b| - 1]);
    }
  }

  // ---------------------------------------------------------------------------
  // Gain modes.

  /** A merge through mask 0x0f stores the value's low nibble and keeps bit 4. */
  lemma MaskMergeNibble(prev: Byte, value: int)
    ensures MaskMerge(prev, value, 0x0f) % 16 == value % 16
    ensures Bit(MaskMerge(prev, value, 0x0f), 4) == Bit(prev, 4)
  {
    Pow2Small();
    MaskBitsLow(prev, value, 0x0f, 8, 4);
    MaskBitsFull(prev, value, 0x0f, 4);
    MaskMergeBits(prev, value, 0x0f, 4);
  }

  /** A merge through mask 0x10 takes bit 4 from the value. */
  lemma MaskMergeBit4(prev: Byte, value: int)
    ensures Bit(MaskMerge(prev, value, 0x10), 4) == Bit(value, 4)
  {
    Pow2Small();
    MaskMergeBits(prev, value, 0x10, 4);
  }

  /**
   * A masked write to a shadowed register stores the merge there and changes
   * no other shadow byte; before initRegisters it fails and changes nothing.
   */
  lemma RegMaskStores(dev: Device, s: TState, addr: int, value: int, mask: int)
    requires FIRST_REG <= addr < FIRST_REG + |s.shadow|
    ensures var e := RegMaskEffect(dev, s, addr, value, mask);
      s.hasShadow ==> e.state.shadow == s.shadow[addr - FIRST_REG := MaskMerge(s.shadow[addr - FIRST_REG], value, mask)]
    ensures !s.hasShadow ==> RegMaskEffect(dev, s, addr, value, mask) == Step(Failure(NoShadowRegisters), s)
  {
  }

  /**
   * The mode table shared by setAutoGain and setManualGain: bit 4 of register
   * 0x05 (LNA gain mode) and of register 0x07 (mixer gain mode) come from the
   * values written to them.
   */
  lemma GainModeBits(dev: Device, s: TState, v5: int, v7: int, vc: int)
    requires |s.shadow| == REG_COUNT
    ensures var e := LinesEffect(dev, s, [Line(0x05, v5, 0x10), Line(0x07, v7, 0x10), Line(0x0c, vc, 0x9f)]);
      |e.state.shadow| == REG_COUNT &&
      (e.result.Success? ==> Bit(e.state.shadow[0], 4) == Bit(v5, 4) && Bit(e.state.shadow[2], 4) == Bit(v7, 4))
  {
    var a, b, c := Line(0x05, v5, 0x10), Line(0x07, v7, 0x10), Line(0x0c, vc, 0x9f);
    assert [a, b, c] == [a, b] + [c];
    LinesAppend(dev, s, [a, b], [c]);
    LinesPair(dev, s, a, b);
    var e1 := RegMaskEffect(dev, s, 0x05, v5, 0x10);
    RegMaskStores(dev, s, 0x05, v5, 0x10);
    var e2 := RegMaskEffect(dev, e1.state, 0x07, v7, 0x10);
    RegMaskStores(dev, e1.state, 0x07, v7, 0x10);
    LinesOne(dev, e2.state, c);
    RegMaskStores(dev, e2.state, 0x0c, vc, 0x9f);
    MaskMergeBit4(s.shadow[0], v5);
    MaskMergeBit4(e1.state.shadow[2], v7);
  }

  lemma ModeBitValues()
    ensures Bit(0x00, 4) == 0 && Bit(0x10, 4) == 1
  {
    Pow2Small();
  }

  /** setAutoGain clears the manual-LNA bit 4 of register 0x05 and sets the automatic-mixer bit 4 of register 0x07. */
  lemma AutoGainModes(dev: Device, s: TState)
    requires |s.shadow| == REG_COUNT
    ensures var e := LinesEffect(dev, s, AUTO_GAIN_LINES);
      e.result.Success? ==> |e.state.shadow| == REG_COUNT && Bit(e.state.shadow[0], 4) == 0 && Bit(e.state.shadow[2], 4) == 1
  {
    GainModeBits(dev, s, 0x00, 0x10, 0x0b);
    ModeBitValues();
  }

  /** The last two lines of setManualGain merge the two indices into registers 0x05 and 0x07 through mask 0x0f. */
  lemma GainIndexWrites(dev: Device, s: TState, lna: int, mixer: int)
    requires |s.shadow| == REG_COUNT
    ensures var e := LinesEffect(dev, s, [Line(0x05, lna, 0x0f), Line(0x07, mixer, 0x0f)]);
      |e.state.shadow| == REG_COUNT &&
      (e.result.Success? ==>
        e.state.shadow[0] == MaskMerge(s.shadow[0], lna, 0x0f) &&
        e.state.shadow[2] == MaskMerge(s.shadow[2], mixer, 0x0f))
  {
    var d, f := Line(0x05, lna, 0x0f), Line(0x07, mixer, 0x0f);
    LinesPair(dev, s, d, f);
    var e1 := RegMaskEffect(dev, s, 0x05, lna, 0x0f);
    RegMaskStores(dev, s, 0x05, lna, 0x0f);
    RegMaskStores(dev, e1.state, 0x07, mixer, 0x0f);
  }

  /**
   * setManualGain sets bit 4 of register 0x05 and clears bit 4 of register
   * 0x07, the opposite of setAutoGain, and leaves the LNA index in the low
   * nibble of register 0x05 and the mixer index, modulo 16, in that of 0x07.
   */
  lemma ManualGainRegisters(dev: Device, s: TState, step: int)
    requires |s.shadow| == REG_COUNT && 0 <= step <= 30
    ensures var e := LinesEffect(dev, s, ManualGainLines(step));
      e.result.Success? ==>
        |e.state.shadow| == REG_COUNT &&
        Bit(e.state.shadow[0], 4) == 1 && e.state.shadow[0] % 16 == LnaValue(step) &&
        Bit(e.state.shadow[2], 4) == 0 && e.state.shadow[2] % 16 == MixerValue(step) % 16
  {
    var mode := [Line(0x05, 0x10, 0x10), Line(0x07, 0x00, 0x10), Line(0x0c, 0x08, 0x9f)];
    var lna, mixer := LnaValue(step), MixerValue(step);
    var index := [Line(0x05, lna, 0x0f), Line(0x07, mixer, 0x0f)];
    assert ManualGainLines(step) == mode + index;
    LinesAppend(dev, s, mode, index);
    var m := LinesEffect(dev, s, mode);
    if m.result.Success? {
      GainModeBits(dev, s, 0x10, 0x00, 0x08);
      ModeBitValues();
      var e := LinesEffect(dev, m.state, index);
      GainIndexWrites(dev, m.state, lna, mixer);
      if e.result.Success? {
        MaskMergeNibble(m.state.shadow[0], lna);
        MaskMergeNibble(m.state.shadow[2], mixer);
        GainSplit(step);
        assert LinesEffect(dev, s, ManualGainLines(step)) == e;
      }
    }
  }

  // ---------------------------------------------------------------------------

  /**
   * Operations on the R820T tuner chip: the bus, the crystal frequency, the
   * shadow of registers 0x05..0x1f with a flag that says whether
   * initRegisters has created it, and the lock flag of the last lock check. Each method is proved to have the effect of
   * the function of the same name above.
   */
  class R820T {
    const com: RtlCom
    const xtalFreq: int
    var shadow: array<Byte>
    var hasShadow: bool
    var hasPllLock: bool

    constructor (com: RtlCom, xtalFreq: int)
      requires xtalFreq > 0
      ensures this.com == com && this.xtalFreq == xtalFreq
      ensures shadow.Length == 0 && !hasShadow && !hasPllLock
    {
      this.com := com;
      this.xtalFreq := xtalFreq;
      shadow := new Byte[0];
      hasShadow := false;
      hasPllLock := false;
    }

    /** The bus trace, the shadow registers, whether they exist, and the lock flag. */
    function State(): TState
      reads this, com, shadow
    {
      TState(com.trace, shadow[..], hasShadow, hasPllLock)
    }

    /** Is the shadow in step with the chip? */
    predicate Synchronised()
      reads this, com, shadow
    {
      Synced(com.trace, shadow[..])
    }

    /** writeRegMask: merge into the shadow byte, store it back, send it. */
    method WriteRegMask(addr: int, value: int, mask: int) returns (r: Result<()>)
      modifies com, shadow
      ensures Step(r, State()) == RegMaskEffect(com.dev, old(State()), addr, value, mask)
    {
      if !hasShadow {
        return Failure(NoShadowRegisters);
      }
      var i := addr - FIRST_REG;
      var rc := if 0 <= i < shadow.Length then shadow[i] else 0;
      var v := MaskMerge(rc, value, mask);
      if 0 <= i < shadow.Length {
        shadow[i] := v;
      }
      r := com.WriteI2CReg(I2C_ADDR, addr, v);
    }

    /** writeEach: the lines of a table in order, stopping at the first failure. */
    method WriteEach(lines: seq<Line>) returns (r: Result<()>)
      modifies com, shadow
      ensures Step(r, State()) == LinesEffect(com.dev, old(State()), lines)
      ensures Shadowed(lines) && old(Synchronised()) && r.Success? ==> Synchronised()
    {
      var i := 0;
      while i < |lines|
        invariant 0 <= i <= |lines|
        invariant LinesEffect(com.dev, old(State()), lines[..i]) == Step(Success(()), State())
      {
        r := WriteRegMask(lines[i].addr, lines[i].value, lines[i].mask);
        assert lines[..i + 1][..i] == lines[..i];
        if r.Failure? {
          LinesFailureStops(com.dev, old(State()), lines, i + 1);
          return;
        }
        i := i + 1;
      }
      assert lines[..i] == lines;
      r := Success(());
      if Shadowed(lines) && old(Synchronised()) {
        LinesKeepSync(com.dev, old(State()), lines);
      }
    }

    /** readRegBuffer: `length` registers from `addr` on, each byte bit-reversed in place. */
    method ReadRegBuffer(addr: int, length: nat) returns (r: Result<seq<Byte>>)
      modifies com
      ensures Step(r, State()) == ReadBufferEffect(com.dev, old(State()), addr, length)
    {
      var data :- com.ReadI2CRegBuffer(I2C_ADDR, addr, length);
      var buf := new Byte[|data|](k requires 0 <= k < |data| => data[k]);
      assert buf[..] == data;
      BitRevInPlace(buf);
      r := Success(buf[..]);
    }

    /** The loop of readRegBuffer: every byte of `buf` bit-reversed in place. */
    static method BitRevInPlace(buf: array<Byte>)
      modifies buf
      ensures buf[..] == BitRevAll(old(buf[..]))
    {
      var i := 0;
      while i < buf.Length
        invariant 0 <= i <= buf.Length
        invariant forall k :: 0 <= k < i ==> buf[k] == BitRev(old(buf[k]))
        invariant forall k :: i <= k < buf.Length ==> buf[k] == old(buf[k])
      {
        buf[i] := BitRev(buf[i]);
        i := i + 1;
      }
    }

    /** setMux: find the band of `freq` and write its configuration. */
    method SetMux(freq: int) returns (r: Result<()>)
      modifies com, shadow
      ensures Step(r, State()) == LinesEffect(com.dev, old(State()), MuxLines(MUX_CFGS[MuxIndex(freq)]))
      ensures old(Synchronised()) && r.Success? ==> Synchronised()
    {
      var i := 0;
      while i < |MUX_CFGS| - 1 && BandEdge(i + 1) <= freq
        invariant 0 <= i < |MUX_CFGS|
        invariant i == 0 || BandEdge(i) <= freq
        decreases |MUX_CFGS| - i
      {
        i := i + 1;
      }
      MuxIndexUnique(freq, i);
      TablesShadowed(0, 0, MUX_CFGS[i], 0, 0, 0);
      r := WriteEach(MuxLines(MUX_CFGS[i]));
    }

    /** getPllLock: read the status; without lock, nudge register 0x12 once and read again. */
    method GetPllLock(firstTry: bool) returns (r: Result<bool>)
      modifies this, com, shadow
      ensures shadow == old(shadow)
      ensures Step(r, State()) == PllLockEffect(com.dev, old(State()), firstTry)
      decreases firstTry
    {
      var data :- ReadRegBuffer(0x00, 3);
      if LockBit(data) {
        hasPllLock := true;
        return Success(true);
      }
      if firstTry {
        var _ :- WriteRegMask(0x12, 0x60, 0xe0);
        r := GetPllLock(false);
        return;
      }
      hasPllLock := false;
      r := Success(false);
    }

    /** setPll: program the divider, the integer and fractional multiplier, and check the lock. */
    method SetPll(freq: int) returns (r: Result<real>)
      requires 0 < freq <= VCO_MIN && xtalFreq > 0
      modifies this, com, shadow
      ensures shadow == old(shadow)
      ensures Step(r, State()) == PllEffect(com.dev, xtalFreq, old(State()), freq)
      ensures old(Synchronised()) && r.Success? ==> Synchronised()
    {
      var pllRef := xtalFreq;
      TablesShadowed(0, 0, MUX_CFGS[0], 0, 0, 0);
      var _ :- WriteEach(PLL_LINES);
      var divNum := DivNum(freq);
      var mixDiv := Pow2(divNum + 1);
      var data :- ReadRegBuffer(0x00, 5);
      divNum := AdjustDivNum(divNum, FineTune(data));
      var _ :- WriteRegMask(0x10, ToInt32(divNum * 32), 0xe0);
      r := TunePll(freq, mixDiv);
      if old(Synchronised()) {
        PllKeepsSync(com.dev, pllRef, old(State()), freq);
      }
    }

    /** The rest of setPll, once the divider is written; `mixDiv` is the divider before the fine-tune step. */
    method TunePll(freq: int, mixDiv: int) returns (r: Result<real>)
      requires 0 < freq <= VCO_MIN && xtalFreq > 0 && mixDiv == MixDiv(freq)
      modifies this, com, shadow
      ensures shadow == old(shadow)
      ensures Step(r, State()) == PllTune(com.dev, xtalFreq, old(State()), freq)
    {
      var pllRef := xtalFreq;
      var vcoFreq := freq * mixDiv;
      var nint := vcoFreq / (2 * pllRef);
      var vcoFra := vcoFreq % (2 * pllRef);
      if nint > 63 {
        hasPllLock := false;
        return Success(0.0);
      }
      var _ :- WriteEach(NintLines(nint, vcoFra));
      var sdm := Sdm(vcoFra, pllRef);
      var _ :- WriteEach(SdmLines(sdm));
      var _ :- GetPllLock(true);
      var _ :- WriteRegMask(0x1a, 0x08, 0x08);
      r := Success(ActualFreq(pllRef, nint, sdm, mixDiv));
    }

    /** calibrateFilter: tune to 56 MHz, trigger the calibration and read the capacitor; one retry when it is not 0. */
    method CalibrateFilter(firstTry: bool) returns (r: Result<int>)
      requires xtalFreq > 0
      modifies this, com, shadow
      ensures shadow == old(shadow)
      ensures Step(r, State()) == CalibrateEffect(com.dev, xtalFreq, old(State()), firstTry)
      ensures old(Synchronised()) && r.Success? ==> Synchronised()
      decreases firstTry
    {
      TablesShadowed(0, 0, MUX_CFGS[0], 0, 0, 0);
      var _ :- WriteEach(CALIBRATE_LINES);
      var _ :- SetPll(56000000);
      if !hasPllLock {
        return Failure(PllNotLocked);
      }
      var _ :- WriteEach(CALIBRATE_DONE_LINES);
      var data :- ReadRegBuffer(0x00, 5);
      var filterCap := FilterCap(data);
      if filterCap != 0 && firstTry {
        r := CalibrateFilter(false);
      } else {
        r := Success(filterCap);
      }
      if old(Synchronised()) {
        CalibrateKeepsSync(com.dev, xtalFreq, old(State()), firstTry);
      }
    }

    /** initElectronics: the first table, the filter calibration, and the table that uses its result. */
    method InitElectronics() returns (r: Result<()>)
      requires xtalFreq > 0
      modifies this, com, shadow
      ensures shadow == old(shadow)
      ensures Step(r, State()) == ElectronicsEffect(com.dev, xtalFreq, old(State()))
      ensures old(Synchronised()) && r.Success? ==> Synchronised()
    {
      var _ :- WriteEach(ELECTRONICS_LINES);
      var filterCap :- CalibrateFilter(true);
      r := WriteEach(ElectronicsLines(filterCap));
      if old(Synchronised()) {
        ElectronicsKeepsSync(com.dev, xtalFreq, old(State()));
      }
    }

    /** initRegisters: a new shadow holding the image, then one I2C write per register. */
    method InitRegisters(regs: seq<int>) returns (r: Result<()>)
      modifies this, com
      ensures fresh(shadow) && hasShadow && hasPllLock == old(hasPllLock)
      ensures Step(r, State()) == InitRegistersEffect(com.dev, old(State()), regs)
      ensures |regs| == REG_COUNT && r.Success? ==> Synchronised()
    {
      shadow := new Byte[|regs|](k requires 0 <= k < |regs| => Low8(regs[k]));
      hasShadow := true;
      var cmds := [];
      var i := 0;
      while i < |regs|
        invariant 0 <= i <= |regs|
        invariant cmds == InitCommands(regs)[..i]
      {
        cmds := cmds + [Command(CMD_I2CREG, I2C_ADDR, i + FIRST_REG, regs[i], 0)];
        i := i + 1;
      }
      assert cmds == InitCommands(regs);
      r := com.WriteEach(cmds);
      if |regs| == REG_COUNT {
        InitRegistersSync(com.dev, old(State()), regs);
      }
    }

    /** init: the power-on image, then the electronics. Afterwards the shadow mirrors the chip. */
    method Init() returns (r: Result<()>)
      requires xtalFreq > 0
      modifies this, com
      ensures fresh(shadow)
      ensures Step(r, State()) == InitEffect(com.dev, xtalFreq, old(State()))
      ensures r.Success? ==> Synchronised()
    {
      var _ :- InitRegisters(REGISTERS);
      r := InitElectronics();
      InitKeepsSync(com.dev, xtalFreq, old(State()));
    }

    /** setFrequency: select the band, then tune the PLL; returns the synthesised frequency. */
    method SetFrequency(freq: int) returns (r: Result<real>)
      requires 0 < freq <= VCO_MIN && xtalFreq > 0
      modifies this, com, shadow
      ensures shadow == old(shadow)
      ensures Step(r, State()) == SetFrequencyEffect(com.dev, xtalFreq, old(State()), freq)
      ensures old(Synchronised()) && r.Success? ==> Synchronised()
    {
      var _ :- SetMux(freq);
      r := SetPll(freq);
      if old(Synchronised()) {
        SetFrequencyKeepsSync(com.dev, xtalFreq, old(State()), freq);
      }
    }

    /** setAutoGain: LNA and mixer gain under automatic control. */
    method SetAutoGain() returns (r: Result<()>)
      modifies com, shadow
      ensures Step(r, State()) == LinesEffect(com.dev, old(State()), AUTO_GAIN_LINES)
      ensures old(Synchronised()) && r.Success? ==> Synchronised()
    {
      TablesShadowed(0, 0, MUX_CFGS[0], 0, 0, 0);
      r := WriteEach(AUTO_GAIN_LINES);
    }

    /**
     * setManualGain, from the gain step the driver computes from the gain in
     * dB: the step clamped to 0..30 and split between LNA and mixer.
     */
    method SetManualGain(step: int) returns (r: Result<()>)
      modifies com, shadow
      ensures Step(r, State()) == LinesEffect(com.dev, old(State()), ManualGainLines(ClampStep(step)))
      ensures old(Synchronised()) && r.Success? ==> Synchronised()
    {
      var clamped := step;
      if clamped < 0 {
        clamped := 0;
      } else if clamped > 30 {
        clamped := 30;
      }
      TablesShadowed(0, clamped, MUX_CFGS[0], 0, 0, 0);
      r := WriteEach(ManualGainLines(clamped));
    }

    /** close: the power-down table. */
    method Close() returns (r: Result<()>)
      modifies com, shadow
      ensures Step(r, State()) == LinesEffect(com.dev, old(State()), CLOSE_LINES)
      ensures old(Synchronised()) && r.Success? ==> Synchronised()
    {
      TablesShadowed(0, 0, MUX_CFGS[0], 0, 0, 0);
      r := WriteEach(CLOSE_LINES);
    }

    /** check: is an R820T answering at I2C address 0x34, that is, does register 0 read 0x69? */
    static method Check(com: RtlCom) returns (r: Result<bool>)
      modifies com
      ensures var e := ReadI2CRegEffect(com.dev, old(com.trace), I2C_ADDR, 0);
        com.trace == e.trace &&
        (r.Success? <==> e.result.Success?) &&
        (r.Success? ==> (r.value <==> e.result.value == Some(CHIP_ID))) &&
        (r.Failure? ==> r.error == e.result.error)
    {
      var data :- com.ReadI2CReg(I2C_ADDR, 0);
      r := Success(data == Some(CHIP_ID));
    }
  }
}
