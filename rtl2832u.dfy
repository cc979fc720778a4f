/**
 * The RTL2832U demodulator (src/rtl2832u.ts): bring-up of the USB interface
 * and the demodulator, the probe for the R820T tuner, the sample-rate and
 * intermediate-frequency arithmetic written into demodulator registers, and
 * the ordering of I2C-repeater brackets around tuner operations.
 *
 * As in the bus and tuner layers, every operation has a function giving its
 * result and the state it leaves (the bus trace and the tuner's shadow
 * registers and lock flag), and the methods of `RTL2832U` are proved to
 * agree with those functions.
 */
module Demodulator {
  import opened Bytes
  import opened Results
  import opened Bus
  import opened Tuner

  /** Frequency of the oscillator crystal, in Hz. */
  const XTAL_FREQ := 28800000
  /** The tuner's intermediate frequency, in Hz. */
  const IF_FREQ := 3570000
  /** Each sample is an I byte and a Q byte. */
  const BYTES_PER_SAMPLE := 2

  /** `XTAL_FREQ * (1 << 22)`: the numerator of the sample-rate ratio. */
  const RATIO_BASE := XTAL_FREQ * 0x40_0000

  // ---------------------------------------------------------------------------
  // The command tables.

  /** A `[CMD.REG, block, reg, value, len]` tuple. */
  function RegWrite(block: int, reg: int, value: int, len: int): Command
  {
    Command(CMD_REG, block, reg, value, len)
  }

  /** A `[CMD.DEMODREG, page, addr, value, len]` tuple. */
  function DemodWrite(page: int, addr: int, value: int, len: int): Command
  {
    Command(CMD_DEMODREG, page, addr, value, len)
  }

  /** The USB set-up before the interface is claimed. */
  const USB_INIT: seq<Command> := [
    RegWrite(BLOCK_USB, REG_SYSCTL, 0x09, 1),
    RegWrite(BLOCK_USB, REG_EPA_MAXPKT, 0x0200, 2),
    RegWrite(BLOCK_USB, REG_EPA_CTL, 0x0210, 2)]

  /** Power-on, soft reset, FIR coefficients and the rest of the demodulator set-up. */
  const DEMOD_INIT: seq<Command> := [
    RegWrite(BLOCK_SYS, REG_DEMOD_CTL_1, 0x22, 1),
    RegWrite(BLOCK_SYS, REG_DEMOD_CTL, 0xe8, 1),
    DemodWrite(1, 0x01, 0x14, 1), DemodWrite(1, 0x01, 0x10, 1),
    DemodWrite(1, 0x15, 0x00, 1), DemodWrite(1, 0x16, 0x0000, 2),
    DemodWrite(1, 0x16, 0x00, 1), DemodWrite(1, 0x17, 0x00, 1),
    DemodWrite(1, 0x18, 0x00, 1), DemodWrite(1, 0x19, 0x00, 1),
    DemodWrite(1, 0x1a, 0x00, 1), DemodWrite(1, 0x1b, 0x00, 1),
    DemodWrite(1, 0x1c, 0xca, 1), DemodWrite(1, 0x1d, 0xdc, 1),
    DemodWrite(1, 0x1e, 0xd7, 1), DemodWrite(1, 0x1f, 0xd8, 1),
    DemodWrite(1, 0x20, 0xe0, 1), DemodWrite(1, 0x21, 0xf2, 1),
    DemodWrite(1, 0x22, 0x0e, 1), DemodWrite(1, 0x23, 0x35, 1),
    DemodWrite(1, 0x24, 0x06, 1), DemodWrite(1, 0x25, 0x50, 1),
    DemodWrite(1, 0x26, 0x9c, 1), DemodWrite(1, 0x27, 0x0d, 1),
    DemodWrite(1, 0x28, 0x71, 1), DemodWrite(1, 0x29, 0x11, 1),
    DemodWrite(1, 0x2a, 0x14, 1), DemodWrite(1, 0x2b, 0x71, 1),
    DemodWrite(1, 0x2c, 0x74, 1), DemodWrite(1, 0x2d, 0x19, 1),
    DemodWrite(1, 0x2e, 0x41, 1), DemodWrite(1, 0x2f, 0xa5, 1),
    DemodWrite(0, 0x19, 0x05, 1), DemodWrite(1, 0x93, 0xf0, 1),
    DemodWrite(1, 0x94, 0x0f, 1), DemodWrite(1, 0x11, 0x00, 1),
    DemodWrite(1, 0x04, 0x00, 1), DemodWrite(0, 0x61, 0x60, 1),
    DemodWrite(0, 0x06, 0x80, 1), DemodWrite(1, 0xb1, 0x1b, 1),
    DemodWrite(0, 0x0d, 0x83, 1)]

  /** resetDemodulator: soft reset on, then off. */
  const SOFT_RESET: seq<Command> := [DemodWrite(1, 0x01, 0x14, 1), DemodWrite(1, 0x01, 0x10, 1)]

  /** resetBuffer: the endpoint-A control register set to 0x0210, then cleared. */
  const BUFFER_RESET: seq<Command> := [RegWrite(BLOCK_USB, REG_EPA_CTL, 0x0210, 2), RegWrite(BLOCK_USB, REG_EPA_CTL, 0x0000, 2)]

  // ---------------------------------------------------------------------------
  // Frequency arithmetic.

  /** `floor(XTAL_FREQ * (1 + ppm / 1e6))`: the crystal frequency corrected by `ppm` parts per million. */
  function XtalFreq(ppm: real): int
  {
    (XTAL_FREQ as real * (1.0 + ppm / 1000000.0)).Floor
  }

  /** `-floor(IF_FREQ * 2^22 / xtalFreq)`: the IF multiplier. */
  function IfMultiplier(xtalFreq: int): int
    requires xtalFreq > 0
  {
    -(IF_FREQ * 0x40_0000 / xtalFreq)
  }

  /** `(m >> 16) & 0x3f`, `(m >> 8) & 0xff` and `m & 0xff` on the 32-bit value of `m`. */
  function MultiplierBytes(m: int): seq<int>
  {
    [ShiftRight(m, 16) % 0x40, ShiftRight(m, 8) % 0x100, ToInt32(m) % 0x100]
  }

  /** The writes of open that set the intermediate frequency into demodulator registers 0x19..0x1b. */
  function IfCommands(m: int): seq<Command>
  {
    var b := MultiplierBytes(m);
    [DemodWrite(1, 0xb1, 0x1a, 1), DemodWrite(0, 0x08, 0x4d, 1),
     DemodWrite(1, 0x19, b[0], 1), DemodWrite(1, 0x1a, b[1], 1), DemodWrite(1, 0x1b, b[2], 1),
     DemodWrite(1, 0x15, 0x01, 1)]
  }

  /**
   * `floor(XTAL_FREQ * 2^22 / rate) & 0x0ffffffc`: the resampling ratio, a
   * multiple of 4 below 2^28 taken from the 32-bit value of the quotient.
   */
  function SampleRatio(rate: int): (ratio: int)
    requires rate > 0
    ensures ratio % 4 == 0 && 0 <= ratio < 0x1000_0000
  {
    var low := ToInt32(RATIO_BASE / rate) % 0x1000_0000;
    low - low % 4
  }

  /** `floor(XTAL_FREQ * 2^22 / ratio)`: the rate the ratio gives; a zero ratio makes it `Infinity`, here `None`. */
  function RealRate(ratio: int): Option<int>
    requires ratio >= 0
  {
    if ratio == 0 then None else Some(RATIO_BASE / ratio)
  }

  /** `(ratio >> 16) & 0xffff` and `ratio & 0xffff`: the two 16-bit halves written to 0x9f and 0xa1. */
  function RatioHigh(ratio: int): int
  {
    ShiftRight(ratio, 16) % 0x10000
  }

  function RatioLow(ratio: int): int
  {
    ToInt32(ratio) % 0x10000
  }

  /** `-floor(ppm * 2^24 / 1e6)`: the frequency correction in units of 2^-24. */
  function PpmOffset(ppm: real): int
  {
    -((ppm * 16777216.0 / 1000000.0).Floor)
  }

  /** The writes of setSampleRate: the ratio halves and the correction bytes `(o >> 8) & 0x3f`, `o & 0xff`. */
  function RateCommands(ratio: int, offset: int): seq<Command>
  {
    [DemodWrite(1, 0x9f, RatioHigh(ratio), 2), DemodWrite(1, 0xa1, RatioLow(ratio), 2),
     DemodWrite(1, 0x3e, ShiftRight(offset, 8) % 0x40, 1), DemodWrite(1, 0x3f, ToInt32(offset) % 0x100, 1)]
  }

  // ---------------------------------------------------------------------------
  // What each operation does.

  /** A bus operation seen from the tuner's state: only the trace moves. */
  function OnBus<T>(e: Exec<T>, s: TState): Step<T>
  {
    Step(e.result, s.(trace := e.trace))
  }

  /** The tables that setGain writes: automatic gain for `None`, else the manual gain of the clamped step. */
  function GainLines(gain: Option<int>): seq<Line>
  {
    match gain
    case None => AUTO_GAIN_LINES
    case Some(step) => ManualGainLines(ClampStep(step))
  }

  /** The first part of open: USB set-up, claim, demodulator set-up, repeater on and the tuner probe. */
  function BringUpEffect(dev: Device, t: seq<Transfer>): Exec<bool>
  {
    var u := BatchEffect(dev, t, USB_INIT);
    if u.result.Failure? then Exec(Failure(u.result.error), u.trace) else
    var c := Perform(dev, u.trace, Claim(0));
    if c.result.Failure? then Exec(Failure(c.result.error), c.trace) else
    var d := BatchEffect(dev, c.trace, DEMOD_INIT);
    if d.result.Failure? then Exec(Failure(d.result.error), d.trace) else
    var o := OpenI2CEffect(dev, d.trace);
    if o.result.Failure? then Exec(Failure(o.result.error), o.trace) else
    var p := ReadI2CRegEffect(dev, o.trace, I2C_ADDR, 0);
    if p.result.Failure? then Exec(Failure(p.result.error), p.trace) else
    Exec(Success(p.result.value == Some(CHIP_ID)), p.trace)
  }

  /** The rest of open once a tuner is there: IF set-up, tuner init, the configured gain, repeater off. */
  function FinishEffect(dev: Device, ppm: real, gain: Option<int>, s: TState): Step<()>
    requires XtalFreq(ppm) > 0
  {
    var xtal := XtalFreq(ppm);
    var i := BatchEffect(dev, s.trace, IfCommands(IfMultiplier(xtal)));
    if i.result.Failure? then OnBus(i, s) else
    var n := InitEffect(dev, xtal, s.(trace := i.trace));
    if n.result.Failure? then n else
    var g := LinesEffect(dev, n.state, GainLines(gain));
    if g.result.Failure? then g else
    var c := CloseI2CEffect(dev, g.state.trace);
    Step(if c.result.Success? then Success(()) else Failure(c.result.error), g.state.(trace := c.trace))
  }

  /** setSampleRate: the ratio and correction writes, the soft reset, and the rate actually set. */
  function SampleRateEffect(dev: Device, ppm: real, t: seq<Transfer>, rate: int): Exec<Option<int>>
    requires rate > 0
  {
    var ratio := SampleRatio(rate);
    var w := BatchEffect(dev, t, RateCommands(ratio, PpmOffset(ppm)));
    if w.result.Failure? then Exec(Failure(w.result.error), w.trace) else
    var r := BatchEffect(dev, w.trace, SOFT_RESET);
    if r.result.Failure? then Exec(Failure(r.result.error), r.trace) else
    Exec(Success(RealRate(ratio)), r.trace)
  }

  /** setCenterFrequency: inside the repeater bracket, tune to `freq + IF_FREQ`; report the result less `IF_FREQ`. */
  function CenterFrequencyEffect(dev: Device, xtal: int, s: TState, freq: int): Step<real>
    requires 0 < freq + IF_FREQ <= VCO_MIN && xtal > 0
  {
    var o := OpenI2CEffect(dev, s.trace);
    if o.result.Failure? then Step(Failure(o.result.error), s.(trace := o.trace)) else
    TuneAndClose(dev, SetFrequencyEffect(dev, xtal, s.(trace := o.trace), freq + IF_FREQ))
  }

  /** Once the repeater is on, setCenterFrequency is the tuning and the repeater off. */
  lemma CenterFrequencySplit(dev: Device, xtal: int, s: TState, freq: int, o: Exec<Option<int>>, s1: TState)
    requires 0 < freq + IF_FREQ <= VCO_MIN && xtal > 0
    requires o == OpenI2CEffect(dev, s.trace) && s1 == s.(trace := o.trace)
    ensures o.result.Failure? ==> CenterFrequencyEffect(dev, xtal, s, freq) == Step(Failure(o.result.error), s1)
    ensures o.result.Success? ==> CenterFrequencyEffect(dev, xtal, s, freq) == TuneAndClose(dev, SetFrequencyEffect(dev, xtal, s1, freq + IF_FREQ))
  {
  }

  /** The tuned frequency less the intermediate frequency: the centre frequency reported. */
  function LessIf(tuned: real): real
  {
    tuned - IF_FREQ as real
  }

  /** setCenterFrequency after the repeater is on: the tuner result, then the repeater off. */
  function TuneAndClose(dev: Device, f: Step<real>): Step<real>
  {
    if f.result.Failure? then f else
    var c := CloseI2CEffect(dev, f.state.trace);
    if c.result.Failure? then Step(Failure(c.result.error), f.state.(trace := c.trace)) else
    Step(Success(LessIf(f.result.value)), f.state.(trace := c.trace))
  }

  /**
   * TuneAndClose succeeds only when the tuner did; it then reports the tuner's
   * frequency less the IF, keeps the tuner's shadow and lock, and appends the
   * repeater-off write to the tuner's trace.
   */
  lemma TuneAndCloseStep(dev: Device, f: Step<real>)
    ensures var e := TuneAndClose(dev, f);
      e.result.Success? ==>
        f.result.Success? && e.result.value == LessIf(f.result.value) &&
        e.state.shadow == f.state.shadow && e.state.lock == f.state.lock &&
        e.state.trace == CloseI2CEffect(dev, f.state.trace).trace &&
        CloseI2CEffect(dev, f.state.trace).result.Success?
  {
  }

  /** The two outcomes of TuneAndClose once the tuner has succeeded. */
  lemma TuneAndCloseCases(dev: Device, e: Step<real>, c: Exec<Option<int>>)
    requires e.result.Success? && c == CloseI2CEffect(dev, e.state.trace)
    ensures c.result.Failure? ==> TuneAndClose(dev, e) == Step(Failure(c.result.error), e.state.(trace := c.trace))
    ensures c.result.Success? ==> TuneAndClose(dev, e) == Step(Success(LessIf(e.result.value)), e.state.(trace := c.trace))
  {
  }

  /** close: repeater on, tuner power-down, repeater off, interface released. */
  function CloseEffect(dev: Device, s: TState): Step<()>
  {
    var o := OpenI2CEffect(dev, s.trace);
    if o.result.Failure? then Step(Failure(o.result.error), s.(trace := o.trace)) else
    var l := LinesEffect(dev, s.(trace := o.trace), CLOSE_LINES);
    if l.result.Failure? then l else
    var c := CloseI2CEffect(dev, l.state.trace);
    if c.result.Failure? then Step(Failure(c.result.error), l.state.(trace := c.trace)) else
    var r := Discard(Perform(dev, c.trace, Release(0)));
    Step(r.result, l.state.(trace := r.trace))
  }

  // ---------------------------------------------------------------------------
  // Properties of the arithmetic.

  /**
   * The three IF bytes are the 22-bit two's-complement field of the
   * multiplier, high byte first: the multiplier modulo 2^22.
   */
  lemma MultiplierField(m: int)
    ensures var b := MultiplierBytes(m);
      0 <= b[0] < 0x40 && 0 <= b[1] < 0x100 && 0 <= b[2] < 0x100 &&
      b[0] * 0x10000 + b[1] * 0x100 + b[2] == m % 0x40_0000
  {
    var x := ToInt32(m);
    Pow2Wide();
    ModOfCongruent(m, x, 0x40_0000, 0x400);
    ModMul(x, 0x100, 0x4000);
    ModMul(x / 0x100, 0x100, 0x40);
    ModMul(x, 0x100, 0x100);
  }

  /** The two correction bytes are the 14-bit two's-complement field of the offset. */
  lemma PpmField(offset: int)
    ensures var hi, lo := ShiftRight(offset, 8) % 0x40, ToInt32(offset) % 0x100;
      0 <= hi < 0x40 && 0 <= lo < 0x100 && hi * 0x100 + lo == offset % 0x4000
  {
    var x := ToInt32(offset);
    Pow2Wide();
    ModOfCongruent(offset, x, 0x4000, 0x4_0000);
    ModMul(x, 0x100, 0x40);
  }

  /** At the nominal crystal frequency the IF multiplier is -519918, written as 0x38, 0x11, 0x12. */
  lemma NominalMultiplier()
    ensures IfMultiplier(XTAL_FREQ) == -519918
    ensures MultiplierBytes(IfMultiplier(XTAL_FREQ)) == [0x38, 0x11, 0x12]
  {
    var m := IfMultiplier(XTAL_FREQ);
    DivModUnique(IF_FREQ * 0x40_0000, XTAL_FREQ, 519918, IF_FREQ * 0x40_0000 - XTAL_FREQ * 519918);
    MultiplierField(m);
    var b := MultiplierBytes(m);
    DivModUnique(m, 0x40_0000, -1, 0x38_1112);
    DivModUnique(b[0] * 0x10000 + b[1] * 0x100 + b[2], 0x100, b[0] * 0x100 + b[1], b[2]);
    DivModUnique(0x38_1112, 0x100, 0x3811, 0x12);
    DivModUnique(b[0] * 0x100 + b[1], 0x100, b[0], b[1]);
    DivModUnique(0x3811, 0x100, 0x38, 0x11);
  }

  /** When the quotient fits in 28 bits, the ratio is the quotient rounded down to a multiple of 4. */
  lemma RatioRoundsDown(rate: int)
    requires rate > 0 && RATIO_BASE / rate < 0x1000_0000
    ensures var q := RATIO_BASE / rate;
      SampleRatio(rate) == q - q % 4 && SampleRatio(rate) <= q < SampleRatio(rate) + 4
  {
    var q := RATIO_BASE / rate;
    ToInt32Small(q);
    DivModUnique(q, 0x1000_0000, 0, q);
  }

  /**
   * The ratio never exceeds the quotient: `& 0x0ffffffc` keeps the low 28 bits
   * of the quotient's 32-bit form, with the low two cleared, even when the
   * quotient does not fit in 28 bits.
   */
  lemma RatioAtMostQuotient(rate: int)
    requires rate > 0
    ensures SampleRatio(rate) <= RATIO_BASE / rate
  {
    var q := RATIO_BASE / rate;
    var x := ToInt32(q);
    assert q >= 0;
    ModOfCongruent(q, x, 0x1000_0000, 0x10);
    DivMod(q, 0x1000_0000);
  }

  /**
   * Whenever the ratio is not zero, the rate it gives is never below the rate
   * asked for; for a quotient in [4, 2^28) the ratio is not zero.
   */
  lemma RealRateAtLeast(rate: int)
    requires rate > 0
    ensures 4 <= RATIO_BASE / rate < 0x1000_0000 ==> SampleRatio(rate) > 0
    ensures SampleRatio(rate) > 0 ==>
      RealRate(SampleRatio(rate)).Some? && RealRate(SampleRatio(rate)).value >= rate
  {
    var q := RATIO_BASE / rate;
    var ratio := SampleRatio(rate);
    if 4 <= q < 0x1000_0000 {
      RatioRoundsDown(rate);
    }
    RatioAtMostQuotient(rate);
    if ratio > 0 {
      DivisorAtMostQuotient(RATIO_BASE, rate, ratio);
    }
  }

  /** The two 16-bit halves of a ratio below 2^28 put together give the ratio back. */
  lemma RatioHalves(ratio: int)
    requires 0 <= ratio < 0x1000_0000
    ensures 0 <= RatioHigh(ratio) < 0x1000 && 0 <= RatioLow(ratio) < 0x10000
    ensures RatioHigh(ratio) * 0x10000 + RatioLow(ratio) == ratio
  {
    ToInt32Small(ratio);
    Pow2Wide();
    DivMod(ratio, 0x10000);
    DivModUnique(ratio / 0x10000, 0x10000, 0, ratio / 0x10000);
  }

  /**
   * The two 2-byte big-endian writes to 0x9f and 0xa1 put the bytes of the
   * 4-byte big-endian ratio into 0x9f..0xa2.
   */
  lemma RatioRegisters(ratio: int)
    requires 0 <= ratio < 0x1000_0000
    ensures NumberToBuffer(RatioHigh(ratio), 2, true).value + NumberToBuffer(RatioLow(ratio), 2, true).value ==
      NumberToBuffer(ratio, 4, true).value
  {
    RatioHalves(ratio);
    var hi, lo := RatioHigh(ratio), RatioLow(ratio);
    DivModUnique(ratio, 0x10000, hi, lo);
    HalfWordBytes(ratio);
    var a, b, whole := NumberToBuffer(hi, 2, true).value, NumberToBuffer(lo, 2, true).value, NumberToBuffer(ratio, 4, true).value;
    assert Pow256(1) == 0x100 && Pow256(2) == 0x10000 && Pow256(3) == 0x100_0000;
    assert a[0] == whole[0] && a[1] == whole[1];
    assert b[0] == whole[2] && b[1] == whole[3];
  }

  /** The bytes of the two half-words of `x` are the bytes of `x`. */
  lemma HalfWordBytes(x: int)
    ensures (x / 0x10000) / 0x100 == x / 0x100_0000
    ensures (x % 0x10000) / 0x100 % 0x100 == x / 0x100 % 0x100
    ensures (x % 0x10000) % 0x100 == x % 0x100
  {
    ModMul(x, 0x10000, 0x100);
    ModMul(x, 0x100, 0x100);
    var lo := x % 0x10000;
    DivModUnique(lo, 0x100, (x / 0x100) % 0x100, x % 0x100);
  }

  // ---------------------------------------------------------------------------
  // Requests on the bus.

  /** The two transfers of a write to demodulator page 1, address 1: the byte `v`, then the fixed follow-up read. */
  function RepeaterRequests(v: Byte): seq<Request>
  {
    [ControlOut(0x120, 0x11, [v]), ControlIn(0x120, 0x0a, 8)]
  }

  /** The three USB set-up writes, little-endian, on block 0x100 with the write flag. */
  const USB_REQUESTS: seq<Request> := [
    ControlOut(REG_SYSCTL, 0x110, [0x09]),
    ControlOut(REG_EPA_MAXPKT, 0x110, [0x00, 0x02]),
    ControlOut(REG_EPA_CTL, 0x110, [0x10, 0x02])]

  lemma RequestsPrefix(a: seq<Transfer>, b: seq<Transfer>)
    requires a <= b
    ensures Requests(a) <= Requests(b)
  {
    assert b == a + b[|a|..];
    RequestsAppend(a, b[|a|..]);
  }

  /** A trace that only grows by transfers that write nothing to the tuner keeps the shadow in step. */
  lemma QuietKeepsSync(t: seq<Transfer>, t': seq<Transfer>, shadow: seq<Byte>)
    requires Synced(t, shadow) && t <= t'
    requires forall k :: |t| <= k < |t'| ==> !TunerWrite(t'[k].request)
    ensures Synced(t', shadow)
  {
    var extra := t'[|t|..];
    assert t' == t + extra;
    assert forall k :: 0 <= k < |extra| ==> extra[k] == t'[|t| + k];
    forall i | 0 <= i < REG_COUNT
      ensures TunerImage(Requests(t'), i + FIRST_REG) == Some(shadow[i])
    {
      ImageAppendOthers(t, extra, i + FIRST_REG);
    }
  }

  /**
   * A write to demodulator page 1, address 1 (the I2C repeater and the soft
   * reset) appends at most its two transfers, neither of them a tuner write.
   */
  lemma RepeaterOrder(dev: Device, t: seq<Transfer>, v: Byte)
    ensures var e := WriteDemodRegEffect(dev, t, 1, 1, v, 1);
      e.result.Success? ==> Requests(e.trace) == Requests(t) + RepeaterRequests(v) && |e.trace| == |t| + 2
  {
    assert DemodRegister(1) == 0x120;
    Low8OfByte(v);
    assert NumberToBuffer(v, 1, true) == Success([v]);
    WriteDemodRegRequests(dev, t, 1, 1, v, 1);
  }

  lemma RepeaterTrace(dev: Device, t: seq<Transfer>, v: Byte)
    ensures var e := WriteDemodRegEffect(dev, t, 1, 1, v, 1);
      t <= e.trace && (forall k :: |t| <= k < |e.trace| ==> !TunerWrite(e.trace[k].request)) &&
      (e.result.Success? ==> Requests(e.trace) == Requests(t) + RepeaterRequests(v))
  {
    RepeaterOrder(dev, t, v);
    var w := WriteCtrlMsgEffect(dev, t, 0x120, 0x11, [v]);
    assert DemodRegister(1) == 0x120;
    Low8OfByte(v);
    assert NumberToBuffer(v, 1, true) == Success([v]);
    if w.result.Success? {
      assert w.trace == t + [w.trace[|t|]];
    }
  }

  lemma RepeaterKeepsSync(dev: Device, s: TState, v: Byte)
    requires Synced(s.trace, s.shadow)
    ensures Synced(WriteDemodRegEffect(dev, s.trace, 1, 1, v, 1).trace, s.shadow)
  {
    RepeaterTrace(dev, s.trace, v);
    QuietKeepsSync(s.trace, WriteDemodRegEffect(dev, s.trace, 1, 1, v, 1).trace, s.shadow);
  }

  /** Releasing the interface writes nothing to the tuner. */
  lemma ReleaseKeepsSync(dev: Device, t: seq<Transfer>, shadow: seq<Byte>)
    requires Synced(t, shadow)
    ensures Synced(Perform(dev, t, Release(0)).trace, shadow)
  {
    var r := Perform(dev, t, Release(0));
    assert !TunerWrite(Release(0));
    QuietKeepsSync(t, r.trace, shadow);
  }

  /** A table of the gain tables keeps the shadow in step. */
  lemma GainKeepsSync(dev: Device, s: TState, gain: Option<int>)
    requires Synced(s.trace, s.shadow)
    ensures var e := LinesEffect(dev, s, GainLines(gain));
      e.result.Success? ==> Synced(e.state.trace, e.state.shadow)
  {
    TablesShadowed(0, if gain.Some? then ClampStep(gain.value) else 0, MUX_CFGS[0], 0, 0, 0);
    LinesKeepSync(dev, s, GainLines(gain));
  }

  /** After a successful open the tuner's shadow mirrors the chip. */
  lemma FinishSynced(dev: Device, ppm: real, gain: Option<int>, s: TState)
    requires XtalFreq(ppm) > 0
    ensures var e := FinishEffect(dev, ppm, gain, s);
      e.result.Success? ==> Synced(e.state.trace, e.state.shadow)
  {
    var xtal := XtalFreq(ppm);
    var i := BatchEffect(dev, s.trace, IfCommands(IfMultiplier(xtal)));
    if i.result.Success? {
      var n := InitEffect(dev, xtal, s.(trace := i.trace));
      InitKeepsSync(dev, xtal, s.(trace := i.trace));
      if n.result.Success? {
        var g := LinesEffect(dev, n.state, GainLines(gain));
        GainKeepsSync(dev, n.state, gain);
        if g.result.Success? {
          RepeaterKeepsSync(dev, g.state, 0x10);
        }
      }
    }
  }

  /** setCenterFrequency keeps the shadow in step: the repeater writes are not tuner writes. */
  lemma CenterFrequencyKeepsSync(dev: Device, xtal: int, s: TState, freq: int)
    requires 0 < freq + IF_FREQ <= VCO_MIN && xtal > 0 && Synced(s.trace, s.shadow)
    ensures var e := CenterFrequencyEffect(dev, xtal, s, freq);
      e.result.Success? ==> Synced(e.state.trace, e.state.shadow)
  {
    var o := OpenI2CEffect(dev, s.trace);
    RepeaterKeepsSync(dev, s, 0x18);
    if o.result.Success? {
      var s1 := s.(trace := o.trace);
      SetFrequencyKeepsSync(dev, xtal, s1, freq + IF_FREQ);
      TuneAndCloseKeepsSync(dev, SetFrequencyEffect(dev, xtal, s1, freq + IF_FREQ));
    }
  }

  /** Switching the repeater off after a tuner operation that kept the shadow in step keeps it in step. */
  lemma TuneAndCloseKeepsSync(dev: Device, f: Step<real>)
    requires f.result.Success? ==> Synced(f.state.trace, f.state.shadow)
    ensures var e := TuneAndClose(dev, f);
      e.result.Success? ==> Synced(e.state.trace, e.state.shadow)
  {
    TuneAndCloseStep(dev, f);
    if f.result.Success? {
      RepeaterKeepsSync(dev, f.state, 0x10);
    }
  }

  /** close keeps the shadow in step. */
  lemma CloseKeepsSync(dev: Device, s: TState)
    requires Synced(s.trace, s.shadow)
    ensures var e := CloseEffect(dev, s);
      e.result.Success? ==> Synced(e.state.trace, e.state.shadow)
  {
    var o := OpenI2CEffect(dev, s.trace);
    RepeaterKeepsSync(dev, s, 0x18);
    if o.result.Success? {
      var l := LinesEffect(dev, s.(trace := o.trace), CLOSE_LINES);
      TablesShadowed(0, 0, MUX_CFGS[0], 0, 0, 0);
      LinesKeepSync(dev, s.(trace := o.trace), CLOSE_LINES);
      if l.result.Success? {
        var c := CloseI2CEffect(dev, l.state.trace);
        RepeaterKeepsSync(dev, l.state, 0x10);
        if c.result.Success? {
          ReleaseKeepsSync(dev, c.trace, l.state.shadow);
        }
      }
    }
  }

  // ---------------------------------------------------------------------------
  // The order of transfers.

  /** `rs` starts with `head` and ends with `tail`, the two not overlapping. */
  predicate Bracketed(rs: seq<Request>, head: seq<Request>, tail: seq<Request>)
  {
    |rs| >= |head| + |tail| && rs[..|head|] == head && rs[|rs| - |tail|..] == tail
  }

  lemma Framed(head: seq<Request>, y: seq<Request>, tail: seq<Request>)
    requires head <= y
    ensures Bracketed(y + tail, head, tail)
  {
  }

  /** The requests of close: the repeater on, the tuner's writes, the repeater off and the release. */
  lemma CloseShape(ts: seq<Transfer>, to: seq<Transfer>, tl: seq<Transfer>, tc: seq<Transfer>, tr: seq<Transfer>)
    requires Requests(to) == Requests(ts) + RepeaterRequests(0x18) && Requests(to) <= Requests(tl)
    requires Requests(tc) == Requests(tl) + RepeaterRequests(0x10) && Requests(tr) == Requests(tc) + [Release(0)]
    ensures Bracketed(Requests(tr), Requests(ts) + RepeaterRequests(0x18), RepeaterRequests(0x10) + [Release(0)])
  {
    assert Requests(tr) == Requests(tl) + (RepeaterRequests(0x10) + [Release(0)]);
    Framed(Requests(to), Requests(tl), RepeaterRequests(0x10) + [Release(0)]);
  }

  /** The little-endian encodings of the USB set-up values. */
  lemma UsbValueBytes()
    ensures NumberToBuffer(0x09, 1, false) == Success([0x09])
    ensures NumberToBuffer(0x0200, 2, false) == Success([0x00, 0x02])
    ensures NumberToBuffer(0x0210, 2, false) == Success([0x10, 0x02])
    ensures NumberToBuffer(0x0000, 2, false) == Success([0x00, 0x00])
  {
    assert Pow256(1) == 0x100;
    var a, b, c := NumberToBuffer(0x0200, 2, false).value, NumberToBuffer(0x0210, 2, false).value, NumberToBuffer(0x0000, 2, false).value;
    assert a == [a[0], a[1]] && b == [b[0], b[1]] && c == [c[0], c[1]];
  }

  /** A batch of two commands is the first command, then, if it succeeded, the second. */
  lemma BatchOfTwo(dev: Device, t: seq<Transfer>, a: Command, b: Command)
    ensures BatchEffect(dev, t, [a, b]) ==
      var e := CommandEffect(dev, t, a);
      if e.result.Failure? then e else CommandEffect(dev, e.trace, b)
  {
    assert [a, b][..1] == [a];
    assert [a][..0] == [];
    assert BatchEffect(dev, t, [a]) == CommandEffect(dev, t, a);
  }

  /** The three USB set-up writes are sent in order, each value little-endian. */
  lemma UsbInitRequests(dev: Device, t: seq<Transfer>)
    ensures var u := BatchEffect(dev, t, USB_INIT);
      u.result.Success? ==> Requests(u.trace) == Requests(t) + USB_REQUESTS
  {
    var c0, c1, c2 := USB_INIT[0], USB_INIT[1], USB_INIT[2];
    assert USB_INIT[..2] == [c0, c1];
    BatchOfTwo(dev, t, c0, c1);
    var e0 := CommandEffect(dev, t, c0);
    var e1 := BatchEffect(dev, t, [c0, c1]);
    var u := BatchEffect(dev, t, USB_INIT);
    assert u == if e1.result.Failure? then e1 else CommandEffect(dev, e1.trace, c2);
    if u.result.Success? {
      UsbValueBytes();
      WriteRegRequests(dev, t, BLOCK_USB, REG_SYSCTL, 0x09, 1);
      WriteRegRequests(dev, e0.trace, BLOCK_USB, REG_EPA_MAXPKT, 0x0200, 2);
      WriteRegRequests(dev, e1.trace, BLOCK_USB, REG_EPA_CTL, 0x0210, 2);
    }
  }

  /** The requests of the bring-up: the USB set-up, the claim, the demodulator set-up, the repeater on, the probe. */
  lemma BringUpShape(rt: seq<Request>, rc: seq<Request>, rd: seq<Request>, ro: seq<Request>, rb: seq<Request>, probe: seq<Request>)
    requires rc == rt + USB_REQUESTS + [Claim(0)] && rc <= rd && ro == rd + RepeaterRequests(0x18) && rb == ro + probe
    ensures Bracketed(rb, rt + USB_REQUESTS + [Claim(0)], RepeaterRequests(0x18) + probe)
  {
    assert rb == rd + (RepeaterRequests(0x18) + probe);
    Framed(rc, rd, RepeaterRequests(0x18) + probe);
  }

  /**
   * open sends the USB set-up, then claims interface 0; it ends with the
   * repeater switched on and the one-byte read of tuner register 0 at I2C
   * address 0x34.
   */
  lemma BringUpOrder(dev: Device, t: seq<Transfer>)
    ensures var b := BringUpEffect(dev, t);
      b.result.Success? ==>
        Bracketed(Requests(b.trace), Requests(t) + USB_REQUESTS + [Claim(0)],
          RepeaterRequests(0x18) + [ControlOut(I2C_ADDR, BLOCK_I2C + WRITE_FLAG, [0]), ControlIn(I2C_ADDR, BLOCK_I2C, 8)])
  {
    var b := BringUpEffect(dev, t);
    if b.result.Success? {
      var u := BatchEffect(dev, t, USB_INIT);
      assert u.result.Success?;
      var c := Perform(dev, u.trace, Claim(0));
      assert c.result.Success?;
      var d := BatchEffect(dev, c.trace, DEMOD_INIT);
      assert d.result.Success?;
      var o := OpenI2CEffect(dev, d.trace);
      assert o.result.Success?;
      var p := ReadI2CRegEffect(dev, o.trace, I2C_ADDR, 0);
      assert p.result.Success? && b.trace == p.trace;
      UsbInitRequests(dev, t);
      PerformRequests(dev, u.trace, Claim(0));
      BatchExtends(dev, c.trace, DEMOD_INIT);
      RequestsPrefix(c.trace, d.trace);
      RepeaterOrder(dev, d.trace, 0x18);
      ReadI2CRegRequests(dev, o.trace, I2C_ADDR, 0);
      assert Low8(0) == 0;
      var probe := [ControlOut(I2C_ADDR, BLOCK_I2C + WRITE_FLAG, [0]), ControlIn(I2C_ADDR, BLOCK_I2C, 8)];
      BringUpShape(Requests(t), Requests(c.trace), Requests(d.trace), Requests(o.trace), Requests(b.trace), probe);
    }
  }

  /** The soft reset writes 0x14, then 0x10, to demodulator page 1, address 1. */
  lemma SoftResetRequests(dev: Device, t: seq<Transfer>)
    ensures var e := BatchEffect(dev, t, SOFT_RESET);
      t <= e.trace &&
      (e.result.Success? ==> Requests(e.trace) == Requests(t) + RepeaterRequests(0x14) + RepeaterRequests(0x10))
  {
    var c0, c1 := SOFT_RESET[0], SOFT_RESET[1];
    BatchOfTwo(dev, t, c0, c1);
    var e0 := CommandEffect(dev, t, c0);
    RepeaterTrace(dev, t, 0x14);
    RepeaterTrace(dev, e0.trace, 0x10);
  }

  /** resetBuffer sets the endpoint-A control register to 0x0210, then clears it. */
  lemma BufferResetRequests(dev: Device, t: seq<Transfer>)
    ensures var e := BatchEffect(dev, t, BUFFER_RESET);
      e.result.Success? ==>
        Requests(e.trace) == Requests(t) + [ControlOut(REG_EPA_CTL, 0x110, [0x10, 0x02]), ControlOut(REG_EPA_CTL, 0x110, [0x00, 0x00])]
  {
    var c0, c1 := BUFFER_RESET[0], BUFFER_RESET[1];
    BatchOfTwo(dev, t, c0, c1);
    var e0 := CommandEffect(dev, t, c0);
    var e := BatchEffect(dev, t, BUFFER_RESET);
    if e.result.Success? {
      UsbValueBytes();
      WriteRegRequests(dev, t, BLOCK_USB, REG_EPA_CTL, 0x0210, 2);
      WriteRegRequests(dev, e0.trace, BLOCK_USB, REG_EPA_CTL, 0x0000, 2);
    }
  }

  /** The first four transfers of setSampleRate: the two big-endian halves of the ratio, each with its follow-up read. */
  function RatioRequests(ratio: int): seq<Request>
  {
    [ControlOut(0x9f20, 0x11, NumberToBuffer(RatioHigh(ratio), 2, true).value), ControlIn(0x120, 0x0a, 8),
     ControlOut(0xa120, 0x11, NumberToBuffer(RatioLow(ratio), 2, true).value), ControlIn(0x120, 0x0a, 8)]
  }

  /** A page-1 demodulator write in a batch: its value to `(addr << 8) | 0x20`, block 0x11, then the follow-up read. */
  lemma DemodWriteRequests(dev: Device, t: seq<Transfer>, addr: int, value: int, len: int)
    requires 0 <= addr < 0x80_0000
    ensures var e := CommandEffect(dev, t, DemodWrite(1, addr, value, len));
      e.result.Success? ==>
        |e.trace| == |t| + 2 &&
        Requests(e.trace) == Requests(t) + [ControlOut(addr * 256 + 0x20, 0x11, NumberToBuffer(value, len, true).value),
                                            ControlIn(0x120, 0x0a, 8)]
  {
    WriteDemodRegRequests(dev, t, 1, addr, value, len);
    ToInt32Small(addr * 256);
    ToInt32Small(0x100);
    assert WriteIndex(1) == 0x11;
    var e := CommandEffect(dev, t, DemodWrite(1, addr, value, len));
    if e.result.Success? {
      assert |Requests(e.trace)| == |e.trace|;
    }
  }

  /** A successful batch runs its first two commands, one after the other, before the rest. */
  lemma BatchFirstTwo(dev: Device, t: seq<Transfer>, cmds: seq<Command>)
    requires |cmds| >= 2
    ensures var w := BatchEffect(dev, t, cmds);
      var e0 := CommandEffect(dev, t, cmds[0]);
      var e1 := CommandEffect(dev, e0.trace, cmds[1]);
      w.result.Success? ==> e0.result.Success? && e1.result.Success? && e1.trace <= w.trace
  {
    assert cmds == cmds[..2] + cmds[2..] && cmds[..2] == [cmds[0], cmds[1]];
    BatchAppend(dev, t, cmds[..2], cmds[2..]);
    BatchOfTwo(dev, t, cmds[0], cmds[1]);
    var e1 := BatchEffect(dev, t, cmds[..2]);
    BatchExtends(dev, e1.trace, cmds[2..]);
  }

  lemma RateCommandsOrder(dev: Device, t: seq<Transfer>, ratio: int, offset: int)
    ensures var w := BatchEffect(dev, t, RateCommands(ratio, offset));
      t <= w.trace && (w.result.Success? ==> Requests(t) + RatioRequests(ratio) <= Requests(w.trace))
  {
    var cmds := RateCommands(ratio, offset);
    var w := BatchEffect(dev, t, cmds);
    BatchExtends(dev, t, cmds);
    BatchFirstTwo(dev, t, cmds);
    if w.result.Success? {
      var e0 := CommandEffect(dev, t, cmds[0]);
      var e1 := CommandEffect(dev, e0.trace, cmds[1]);
      DemodWriteRequests(dev, t, 0x9f, RatioHigh(ratio), 2);
      DemodWriteRequests(dev, e0.trace, 0xa1, RatioLow(ratio), 2);
      assert Requests(e1.trace) == Requests(t) + RatioRequests(ratio);
      RequestsPrefix(e1.trace, w.trace);
    }
  }

  /**
   * setSampleRate first writes the two halves of the ratio, big-endian, to
   * demodulator registers 0x9f and 0xa1, so that 0x9f..0xa2 hold the 4-byte
   * big-endian ratio, and ends with the soft reset; it reports the rate the
   * ratio gives.
   */
  lemma SampleRateOrder(dev: Device, ppm: real, t: seq<Transfer>, rate: int)
    requires rate > 0
    ensures var e := SampleRateEffect(dev, ppm, t, rate);
      var ratio := SampleRatio(rate);
      e.result.Success? ==>
        e.result.value == RealRate(ratio) &&
        Bracketed(Requests(e.trace), Requests(t) + RatioRequests(ratio), RepeaterRequests(0x14) + RepeaterRequests(0x10)) &&
        RatioRequests(ratio)[0].data + RatioRequests(ratio)[2].data == NumberToBuffer(ratio, 4, true).value
  {
    var e := SampleRateEffect(dev, ppm, t, rate);
    var ratio := SampleRatio(rate);
    var w := BatchEffect(dev, t, RateCommands(ratio, PpmOffset(ppm)));
    RateCommandsOrder(dev, t, ratio, PpmOffset(ppm));
    RatioRegisters(ratio);
    if e.result.Success? {
      assert w.result.Success?;
      SoftResetRequests(dev, w.trace);
      Framed(Requests(t) + RatioRequests(ratio), Requests(w.trace), RepeaterRequests(0x14) + RepeaterRequests(0x10));
      assert Requests(e.trace) == Requests(w.trace) + (RepeaterRequests(0x14) + RepeaterRequests(0x10));
    }
  }

  /** setCenterFrequency reports the PLL's frequency less the IF; 0 - IF, with the lock cleared, when the multiplier does not fit. */
  lemma CenterFrequencyResult(dev: Device, xtal: int, s: TState, freq: int)
    requires 0 < freq + IF_FREQ <= VCO_MIN && xtal > 0
    ensures var e := CenterFrequencyEffect(dev, xtal, s, freq);
      e.result.Success? ==>
        e.result.value == LessIf(PllResult(freq + IF_FREQ, xtal)) &&
        (Nint(freq + IF_FREQ, xtal) > 63 ==> e.result.value == -(IF_FREQ as real) && !e.state.lock)
  {
    var o := OpenI2CEffect(dev, s.trace);
    if o.result.Success? {
      var s1 := s.(trace := o.trace);
      var m := LinesEffect(dev, s1, MuxLines(MUX_CFGS[MuxIndex(freq + IF_FREQ)]));
      if m.result.Success? {
        PllOutcome(dev, xtal, m.state, freq + IF_FREQ);
      }
      TuneAndCloseStep(dev, SetFrequencyEffect(dev, xtal, s1, freq + IF_FREQ));
    }
  }

  /** setCenterFrequency brackets the tuner's transfers: repeater on first, repeater off last. */
  lemma CenterFrequencyBrackets(dev: Device, xtal: int, s: TState, freq: int)
    requires 0 < freq + IF_FREQ <= VCO_MIN && xtal > 0
    ensures var e := CenterFrequencyEffect(dev, xtal, s, freq);
      e.result.Success? ==>
        Bracketed(Requests(e.state.trace), Requests(s.trace) + RepeaterRequests(0x18), RepeaterRequests(0x10))
  {
    var o := OpenI2CEffect(dev, s.trace);
    if o.result.Success? {
      RepeaterOrder(dev, s.trace, 0x18);
      var s1 := s.(trace := o.trace);
      SetFrequencyExtends(dev, xtal, s1, freq + IF_FREQ);
      var f := SetFrequencyEffect(dev, xtal, s1, freq + IF_FREQ);
      RequestsPrefix(o.trace, f.state.trace);
      TuneAndCloseBrackets(dev, f, Requests(o.trace));
      assert CenterFrequencyEffect(dev, xtal, s, freq) == TuneAndClose(dev, f);
    }
  }

  /** The repeater-off write comes last, after everything the tuner sent. */
  lemma TuneAndCloseBrackets(dev: Device, f: Step<real>, head: seq<Request>)
    requires head <= Requests(f.state.trace)
    ensures var e := TuneAndClose(dev, f);
      e.result.Success? ==> Bracketed(Requests(e.state.trace), head, RepeaterRequests(0x10))
  {
    var e := TuneAndClose(dev, f);
    TuneAndCloseStep(dev, f);
    if e.result.Success? {
      RepeaterOrder(dev, f.state.trace, 0x10);
      Framed(head, Requests(f.state.trace), RepeaterRequests(0x10));
    }
  }

  /** close: repeater on first; repeater off and the release of interface 0 last. */
  lemma CloseOrder(dev: Device, s: TState)
    ensures var e := CloseEffect(dev, s);
      e.result.Success? ==>
        Bracketed(Requests(e.state.trace), Requests(s.trace) + RepeaterRequests(0x18), RepeaterRequests(0x10) + [Release(0)])
  {
    var e := CloseEffect(dev, s);
    if e.result.Success? {
      var o := OpenI2CEffect(dev, s.trace);
      assert o.result.Success?;
      RepeaterOrder(dev, s.trace, 0x18);
      var l := LinesEffect(dev, s.(trace := o.trace), CLOSE_LINES);
      LinesFrame(dev, s.(trace := o.trace), CLOSE_LINES);
      assert l.result.Success?;
      var c := CloseI2CEffect(dev, l.state.trace);
      RepeaterOrder(dev, l.state.trace, 0x10);
      assert c.result.Success?;
      var r := Perform(dev, c.trace, Release(0));
      assert e.state.trace == r.trace && r.result.Success?;
      PerformRequests(dev, c.trace, Release(0));
      RequestsPrefix(o.trace, l.state.trace);
      CloseShape(s.trace, o.trace, l.state.trace, c.trace, r.trace);
    }
  }

  /**
   * setGain: automatic gain clears bit 4 of register 0x05 and sets bit 4 of
   * 0x07; a manual gain sets the first, clears the second and puts the LNA
   * and mixer indices of the clamped step in their low nibbles.
   */
  lemma GainModes(dev: Device, s: TState, gain: Option<int>)
    requires |s.shadow| == REG_COUNT
    ensures var e := LinesEffect(dev, s, GainLines(gain));
      e.result.Success? ==>
        |e.state.shadow| == REG_COUNT &&
        (gain.None? ==> Bit(e.state.shadow[0], 4) == 0 && Bit(e.state.shadow[2], 4) == 1) &&
        (gain.Some? ==>
          Bit(e.state.shadow[0], 4) == 1 && e.state.shadow[0] % 16 == LnaValue(ClampStep(gain.value)) &&
          Bit(e.state.shadow[2], 4) == 0 && e.state.shadow[2] % 16 == MixerValue(ClampStep(gain.value)) % 16)
  {
    if gain.None? {
      AutoGainModes(dev, s);
    } else {
      ManualGainRegisters(dev, s, ClampStep(gain.value));
    }
  }

  /** After open the gain mode is the configured one. */
  lemma FinishGainModes(dev: Device, ppm: real, gain: Option<int>, s: TState)
    requires XtalFreq(ppm) > 0
    ensures var e := FinishEffect(dev, ppm, gain, s);
      e.result.Success? ==>
        |e.state.shadow| == REG_COUNT &&
        (gain.None? ==> Bit(e.state.shadow[0], 4) == 0 && Bit(e.state.shadow[2], 4) == 1) &&
        (gain.Some? ==>
          Bit(e.state.shadow[0], 4) == 1 && e.state.shadow[0] % 16 == LnaValue(ClampStep(gain.value)) &&
          Bit(e.state.shadow[2], 4) == 0 && e.state.shadow[2] % 16 == MixerValue(ClampStep(gain.value)) % 16)
  {
    var xtal := XtalFreq(ppm);
    var i := BatchEffect(dev, s.trace, IfCommands(IfMultiplier(xtal)));
    if i.result.Success? {
      var n := InitEffect(dev, xtal, s.(trace := i.trace));
      InitKeepsSync(dev, xtal, s.(trace := i.trace));
      if n.result.Success? {
        GainModes(dev, n.state, gain);
      }
    }
  }

  // ---------------------------------------------------------------------------

  /**
   * Operations on the RTL2832U: the bus, the ppm correction, the gain chosen
   * at construction (a gain step, or `None` for automatic gain) and the tuner
   * that open finds.
   */
  class RTL2832U {
    const com: RtlCom
    const ppm: real
    const optGain: Option<int>
    var tuner: R820T?

    constructor (dev: Device, ppm: real, optGain: Option<int>)
      ensures fresh(com) && com.dev == dev && com.trace == []
      ensures this.ppm == ppm && this.optGain == optGain && tuner == null
    {
      com := new RtlCom(dev);
      this.ppm := ppm;
      this.optGain := optGain;
      tuner := null;
    }

    /** A tuner, once found, talks over this bus at the corrected crystal frequency. */
    predicate Valid()
      reads this, tuner
    {
      tuner != null ==> tuner.com == com && tuner.xtalFreq == XtalFreq(ppm) && tuner.xtalFreq > 0
    }

    /** open: bring the dongle up, probe for the tuner, then initialise it. */
    method Open() returns (r: Result<()>)
      requires Valid() && XtalFreq(ppm) > 0
      modifies this, com, tuner
      ensures Valid()
      ensures var b := BringUpEffect(com.dev, old(com.trace));
        b.result.Failure? ==> r == Failure(b.result.error) && com.trace == b.trace && tuner == old(tuner)
      ensures var b := BringUpEffect(com.dev, old(com.trace));
        b.result.Success? && b.result.value ==>
          tuner != null && fresh(tuner) &&
          Step(r, tuner.State()) == FinishEffect(com.dev, ppm, optGain, TState(b.trace, [], false, false))
      ensures var b := BringUpEffect(com.dev, old(com.trace));
        b.result.Success? && !b.result.value && old(tuner) == null ==>
          tuner == null && r == Failure(UnsupportedTuner) && com.trace == b.trace
      ensures var b := BringUpEffect(com.dev, old(com.trace));
        b.result.Success? && !b.result.value && old(tuner) != null ==>
          tuner == old(tuner) &&
          Step(r, tuner.State()) == FinishEffect(com.dev, ppm, optGain, TState(b.trace, old(tuner.shadow[..]), old(tuner.hasShadow), old(tuner.hasPllLock)))
      ensures r.Success? ==> tuner != null && tuner.Synchronised()
    {
      var found :- BringUp();
      if found {
        tuner := new R820T(com, XtalFreq(ppm));
      }
      if tuner == null {
        return Failure(UnsupportedTuner);
      }
      r := Finish();
    }

    /** The part of open before the tuner is known: the set-up writes, the claim and the probe. */
    method BringUp() returns (r: Result<bool>)
      modifies com
      ensures Exec(r, com.trace) == BringUpEffect(com.dev, old(com.trace))
    {
      var _ :- com.WriteEach(USB_INIT);
      var _ :- com.ClaimInterface();
      var _ :- com.WriteEach(DEMOD_INIT);
      var _ :- com.OpenI2C();
      r := R820T.Check(com);
    }

    /** The part of open after the tuner is known. */
    method Finish() returns (r: Result<()>)
      requires Valid() && tuner != null
      modifies com, tuner
      ensures Step(r, tuner.State()) == FinishEffect(com.dev, ppm, optGain, old(tuner.State()))
      ensures r.Success? ==> tuner.Synchronised()
    {
      var xtal := XtalFreq(ppm);
      var _ :- com.WriteEach(IfCommands(IfMultiplier(xtal)));
      var _ :- tuner.Init();
      var _ :- SetGain(optGain);
      var _ :- com.CloseI2C();
      r := Success(());
      FinishSynced(com.dev, ppm, optGain, old(tuner.State()));
    }

    /** setGain: automatic gain for `None`, else the manual gain of the step. */
    method SetGain(gain: Option<int>) returns (r: Result<()>)
      requires Valid() && tuner != null
      modifies com, tuner.shadow
      ensures Step(r, tuner.State()) == LinesEffect(com.dev, old(tuner.State()), GainLines(gain))
      ensures old(tuner.Synchronised()) && r.Success? ==> tuner.Synchronised()
    {
      if gain.None? {
        r := tuner.SetAutoGain();
      } else {
        r := tuner.SetManualGain(gain.value);
      }
    }

    /** setSampleRate: returns the rate actually set (`None` where the source computes `Infinity`). */
    method SetSampleRate(rate: int) returns (r: Result<Option<int>>)
      requires rate > 0
      modifies com
      ensures Exec(r, com.trace) == SampleRateEffect(com.dev, ppm, old(com.trace), rate)
    {
      var ratio := SampleRatio(rate);
      var realRate := RealRate(ratio);
      var ppmOffset := PpmOffset(ppm);
      var _ :- com.WriteEach(RateCommands(ratio, ppmOffset));
      var _ :- ResetDemodulator();
      r := Success(realRate);
    }

    method ResetDemodulator() returns (r: Result<()>)
      modifies com
      ensures Exec(r, com.trace) == BatchEffect(com.dev, old(com.trace), SOFT_RESET)
    {
      r := com.WriteEach(SOFT_RESET);
    }

    /** setCenterFrequency: tune to `freq + IF_FREQ` inside the repeater bracket; returns the tuned frequency less `IF_FREQ`. */
    method SetCenterFrequency(freq: int) returns (r: Result<real>)
      requires Valid() && tuner != null && 0 < freq + IF_FREQ <= VCO_MIN
      modifies com, tuner, tuner.shadow
      ensures Step(r, tuner.State()) == CenterFrequencyEffect(com.dev, tuner.xtalFreq, old(tuner.State()), freq)
      ensures old(tuner.Synchronised()) && r.Success? ==> tuner.Synchronised()
    {
      ghost var s := tuner.State();
      var o := com.OpenI2C();
      ghost var s1 := tuner.State();
      assert s1 == s.(trace := com.trace);
      CenterFrequencySplit(com.dev, tuner.xtalFreq, s, freq, Exec(o, com.trace), s1);
      if o.Failure? {
        return Failure(o.error);
      }
      r := TuneThenClose(freq + IF_FREQ);
      if old(tuner.Synchronised()) {
        CenterFrequencyKeepsSync(com.dev, tuner.xtalFreq, s, freq);
      }
    }

    /** The part of setCenterFrequency after the repeater is on: tune, then switch the repeater off. */
    method TuneThenClose(tuned: int) returns (r: Result<real>)
      requires Valid() && tuner != null && 0 < tuned <= VCO_MIN
      modifies com, tuner, tuner.shadow
      ensures Step(r, tuner.State()) == TuneAndClose(com.dev, SetFrequencyEffect(com.dev, tuner.xtalFreq, old(tuner.State()), tuned))
    {
      var f := tuner.SetFrequency(tuned);
      ghost var t := tuner.State();
      ghost var e := SetFrequencyEffect(com.dev, tuner.xtalFreq, old(tuner.State()), tuned);
      assert Step(f, t) == e;
      if f.Failure? {
        return Failure(f.error);
      }
      var c := com.CloseI2C();
      assert tuner.State() == t.(trace := com.trace);
      TuneAndCloseCases(com.dev, e, Exec(c, com.trace));
      if c.Failure? {
        return Failure(c.error);
      }
      r := Success(LessIf(f.value));
    }

    method ResetBuffer() returns (r: Result<()>)
      modifies com
      ensures Exec(r, com.trace) == BatchEffect(com.dev, old(com.trace), BUFFER_RESET)
    {
      r := com.WriteEach(BUFFER_RESET);
    }

    /** readSamples: one bulk read of two bytes per sample. */
    method ReadSamples(length: nat) returns (r: Result<seq<Byte>>)
      modifies com
      ensures Exec(r, com.trace) == Perform(com.dev, old(com.trace), BulkIn(1, BYTES_PER_SAMPLE * length))
    {
      r := com.ReadBulk(length * BYTES_PER_SAMPLE);
    }

    /** close: tuner power-down inside the repeater bracket, then the interface released. */
    method Close() returns (r: Result<()>)
      requires Valid() && tuner != null
      modifies com, tuner.shadow
      ensures Step(r, tuner.State()) == CloseEffect(com.dev, old(tuner.State()))
      ensures old(tuner.Synchronised()) && r.Success? ==> tuner.Synchronised()
    {
      ghost var s := tuner.State();
      var o := com.OpenI2C();
      if o.Failure? {
        return Failure(o.error);
      }
      assert tuner.State() == s.(trace := com.trace);
      r := tuner.Close();
      if r.Failure? {
        return;
      }
      ghost var t := tuner.State();
      var c := com.CloseI2C();
      assert tuner.State() == t.(trace := com.trace);
      if c.Failure? {
        return Failure(c.error);
      }
      ghost var u := t.(trace := com.trace);
      r := com.ReleaseInterface();
      assert tuner.State() == u.(trace := com.trace);
      if old(tuner.Synchronised()) {
        CloseKeepsSync(com.dev, s);
      }
    }
  }
}
