/**
 * The register bus of the RTL2832U (src/rtlcom.ts): register reads and
 * writes become USB vendor control transfers whose setup packet (section 9.3
 * of the USB 2.0 specification) carries request 0, the register number in
 * wValue and the register block in wIndex, with 0x10 added to the block for
 * writes. Demodulator registers are reached indirectly, and the tuner behind
 * the demodulator's I2C master through a two-phase proxy.
 *
 * The transport is a parameter: a `Device` answers each request, possibly
 * depending on everything before it, and `RtlCom` keeps the append-only
 * trace of completed transfers. Every operation has a function `...Effect`
 * giving its result and the trace it leaves; the methods follow the source
 * step by step and are proved to agree with those functions.
 */
module Bus {
  import opened Bytes
  import opened Results

  /** A transfer the driver asks the USB transport to perform. */
  datatype Request =
    | ControlOut(value: int, index: int, data: seq<Byte>)  // vendor control transfer, host to device
    | ControlIn(value: int, index: int, length: nat)      // vendor control transfer, device to host
    | BulkIn(endpoint: int, length: nat)
    | Claim(iface: int)
    | Release(iface: int)

  /** The transport's answer: a failure, or the bytes the device returned. */
  datatype Reply = Failed | Done(data: seq<Byte>)

  /** A completed transfer with the bytes the device returned. */
  datatype Transfer = Transfer(request: Request, data: seq<Byte>)

  /**
   * The dongle behind the transport. Its answer to a request may depend on the
   * whole history, so status registers can read differently from one read to
   * the next, and any transfer may fail.
   */
  type Device = (seq<Transfer>, Request) -> Reply

  /** The requests of a trace, in order. */
  function Requests(t: seq<Transfer>): seq<Request>
  {
    seq(|t|, i requires 0 <= i < |t| => t[i].request)
  }

  lemma RequestsAppend(a: seq<Transfer>, b: seq<Transfer>)
    ensures Requests(a + b) == Requests(a) + Requests(b)
  {
    assert forall i :: 0 <= i < |a + b| ==> Requests(a + b)[i] == (Requests(a) + Requests(b))[i];
  }

  /** What an operation returns or throws, and the trace it leaves behind. */
  datatype Exec<T> = Exec(result: Result<T>, trace: seq<Transfer>)

  // Constants of the register map.
  const WRITE_FLAG := 0x10
  const CMD_REG := 1
  const CMD_REGMASK := 2
  const CMD_DEMODREG := 3
  const CMD_I2CREG := 4
  const BLOCK_DEMOD := 0x000
  const BLOCK_USB := 0x100
  const BLOCK_SYS := 0x200
  const BLOCK_I2C := 0x600
  const REG_SYSCTL := 0x2000
  const REG_EPA_CTL := 0x2148
  const REG_EPA_MAXPKT := 0x2158
  const REG_DEMOD_CTL := 0x3000
  const REG_DEMOD_CTL_1 := 0x300b

  /** `block | WRITE_FLAG`: the index field of a write, with bit 4 of the 32-bit block set. */
  function WriteIndex(block: int): (index: int)
    ensures 0 <= block < 0x8000_0000 && (block / 16) % 2 == 0 ==> index == block + WRITE_FLAG
    ensures (index / 16) % 2 == 1
  {
    var b := ToInt32(block);
    if (b / 16) % 2 == 1 then b else b + 16
  }

  /**
   * `(addr << 8) | 0x20`: the value field that addresses a demodulator
   * register. The shifted value is a multiple of 256, so the `|` adds 0x20.
   */
  function DemodRegister(addr: int): int
  {
    ToInt32(addr * 256) + 0x20
  }

  // ---------------------------------------------------------------------------
  // Number codec (numberToBuffer / bufferToNumber)

  function Pow256(n: nat): (p: int)
    ensures p >= 1
  {
    if n == 0 then 1 else 256 * Pow256(n - 1)
  }

  /** The `n` low bytes of `value`, least significant first. */
  function LittleEndian(value: int, n: nat): (s: seq<Byte>)
    ensures |s| == n
    decreases n
  {
    if n == 0 then [] else [Low8(value)] + LittleEndian(value / 256, n - 1)
  }

  /** The number whose little-endian bytes are `s`. */
  function FromLittleEndian(s: seq<Byte>): int
  {
    if s == [] then 0 else s[0] + 256 * FromLittleEndian(s[1..])
  }

  function Reverse<T>(s: seq<T>): (r: seq<T>)
    ensures |r| == |s|
    ensures forall i :: 0 <= i < |s| ==> r[i] == s[|s| - 1 - i]
  {
    if s == [] then [] else Reverse(s[1..]) + [s[0]]
  }

  /** Byte `i` of the little-endian encoding is digit `i` of the value in base 256. */
  lemma {:induction false} LittleEndianDigit(value: int, n: nat, i: nat)
    requires i < n
    ensures LittleEndian(value, n)[i] == Low8(value / Pow256(i))
    decreases i
  {
    if i > 0 {
      assert LittleEndian(value, n)[i] == LittleEndian(value / 256, n - 1)[i - 1];
      LittleEndianDigit(value / 256, n - 1, i - 1);
      ModMul(value, 256, Pow256(i - 1));
      assert Pow256(i) == 256 * Pow256(i - 1);
    }
  }

  /** Decoding the `n` little-endian bytes of a value gives it back modulo 256^n. */
  lemma {:induction false} LittleEndianRoundTrip(value: int, n: nat)
    ensures FromLittleEndian(LittleEndian(value, n)) == value % Pow256(n)
    decreases n
  {
    if n > 0 {
      var s := LittleEndian(value, n);
      assert s[1..] == LittleEndian(value / 256, n - 1);
      LittleEndianRoundTrip(value / 256, n - 1);
      ModMul(value, 256, Pow256(n - 1));
      assert Pow256(n) == 256 * Pow256(n - 1);
      assert FromLittleEndian(s) == (value % 256) + 256 * ((value / 256) % Pow256(n - 1));
    }
  }

  /** A decoded number of `|s|` bytes is below 256^|s|. */
  lemma {:induction false} FromLittleEndianBound(s: seq<Byte>)
    ensures 0 <= FromLittleEndian(s) < Pow256(|s|)
  {
    if s != [] {
      FromLittleEndianBound(s[1..]);
    }
  }

  /**
   * numberToBuffer: `value` as a buffer of exactly `len` bytes, little-endian
   * unless `bigEndian`; only widths 1, 2 and 4 exist, and a 1-byte buffer
   * ignores the endianness flag. DataView keeps the value modulo 256^len.
   */
  function NumberToBuffer(value: int, len: int, bigEndian: bool): (r: Result<seq<Byte>>)
    ensures r.Success? <==> len == 1 || len == 2 || len == 4
    ensures r.Failure? ==> r.error == UnsupportedWidth
    ensures r.Success? ==> |r.value| == len
    ensures r.Success? ==> forall i :: 0 <= i < len ==>
      r.value[i] == Low8(value / Pow256(if bigEndian then len - 1 - i else i))
  {
    if len == 1 then
      LittleEndianDigit(value, 1, 0);
      Success([Low8(value)])
    else if len == 2 || len == 4 then
      var le := LittleEndian(value, len);
      assert forall i :: 0 <= i < len ==> le[i] == Low8(value / Pow256(i)) by {
        forall i | 0 <= i < len {
          LittleEndianDigit(value, len, i);
        }
      }
      Success(if bigEndian then Reverse(le) else le)
    else
      Failure(UnsupportedWidth)
  }

  /**
   * bufferToNumber: a 1-, 2- or 4-byte buffer read as a little-endian
   * number, `null` for an empty buffer, and an error for any other length.
   */
  function BufferToNumber(buf: seq<Byte>): (r: Result<Option<int>>)
    ensures r.Success? <==> |buf| == 0 || |buf| == 1 || |buf| == 2 || |buf| == 4
    ensures r.Failure? ==> r.error == UnsupportedWidth
    ensures r == Success(None) <==> |buf| == 0
    ensures r.Success? && r.value.Some? ==> 0 <= r.value.value < Pow256(|buf|)
  {
    FromLittleEndianBound(buf);
    if |buf| == 0 then Success(None)
    else if |buf| == 1 || |buf| == 2 || |buf| == 4 then Success(Some(FromLittleEndian(buf)))
    else Failure(UnsupportedWidth)
  }

  /** Encoding a value that fits and decoding the buffer gives the value back, in either byte order. */
  lemma NumberRoundTrip(value: int, len: int)
    requires len == 1 || len == 2 || len == 4
    requires 0 <= value < Pow256(len)
    ensures BufferToNumber(NumberToBuffer(value, len, false).value) == Success(Some(value))
    ensures BufferToNumber(Reverse(NumberToBuffer(value, len, true).value)) == Success(Some(value))
  {
    var le := LittleEndian(value, len);
    LittleEndianRoundTrip(value, len);
    assert value % Pow256(len) == value by {
      DivModUnique(value, Pow256(len), 0, value);
    }
    assert BufferToNumber(le) == Success(Some(value));
    var little := NumberToBuffer(value, len, false).value;
    var big := NumberToBuffer(value, len, true).value;
    if len == 1 {
      assert le == [Low8(value)] + LittleEndian(value / 256, 0);
      assert little == le && big == le;
      assert Reverse(big) == [big[0]];
    } else {
      assert little == le;
      assert big == Reverse(le);
      assert forall i :: 0 <= i < len ==> Reverse(big)[i] == le[i];
      assert Reverse(big) == le;
    }
  }

  // ---------------------------------------------------------------------------
  // What each bus operation does, as a function of the device and the trace.

  /** One transfer: on success it is appended to the trace with the bytes the device returned. */
  function Perform(dev: Device, t: seq<Transfer>, req: Request): Exec<seq<Byte>>
  {
    match dev(t, req)
    case Failed => Exec(Failure(TransferFailed), t)
    case Done(d) => Exec(Success(d), t + [Transfer(req, d)])
  }

  /** The outcome of a transfer whose data is not used. */
  function Discard<T>(e: Exec<T>): Exec<()>
  {
    Exec(if e.result.Success? then Success(()) else Failure(e.result.error), e.trace)
  }

  /** The first `n` bytes of `d`, or all of them if there are fewer (ArrayBuffer.slice(0, n)). */
  function Prefix(d: seq<Byte>, n: nat): (p: seq<Byte>)
    ensures |p| <= n && p <= d
    ensures |d| >= n ==> |p| == n
    ensures |d| <= n ==> p == d
  {
    if |d| <= n then d else d[..n]
  }

  function WriteCtrlMsgEffect(dev: Device, t: seq<Transfer>, value: int, index: int, data: seq<Byte>): Exec<()>
  {
    var e := Perform(dev, t, ControlOut(value, index, data));
    Exec(if e.result.Success? then Success(()) else Failure(e.result.error), e.trace)
  }

  /** readCtrlMsg asks the transport for at least 8 bytes and keeps the first `length`. */
  function ReadCtrlMsgEffect(dev: Device, t: seq<Transfer>, value: int, index: int, length: nat): Exec<seq<Byte>>
  {
    var e := Perform(dev, t, ControlIn(value, index, if length < 8 then 8 else length));
    if e.result.Failure? then e else Exec(Success(Prefix(e.result.value, length)), e.trace)
  }

  function WriteRegEffect(dev: Device, t: seq<Transfer>, block: int, reg: int, value: int, len: int): Exec<()>
  {
    match NumberToBuffer(value, len, false)
    case Failure(err) => Exec(Failure(err), t)
    case Success(buf) => WriteCtrlMsgEffect(dev, t, reg, WriteIndex(block), buf)
  }

  function ReadRegEffect(dev: Device, t: seq<Transfer>, block: int, reg: int, len: nat): Exec<Option<int>>
  {
    var e := ReadCtrlMsgEffect(dev, t, reg, block, len);
    if e.result.Failure? then Exec(Failure(e.result.error), e.trace)
    else Exec(BufferToNumber(e.result.value), e.trace)
  }

  /** The byte a masked write stores when the register read back `prev` (`null` acts as 0). */
  function MergedByte(prev: Option<int>, value: int, mask: int): Byte
  {
    MaskMerge(if prev.Some? then Low8(prev.value) else 0, value, Low8(mask))
  }

  function WriteRegMaskEffect(dev: Device, t: seq<Transfer>, block: int, reg: int, value: int, mask: int): Exec<()>
  {
    if mask == 0xff then
      WriteRegEffect(dev, t, block, reg, value, 1)
    else
      var e := ReadRegEffect(dev, t, block, reg, 1);
      if e.result.Failure? then Exec(Failure(e.result.error), e.trace)
      else WriteRegEffect(dev, e.trace, block, reg, MergedByte(e.result.value, value, mask), 1)
  }

  function ReadDemodRegEffect(dev: Device, t: seq<Transfer>, page: int, addr: int): Exec<Option<int>>
  {
    ReadRegEffect(dev, t, page, DemodRegister(addr), 1)
  }

  function WriteDemodRegEffect(dev: Device, t: seq<Transfer>, page: int, addr: int, value: int, len: int): Exec<Option<int>>
  {
    match NumberToBuffer(value, len, true)
    case Failure(err) => Exec(Failure(err), t)
    case Success(buf) =>
      var e := WriteCtrlMsgEffect(dev, t, DemodRegister(addr), WriteIndex(page), buf);
      if e.result.Failure? then Exec(Failure(e.result.error), e.trace)
      else ReadDemodRegEffect(dev, e.trace, 0x0a, 0x01)
  }

  function OpenI2CEffect(dev: Device, t: seq<Transfer>): Exec<Option<int>>
  {
    WriteDemodRegEffect(dev, t, 1, 1, 0x18, 1)
  }

  function CloseI2CEffect(dev: Device, t: seq<Transfer>): Exec<Option<int>>
  {
    WriteDemodRegEffect(dev, t, 1, 1, 0x10, 1)
  }

  function ReadI2CRegEffect(dev: Device, t: seq<Transfer>, addr: int, reg: int): Exec<Option<int>>
  {
    var e := WriteCtrlMsgEffect(dev, t, addr, WriteIndex(BLOCK_I2C), [Low8(reg)]);
    if e.result.Failure? then Exec(Failure(e.result.error), e.trace)
    else ReadRegEffect(dev, e.trace, BLOCK_I2C, addr, 1)
  }

  function WriteI2CRegEffect(dev: Device, t: seq<Transfer>, addr: int, reg: int, value: int): Exec<()>
  {
    WriteCtrlMsgEffect(dev, t, addr, WriteIndex(BLOCK_I2C), [Low8(reg), Low8(value)])
  }

  function ReadI2CRegBufferEffect(dev: Device, t: seq<Transfer>, addr: int, reg: int, len: nat): Exec<seq<Byte>>
  {
    var e := WriteCtrlMsgEffect(dev, t, addr, WriteIndex(BLOCK_I2C), [Low8(reg)]);
    if e.result.Failure? then Exec(Failure(e.result.error), e.trace)
    else ReadCtrlMsgEffect(dev, e.trace, addr, BLOCK_I2C, len)
  }

  function WriteI2CRegBufferEffect(dev: Device, t: seq<Transfer>, addr: int, reg: int, buf: seq<Byte>): Exec<()>
  {
    WriteCtrlMsgEffect(dev, t, addr, WriteIndex(BLOCK_I2C), [Low8(reg)] + buf)
  }

  /** One line of a write batch: a tag followed by up to four numbers. */
  datatype Command = Command(op: int, a: int, b: int, c: int, d: int)

  function CommandEffect(dev: Device, t: seq<Transfer>, cmd: Command): Exec<()>
  {
    if cmd.op == CMD_REG then
      WriteRegEffect(dev, t, cmd.a, cmd.b, cmd.c, cmd.d)
    else if cmd.op == CMD_REGMASK then
      WriteRegMaskEffect(dev, t, cmd.a, cmd.b, cmd.c, cmd.d)
    else if cmd.op == CMD_DEMODREG then
      var e := WriteDemodRegEffect(dev, t, cmd.a, cmd.b, cmd.c, cmd.d);
      Exec(if e.result.Success? then Success(()) else Failure(e.result.error), e.trace)
    else if cmd.op == CMD_I2CREG then
      WriteI2CRegEffect(dev, t, cmd.a, cmd.b, cmd.c)
    else
      Exec(Failure(UnsupportedOperation), t)
  }

  /** writeEach: the commands one after the other, stopping at the first failure. */
  function BatchEffect(dev: Device, t: seq<Transfer>, cmds: seq<Command>): Exec<()>
  {
    if cmds == [] then Exec(Success(()), t)
    else
      var e := BatchEffect(dev, t, cmds[..|cmds| - 1]);
      if e.result.Failure? then e else CommandEffect(dev, e.trace, cmds[|cmds| - 1])
  }

  // ---------------------------------------------------------------------------
  // Properties of the bus operations.

  /** A mask of 0xff is a plain one-byte write: no read, the value itself is sent. */
  lemma WriteRegMaskFullMask(dev: Device, t: seq<Transfer>, block: int, reg: int, value: int)
    ensures WriteRegMaskEffect(dev, t, block, reg, value, 0xff) == WriteRegEffect(dev, t, block, reg, value, 1)
    ensures var e := WriteRegMaskEffect(dev, t, block, reg, value, 0xff);
      e.result.Success? ==> Requests(e.trace) == Requests(t) + [ControlOut(reg, WriteIndex(block), [Low8(value)])]
  {
    var e := WriteRegMaskEffect(dev, t, block, reg, value, 0xff);
    if e.result.Success? {
      RequestsAppend(t, [e.trace[|e.trace| - 1]]);
    }
  }

  /** A single byte encodes as itself, in either byte order. */
  lemma NumberToBufferByte(b: Byte)
    ensures NumberToBuffer(b, 1, false) == Success([b])
    ensures NumberToBuffer(b, 1, true) == Success([b])
  {
    assert Low8(b) == b;
  }

  /** The byte merged after a 1-byte register read is merged into the reply's first byte, or into 0 when the reply is empty. */
  lemma MergedByteOfReply(d: seq<Byte>, value: int, mask: int)
    ensures BufferToNumber(Prefix(d, 1)).Success?
    ensures MergedByte(BufferToNumber(Prefix(d, 1)).value, value, mask) == MaskMerge(ByteAt(d, 0), value, Low8(mask))
  {
    if |d| > 0 {
      assert Prefix(d, 1) == [d[0]];
      assert FromLittleEndian([d[0]]) == d[0];
      assert Low8(d[0]) == d[0];
    } else {
      assert Prefix(d, 1) == [];
    }
  }

  /**
   * Any other mask reads the register (one byte, through an 8-byte control
   * read on the unflagged block) and then writes `(old & ~mask) | (value & mask)`.
   */
  lemma WriteRegMaskReadModifyWrite(dev: Device, t: seq<Transfer>, block: int, reg: int, value: int, mask: int)
    requires mask != 0xff
    requires dev(t, ControlIn(reg, block, 8)).Done?
    ensures var d := dev(t, ControlIn(reg, block, 8)).data;
      var e := WriteRegMaskEffect(dev, t, block, reg, value, mask);
      e.result.Success? ==>
        Requests(e.trace) == Requests(t) + [ControlIn(reg, block, 8),
          ControlOut(reg, WriteIndex(block), [MaskMerge(ByteAt(d, 0), value, Low8(mask))])]
  {
    var d := dev(t, ControlIn(reg, block, 8)).data;
    var t1 := t + [Transfer(ControlIn(reg, block, 8), d)];
    assert ReadCtrlMsgEffect(dev, t, reg, block, 1) == Exec(Success(Prefix(d, 1)), t1);
    var prev := BufferToNumber(Prefix(d, 1));
    assert ReadRegEffect(dev, t, block, reg, 1) == Exec(prev, t1);
    assert prev.Success?;
    var m := MaskMerge(ByteAt(d, 0), value, Low8(mask));
    MergedByteOfReply(d, value, mask);
    NumberToBufferByte(m);
    var e := WriteRegMaskEffect(dev, t, block, reg, value, mask);
    assert e == WriteCtrlMsgEffect(dev, t1, reg, WriteIndex(block), [m]);
    if e.result.Success? {
      RequestsAppend(t, [t1[|t|]]);
      RequestsAppend(t1, [e.trace[|t1|]]);
    }
  }

  /**
   * A demodulator write sends the big-endian value to register
   * `(addr << 8) | 0x20` of block `page | 0x10`, then reads page 0x0a,
   * address 0x01 and returns what that read decodes to.
   */
  lemma WriteDemodRegRequests(dev: Device, t: seq<Transfer>, page: int, addr: int, value: int, len: int)
    ensures var e := WriteDemodRegEffect(dev, t, page, addr, value, len);
      e.result.Success? ==>
        (len == 1 || len == 2 || len == 4) &&
        Requests(e.trace) == Requests(t) + [ControlOut(DemodRegister(addr), WriteIndex(page), NumberToBuffer(value, len, true).value),
                                            ControlIn(DemodRegister(1), 0x0a, 8)] &&
        e.result.value == BufferToNumber(Prefix(e.trace[|e.trace| - 1].data, 1)).value
  {
    var e := WriteDemodRegEffect(dev, t, page, addr, value, len);
    var b := NumberToBuffer(value, len, true);
    if e.result.Success? {
      var w := WriteCtrlMsgEffect(dev, t, DemodRegister(addr), WriteIndex(page), b.value);
      assert w.trace == t + [w.trace[|t|]];
      RequestsAppend(t, [w.trace[|t|]]);
      DemodReadBackRequests(dev, w.trace);
    }
  }

  /** The read that follows every demodulator write: one byte of page 0x0a, address 0x01. */
  lemma DemodReadBackRequests(dev: Device, t: seq<Transfer>)
    ensures var e := ReadDemodRegEffect(dev, t, 0x0a, 0x01);
      e.result.Success? ==>
        Requests(e.trace) == Requests(t) + [ControlIn(DemodRegister(1), 0x0a, 8)] &&
        e.result.value == BufferToNumber(Prefix(e.trace[|e.trace| - 1].data, 1)).value
  {
    var e := ReadDemodRegEffect(dev, t, 0x0a, 0x01);
    if e.result.Success? {
      assert e.trace == t + [e.trace[|t|]];
      RequestsAppend(t, [e.trace[|t|]]);
    }
  }

  /** An I2C register read first sends the one-byte payload `[reg]` to the device address, then reads one byte from it. */
  lemma ReadI2CRegRequests(dev: Device, t: seq<Transfer>, addr: int, reg: int)
    ensures var e := ReadI2CRegEffect(dev, t, addr, reg);
      e.result.Success? ==>
        Requests(e.trace) == Requests(t) + [ControlOut(addr, BLOCK_I2C + WRITE_FLAG, [Low8(reg)]), ControlIn(addr, BLOCK_I2C, 8)]
  {
    var e := ReadI2CRegEffect(dev, t, addr, reg);
    if e.result.Success? {
      var t1 := t + [e.trace[|t|]];
      assert e.trace == t1 + [e.trace[|t1|]];
      RequestsAppend(t, [e.trace[|t|]]);
      RequestsAppend(t1, [e.trace[|t1|]]);
    }
  }

  /** An I2C buffer read sends `[reg]`, then asks for `len` bytes (at least 8) from the device address. */
  lemma ReadI2CRegBufferRequests(dev: Device, t: seq<Transfer>, addr: int, reg: int, len: nat)
    ensures var e := ReadI2CRegBufferEffect(dev, t, addr, reg, len);
      e.result.Success? ==>
        Requests(e.trace) == Requests(t) + [ControlOut(addr, BLOCK_I2C + WRITE_FLAG, [Low8(reg)]),
                                            ControlIn(addr, BLOCK_I2C, if len < 8 then 8 else len)] &&
        e.result.value == Prefix(e.trace[|e.trace| - 1].data, len)
  {
    var e := ReadI2CRegBufferEffect(dev, t, addr, reg, len);
    if e.result.Success? {
      var t1 := t + [e.trace[|t|]];
      assert e.trace == t1 + [e.trace[|t1|]];
      RequestsAppend(t, [e.trace[|t|]]);
      RequestsAppend(t1, [e.trace[|t1|]]);
    }
  }

  /** An I2C register write is one transfer of `[reg, value]`; a buffer write sends `reg` followed by the buffer. */
  lemma WriteI2CRequests(dev: Device, t: seq<Transfer>, addr: int, reg: int, value: int, buf: seq<Byte>)
    ensures var e := WriteI2CRegEffect(dev, t, addr, reg, value);
      e.result.Success? ==> Requests(e.trace) == Requests(t) + [ControlOut(addr, BLOCK_I2C + WRITE_FLAG, [Low8(reg), Low8(value)])]
    ensures var e := WriteI2CRegBufferEffect(dev, t, addr, reg, buf);
      e.result.Success? ==>
        (Requests(e.trace) == Requests(t) + [ControlOut(addr, BLOCK_I2C + WRITE_FLAG, [Low8(reg)] + buf)] &&
         |[Low8(reg)] + buf| == |buf| + 1)
  {
    var e3 := WriteI2CRegEffect(dev, t, addr, reg, value);
    if e3.result.Success? {
      RequestsAppend(t, [e3.trace[|t|]]);
    }
    var e4 := WriteI2CRegBufferEffect(dev, t, addr, reg, buf);
    if e4.result.Success? {
      RequestsAppend(t, [e4.trace[|t|]]);
    }
  }

  /** A transfer that completes is appended to the trace; one that fails leaves the trace as it was. */
  lemma PerformRequests(dev: Device, t: seq<Transfer>, req: Request)
    ensures var e := Perform(dev, t, req);
      (e.result.Success? ==> Requests(e.trace) == Requests(t) + [req]) &&
      (e.result.Failure? ==> e.trace == t)
  {
    var e := Perform(dev, t, req);
    if e.result.Success? {
      RequestsAppend(t, [e.trace[|t|]]);
    }
  }

  /** A USB or system register write is one transfer of the little-endian value to `reg` of block `block | 0x10`. */
  lemma WriteRegRequests(dev: Device, t: seq<Transfer>, block: int, reg: int, value: int, len: int)
    ensures var e := WriteRegEffect(dev, t, block, reg, value, len);
      e.result.Success? ==>
        (len == 1 || len == 2 || len == 4) &&
        Requests(e.trace) == Requests(t) + [ControlOut(reg, WriteIndex(block), NumberToBuffer(value, len, false).value)]
  {
    var e := WriteRegEffect(dev, t, block, reg, value, len);
    if e.result.Success? {
      RequestsAppend(t, [e.trace[|t|]]);
    }
  }

  /** Every command only appends to the trace. */
  lemma CommandExtends(dev: Device, t: seq<Transfer>, cmd: Command)
    ensures t <= CommandEffect(dev, t, cmd).trace
  {
    if cmd.op == CMD_REGMASK && cmd.d != 0xff {
      var e := ReadRegEffect(dev, t, cmd.a, cmd.b, 1);
      assert t <= e.trace;
    }
  }

  /** A batch only appends to the trace. */
  lemma {:induction false} BatchExtends(dev: Device, t: seq<Transfer>, cmds: seq<Command>)
    ensures t <= BatchEffect(dev, t, cmds).trace
    decreases |cmds|
  {
    if cmds != [] {
      var e := BatchEffect(dev, t, cmds[..|cmds| - 1]);
      BatchExtends(dev, t, cmds[..|cmds| - 1]);
      CommandExtends(dev, e.trace, cmds[|cmds| - 1]);
    }
  }

  /** Once a prefix of a batch fails, the rest of the batch changes nothing. */
  lemma {:induction false} BatchFailureStops(dev: Device, t: seq<Transfer>, cmds: seq<Command>, k: nat)
    requires k <= |cmds|
    requires BatchEffect(dev, t, cmds[..k]).result.Failure?
    ensures BatchEffect(dev, t, cmds) == BatchEffect(dev, t, cmds[..k])
    decreases |cmds| - k
  {
    if k < |cmds| {
      assert cmds[..k + 1][..k] == cmds[..k];
      BatchFailureStops(dev, t, cmds, k + 1);
    } else {
      assert cmds[..k] == cmds;
    }
  }

  /** Running `a + b` is running `a`, then, if `a` succeeded, running `b` on the trace it left. */
  lemma {:induction false} BatchAppend(dev: Device, t: seq<Transfer>, a: seq<Command>, b: seq<Command>)
    ensures BatchEffect(dev, t, a + b) ==
      var e := BatchEffect(dev, t, a);
      if e.result.Failure? then e else BatchEffect(dev, e.trace, b)
    decreases |b|
  {
    if b == [] {
      assert a + b == a;
    } else {
      var b' := b[..|b| - 1];
      assert (a + b)[..|a + b| - 1] == a + b';
      assert (a + b)[|a + b| - 1] == b[|b| - 1];
      BatchAppend(dev, t, a, b');
    }
  }

  /**
   * A command with an unknown tag throws after every command before it has
   * been applied, and nothing after it is sent.
   */
  lemma BatchUnknownTag(dev: Device, t: seq<Transfer>, cmds: seq<Command>, k: nat)
    requires k < |cmds|
    requires cmds[k].op !in {CMD_REG, CMD_REGMASK, CMD_DEMODREG, CMD_I2CREG}
    requires BatchEffect(dev, t, cmds[..k]).result.Success?
    ensures BatchEffect(dev, t, cmds) == Exec(Failure(UnsupportedOperation), BatchEffect(dev, t, cmds[..k]).trace)
  {
    assert cmds[..k + 1][..k] == cmds[..k];
    BatchFailureStops(dev, t, cmds, k + 1);
  }

  // ---------------------------------------------------------------------------

  /** Communication with the dongle: the transport and the trace of completed transfers. */
  class RtlCom {
    const dev: Device
    var trace: seq<Transfer>

    constructor (dev: Device)
      ensures this.dev == dev && trace == []
    {
      this.dev := dev;
      trace := [];
    }

    method WriteCtrlMsg(value: int, index: int, data: seq<Byte>) returns (r: Result<()>)
      modifies this
      ensures Exec(r, trace) == WriteCtrlMsgEffect(dev, old(trace), value, index, data)
    {
      var reply := dev(trace, ControlOut(value, index, data));
      if reply.Failed? {
        return Failure(TransferFailed);
      }
      trace := trace + [Transfer(ControlOut(value, index, data), reply.data)];
      r := Success(());
    }

    method ReadCtrlMsg(value: int, index: int, length: nat) returns (r: Result<seq<Byte>>)
      modifies this
      ensures Exec(r, trace) == ReadCtrlMsgEffect(dev, old(trace), value, index, length)
    {
      var req := ControlIn(value, index, if length < 8 then 8 else length);
      var reply := dev(trace, req);
      if reply.Failed? {
        return Failure(TransferFailed);
      }
      trace := trace + [Transfer(req, reply.data)];
      r := Success(Prefix(reply.data, length));
    }

    method WriteRegBuffer(block: int, reg: int, buffer: seq<Byte>) returns (r: Result<()>)
      modifies this
      ensures Exec(r, trace) == WriteCtrlMsgEffect(dev, old(trace), reg, WriteIndex(block), buffer)
    {
      r := WriteCtrlMsg(reg, WriteIndex(block), buffer);
    }

    method ReadRegBuffer(block: int, reg: int, length: nat) returns (r: Result<seq<Byte>>)
      modifies this
      ensures Exec(r, trace) == ReadCtrlMsgEffect(dev, old(trace), reg, block, length)
    {
      r := ReadCtrlMsg(reg, block, length);
    }

    method WriteReg(block: int, reg: int, value: int, length: int) returns (r: Result<()>)
      modifies this
      ensures Exec(r, trace) == WriteRegEffect(dev, old(trace), block, reg, value, length)
    {
      var buf :- NumberToBuffer(value, length, false);
      r := WriteCtrlMsg(reg, WriteIndex(block), buf);
    }

    method ReadReg(block: int, reg: int, length: nat) returns (r: Result<Option<int>>)
      modifies this
      ensures Exec(r, trace) == ReadRegEffect(dev, old(trace), block, reg, length)
    {
      var buf :- ReadCtrlMsg(reg, block, length);
      r := BufferToNumber(buf);
    }

    method WriteRegMask(block: int, reg: int, value: int, mask: int) returns (r: Result<()>)
      modifies this
      ensures Exec(r, trace) == WriteRegMaskEffect(dev, old(trace), block, reg, value, mask)
    {
      if mask == 0xff {
        r := WriteReg(block, reg, value, 1);
      } else {
        var prev :- ReadReg(block, reg, 1);
        r := WriteReg(block, reg, MergedByte(prev, value, mask), 1);
      }
    }

    method ReadDemodReg(page: int, addr: int) returns (r: Result<Option<int>>)
      modifies this
      ensures Exec(r, trace) == ReadDemodRegEffect(dev, old(trace), page, addr)
    {
      r := ReadReg(page, DemodRegister(addr), 1);
    }

    method WriteDemodReg(page: int, addr: int, value: int, len: int) returns (r: Result<Option<int>>)
      modifies this
      ensures Exec(r, trace) == WriteDemodRegEffect(dev, old(trace), page, addr, value, len)
    {
      var buf :- NumberToBuffer(value, len, true);
      var _ :- WriteRegBuffer(page, DemodRegister(addr), buf);
      r := ReadDemodReg(0x0a, 0x01);
    }

    /** Opens the I2C repeater to the tuner. */
    method OpenI2C() returns (r: Result<Option<int>>)
      modifies this
      ensures Exec(r, trace) == OpenI2CEffect(dev, old(trace))
    {
      r := WriteDemodReg(1, 1, 0x18, 1);
    }

    /** Closes the I2C repeater. */
    method CloseI2C() returns (r: Result<Option<int>>)
      modifies this
      ensures Exec(r, trace) == CloseI2CEffect(dev, old(trace))
    {
      r := WriteDemodReg(1, 1, 0x10, 1);
    }

    method ReadI2CReg(addr: int, reg: int) returns (r: Result<Option<int>>)
      modifies this
      ensures Exec(r, trace) == ReadI2CRegEffect(dev, old(trace), addr, reg)
    {
      var _ :- WriteRegBuffer(BLOCK_I2C, addr, [Low8(reg)]);
      r := ReadReg(BLOCK_I2C, addr, 1);
    }

    method WriteI2CReg(addr: int, reg: int, value: int) returns (r: Result<()>)
      modifies this
      ensures Exec(r, trace) == WriteI2CRegEffect(dev, old(trace), addr, reg, value)
    {
      r := WriteRegBuffer(BLOCK_I2C, addr, [Low8(reg), Low8(value)]);
    }

    method ReadI2CRegBuffer(addr: int, reg: int, len: nat) returns (r: Result<seq<Byte>>)
      modifies this
      ensures Exec(r, trace) == ReadI2CRegBufferEffect(dev, old(trace), addr, reg, len)
    {
      var _ :- WriteRegBuffer(BLOCK_I2C, addr, [Low8(reg)]);
      r := ReadRegBuffer(BLOCK_I2C, addr, len);
    }

    method WriteI2CRegBuffer(addr: int, reg: int, buffer: seq<Byte>) returns (r: Result<()>)
      modifies this
      ensures Exec(r, trace) == WriteI2CRegBufferEffect(dev, old(trace), addr, reg, buffer)
    {
      var data := [Low8(reg)] + buffer;
      r := WriteRegBuffer(BLOCK_I2C, addr, data);
    }

    /** A bulk-in transfer of `length` bytes on endpoint 1; returns what the device sent. */
    method ReadBulk(length: nat) returns (r: Result<seq<Byte>>)
      modifies this
      ensures Exec(r, trace) == Perform(dev, old(trace), BulkIn(1, length))
    {
      var reply := dev(trace, BulkIn(1, length));
      if reply.Failed? {
        return Failure(TransferFailed);
      }
      trace := trace + [Transfer(BulkIn(1, length), reply.data)];
      r := Success(reply.data);
    }

    method ClaimInterface() returns (r: Result<()>)
      modifies this
      ensures Exec(r, trace) == Discard(Perform(dev, old(trace), Claim(0)))
    {
      var reply := dev(trace, Claim(0));
      if reply.Failed? {
        return Failure(TransferFailed);
      }
      trace := trace + [Transfer(Claim(0), reply.data)];
      r := Success(());
    }

    method ReleaseInterface() returns (r: Result<()>)
      modifies this
      ensures Exec(r, trace) == Discard(Perform(dev, old(trace), Release(0)))
    {
      var reply := dev(trace, Release(0));
      if reply.Failed? {
        return Failure(TransferFailed);
      }
      trace := trace + [Transfer(Release(0), reply.data)];
      r := Success(());
    }

    /** One command of a write batch, dispatched on its tag. */
    method WriteCommand(cmd: Command) returns (r: Result<()>)
      modifies this
      ensures Exec(r, trace) == CommandEffect(dev, old(trace), cmd)
    {
      if cmd.op == CMD_REG {
        r := WriteReg(cmd.a, cmd.b, cmd.c, cmd.d);
      } else if cmd.op == CMD_REGMASK {
        r := WriteRegMask(cmd.a, cmd.b, cmd.c, cmd.d);
      } else if cmd.op == CMD_DEMODREG {
        var v := WriteDemodReg(cmd.a, cmd.b, cmd.c, cmd.d);
        r := if v.Success? then Success(()) else Failure(v.error);
      } else if cmd.op == CMD_I2CREG {
        r := WriteI2CReg(cmd.a, cmd.b, cmd.c);
      } else {
        r := Failure(UnsupportedOperation);
      }
    }

    /** writeEach: each command of the batch in order, throwing at the first failure. */
    method WriteEach(cmds: seq<Command>) returns (r: Result<()>)
      modifies this
      ensures Exec(r, trace) == BatchEffect(dev, old(trace), cmds)
    {
      var i := 0;
      while i < |cmds|
        invariant 0 <= i <= |cmds|
        invariant BatchEffect(dev, old(trace), cmds[..i]) == Exec(Success(()), trace)
      {
        var step := WriteCommand(cmds[i]);
        assert cmds[..i + 1][..i] == cmds[..i];
        if step.Failure? {
          BatchFailureStops(dev, old(trace), cmds, i + 1);
          return step;
        }
        i := i + 1;
      }
      assert cmds[..i] == cmds;
      r := Success(());
    }
  }
}
