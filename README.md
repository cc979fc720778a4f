# RTL2832U / R820T driver model

A Dafny model of the device-control core of a TypeScript driver for
RTL2832U-based USB software-defined-radio dongles with an R820T tuner, and of
the UTF-8 decoder, line buffers and `fd_write` of its WebAssembly helper.

The model has one module per source file, plus two small shared modules:

- `Bytes` (bytes.dfy) holds the byte type and JavaScript's number-to-byte
  conversions. It also gives the 32-bit two's-complement semantics of `>>` and
  `&` (`ToInt32`, `ShiftRight`). The masked merge `(old & ~mask) | (value & mask)`
  is defined bit by bit, with its lemmas.
- `Results` (results.dfy) holds the error taxonomy (`TransferFailed`,
  `UnsupportedWidth`, `UnsupportedOperation`, `PllNotLocked`,
  `UnsupportedTuner`, `NoLineBuffer`, `NoShadowRegisters`) and the `Result`
  and `Option` types.
- `Bus` (rtlcom.dfy) models `RtlCom`, the register bus:
  - The USB transport is a parameter, `Device`, a function from the history of
    completed transfers and a new request to a reply: `Failed`, or the bytes
    returned. Status registers may therefore read differently from one read to
    the next, and any transfer may fail.
  - The class `RtlCom` holds the device and the append-only trace of completed
    transfers.
  - Each bus operation has a function `...Effect` that gives its result and the
    trace it leaves behind. Each method follows the source step by step and is
    proved equal to that function. Lemmas then state which requests each
    operation sends, and in what order.
- `Tuner` (r820t.dfy) models `R820T`:
  - The class keeps the 27-byte shadow of registers 0x05..0x1f as an `array`
    that `writeRegMask` updates in place, and the `hasPllLock` flag.
  - `shadowRegs` is undefined until `initRegisters` creates it. The class
    records this in the `hasShadow` flag. A register write before then throws
    (`NoShadowRegisters` here) and sends nothing.
  - Its state (trace, shadow, whether the shadow exists, lock) is mirrored by
    the `TState` datatype, and each method is proved equal to an effect
    function on `TState`.
  - The central invariant is `Synced`: every shadow byte equals the last byte
    the trace wrote to that tuner register over I2C. It is proved to survive
    every operation.
- `Demodulator` (rtl2832u.dfy) models `RTL2832U`: the bring-up and tuner probe,
  the sample-rate and IF arithmetic, the I2C repeater bracket around tuner
  traffic, and the close order.
- `Wasm` (wasmhelper.dfy) models `WasmHelper`:
  - the manual path of `UTF8ArrayToString`, against a code-point specification
    and an RFC 3629 encoder;
  - `printChar`'s per-stream line buffers;
  - `fdWrite` over a heap `array`;
  - the `alignUp` helper.

The frequency step of `setPll` is `2 * pllRef / 65536 / mixDiv`, because
`sdm` counts 1/65536 steps of `2 * pllRef` (src/r820t.ts:280-288).

## Model

| member | source | states |
|---|---|---|
| Bytes.ToInt32 | src/rtl2832u.ts:114-120 | The 32-bit value JavaScript's bitwise operators see lies in [-2^31, 2^31) and differs from the number by a multiple of 2^32. |
| Bytes.ByteAt | src/r820t.ts:258-260 | Reading a typed array gives the element inside the array and 0 (undefined under `&`) past its end. |
| Bytes.MaskMergeBits | src/r820t.ts:345-350 | Bit k of a masked write comes from the value where the mask has a 1 and from the old byte elsewhere. |
| Bytes.MaskMergeFull | src/rtlcom.ts:99-100 | A 0xff mask stores the low byte of the value, whatever the old byte was. |
| Bytes.MaskMergeEmpty | src/r820t.ts:345-350 | A zero mask keeps the old byte. |
| Bytes.MaskMergeLastWins | src/r820t.ts:345-350 | Two writes through the same mask leave what the second alone would. |
| Bus.WriteIndex | src/rtlcom.ts:32-38 | A write's control index always has bit 4 set, and for a block below 2^31 with bit 4 clear it is `block + 0x10`. |
| Bus.LittleEndianRoundTrip | src/rtlcom.ts:412-425 | Decoding the n little-endian bytes of any value gives the value modulo 256^n. |
| Bus.NumberToBuffer | src/rtlcom.ts:412-425 | Succeeds exactly for widths 1, 2 and 4, with UnsupportedWidth otherwise. On success the buffer has exactly `len` bytes, and byte i is base-256 digit i of the value (little-endian) or digit len-1-i (big-endian flag). |
| Bus.NumberToBufferByte | src/rtlcom.ts:415-416 | A byte encodes as the one-byte buffer holding it, whatever the endianness flag. |
| Bus.BufferToNumber | src/rtlcom.ts:388-404 | Gives null exactly for an empty buffer and fails with UnsupportedWidth exactly for lengths other than 0, 1, 2 and 4. Otherwise it gives a number below 256^length. |
| Bus.NumberRoundTrip | src/rtlcom.ts:388-425 | For widths 1, 2, 4 and 0 <= v < 256^len, decoding the little-endian buffer gives v, and so does decoding the reversed big-endian buffer. |
| Bus.Prefix | src/rtlcom.ts:226-227 | The reply cut to `length` bytes is a prefix of the reply, at most `length` long, and exactly `length` long when the reply is; a reply no longer than `length` is returned whole. |
| Bus.PerformRequests | src/rtlcom.ts:251-277 | A completed transfer appends exactly its request to the trace; a failed one leaves the trace unchanged. |
| Bus.WriteRegRequests | src/rtlcom.ts:62-73 | A successful register write had width 1, 2 or 4 and sent exactly one request: the little-endian value to `reg` at index `block` with the write flag. |
| Bus.WriteRegMaskFullMask | src/rtlcom.ts:99-100 | With mask 0xff the masked write is the plain one-byte write of the value: one request, no read. |
| Bus.MergedByteOfReply | src/rtlcom.ts:102-106 | The merged byte is the merge into the first byte of the register read, or into 0 when the reply is empty (null). |
| Bus.WriteRegMaskReadModifyWrite | src/rtlcom.ts:101-107 | Any other mask sends exactly two requests: an 8-byte read of the register on the unflagged block, then a write of `(old & ~mask) \| (value & mask)`, where `old` is the reply's first byte. |
| Bus.WriteDemodRegRequests | src/rtlcom.ts:127-139 | A successful demodulator write sends two requests: the big-endian value to `(addr << 8) \| 0x20` at index `page \| 0x10`, then the read of page 0x0a, address 0x01. It returns what that read decodes to. |
| Bus.ReadI2CRegRequests | src/rtlcom.ts:160-167 | An I2C read sends the one-byte payload `[reg]` to the device address on block 0x610, then reads from the address on block 0x600. |
| Bus.ReadI2CRegBufferRequests | src/rtlcom.ts:189-196 | An I2C buffer read sends `[reg]`, then asks for max(8, len) bytes and returns the first `len` of the reply. |
| Bus.WriteI2CRequests | src/rtlcom.ts:175-209 | An I2C register write is the single payload `[reg, value]`; a buffer write is one payload of `reg` followed by the buffer, `len + 1` bytes. |
| Bus.CommandExtends | src/rtlcom.ts:321-336 | Every batch command only appends to the trace. |
| Bus.BatchExtends | src/rtlcom.ts:321-336 | A batch only appends to the trace. |
| Bus.BatchFailureStops | src/rtlcom.ts:321-336 | Once a prefix of the batch has failed, the remaining commands change nothing. |
| Bus.BatchAppend | src/rtlcom.ts:321-336 | Running `a + b` runs `a`, then `b` on the trace `a` left, if `a` succeeded. |
| Bus.BatchUnknownTag | src/rtlcom.ts:332-334 | A command with an unknown tag throws UnsupportedOperation. The commands before it stay applied, and nothing after it is sent. |
| Bus.RtlCom.constructor | src/rtlcom.ts:22-24 | A bus over the given device starts with an empty trace. |
| Bus.RtlCom.WriteCtrlMsg | src/rtlcom.ts:251-277 | Sends the vendor control-out transfer (value, index, payload). On completion it is appended to the trace; otherwise TransferFailed is thrown. |
| Bus.RtlCom.ReadCtrlMsg | src/rtlcom.ts:217-243 | Asks for max(8, length) bytes and returns the first `length` of the reply; a failure throws TransferFailed. |
| Bus.RtlCom.WriteRegBuffer | src/rtlcom.ts:32-38 | Writes the buffer to `reg` at index `block \| 0x10`. |
| Bus.RtlCom.ReadRegBuffer | src/rtlcom.ts:47-53 | Reads `reg` at the unflagged index `block`. |
| Bus.RtlCom.WriteReg | src/rtlcom.ts:62-73 | Writes the little-endian encoding. An unsupported width throws before any transfer. |
| Bus.RtlCom.ReadReg | src/rtlcom.ts:82-84 | Reads, then decodes the reply as a little-endian number (null when empty). |
| Bus.RtlCom.WriteRegMask | src/rtlcom.ts:93-108 | Equals WriteRegMaskEffect: mask 0xff writes directly, any other mask reads, merges and writes. |
| Bus.RtlCom.ReadDemodReg | src/rtlcom.ts:116-118 | A one-byte read of `(addr << 8) \| 0x20` on the page. |
| Bus.RtlCom.WriteDemodReg | src/rtlcom.ts:127-139 | The big-endian write, then the fixed follow-up read, whose value it returns. |
| Bus.RtlCom.OpenI2C | src/rtlcom.ts:144-146 | Writes 0x18 to demodulator page 1, address 1 (the repeater on). |
| Bus.RtlCom.CloseI2C | src/rtlcom.ts:151-153 | Writes 0x10 to demodulator page 1, address 1 (the repeater off). |
| Bus.RtlCom.ReadI2CReg | src/rtlcom.ts:160-167 | The two-phase I2C read of one register. |
| Bus.RtlCom.WriteI2CReg | src/rtlcom.ts:175-181 | The one-transfer I2C write of `[reg, value]`. |
| Bus.RtlCom.ReadI2CRegBuffer | src/rtlcom.ts:189-196 | The two-phase I2C read of `len` registers. |
| Bus.RtlCom.WriteI2CRegBuffer | src/rtlcom.ts:204-209 | The one-transfer I2C write of `reg` followed by the buffer. |
| Bus.RtlCom.ReadBulk | src/rtlcom.ts:284-301 | One bulk-in transfer of `length` bytes on endpoint 1, returning what the device sent. |
| Bus.RtlCom.ClaimInterface | src/rtlcom.ts:306-308 | Claims interface 0: one request appended on success. |
| Bus.RtlCom.ReleaseInterface | src/rtlcom.ts:313-315 | Releases interface 0: one request appended on success. |
| Bus.RtlCom.WriteCommand | src/rtlcom.ts:324-334 | One batch line dispatched on its tag (REG, REGMASK, DEMODREG, I2CREG), or UnsupportedOperation. |
| Bus.RtlCom.WriteEach | src/rtlcom.ts:321-336 | The loop equals BatchEffect: commands in array order, throwing at the first failure. |
| Tuner.BitRevReverses | src/r820t.ts:37-40 | Swapping the nibbles through BIT_REVS puts bit 7-k of the byte at bit k: a full 8-bit reversal. |
| Tuner.BitRevInvolution | src/r820t.ts:37-40 | Reversing a byte twice gives it back. |
| Tuner.BitRevAll | src/r820t.ts:332-335 | Every byte of the reply is replaced by its reversal, and the length is kept. |
| Tuner.BandEdgesAscend | src/r820t.ts:16-32 | The lower edges of the 15 multiplexer bands ascend strictly. |
| Tuner.MuxIndexBand | src/r820t.ts:223-231 | The selected band is the last whose lower edge is at or below the frequency, with band 0 below 50 MHz: the frequency lies between that edge and the next. |
| Tuner.MuxIndexUnique | src/r820t.ts:223-231 | No other band index satisfies that condition. |
| Tuner.MuxIndexMonotonic | src/r820t.ts:223-231 | A higher frequency never selects a lower band. |
| Tuner.DivNum | src/r820t.ts:253-256 | The divider number `min(6, floor(log2(1.77e9 / freq)))` lies in 0..6. |
| Tuner.MixDiv | src/r820t.ts:257 | The mixer divider `1 << (divNum + 1)` lies in 2..128. |
| Tuner.VcoAtMost | src/r820t.ts:253-267 | The VCO frequency `freq * mixDiv` never exceeds 3.54 GHz. |
| Tuner.VcoAbove | src/r820t.ts:253-267 | Above 1.77e9 / 128 Hz, the VCO frequency exceeds 1.77 GHz. |
| Tuner.FineTune | src/r820t.ts:258-260 | The fine-tune field `(status[4] & 0x30) >> 4` lies in 0..3 (0 for a short reply). |
| Tuner.AdjustDivNum | src/r820t.ts:261-265 | Fine-tune above 2 lowers the divider number by one, below 2 raises it by one, and 2 keeps it. |
| Tuner.VcoFra | src/r820t.ts:269 | The remainder left for the modulator lies in [0, 2 * pllRef). |
| Tuner.TruncRem | src/r820t.ts:269 | JavaScript's `%` truncates toward zero: the result is between -d and d, and it is the Euclidean remainder for a non-negative dividend. |
| Tuner.NRegRoundTrip | src/r820t.ts:274-277 | For 13 <= nint <= 63, `ni + (si << 6)` is a byte, and nint is recovered from it as `13 + 4 * (b % 64) + b / 64`. |
| Tuner.SdmRange | src/r820t.ts:280-284 | The 65535 cap never applies, sdm fits the two register bytes, and sdm is the floor of `65536 * vcoFra / (2 * pllRef)`. |
| Tuner.ActualFreqBracket | src/r820t.ts:287 | Dropping a fraction below one modulator step gives a frequency at most the one asked for, and short of it by less than one step. |
| Tuner.PllResolution | src/r820t.ts:267-288 | When nint <= 63, the returned frequency is at most `freq`, and short of it by less than `2 * pllRef / 65536 / mixDiv`. |
| Tuner.NintInRange | src/r820t.ts:267-273 | With a crystal between 28.1 and 68 MHz, every frequency above 1.77e9 / 128 Hz gets nint in 13..63, so the unlocked path is never taken. |
| Tuner.ClampStep | src/r820t.ts:170-174 | The gain step is clamped to 0..30, and a step already in range is kept. |
| Tuner.GainSplit | src/r820t.ts:175-176 | A clamped step splits into an LNA index in 0..15 and a mixer index in -1..14 that add up to `step - 1`, the LNA taking the larger half. Step 0 gives mixer -1, which the 4-bit field stores as 15. |
| Tuner.FilterCap | src/r820t.ts:207-212 | The capacitor setting is `status[4] & 0x0f` with 0x0f read as 0, so it lies in 0..14. |
| Tuner.InitCommands | src/r820t.ts:316-319 | One I2CREG command per byte of the image. |
| Tuner.SyncAfterWrite | src/r820t.ts:345-350 | Sending byte v to a shadowed register and storing v in its shadow slot keeps the shadow in step with the chip. |
| Tuner.RegMaskStores | src/r820t.ts:345-350 | A masked write to a shadowed register stores `(old & ~mask) \| (value & mask)` in its slot and changes no other slot. Before initRegisters has created the shadow it throws NoShadowRegisters, sends nothing and changes nothing. |
| Tuner.RegMaskFrame | src/r820t.ts:345-350 | A masked write keeps the lock flag and the other shadow bytes, only appends to the trace, and reads no status. |
| Tuner.RegMaskKeepsSync | src/r820t.ts:345-350 | A masked write to a shadowed register keeps the shadow in step with the chip. |
| Tuner.TablesShadowed | src/r820t.ts:88-308 | Every fixed write table (close, initElectronics, gain, calibration, setMux, setPll) addresses only registers 0x05..0x1f, so every shadow index is in bounds. |
| Tuner.LinesFrame | src/r820t.ts:356-361 | A write table keeps the lock flag and the shadow's size, only appends to the trace, and changes only the shadow bytes of the registers it names. |
| Tuner.LinesKeepSync | src/r820t.ts:356-361 | A table of shadowed registers keeps the shadow in step. |
| Tuner.LinesFailureStops | src/r820t.ts:356-361 | After a failed line, the rest of the table changes nothing. |
| Tuner.LinesAppend | src/r820t.ts:356-361 | Running `a + b` runs `a`, then `b` if `a` succeeded. |
| Tuner.ReadBufferKeepsSync | src/r820t.ts:329-337 | A register read writes only the start register, which stores nothing, so the shadow stays in step. |
| Tuner.PllLockResult | src/r820t.ts:295-308 | The flag getPllLock sets and returns is bit 0x40 of byte 2 of its last status read. |
| Tuner.PllLockReads | src/r820t.ts:295-308 | getPllLock reads the status once or twice on its first try, and once on its second. |
| Tuner.PllLockNudge | src/r820t.ts:296-304 | When the first status read shows no lock and the retry succeeds, the requests are: a status read, one write of register 0x12 with bits 5..7 merged to 011, and a second status read. |
| Tuner.PllLockShadow | src/r820t.ts:303 | The only shadow change is in bits 5..7 of register 0x12 (the nudge). |
| Tuner.PllLockKeepsSync | src/r820t.ts:295-308 | getPllLock keeps the shadow in step. |
| Tuner.PllOutcome | src/r820t.ts:266-288 | A successful setPll returns `2 * pllRef * (nint + sdm / 65536) / mixDiv`. When nint > 63 it returns 0 with the lock flag cleared, and after the divider write to 0x10 it sends nothing and changes no shadow byte. |
| Tuner.PllRegisters | src/r820t.ts:274-288 | After a successful setPll with nint <= 63: register 0x14 holds `ni + (si << 6)`, 0x16 and 0x15 hold sdm high byte first, and bit 3 of 0x12 is set iff vcoFra is 0. |
| Tuner.PllErrors | src/r820t.ts:246-289 | setPll fails only by a failed transfer, or with NoShadowRegisters when no shadow exists yet. It never changes whether the shadow exists. |
| Tuner.PllKeepsSync | src/r820t.ts:246-289 | setPll keeps the shadow in step. |
| Tuner.CalibrateOutcome | src/r820t.ts:190-217 | A successful calibrateFilter returns a setting in 0..14 with the PLL locked. Otherwise a transfer failed, there was no shadow yet (NoShadowRegisters), or it threw PllNotLocked with the lock flag cleared. |
| Tuner.CalibrateKeepsSync | src/r820t.ts:190-217 | calibrateFilter, retry included, keeps the shadow in step. |
| Tuner.ElectronicsKeepsSync | src/r820t.ts:107-142 | initElectronics keeps the shadow in step. |
| Tuner.InitPrefixImage | src/r820t.ts:314-321 | After the first k commands of initRegisters, registers 5..k+4 last received the low bytes of the image. |
| Tuner.InitRegistersSync | src/r820t.ts:314-321 | After initRegisters with a 27-byte image the shadow is in step with the chip, whatever came before. |
| Tuner.InitKeepsSync | src/r820t.ts:70-73 | After a successful init the shadow mirrors the chip. |
| Tuner.SetFrequencyExtends | src/r820t.ts:80-83 | setFrequency only appends to the trace. |
| Tuner.SetFrequencyKeepsSync | src/r820t.ts:80-83 | setFrequency keeps the shadow in step. |
| Tuner.GainModeBits | src/r820t.ts:148-152 | The gain-mode table sets bit 4 of registers 0x05 and 0x07 from the values it writes. |
| Tuner.AutoGainModes | src/r820t.ts:147-153 | setAutoGain clears bit 4 of register 0x05 and sets bit 4 of 0x07. |
| Tuner.GainIndexWrites | src/r820t.ts:181-182 | The last two manual-gain lines merge the LNA and mixer indices into the low nibbles of 0x05 and 0x07. |
| Tuner.ManualGainRegisters | src/r820t.ts:170-183 | setManualGain sets bit 4 of 0x05 and clears bit 4 of 0x07. It leaves the LNA index in the low nibble of 0x05 and the mixer index modulo 16 in that of 0x07. |
| Tuner.R820T.constructor | src/r820t.ts:62-65 | A tuner on the bus at the crystal frequency, with no shadow yet (`shadowRegs` undefined) and no lock. |
| Tuner.R820T.WriteRegMask | src/r820t.ts:345-350 | Equals RegMaskEffect: the merge is stored in the shadow array in place and sent to register `addr`. Before initRegisters it throws NoShadowRegisters and sends nothing. |
| Tuner.R820T.WriteEach | src/r820t.ts:356-361 | Equals LinesEffect; a table of shadowed registers keeps the shadow in step. |
| Tuner.R820T.BitRevInPlace | src/r820t.ts:332-335 | Afterwards the array holds the reversal of each of its old bytes. |
| Tuner.R820T.ReadRegBuffer | src/r820t.ts:329-337 | Equals ReadBufferEffect: the I2C buffer read with every byte bit-reversed. |
| Tuner.R820T.SetMux | src/r820t.ts:223-240 | Writes the table of band MuxIndex(freq) and keeps the shadow in step. |
| Tuner.R820T.GetPllLock | src/r820t.ts:295-308 | Equals PllLockEffect. The shadow array object is unchanged. |
| Tuner.R820T.SetPll | src/r820t.ts:246-289 | Equals PllEffect and keeps the shadow in step. |
| Tuner.R820T.TunePll | src/r820t.ts:267-288 | Equals PllTune, the part of setPll after the divider write. |
| Tuner.R820T.CalibrateFilter | src/r820t.ts:190-217 | Equals CalibrateEffect and keeps the shadow in step. |
| Tuner.R820T.InitElectronics | src/r820t.ts:107-142 | Equals ElectronicsEffect and keeps the shadow in step. |
| Tuner.R820T.InitRegisters | src/r820t.ts:314-321 | A fresh shadow holding the image, which now exists, then one I2C write per register. With a 27-byte image, success leaves the shadow in step. |
| Tuner.R820T.Init | src/r820t.ts:70-73 | Equals InitEffect; after success the shadow mirrors the chip. |
| Tuner.R820T.SetFrequency | src/r820t.ts:80-83 | Equals SetFrequencyEffect (setMux, then setPll) and keeps the shadow in step. |
| Tuner.R820T.SetAutoGain | src/r820t.ts:147-153 | Writes the automatic-gain table and keeps the shadow in step. |
| Tuner.R820T.SetManualGain | src/r820t.ts:159-184 | Writes the manual-gain table for the clamped step and keeps the shadow in step. |
| Tuner.R820T.Close | src/r820t.ts:88-102 | Writes the power-down table and keeps the shadow in step. |
| Tuner.R820T.Check | src/r820t.ts:368-371 | Reads I2C register 0 at address 0x34. It answers true iff the read gives 0x69, and throws iff the read fails. |
| Demodulator.SampleRatio | src/rtl2832u.ts:147-148 | `floor(XTAL * 2^22 / rate) & 0x0ffffffc` is a multiple of 4 below 2^28. |
| Demodulator.RatioRoundsDown | src/rtl2832u.ts:147-148 | When the quotient fits in 28 bits, the ratio is the quotient rounded down to a multiple of 4. |
| Demodulator.RatioAtMostQuotient | src/rtl2832u.ts:147-148 | For every positive rate the ratio is at most `floor(XTAL * 2^22 / rate)`, even when the quotient does not fit in 28 bits. |
| Demodulator.RealRateAtLeast | src/rtl2832u.ts:146-159 | For every positive rate with a non-zero ratio, the reported rate `floor(XTAL * 2^22 / ratio)` is at least the rate asked for. For a quotient in [4, 2^28) the ratio is non-zero. |
| Demodulator.RatioHalves | src/rtl2832u.ts:152-153 | The two 16-bit halves of the ratio put together give the ratio back. |
| Demodulator.RatioRegisters | src/rtl2832u.ts:152-153 | The two 2-byte big-endian writes to 0x9f and 0xa1 together carry the 4-byte big-endian ratio. |
| Demodulator.PpmField | src/rtl2832u.ts:150-155 | The bytes `(o >> 8) & 0x3f` and `o & 0xff` are the 14-bit two's-complement field of the ppm offset. |
| Demodulator.MultiplierField | src/rtl2832u.ts:114-120 | The three IF bytes are the 22-bit two's-complement field of the multiplier, high byte first. |
| Demodulator.NominalMultiplier | src/rtl2832u.ts:114-120 | At the nominal crystal the multiplier is -519918, written as 0x38, 0x11, 0x12. |
| Demodulator.UsbInitRequests | src/rtl2832u.ts:52-56 | The three USB set-up writes go out in order, each value little-endian. |
| Demodulator.BringUpOrder | src/rtl2832u.ts:51-104 | A successful bring-up starts with the USB set-up and then the claim of interface 0. It ends with the repeater switched on and the read of tuner register 0 at I2C address 0x34. |
| Demodulator.SoftResetRequests | src/rtl2832u.ts:164-169 | resetDemodulator writes 0x14, then 0x10, to page 1, address 1, each followed by the fixed read. |
| Demodulator.BufferResetRequests | src/rtl2832u.ts:186-191 | resetBuffer sets EPA_CTL to 0x0210, then to 0x0000. |
| Demodulator.RateCommandsOrder | src/rtl2832u.ts:151-156 | The write batch of setSampleRate starts with the two ratio halves to 0x9f and 0xa1. |
| Demodulator.SampleRateOrder | src/rtl2832u.ts:146-159 | setSampleRate returns the rate the ratio gives. Its requests start with the two ratio writes, which carry the 4-byte big-endian ratio, and end with the soft reset. |
| Demodulator.CenterFrequencyResult | src/rtl2832u.ts:176-181 | The reported frequency is the PLL's result less 3570000. When nint > 63 it is -3570000, with the lock flag cleared. |
| Demodulator.CenterFrequencyBrackets | src/rtl2832u.ts:176-181 | All tuner traffic of setCenterFrequency lies between the repeater-on and repeater-off writes. |
| Demodulator.CenterFrequencyKeepsSync | src/rtl2832u.ts:176-181 | The repeater writes are no tuner writes, so the shadow stays in step. |
| Demodulator.CloseOrder | src/rtl2832u.ts:207-212 | close starts with the repeater on and ends with the repeater off and the release of interface 0. |
| Demodulator.CloseKeepsSync | src/rtl2832u.ts:207-212 | close keeps the tuner's shadow in step. |
| Demodulator.GainModes | src/rtl2832u.ts:133-139 | No gain selects the automatic modes. A gain selects the manual modes, with the LNA and mixer indices of the clamped step in the low nibbles. |
| Demodulator.FinishSynced | src/rtl2832u.ts:114-126 | After a successful open the tuner's shadow mirrors the chip. |
| Demodulator.FinishGainModes | src/rtl2832u.ts:114-126 | After a successful open the gain mode is the configured one. |
| Demodulator.RTL2832U.constructor | src/rtl2832u.ts:42-46 | A fresh bus over the device with an empty trace, the ppm and gain, and no tuner. |
| Demodulator.RTL2832U.Open | src/rtl2832u.ts:51-126 | A failed bring-up is thrown with the tuner field unchanged. A missing tuner throws UnsupportedTuner and assigns nothing. A found tuner is fresh, on the corrected crystal, and the rest of open equals FinishEffect. After success the shadow mirrors the chip. |
| Demodulator.RTL2832U.BringUp | src/rtl2832u.ts:52-104 | Equals BringUpEffect: the set-up batches, the claim, the repeater on, and the tuner probe. |
| Demodulator.RTL2832U.Finish | src/rtl2832u.ts:114-126 | Equals FinishEffect (IF set-up, tuner init, gain, repeater off); success leaves the shadow in step. |
| Demodulator.RTL2832U.SetGain | src/rtl2832u.ts:133-139 | Writes only the automatic-gain table for no gain, and the manual-gain table otherwise. |
| Demodulator.RTL2832U.SetSampleRate | src/rtl2832u.ts:146-159 | Equals SampleRateEffect. |
| Demodulator.RTL2832U.ResetDemodulator | src/rtl2832u.ts:164-169 | Runs the soft-reset batch. |
| Demodulator.RTL2832U.SetCenterFrequency | src/rtl2832u.ts:176-181 | Equals CenterFrequencyEffect and keeps the shadow in step. |
| Demodulator.RTL2832U.TuneThenClose | src/rtl2832u.ts:178-180 | The part after the repeater is on: setFrequency on the tuner, then the repeater off, reporting the tuned frequency less the IF. |
| Demodulator.RTL2832U.ResetBuffer | src/rtl2832u.ts:186-191 | Runs the buffer-reset batch. |
| Demodulator.RTL2832U.ReadSamples | src/rtl2832u.ts:200-202 | One bulk read of exactly 2 * length bytes. |
| Demodulator.RTL2832U.Close | src/rtl2832u.ts:207-212 | Equals CloseEffect and keeps the shadow in step. |
| Wasm.ScanEnd | src/wasm-helper.ts:33-35 | The end of the string is the first index at or after the start where the array ends, a zero byte sits, or maxBytes bytes have been read; no earlier index stops. |
| Wasm.DecodeOne | src/wasm-helper.ts:41-57 | Each decoded character consumes one to four bytes. |
| Wasm.CodeUnits | src/wasm-helper.ts:58-63 | Every unit is 16-bit. A point below 0x10000 is one unit. A supplementary point is the RFC 2781 surrogate pair, which decodes back to it. |
| Wasm.Utf16Append | src/wasm-helper.ts:40-64 | Converting to UTF-16 distributes over concatenation. |
| Wasm.Utf16Units | src/wasm-helper.ts:58-63 | Every unit of the output is a 16-bit code unit. |
| Wasm.NextPoint | src/wasm-helper.ts:41-57 | The byte-by-byte decoder reads the code point and the next index that DecodeOne specifies. |
| Wasm.NextChar | src/wasm-helper.ts:41-63 | One round of the loop appends the UTF-16 units of that code point. |
| Wasm.Utf8ArrayToString | src/wasm-helper.ts:32-66 | The loop's string is the UTF-16 form of the code points starting in [idx, end of scan). |
| Wasm.AsciiRun | src/wasm-helper.ts:41-45 | Bytes below 0x80 decode to the identical values. |
| Wasm.ContinuationLowBits | src/wasm-helper.ts:46-57 | Continuation bytes are not validated: only their low six bits matter. |
| Wasm.TruncatedLead | src/wasm-helper.ts:46-48 | A two-byte lead at the last place still forms a character from the byte past the end. |
| Wasm.Utf8Encode | src/wasm-helper.ts:41-57 | The RFC 3629 encoding of a point below 0x110000 is 1 to 4 bytes, none of them zero for a non-zero point. |
| Wasm.Utf8EncodeBytes | src/wasm-helper.ts:46-57 | Each encoded form is a lead byte followed by the six-bit fields of the point. |
| Wasm.DecodeTwoBytes | src/wasm-helper.ts:46-49 | A 110xxxxx lead and its continuation decode to `((u0 & 31) << 6) \| u1`: the encoded point, consuming two bytes. |
| Wasm.DecodeThreeBytes | src/wasm-helper.ts:51-53 | A 1110xxxx lead and two continuations decode to the encoded point, consuming three bytes. |
| Wasm.FourBytesValue | src/wasm-helper.ts:54-57 | The four-byte branch reassembles the four fields of a supplementary point into the point. |
| Wasm.DecodeFourBytes | src/wasm-helper.ts:54-57 | A four-byte encoding decodes to the encoded point, consuming four bytes. |
| Wasm.DecodeEncodedOne | src/wasm-helper.ts:41-57 | Decoding the UTF-8 form of any point gives the point back, moving past exactly that form. |
| Wasm.DecodeEncoded | src/wasm-helper.ts:40-64 | Decoding the UTF-8 form of a run of points up to its end gives the run back. |
| Wasm.EncodeAllNonZero | src/wasm-helper.ts:35 | The encoding of non-zero points contains no zero byte, so the scan does not stop early. |
| Wasm.StringRoundTrip | src/wasm-helper.ts:32-66 | A zero-terminated UTF-8 string decodes to the UTF-16 form of its code points, whatever follows the terminator. |
| Wasm.FeedAccumulates | src/wasm-helper.ts:75-77 | Bytes other than 0 and 10 only join the stream's buffer; nothing is printed. |
| Wasm.FeedLine | src/wasm-helper.ts:70-74 | A 0 or 10 prints the whole buffered text, decoded, as one line to that stream, and leaves the buffer empty. |
| Wasm.FeedAppend | src/wasm-helper.ts:68-78 | Feeding one more byte is one more printChar. |
| Wasm.FeedConcat | src/wasm-helper.ts:86-88 | Feeding two runs one after the other is feeding their concatenation. |
| Wasm.StoreWordEffect | src/wasm-helper.ts:91 | A 32-bit store reads back as the value and keeps every other byte. |
| Wasm.StrideWords | src/wasm-helper.ts:83-85 | Pair k sits at words `iov / 4 + 2k` and `iov / 4 + 2k + 1`: an 8-byte stride. |
| Wasm.IovecsAt | src/wasm-helper.ts:83-85 | The k-th (ptr, len) pair is the two words at byte `iov + 8k`. |
| Wasm.TotalBounds | src/wasm-helper.ts:89 | The running count only grows, by each pair's length. |
| Wasm.TotalZero | src/wasm-helper.ts:89 | The count is 0 exactly when every length is 0. |
| Wasm.FeedIovecsGathered | src/wasm-helper.ts:82-90 | Feeding the pairs one by one is feeding all the bytes they point at, in order. |
| Wasm.FeedIovecsSilent | src/wasm-helper.ts:82-90 | Empty pairs print nothing, whatever the stream. |
| Wasm.AlignUp | src/wasm-helper.ts:125-126 | The result is a multiple of `multiple` in [x, x + multiple). |
| Wasm.AlignUpLeast | src/wasm-helper.ts:125-126 | No smaller multiple lies at or above x, so the result is the least one. |
| Wasm.WasmHelper.constructor | src/wasm-helper.ts:16-24 | Starts with empty buffers for streams 1 and 2 and nothing printed. |
| Wasm.WasmHelper.PrintChar | src/wasm-helper.ts:68-78 | For a buffered stream, equals PutChar. For a stream without a buffer, throws NoLineBuffer with nothing changed. |
| Wasm.WasmHelper.PrintBytes | src/wasm-helper.ts:86-88 | The inner loop feeds the `len` bytes at `ptr` to the stream in order. With no buffer and `len > 0`, it throws before any change. |
| Wasm.WasmHelper.LoadU32 | src/wasm-helper.ts:83-84 | Reads the little-endian word at index w. |
| Wasm.WasmHelper.StoreU32 | src/wasm-helper.ts:91 | Stores the little-endian word at index w. An index past the end stores nothing. |
| Wasm.WasmHelper.PrintIovec | src/wasm-helper.ts:83-89 | One outer round reads pair i and feeds its bytes, taking the output of i rounds to that of i + 1. |
| Wasm.WasmHelper.PrintIovecs | src/wasm-helper.ts:82-90 | The outer loop returns the sum of the lengths and feeds every pair's bytes in order. With no buffer and a non-zero sum, it throws with nothing changed. |
| Wasm.WasmHelper.FdWrite | src/wasm-helper.ts:80-93 | Returns 0 after feeding every pair's bytes and storing the sum of the lengths, modulo 2^32, at `pnum`. With no buffer and a non-zero sum, it throws with output and heap unchanged. |

## Left out

- The USB transport, the clock and the console are parameters or outputs.
  - The `Device` oracle stands for `controlTransferIn`/`Out`, `transferIn`,
    `claimInterface` and `releaseInterface`.
  - Every transport failure is the single error `TransferFailed`; the text of
    the exceptions is not modelled.
  - Lines for the console are recorded as `Line(stream, text)` values.
- Concurrency: every `await` is taken to complete before the next call starts.
- Logging (`VERBOSE` and `dumpBuffer`) is not part of this model.
- Floating point is replaced as follows:
  - The ppm correction is a `real`, with exact arithmetic where the source uses doubles.
  - `Math.log(1.77e9 / freq) / Math.LN2` is the exact `floor(log2(...))`.
  - `actualFreq` is a `real`.
- Tuner.R820T.SetManualGain: it takes the gain step, not the gain in dB. The
  two polynomials and `Math.round` (src/r820t.ts:161-169) are floating point;
  the clamping and the split that follow them are modelled.
- Tuner.R820T.SetPll: it requires `0 < freq <= 1.77e9`. Above 1.77 GHz the
  source takes a negative divider number (mixer divider 1), which the model
  does not cover.
- Tuner.R820T.SetFrequency: the same 1.77 GHz bound as `SetPll`.
- Demodulator.RTL2832U.SetCenterFrequency: it requires
  `0 < freq + 3570000 <= 1.77e9`, the same bound.
- Demodulator.RTL2832U.SetSampleRate: it requires a positive integer rate.
  The source's division by zero or a negative rate (`Infinity` or a negative
  ratio) is not modelled; a zero ratio gives `None` for the source's
  `Infinity`.
- Tuner.R820T.constructor: it requires a positive crystal frequency.
- Demodulator.RTL2832U.Open: it requires a positive corrected crystal
  frequency, `floor(28.8e6 * (1 + ppm / 1e6)) > 0`.
- Heap access in the WebAssembly helper:
  - Wasm.WasmHelper.FdWrite: it requires the iovec array and every buffer it
    points at to lie inside the heap, and `iov` and `pnum` to be below 2^31.
    Reads past the end of a typed array (`undefined`, hence `NaN` counts) are
    not modelled.
  - Wasm.WasmHelper.PrintBytes and Wasm.WasmHelper.PrintIovecs have the same
    in-heap requirement.
- Wasm.Utf8ArrayToString: only the manual decoding loop is modelled. The
  `TextDecoder` fast path for strings over 16 bytes (src/wasm-helper.ts:36-38)
  is a foreign call. The two paths differ on malformed input; they are not
  claimed to agree.
- Wasm.WasmHelper.PrintChar: the model starts from the buffers the
  constructor creates and takes the output as a list of lines.
  `console.log`/`console.error` are not called.
- Wasm.NextChar: it applies the surrogate split to every point at or above
  0x10000, exactly as the source's `u0 < 65536` test does, including values
  from ill-formed four-byte leads (up to 2^21 - 1).
- Not part of this model, because they are foreign or floating-point runtime
  glue:
  - `updateMemoryViews`, `growMemory`, `init` and `emscriptenMemcpyBig`;
  - the growth factor `1 + 0.2 / cutDown` of `emscriptenResizeHeap`;
  - `emscriptenDateNow` and `getHeapMax`.
