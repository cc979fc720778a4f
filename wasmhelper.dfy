// The helpers the WebAssembly glue gives the compiled C code: the UTF-8
// decoder behind every string the module prints, the per-stream line
// buffers, the `fd_write` system call and the heap-size rounding.

module Wasm {
  import opened Bytes
  import opened Results

  // ---------------------------------------------------------------------------
  // UTF-8 to UTF-16 (UTF8ArrayToString, the byte-by-byte path)

  /** A read of the byte array: an index past the end reads `undefined`, which every use turns into 0. */
  function At(h: seq<Byte>, i: int): Byte
  {
    if 0 <= i < |h| then h[i] else 0
  }

  /** The scan for the end of the string stops at the end of the array, at a zero byte, or after `maxBytes` bytes. */
  predicate Stops(h: seq<Byte>, start: nat, maxBytes: Option<int>, p: nat)
  {
    p >= |h| || h[p] == 0 || (maxBytes.Some? && p >= start + maxBytes.value)
  }

  /** The end of the string that starts at `start`: the first stopping point at or after `p`. */
  function ScanEnd(h: seq<Byte>, start: nat, maxBytes: Option<int>, p: nat): (e: nat)
    requires start <= p
    ensures p <= e && Stops(h, start, maxBytes, e)
    ensures forall k :: p <= k < e ==> !Stops(h, start, maxBytes, k)
    decreases |h| - p
  {
    if Stops(h, start, maxBytes, p) then p else ScanEnd(h, start, maxBytes, p + 1)
  }

  /** A value the decoder can build from one to four bytes: at most 21 bits. */
  type Point = x: int | 0 <= x < 0x20_0000

  /**
   * A code point as UTF-16 code units (section 2.1 of RFC 2781): itself
   * below 0x10000, otherwise `0xd800 | (c >> 10)` and `0xdc00 | (c & 0x3ff)`
   * with `c = v - 0x10000`. Below 2^21 the two `|` act on disjoint bits and
   * are sums.
   */
  function CodeUnits(v: Point): (r: seq<int>)
    ensures forall k :: 0 <= k < |r| ==> 0 <= r[k] < 0x1_0000
    ensures v < 0x1_0000 ==> r == [v]
    ensures 0x1_0000 <= v < 0x11_0000 ==>
      |r| == 2 && 0xd800 <= r[0] < 0xdc00 <= r[1] < 0xe000 && PairCodePoint(r[0], r[1]) == v
  {
    if v < 0x1_0000 then [v]
    else [0xd800 + (v - 0x1_0000) / 0x400, 0xdc00 + (v - 0x1_0000) % 0x400]
  }

  /** The code point a surrogate pair stands for (section 2.2 of RFC 2781). */
  function PairCodePoint(hi: int, lo: int): int
  {
    (hi - 0xd800) * 0x400 + (lo - 0xdc00) + 0x1_0000
  }

  /**
   * One step of the decoder at byte `i`: the code point it builds and the
   * index it moves on to. `u0 & 128`, `(u0 & 224) == 192` and
   * `(u0 & 240) == 224` test the lead byte's range, `& 63`, `& 31`, `& 15`
   * and `& 7` keep its low bits, and `<< k` is a product; the `|`s join
   * disjoint bit fields. Any lead other than 0xxxxxxx, 110xxxxx and
   * 1110xxxx, a stray continuation byte included, takes the four-byte form.
   */
  function DecodeOne(h: seq<Byte>, i: nat): (r: (Point, nat))
    ensures i < r.1 <= i + 4
  {
    var u0 := At(h, i);
    if u0 < 0x80 then (u0, i + 1)
    else
      var u1 := At(h, i + 1) % 64;
      if 0xc0 <= u0 < 0xe0 then ((u0 % 32) * 64 + u1, i + 2)
      else
        var u2 := At(h, i + 2) % 64;
        if 0xe0 <= u0 < 0xf0 then ((u0 % 16) * 0x1000 + u1 * 64 + u2, i + 3)
        else ((u0 % 8) * 0x4_0000 + u1 * 0x1000 + u2 * 64 + At(h, i + 3) % 64, i + 4)
  }

  /** The code points of the characters that start in `[i, end)`; the last one may read past `end`. */
  function DecodeRange(h: seq<Byte>, i: nat, end: nat): seq<Point>
    decreases end - i
  {
    if i >= end then []
    else
      var step := DecodeOne(h, i);
      [step.0] + DecodeRange(h, step.1, end)
  }

  /** The code points as UTF-16, one after the other. */
  function Utf16(cps: seq<Point>): seq<int>
  {
    if cps == [] then [] else CodeUnits(cps[0]) + Utf16(cps[1..])
  }

  /** Converting to UTF-16 works point by point: it distributes over concatenation. */
  lemma {:induction false} Utf16Append(a: seq<Point>, b: seq<Point>)
    ensures Utf16(a + b) == Utf16(a) + Utf16(b)
    decreases |a|
  {
    if a == [] {
      assert a + b == b;
    } else {
      assert (a + b)[0] == a[0] && (a + b)[1..] == a[1..] + b;
      Utf16Append(a[1..], b);
    }
  }

  /** Whatever the points, every unit is a 16-bit code unit. */
  lemma {:induction false} Utf16Units(cps: seq<Point>)
    ensures forall k :: 0 <= k < |Utf16(cps)| ==> 0 <= Utf16(cps)[k] < 0x1_0000
    decreases |cps|
  {
    if cps != [] {
      Utf16Units(cps[1..]);
    }
  }

  /** UTF8ArrayToString(h, idx, maxBytes): the string from `idx` up to the first stopping point. */
  function Utf8ToString(h: seq<Byte>, idx: nat, maxBytes: Option<int>): seq<int>
  {
    Utf16(DecodeRange(h, idx, ScanEnd(h, idx, maxBytes, idx)))
  }

  /** A zero-terminated byte string, with no length limit. */
  function DecodeAll(h: seq<Byte>): seq<int>
  {
    Utf8ToString(h, 0, None)
  }

  /** The decoder as the source runs it: the scan for the end, then one character per round. */
  method Utf8ArrayToString(h: seq<Byte>, idx: nat, maxBytes: Option<int>) returns (str: seq<int>)
    ensures str == Utf8ToString(h, idx, maxBytes)
  {
    var endPtr := idx;
    while endPtr < |h| && h[endPtr] != 0 && !(maxBytes.Some? && endPtr >= idx + maxBytes.value)
      invariant idx <= endPtr && ScanEnd(h, idx, maxBytes, endPtr) == ScanEnd(h, idx, maxBytes, idx)
      decreases |h| - endPtr
    {
      endPtr := endPtr + 1;
    }
    str := [];
    var i := idx;
    while i < endPtr
      invariant idx <= i
      invariant str + Utf16(DecodeRange(h, i, endPtr)) == Utf16(DecodeRange(h, idx, endPtr))
      decreases endPtr - i
    {
      var units, next := NextChar(h, i);
      DecodeRangeUnits(h, i, endPtr, units, next);
      assert str + (units + Utf16(DecodeRange(h, next, endPtr))) == (str + units) + Utf16(DecodeRange(h, next, endPtr));
      str, i := str + units, next;
    }
  }

  /** One round of the decoding loop: the code point that starts at `i`, then its UTF-16 code units. */
  method NextChar(h: seq<Byte>, i: nat) returns (units: seq<int>, next: nat)
    ensures units == CodeUnits(DecodeOne(h, i).0) && next == DecodeOne(h, i).1
  {
    var cp;
    cp, next := NextPoint(h, i);
    if cp < 0x1_0000 {
      units := [cp];
    } else {
      var ch := cp - 0x1_0000;
      units := [0xd800 + ch / 0x400, 0xdc00 + ch % 0x400];
    }
  }

  /** The lead byte at `i`, then as many continuation bytes as it asks for. */
  method NextPoint(h: seq<Byte>, i: nat) returns (cp: Point, next: nat)
    ensures (cp, next) == DecodeOne(h, i)
  {
    next := i;
    var u0 := At(h, next);
    next := next + 1;
    if u0 < 0x80 {
      return u0, next;
    }
    var u1 := At(h, next) % 64;
    next := next + 1;
    if 0xc0 <= u0 < 0xe0 {
      return (u0 % 32) * 64 + u1, next;
    }
    var u2 := At(h, next) % 64;
    next := next + 1;
    if 0xe0 <= u0 < 0xf0 {
      cp := (u0 % 16) * 0x1000 + u1 * 64 + u2;
    } else {
      cp := (u0 % 8) * 0x4_0000 + u1 * 0x1000 + u2 * 64 + At(h, next) % 64;
      next := next + 1;
    }
  }

  // ---------------------------------------------------------------------------
  // Properties of the decoder

  /** A run of bytes below 0x80 decodes to the same values, one code unit each. */
  lemma {:induction false} AsciiRun(h: seq<Byte>, i: nat, end: nat)
    requires i <= end <= |h|
    requires forall k :: i <= k < end ==> h[k] < 0x80
    ensures DecodeRange(h, i, end) == h[i..end]
    decreases end - i
  {
    if i < end {
      AsciiRun(h, i + 1, end);
      assert h[i..end] == [h[i]] + h[i + 1..end];
    }
  }

  /** Continuation bytes are not checked: only their low six bits matter. */
  lemma ContinuationLowBits(h: seq<Byte>, i: nat, b: Byte)
    requires i + 1 < |h| && b % 64 == h[i + 1] % 64
    ensures DecodeOne(h[i + 1 := b], i) == DecodeOne(h, i)
  {
    var h' := h[i + 1 := b];
    assert At(h', i) == At(h, i) && At(h', i + 1) % 64 == At(h, i + 1) % 64;
    assert At(h', i + 2) == At(h, i + 2) && At(h', i + 3) == At(h, i + 3);
  }

  /** A two-byte lead in the last place still forms a character, from the byte after `end`. */
  lemma TruncatedLead(h: seq<Byte>, i: nat)
    requires i < |h| && 0xc0 <= h[i] < 0xe0
    ensures DecodeRange(h, i, i + 1) == [(h[i] % 32) * 64 + At(h, i + 1) % 64]
  {
    assert DecodeRange(h, i + 2, i + 1) == [];
  }

  /** The low `n` six-bit groups of `v`, most significant first, each as a continuation byte 10xxxxxx. */
  function Continuations(v: nat, n: nat): (r: seq<Byte>)
    ensures |r| == n
    ensures forall k :: 0 <= k < n ==> 0x80 <= r[k] < 0xc0
  {
    if n == 0 then [] else Continuations(v / 64, n - 1) + [0x80 + v % 64]
  }

  /** The UTF-8 form of a code point (section 3 of RFC 3629): a lead byte that says how many continuation bytes follow. */
  function Utf8Encode(cp: nat): (r: seq<Byte>)
    requires cp < 0x11_0000
    ensures 1 <= |r| <= 4
    ensures cp > 0 ==> forall k :: 0 <= k < |r| ==> r[k] != 0
  {
    if cp < 0x80 then [cp]
    else if cp < 0x800 then [0xc0 + cp / 64] + Continuations(cp, 1)
    else if cp < 0x1_0000 then [0xe0 + cp / 0x1000] + Continuations(cp, 2)
    else [0xf0 + cp / 0x4_0000] + Continuations(cp, 3)
  }

  /** The bytes of each form, field by field. */
  lemma Utf8EncodeBytes(cp: nat)
    requires cp < 0x11_0000
    ensures 0x80 <= cp < 0x800 ==> Utf8Encode(cp) == [0xc0 + cp / 64, 0x80 + cp % 64]
    ensures 0x800 <= cp < 0x1_0000 ==> Utf8Encode(cp) == [0xe0 + cp / 0x1000, 0x80 + cp / 64 % 64, 0x80 + cp % 64]
    ensures 0x1_0000 <= cp ==>
      Utf8Encode(cp) == [0xf0 + cp / 0x4_0000, 0x80 + cp / 0x1000 % 64, 0x80 + cp / 64 % 64, 0x80 + cp % 64]
  {
    if 0x80 <= cp < 0x800 {
      assert Continuations(cp, 1) == [0x80 + cp % 64];
    } else if 0x800 <= cp < 0x1_0000 {
      assert Continuations(cp / 64, 1) == [0x80 + cp / 64 % 64];
    } else if 0x1_0000 <= cp {
      assert cp / 64 / 64 == cp / 0x1000;
      assert Continuations(cp / 0x1000, 1) == [0x80 + cp / 0x1000 % 64];
      assert Continuations(cp / 64, 2) == [0x80 + cp / 0x1000 % 64, 0x80 + cp / 64 % 64];
    }
  }

  /** Code points with no zero among them: what can make up a zero-terminated string. */
  predicate Scalars(cps: seq<int>)
  {
    forall k :: 0 <= k < |cps| ==> 0 < cps[k] < 0x11_0000
  }

  function EncodeAll(cps: seq<int>): seq<Byte>
    requires Scalars(cps)
  {
    if cps == [] then [] else Utf8Encode(cps[0]) + EncodeAll(cps[1..])
  }

  lemma DecodeTwoBytes(h: seq<Byte>, i: nat, cp: nat)
    requires 0x80 <= cp < 0x800
    requires At(h, i) == 0xc0 + cp / 64 && At(h, i + 1) == 0x80 + cp % 64
    ensures DecodeOne(h, i) == (cp, i + 2)
  {
  }

  lemma DecodeThreeBytes(h: seq<Byte>, i: nat, cp: nat)
    requires 0x800 <= cp < 0x1_0000
    requires At(h, i) == 0xe0 + cp / 0x1000 && At(h, i + 1) == 0x80 + cp / 64 % 64 && At(h, i + 2) == 0x80 + cp % 64
    ensures DecodeOne(h, i) == (cp, i + 3)
  {
    assert cp / 64 == cp / 0x1000 * 64 + cp / 64 % 64;
    var v := (At(h, i) % 16) * 0x1000 + At(h, i + 1) % 64 * 64 + At(h, i + 2) % 64;
    assert v == cp;
  }

  /** The four six-bit (and three-bit) fields of a supplementary code point. */
  lemma FourFields(cp: nat)
    requires 0x1_0000 <= cp < 0x11_0000
    ensures cp / 0x4_0000 < 8
    ensures cp == cp / 0x4_0000 * 0x4_0000 + cp / 0x1000 % 64 * 0x1000 + cp / 64 % 64 * 64 + cp % 64
  {
    var q1 := cp / 64;
    var q2 := q1 / 64;
    DivMod(cp, 64);
    DivMod(q1, 64);
    DivMod(q2, 64);
    assert q2 == cp / 0x1000 by { DivModUnique(cp, 0x1000, q2, q1 % 64 * 64 + cp % 64); }
    assert q2 / 64 == cp / 0x4_0000 by {
      DivModUnique(cp, 0x4_0000, q2 / 64, q2 % 64 * 0x1000 + q1 % 64 * 64 + cp % 64);
    }
  }

  lemma DecodeFourBytes(h: seq<Byte>, i: nat, cp: nat)
    requires 0x1_0000 <= cp < 0x11_0000
    requires At(h, i) == 0xf0 + cp / 0x4_0000 && At(h, i + 1) == 0x80 + cp / 0x1000 % 64
    requires At(h, i + 2) == 0x80 + cp / 64 % 64 && At(h, i + 3) == 0x80 + cp % 64
    ensures DecodeOne(h, i) == (cp, i + 4)
  {
    FourBytesValue(cp);
  }

  /** The four-byte branch of the decoder puts the four fields of an encoded code point back together. */
  lemma FourBytesValue(cp: nat)
    requires 0x1_0000 <= cp < 0x11_0000
    ensures 0xf0 <= 0xf0 + cp / 0x4_0000 < 0xf8
    ensures (0xf0 + cp / 0x4_0000) % 8 * 0x4_0000 + (0x80 + cp / 0x1000 % 64) % 64 * 0x1000
      + (0x80 + cp / 64 % 64) % 64 * 64 + (0x80 + cp % 64) % 64 == cp
  {
    FourFields(cp);
    var a, b, c, d := cp / 0x4_0000, cp / 0x1000 % 64, cp / 64 % 64, cp % 64;
    DivModUnique(0xf0 + a, 8, 30, a);
    DivModUnique(0x80 + b, 64, 2, b);
    DivModUnique(0x80 + c, 64, 2, c);
    DivModUnique(0x80 + d, 64, 2, d);
  }

  /** The bytes `bs` sit in `h` from index `i` on. */
  predicate BytesAt(h: seq<Byte>, i: nat, bs: seq<Byte>)
    decreases |bs|
  {
    i + |bs| <= |h| && (bs == [] || (h[i] == bs[0] && BytesAt(h, i + 1, bs[1..])))
  }

  lemma {:induction false} BytesAtIndex(h: seq<Byte>, i: nat, bs: seq<Byte>, k: nat)
    requires BytesAt(h, i, bs) && k < |bs|
    ensures h[i + k] == bs[k]
    decreases k
  {
    if k > 0 {
      BytesAtIndex(h, i + 1, bs[1..], k - 1);
    }
  }

  /** Byte-by-byte agreement is what `BytesAt` means. */
  lemma {:induction false} BytesAtAll(h: seq<Byte>, i: nat, bs: seq<Byte>)
    requires i + |bs| <= |h| && forall k :: 0 <= k < |bs| ==> h[i + k] == bs[k]
    ensures BytesAt(h, i, bs)
    decreases |bs|
  {
    if bs != [] {
      forall k | 0 <= k < |bs[1..]|
        ensures h[i + 1 + k] == bs[1..][k]
      {
        assert h[i + (k + 1)] == bs[k + 1];
      }
      BytesAtAll(h, i + 1, bs[1..]);
    }
  }

  lemma {:induction false} BytesAtSplit(h: seq<Byte>, i: nat, a: seq<Byte>, b: seq<Byte>)
    requires BytesAt(h, i, a + b)
    ensures BytesAt(h, i, a) && BytesAt(h, i + |a|, b)
    decreases |a|
  {
    if a == [] {
      assert a + b == b;
    } else {
      assert (a + b)[0] == a[0] && (a + b)[1..] == a[1..] + b;
      BytesAtSplit(h, i + 1, a[1..], b);
    }
  }

  /** Decoding the UTF-8 form of a code point gives that code point back and moves past exactly that form. */
  lemma DecodeEncodedOne(h: seq<Byte>, i: nat, cp: nat)
    requires cp < 0x11_0000 && BytesAt(h, i, Utf8Encode(cp))
    ensures DecodeOne(h, i) == (cp, i + |Utf8Encode(cp)|)
  {
    var e := Utf8Encode(cp);
    Utf8EncodeBytes(cp);
    BytesAtIndex(h, i, e, 0);
    if 0x80 <= cp < 0x800 {
      BytesAtIndex(h, i, e, 1);
      DecodeTwoBytes(h, i, cp);
    } else if 0x800 <= cp < 0x1_0000 {
      BytesAtIndex(h, i, e, 1);
      BytesAtIndex(h, i, e, 2);
      DecodeThreeBytes(h, i, cp);
    } else if 0x1_0000 <= cp {
      BytesAtIndex(h, i, e, 1);
      BytesAtIndex(h, i, e, 2);
      BytesAtIndex(h, i, e, 3);
      DecodeFourBytes(h, i, cp);
    }
  }

  /** Decoding the UTF-8 form of a sequence of code points, up to its `end`, gives them back. */
  lemma {:induction false} DecodeEncoded(h: seq<Byte>, i: nat, cps: seq<int>, end: nat)
    requires Scalars(cps) && BytesAt(h, i, EncodeAll(cps)) && end == i + |EncodeAll(cps)|
    ensures DecodeRange(h, i, end) == cps
    decreases |cps|
  {
    if cps == [] {
      assert EncodeAll(cps) == [];
    } else {
      var cp, rest := cps[0], cps[1..];
      var j := i + |Utf8Encode(cp)|;
      DecodeEncodedCons(h, i, cps, end);
      DecodeEncoded(h, j, rest, end);
      DecodeEncodedStep(h, i, j, end, cp, rest);
      assert [cp] + rest == cps;
    }
  }

  /** The UTF-8 form of a non-empty run is that of its first code point, then that of the rest. */
  lemma DecodeEncodedCons(h: seq<Byte>, i: nat, cps: seq<int>, end: nat)
    requires Scalars(cps) && cps != [] && BytesAt(h, i, EncodeAll(cps)) && end == i + |EncodeAll(cps)|
    ensures Scalars(cps[1..]) && BytesAt(h, i + |Utf8Encode(cps[0])|, EncodeAll(cps[1..]))
    ensures BytesAt(h, i, Utf8Encode(cps[0])) && end == i + |Utf8Encode(cps[0])| + |EncodeAll(cps[1..])|
  {
    EncodeAllCons(cps);
    BytesAtSplit(h, i, Utf8Encode(cps[0]), EncodeAll(cps[1..]));
  }

  lemma EncodeAllCons(cps: seq<int>)
    requires Scalars(cps) && cps != []
    ensures Scalars(cps[1..]) && EncodeAll(cps) == Utf8Encode(cps[0]) + EncodeAll(cps[1..])
  {
    assert Scalars(cps[1..]);
  }

  /** The UTF-8 form of one code point at the front of a range decodes to it, and decoding goes on after it. */
  lemma DecodeEncodedStep(h: seq<Byte>, i: nat, j: nat, end: nat, cp: nat, rest: seq<int>)
    requires cp < 0x11_0000 && BytesAt(h, i, Utf8Encode(cp)) && j == i + |Utf8Encode(cp)| <= end
    requires DecodeRange(h, j, end) == rest
    ensures DecodeRange(h, i, end) == [cp] + rest
  {
    DecodeEncodedOne(h, i, cp);
    DecodeRangeStep(h, i, end);
  }

  /** In UTF-16, a range is the units of its first character, then those of the rest. */
  lemma DecodeRangeUnits(h: seq<Byte>, i: nat, end: nat, units: seq<int>, next: nat)
    requires i < end && units == CodeUnits(DecodeOne(h, i).0) && next == DecodeOne(h, i).1
    ensures Utf16(DecodeRange(h, i, end)) == units + Utf16(DecodeRange(h, next, end))
  {
    var rest := DecodeRange(h, next, end);
    DecodeRangeStep(h, i, end);
    Utf16Append([DecodeOne(h, i).0], rest);
    assert Utf16([DecodeOne(h, i).0]) == units;
  }

  /** Unrolls the decoding of a range once. */
  lemma DecodeRangeStep(h: seq<Byte>, i: nat, end: nat)
    requires i < end
    ensures DecodeRange(h, i, end) == [DecodeOne(h, i).0] + DecodeRange(h, DecodeOne(h, i).1, end)
  {
  }

  lemma {:induction false} EncodeAllNonZero(cps: seq<int>)
    requires Scalars(cps)
    ensures forall k :: 0 <= k < |EncodeAll(cps)| ==> EncodeAll(cps)[k] != 0
  {
    if cps != [] {
      assert Scalars(cps[1..]);
      EncodeAllNonZero(cps[1..]);
      var e := Utf8Encode(cps[0]);
      forall k | 0 <= k < |EncodeAll(cps)|
        ensures EncodeAll(cps)[k] != 0
      {
        if k >= |e| {
          assert EncodeAll(cps)[k] == EncodeAll(cps[1..])[k - |e|];
        }
      }
    }
  }

  /** A zero-terminated UTF-8 string decodes to the UTF-16 form of its code points. */
  lemma StringRoundTrip(cps: seq<int>, tail: seq<Byte>)
    requires Scalars(cps)
    ensures Utf8ToString(EncodeAll(cps) + [0] + tail, 0, None) == Utf16(cps)
  {
    var e := EncodeAll(cps);
    var h := e + [0] + tail;
    EncodeAllNonZero(cps);
    assert forall k :: 0 <= k < |e| ==> h[k] == e[k];
    assert ScanEnd(h, 0, None, 0) == |e| by {
      var s := ScanEnd(h, 0, None, 0);
      assert h[|e|] == 0;
      if s > |e| {
        assert Stops(h, 0, None, |e|);
      }
    }
    BytesAtAll(h, 0, e);
    DecodeEncoded(h, 0, cps, |e|);
  }

  // ---------------------------------------------------------------------------
  // Line buffers (printChar)

  /** A line handed to the console: stream 1 goes to console.log, any other to console.error. */
  datatype Line = Line(stream: int, text: seq<int>)

  /**
   * The byte buffers, indexed by stream, and the lines printed so far.
   * Entry 0 stands for the `null` of stream 0, which has no buffer.
   */
  datatype Output = Output(buffers: seq<seq<Byte>>, lines: seq<Line>)

  /** The streams printChar accepts: the ones with a buffer. */
  predicate Buffered(o: Output, stream: int)
  {
    0 < stream < |o.buffers|
  }

  /**
   * One byte for a stream: 0 or 10 prints the buffered bytes as one line,
   * decoded, and empties the buffer; any other byte joins the buffer.
   */
  function PutChar(o: Output, stream: int, c: Byte): (r: Output)
    requires Buffered(o, stream)
    ensures |r.buffers| == |o.buffers|
  {
    if c == 0 || c == 10 then Output(o.buffers[stream := []], o.lines + [Line(stream, DecodeAll(o.buffers[stream]))])
    else Output(o.buffers[stream := o.buffers[stream] + [c]], o.lines)
  }

  /** A run of bytes, one after the other, to one stream. */
  function Feed(o: Output, stream: int, bs: seq<Byte>): (r: Output)
    requires Buffered(o, stream) || bs == []
    ensures |r.buffers| == |o.buffers|
  {
    if bs == [] then o else PutChar(Feed(o, stream, bs[..|bs| - 1]), stream, bs[|bs| - 1])
  }

  predicate NoTerminator(bs: seq<Byte>)
  {
    forall k :: 0 <= k < |bs| ==> bs[k] != 0 && bs[k] != 10
  }

  /** Bytes other than 0 and 10 only accumulate: nothing is printed. */
  lemma {:induction false} FeedAccumulates(o: Output, stream: int, bs: seq<Byte>)
    requires Buffered(o, stream) && NoTerminator(bs)
    ensures Feed(o, stream, bs) == Output(o.buffers[stream := o.buffers[stream] + bs], o.lines)
  {
    if bs != [] {
      var init, c := bs[..|bs| - 1], bs[|bs| - 1];
      assert NoTerminator(init) by {
        assert forall k :: 0 <= k < |init| ==> init[k] == bs[k];
      }
      FeedAccumulates(o, stream, init);
      var f := Feed(o, stream, init);
      assert f.buffers[stream] == o.buffers[stream] + init;
      assert c != 0 && c != 10;
      assert Feed(o, stream, bs) == PutChar(f, stream, c);
      assert bs == init + [c];
      assert o.buffers[stream] + init + [c] == o.buffers[stream] + bs;
    } else {
      assert o.buffers[stream] + bs == o.buffers[stream];
      assert o.buffers[stream := o.buffers[stream]] == o.buffers;
    }
  }

  /** A line ends at 0 or 10: the whole buffered text is printed at once, decoded, and the buffer is left empty. */
  lemma FeedLine(o: Output, stream: int, bs: seq<Byte>, t: Byte)
    requires Buffered(o, stream) && NoTerminator(bs) && (t == 0 || t == 10)
    ensures Feed(o, stream, bs + [t]) ==
      Output(o.buffers[stream := []], o.lines + [Line(stream, DecodeAll(o.buffers[stream] + bs))])
  {
    FeedAppend(o, stream, bs, t);
    FeedAccumulates(o, stream, bs);
    var b := o.buffers[stream := o.buffers[stream] + bs];
    var f := Feed(o, stream, bs);
    assert f == Output(b, o.lines);
    assert b[stream] == o.buffers[stream] + bs;
    assert PutChar(f, stream, t) == Output(b[stream := []], o.lines + [Line(stream, DecodeAll(b[stream]))]);
  }

  lemma FeedAppend(o: Output, stream: int, bs: seq<Byte>, c: Byte)
    requires Buffered(o, stream)
    ensures Feed(o, stream, bs + [c]) == PutChar(Feed(o, stream, bs), stream, c)
  {
    assert (bs + [c])[..|bs|] == bs;
  }

  // ---------------------------------------------------------------------------
  // The heap as 32-bit words (HEAPU32 over the same bytes, little-endian)

  function Word(h: seq<Byte>, w: int): (v: int)
    requires 0 <= w && 4 * w + 4 <= |h|
    ensures 0 <= v < 0x1_0000_0000
  {
    h[4 * w] as int + 0x100 * (h[4 * w + 1] as int) + 0x1_0000 * (h[4 * w + 2] as int) + 0x100_0000 * (h[4 * w + 3] as int)
  }

  /** The four bytes of a 32-bit word, low byte first. */
  function WordBytes(v: int): (r: seq<Byte>)
    requires 0 <= v < 0x1_0000_0000
    ensures |r| == 4 && r[0] as int + 0x100 * (r[1] as int) + 0x1_0000 * (r[2] as int) + 0x100_0000 * (r[3] as int) == v
  {
    var b0, r0 := v % 0x100, v / 0x100;
    var b1, r1 := r0 % 0x100, r0 / 0x100;
    var b2, b3 := r1 % 0x100, r1 / 0x100;
    assert v == b0 + 0x100 * (b1 + 0x100 * (b2 + 0x100 * b3));
    [b0, b1, b2, b3]
  }

  /** A store to HEAPU32[w]: an index past the end of the view is ignored. */
  function StoreWord(h: seq<Byte>, w: int, v: int): (r: seq<Byte>)
    requires 0 <= v < 0x1_0000_0000
    ensures |r| == |h|
  {
    if 0 <= w && 4 * w + 4 <= |h| then h[..4 * w] + WordBytes(v) + h[4 * w + 4..] else h
  }

  /** The stored word reads back, and every byte outside it is kept. */
  lemma StoreWordEffect(h: seq<Byte>, w: int, v: int)
    requires 0 <= v < 0x1_0000_0000
    ensures 0 <= w && 4 * w + 4 <= |h| ==> Word(StoreWord(h, w, v), w) == v
    ensures forall k :: 0 <= k < |h| && !(0 <= w && 4 * w <= k < 4 * w + 4) ==> StoreWord(h, w, v)[k] == h[k]
  {
  }

  /** One (ptr, len) entry of the array fd_write is given. */
  datatype Iovec = Iovec(ptr: nat, len: nat)

  /**
   * The `n` (ptr, len) pairs at `iov`, eight bytes apart. `HEAPU32[iov >> 2]`
   * reads the word that holds byte `iov`, so pair `k` is the two words from
   * word `iov / 4 + 2 * k` on.
   */
  function Iovecs(h: seq<Byte>, iov: nat, n: nat): (vs: seq<Iovec>)
    requires 4 * (iov / 4 + 2 * n) <= |h|
    ensures |vs| == n
  {
    if n == 0 then [] else
      Iovecs(h, iov, n - 1) + [Iovec(Word(h, iov / 4 + 2 * (n - 1)), Word(h, iov / 4 + 2 * (n - 1) + 1))]
  }

  /** `(iov + 8 * k) >> 2` and `(iov + 8 * k + 4) >> 2` are the words of pair `k`. */
  lemma StrideWords(iov: nat, k: nat)
    ensures (iov + 8 * k) / 4 == iov / 4 + 2 * k
    ensures (iov + 8 * k + 4) / 4 == iov / 4 + 2 * k + 1
  {
    DivMod(iov, 4);
    DivModUnique(iov + 8 * k, 4, iov / 4 + 2 * k, iov % 4);
    DivModUnique(iov + 8 * k + 4, 4, iov / 4 + 2 * k + 1, iov % 4);
  }

  /** The `k`-th pair is the two words at byte address `iov + 8 * k`. */
  lemma IovecsAt(h: seq<Byte>, iov: nat, n: nat, k: nat, at: nat)
    requires 4 * (iov / 4 + 2 * n) <= |h| && k < n && at == iov + 8 * k
    ensures 4 * (at / 4) + 4 <= |h| && 4 * ((at + 4) / 4) + 4 <= |h|
    ensures Iovecs(h, iov, n)[k] == Iovec(Word(h, at / 4), Word(h, (at + 4) / 4))
    decreases n
  {
    StrideWords(iov, k);
    if k < n - 1 {
      IovecsAt(h, iov, n - 1, k, at);
    }
  }

  /** Every pair points into the heap. */
  predicate InHeap(h: seq<Byte>, vs: seq<Iovec>)
  {
    forall k :: 0 <= k < |vs| ==> vs[k].ptr + vs[k].len <= |h|
  }

  /** The sum of the first `n` lengths: the count fd_write reports. */
  function Total(vs: seq<Iovec>, n: nat): nat
    requires n <= |vs|
  {
    if n == 0 then 0 else Total(vs, n - 1) + vs[n - 1].len
  }

  /** The count only grows from one pair to the next. */
  lemma {:induction false} TotalBounds(vs: seq<Iovec>, k: nat, n: nat)
    requires k < n <= |vs|
    ensures Total(vs, k) + vs[k].len <= Total(vs, n)
    decreases n
  {
    if k < n - 1 {
      TotalBounds(vs, k, n - 1);
    }
  }

  /** The count is 0 exactly when every length is. */
  lemma {:induction false} TotalZero(vs: seq<Iovec>, n: nat)
    requires n <= |vs|
    ensures Total(vs, n) == 0 <==> forall k :: 0 <= k < n ==> vs[k].len == 0
  {
    if n > 0 {
      TotalZero(vs, n - 1);
    }
  }

  /** The bytes the first `n` pairs point at, in order: as many as the count fd_write reports. */
  function Gathered(h: seq<Byte>, vs: seq<Iovec>, n: nat): (r: seq<Byte>)
    requires n <= |vs| && InHeap(h, vs)
    ensures |r| == Total(vs, n)
  {
    if n == 0 then [] else
      var v := vs[n - 1];
      Gathered(h, vs, n - 1) + h[v.ptr..v.ptr + v.len]
  }

  /**
   * The output after the first `n` rounds of fd_write's outer loop: the
   * bytes of each pair fed in turn.
   */
  function FeedIovecs(o: Output, fd: int, h: seq<Byte>, vs: seq<Iovec>, n: nat): (r: Output)
    requires n <= |vs| && InHeap(h, vs) && (Buffered(o, fd) || Total(vs, n) == 0)
    ensures |r.buffers| == |o.buffers|
  {
    if n == 0 then o else
      var v := vs[n - 1];
      Feed(FeedIovecs(o, fd, h, vs, n - 1), fd, h[v.ptr..v.ptr + v.len])
  }

  /** Feeding one run and then another is feeding the two one after the other. */
  lemma {:induction false} FeedConcat(o: Output, stream: int, a: seq<Byte>, b: seq<Byte>)
    requires Buffered(o, stream) || a + b == []
    ensures Feed(Feed(o, stream, a), stream, b) == Feed(o, stream, a + b)
    decreases |b|
  {
    if b == [] {
      assert a + b == a;
    } else {
      var init, c := b[..|b| - 1], b[|b| - 1];
      assert b == init + [c] && a + b == (a + init) + [c];
      FeedConcat(o, stream, a, init);
      FeedAppend(Feed(o, stream, a), stream, init, c);
      FeedAppend(o, stream, a + init, c);
    }
  }

  /** Feeding the pairs one by one is feeding all their bytes at once. */
  lemma {:induction false} FeedIovecsGathered(o: Output, fd: int, h: seq<Byte>, vs: seq<Iovec>, n: nat)
    requires n <= |vs| && InHeap(h, vs) && (Buffered(o, fd) || Total(vs, n) == 0)
    ensures FeedIovecs(o, fd, h, vs, n) == Feed(o, fd, Gathered(h, vs, n))
  {
    if n > 0 {
      var v := vs[n - 1];
      var run, g := h[v.ptr..v.ptr + v.len], Gathered(h, vs, n - 1);
      assert Buffered(o, fd) || Total(vs, n - 1) == 0;
      FeedIovecsGathered(o, fd, h, vs, n - 1);
      assert Gathered(h, vs, n) == g + run;
      assert FeedIovecs(o, fd, h, vs, n) == Feed(Feed(o, fd, g), fd, run);
      FeedConcat(o, fd, g, run);
    }
  }

  /** For a stream without a buffer, rounds whose pairs are all empty print nothing. */
  lemma {:induction false} FeedIovecsSilent(o: Output, fd: int, h: seq<Byte>, vs: seq<Iovec>, n: nat)
    requires n <= |vs| && InHeap(h, vs) && Total(vs, n) == 0
    ensures FeedIovecs(o, fd, h, vs, n) == o
  {
    if n > 0 {
      FeedIovecsSilent(o, fd, h, vs, n - 1);
    }
  }

  /** alignUp: the least multiple of `multiple` at or above `x`. */
  function AlignUp(x: nat, multiple: nat): (r: nat)
    requires multiple > 0
    ensures r % multiple == 0 && x <= r < x + multiple
  {
    DivMod(x, multiple);
    AlignUpStep(x / multiple, x % multiple, multiple);
    x + (multiple - x % multiple) % multiple
  }

  lemma AlignUpStep(q: nat, rem: nat, m: nat)
    requires m > 0 && rem < m
    ensures var x := m * q + rem; var r := x + (m - rem) % m;
      r % m == 0 && x <= r < x + m
  {
    if rem == 0 {
      assert (m - rem) % m == 0;
      DivModUnique(m * q, m, q, 0);
    } else {
      assert (m - rem) % m == m - rem;
      DivModUnique(m * q + m, m, q + 1, 0);
    }
  }

  /** No multiple of `multiple` lies in `[x, AlignUp(x, multiple))`, so nothing smaller would do. */
  lemma AlignUpLeast(x: nat, multiple: nat, y: nat)
    requires multiple > 0 && y % multiple == 0 && x <= y
    ensures AlignUp(x, multiple) <= y
  {
    var r := AlignUp(x, multiple);
    if y < r {
      DivMod(y, multiple);
      DivMod(r, multiple);
      assert y / multiple < r / multiple;
      MulAtLeast(multiple, r / multiple - y / multiple);
    }
  }

  // ---------------------------------------------------------------------------
  // The helper object

  class WasmHelper {
    /** HEAPU8: the module's memory. Its growth is not part of this model. */
    const heap: array<Byte>
    /** printCharBuffers: streams 1 and 2 each have a buffer; stream 0's entry is `null`. */
    var buffers: seq<seq<Byte>>
    /** What has reached the console, line by line. */
    var lines: seq<Line>

    function State(): Output
      reads this
    {
      Output(buffers, lines)
    }

    constructor (heap: array<Byte>)
      ensures this.heap == heap && State() == Output([[], [], []], [])
    {
      this.heap := heap;
      buffers := [[], [], []];
      lines := [];
    }

    /**
     * printChar: 0 or 10 prints the stream's buffer as one line and empties
     * it, any other byte joins the buffer. A stream without a buffer (`null`
     * for stream 0, `undefined` past stream 2) throws and changes nothing.
     */
    method PrintChar(stream: int, curr: Byte) returns (r: Result<()>)
      modifies this
      ensures Buffered(old(State()), stream) ==> r == Success(()) && State() == PutChar(old(State()), stream, curr)
      ensures !Buffered(old(State()), stream) ==> r == Failure(NoLineBuffer) && State() == old(State())
    {
      if !(0 < stream < |buffers|) {
        return Failure(NoLineBuffer);
      }
      var buffer := buffers[stream];
      if curr == 0 || curr == 10 {
        var text := Utf8ArrayToString(buffer, 0, None);
        lines := lines + [Line(stream, text)];
        buffers := buffers[stream := []];
      } else {
        buffers := buffers[stream := buffer + [curr]];
      }
      r := Success(());
    }

    /** The inner loop of fd_write: the `len` bytes at `ptr`, one printChar each; the first failure is thrown on. */
    method PrintBytes(fd: int, ptr: nat, len: nat) returns (r: Result<()>)
      requires ptr + len <= heap.Length
      modifies this
      ensures Buffered(old(State()), fd) || len == 0 ==> r == Success(()) && State() == Feed(old(State()), fd, heap[ptr..ptr + len])
      ensures !Buffered(old(State()), fd) && len > 0 ==> r == Failure(NoLineBuffer) && State() == old(State())
    {
      ghost var o := State();
      var j := 0;
      while j < len
        invariant 0 <= j <= len && |buffers| == |o.buffers|
        invariant !Buffered(o, fd) ==> j == 0
        invariant State() == Feed(o, fd, heap[ptr..ptr + j])
      {
        if Buffered(o, fd) {
          FeedAppend(o, fd, heap[ptr..ptr + j], heap[ptr + j]);
          assert heap[ptr..ptr + j] + [heap[ptr + j]] == heap[ptr..ptr + j + 1];
        }
        r := PrintChar(fd, heap[ptr + j]);
        if r.Failure? {
          return;
        }
        j := j + 1;
      }
      r := Success(());
    }

    /** HEAPU32[w]: the four bytes from `4 * w` on, low byte first. */
    method LoadU32(w: nat) returns (v: nat)
      requires 4 * w + 4 <= heap.Length
      ensures v == Word(heap[..], w) && v < 0x1_0000_0000
    {
      v := heap[4 * w] as int + 0x100 * (heap[4 * w + 1] as int) + 0x1_0000 * (heap[4 * w + 2] as int) + 0x100_0000 * (heap[4 * w + 3] as int);
    }

    /** HEAPU32[w] = v: the four bytes of `v`, low byte first; an index past the end of the view stores nothing. */
    method StoreU32(w: nat, v: nat)
      requires v < 0x1_0000_0000
      modifies heap
      ensures heap[..] == StoreWord(old(heap[..]), w, v)
    {
      if 4 * w + 4 <= heap.Length {
        var bytes := WordBytes(v);
        heap[4 * w] := bytes[0];
        heap[4 * w + 1] := bytes[1];
        heap[4 * w + 2] := bytes[2];
        heap[4 * w + 3] := bytes[3];
        assert heap[..] == old(heap[..])[..4 * w] + bytes + old(heap[..])[4 * w + 4..];
      }
    }

    /**
     * One round of fd_write's outer loop: the pair at byte address `at` (a
     * pointer word, then a length word) is pair `i`, and its bytes go to
     * `fd`, taking the output of the first `i` rounds to that of `i + 1`;
     * bytes for a stream without a buffer throw and change nothing.
     */
    method PrintIovec(fd: int, at: nat, ghost o: Output, ghost h: seq<Byte>, ghost vs: seq<Iovec>, ghost i: nat)
      returns (len: nat, r: Result<()>)
      requires heap[..] == h
      requires 4 * (at / 4) + 4 <= |h| && 4 * ((at + 4) / 4) + 4 <= |h|
      requires i < |vs| && vs[i] == Iovec(Word(h, at / 4), Word(h, (at + 4) / 4))
      requires InHeap(h, vs) && |o.buffers| == |buffers| && (Buffered(o, fd) || Total(vs, i) == 0)
      requires State() == FeedIovecs(o, fd, h, vs, i)
      modifies this
      ensures len == vs[i].len && Total(vs, i + 1) == Total(vs, i) + len
      ensures Buffered(o, fd) || len == 0 ==> r == Success(()) && State() == FeedIovecs(o, fd, h, vs, i + 1)
      ensures !Buffered(o, fd) && len > 0 ==> r == Failure(NoLineBuffer) && State() == old(State())
    {
      var ptr := LoadU32(at / 4);
      len := LoadU32((at + 4) / 4);
      r := PrintBytes(fd, ptr, len);
      assert heap[ptr..ptr + len] == h[vs[i].ptr..vs[i].ptr + vs[i].len];
    }

    /**
     * fd_write's outer loop: each iovec's bytes go to `fd` in turn; the
     * result is the number of bytes written. Bytes for a stream without a
     * buffer throw at the first of them, before anything has changed.
     */
    method PrintIovecs(fd: int, iov: nat, iovcnt: nat) returns (r: Result<nat>)
      requires 4 * (iov / 4 + 2 * iovcnt) <= heap.Length
      requires InHeap(heap[..], Iovecs(heap[..], iov, iovcnt))
      modifies this
      ensures var vs := Iovecs(heap[..], iov, iovcnt);
        Buffered(old(State()), fd) || Total(vs, iovcnt) == 0 ==>
          r == Success(Total(vs, iovcnt)) && State() == FeedIovecs(old(State()), fd, heap[..], vs, iovcnt)
      ensures var vs := Iovecs(heap[..], iov, iovcnt);
        !Buffered(old(State()), fd) && Total(vs, iovcnt) > 0 ==> r == Failure(NoLineBuffer) && State() == old(State())
    {
      ghost var h := heap[..];
      ghost var o := State();
      ghost var vs := Iovecs(h, iov, iovcnt);
      var num := 0;
      var i := 0;
      var at := iov;
      while i < iovcnt
        invariant 0 <= i <= iovcnt && at == iov + 8 * i && |buffers| == |o.buffers|
        invariant num == Total(vs, i) <= Total(vs, iovcnt)
        invariant Buffered(o, fd) || Total(vs, i) == 0
        invariant State() == FeedIovecs(o, fd, h, vs, i)
      {
        IovecsAt(h, iov, iovcnt, i, at);
        TotalBounds(vs, i, iovcnt);
        assert heap[..] == h;
        var len, step := PrintIovec(fd, at, o, h, vs, i);
        if step.Failure? {
          FeedIovecsSilent(o, fd, h, vs, i);
          TotalBounds(vs, i, iovcnt);
          return Failure(step.error);
        }
        at := at + 8;
        num := num + len;
        i := i + 1;
      }
      if !Buffered(o, fd) {
        FeedIovecsSilent(o, fd, h, vs, iovcnt);
      }
      r := Success(num);
    }

    /**
     * fd_write: every byte each (ptr, len) pair points at goes through
     * printChar, in order; the sum of the lengths, as a 32-bit word, is
     * stored at `pnum`, and the result is 0. `iov` and `pnum` stay below
     * 2^31, where `>> 2` is a division by 4. Bytes for a stream without a
     * buffer throw before anything is printed or stored.
     */
    method FdWrite(fd: int, iov: nat, iovcnt: nat, pnum: nat) returns (r: Result<int>)
      requires 4 * (iov / 4 + 2 * iovcnt) <= heap.Length && iov + 8 * iovcnt <= 0x8000_0000 && pnum < 0x8000_0000
      requires InHeap(heap[..], Iovecs(heap[..], iov, iovcnt))
      modifies this, heap
      ensures var vs := Iovecs(old(heap[..]), iov, iovcnt);
        Buffered(old(State()), fd) || Total(vs, iovcnt) == 0 ==>
          r == Success(0) &&
          State() == FeedIovecs(old(State()), fd, old(heap[..]), vs, iovcnt) &&
          heap[..] == StoreWord(old(heap[..]), pnum / 4, Total(vs, iovcnt) % 0x1_0000_0000)
      ensures var vs := Iovecs(old(heap[..]), iov, iovcnt);
        !Buffered(old(State()), fd) && Total(vs, iovcnt) > 0 ==>
          r == Failure(NoLineBuffer) && State() == old(State()) && heap[..] == old(heap[..])
    {
      var num :- PrintIovecs(fd, iov, iovcnt);
      StoreU32(pnum / 4, num % 0x1_0000_0000);
      r := Success(0);
    }
  }
}
