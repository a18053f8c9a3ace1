/** The fixed-point codec of openBCISample.js: big-endian two's complement
    24-bit and 16-bit values read from a Buffer (interpret24bitAsInt32,
    interpret16bitAsInt32), the integer half of their inverses
    (floatTo3ByteBuffer, floatTo2ByteBuffer), and the linear scale factors that
    turn counts into volts and accelerometer units. */
module Codec {
  import opened Common
  import opened Int32

  /** Reference voltage of the ADS1299 ADC, in volts. */
  const Ads1299Vref: real := 4.5
  /** 2^23 - 1, the full-scale code of the 24-bit ADC. */
  const FullScale24: real := 8388607.0
  /** Accelerometer units per count: 0.002 / 2^4. */
  const ScaleFactorAccel: real := 0.002 / 16.0
  /** Volts per count that floatTo3ByteBuffer divides by: the channel scale at gain 24. */
  const EncodeScale24: real := Ads1299Vref / 24.0 / FullScale24

  /** The 32-bit pattern `(prefix << 24) | (b0 << 16) | (b1 << 8) | b2` is the
      four bytes side by side. */
  lemma Fields24(prefix: byte, b0: byte, b1: byte, b2: byte)
    ensures BitOr(BitOr(BitOr(Shl(prefix, 24), Shl(b0, 16)), Shl(b1, 8)), b2)
            == prefix * 0x100_0000 + b0 * 0x1_0000 + b1 * 0x100 + b2
  {
    var high := prefix * 0x100 + b0;
    var upper := high * 0x100 + b1;
    var s1 := BitOr(Shl(prefix, 24), Shl(b0, 16));
    assert s1 == high * 0x1_0000 by {
      Pow2Values();
      ShlExact(prefix, 24, 0x100_0000);
      ShlExact(b0, 16, 0x1_0000);
      BitOrStep(prefix, 0x100_0000, 24, b0 * 0x1_0000);
    }
    var s2 := BitOr(s1, Shl(b1, 8));
    assert s2 == upper * 0x100 by {
      Pow2Values();
      ShlExact(b1, 8, 0x100);
      BitOrStep(high, 0x1_0000, 16, b1 * 0x100);
    }
    assert BitOr(s2, b2) == upper * 0x100 + b2 by {
      Pow2Values();
      BitOrStep(upper, 0x100, 8, b2);
    }
  }

  /** The 32-bit pattern `(prefix << 16) | (b0 << 8) | b1` is the three parts side by side. */
  lemma Fields16(prefix: int, b0: byte, b1: byte)
    requires 0 <= prefix < 0x1_0000
    ensures BitOr(BitOr(Shl(prefix, 16), Shl(b0, 8)), b1) == prefix * 0x1_0000 + b0 * 0x100 + b1
  {
    var high := prefix * 0x100 + b0;
    var s1 := BitOr(Shl(prefix, 16), Shl(b0, 8));
    assert s1 == high * 0x100 by {
      Pow2Values();
      ShlExact(prefix, 16, 0x1_0000);
      ShlExact(b0, 8, 0x100);
      BitOrStep(prefix, 0x1_0000, 16, b0 * 0x100);
    }
    assert BitOr(s1, b1) == high * 0x100 + b1 by {
      Pow2Values();
      BitOrStep(high, 0x100, 8, b1);
    }
  }

  /** interpret24bitAsInt32: the prefix byte 255 stands in front of a first byte
      above 127, and the four bytes are or-ed into a signed 32-bit value. Bytes
      the buffer lacks read as 0. The result is the big-endian two's complement
      value of the three bytes. */
  function Interpret24bitAsInt32(buf: seq<byte>): (r: int)
    ensures r == 0x1_0000 * ByteAt(buf, 0) + 0x100 * ByteAt(buf, 1) + ByteAt(buf, 2)
                 - (if ByteAt(buf, 0) > 127 then 0x100_0000 else 0)
    ensures -0x80_0000 <= r < 0x80_0000
  {
    var b0, b1, b2 := ByteAt(buf, 0), ByteAt(buf, 1), ByteAt(buf, 2);
    var prefix := if b0 > 127 then 255 else 0;
    Fields24(prefix, b0, b1, b2);
    ToInt32(BitOr(BitOr(BitOr(Shl(prefix, 24), Shl(b0, 16)), Shl(b1, 8)), b2))
  }

  /** interpret16bitAsInt32: the prefix 0xFFFF stands in front of a first byte
      above 127. The result is the big-endian two's complement value of the two bytes. */
  function Interpret16bitAsInt32(buf: seq<byte>): (r: int)
    ensures r == 0x100 * ByteAt(buf, 0) + ByteAt(buf, 1) - (if ByteAt(buf, 0) > 127 then 0x1_0000 else 0)
    ensures -0x8000 <= r < 0x8000
  {
    var b0, b1 := ByteAt(buf, 0), ByteAt(buf, 1);
    var prefix := if b0 > 127 then 0xFFFF else 0;
    Fields16(prefix, b0, b1);
    ToInt32(BitOr(BitOr(Shl(prefix, 16), Shl(b0, 8)), b1))
  }

  /** What `temp & 255`, `temp & (255 << 8)` and `temp & (255 << 16)` keep of a count. */
  lemma ByteLanes(c: int)
    ensures BitAnd(ToUint32(c), 255) == c % 256
    ensures BitAnd(ToUint32(c), Shl(255, 8)) == ((c / 0x100) % 256) * 0x100
    ensures BitAnd(ToUint32(c), Shl(255, 16)) == ((c / 0x1_0000) % 256) * 0x1_0000
  {
    var t := ToUint32(c);
    LowBytesOfPattern(c);
    assert BitAnd(t, 255) == c % 256 by {
      Pow2Values();
      MaskLow(t, 8);
    }
    assert BitAnd(t, Shl(255, 8)) == ((t / 0x100) % 256) * 0x100 by {
      Pow2Values();
      ShlExact(255, 8, 0x100);
      MaskByte(t, 8);
    }
    assert BitAnd(t, Shl(255, 16)) == ((t / 0x1_0000) % 256) * 0x1_0000 by {
      Pow2Values();
      ShlExact(255, 16, 0x1_0000);
      MaskByte(t, 16);
    }
  }

  /** A masked byte lane shifted back down by `>>` is the byte itself. */
  lemma LaneShift(lane: int, y: byte, k: nat)
    requires k <= 16 && lane == y * Pow2(k)
    ensures 0 <= lane < TwoTo31
    ensures Sar(ToInt32(lane), k) == y
  {
    var p := Pow2(k);
    assert p <= 0x1_0000 by {
      Pow2Values();
      Pow2Monotone(k, 16);
    }
    assert 0 <= lane < TwoTo31 by {
      MulLe(y, p, 255, 0x1_0000);
    }
    assert ToInt32(lane) == lane;
    assert lane / p == y by {
      DivUnique(lane, p, y, 0);
    }
  }

  /** The integer half of floatTo3ByteBuffer: the already floored count is split
      into three bytes with `&` masks and `>>` shifts. The bytes are those of
      the count modulo 2^24, most significant first. */
  function FloatTo3ByteBuffer(count: int): (r: seq<byte>)
    ensures r == [(count / 0x1_0000) % 256, (count / 0x100) % 256, count % 256]
  {
    var t := ToUint32(count);
    ByteLanes(count);
    Pow2Values();
    var high, middle, low := BitAnd(t, Shl(255, 16)), BitAnd(t, Shl(255, 8)), BitAnd(t, 255);
    LaneShift(high, (count / 0x1_0000) % 256, 16);
    LaneShift(middle, (count / 0x100) % 256, 8);
    [Sar(ToInt32(high), 16), Sar(ToInt32(middle), 8), ToInt32(low)]
  }

  /** The integer half of floatTo2ByteBuffer: the bytes of the count modulo 2^16,
      most significant first. */
  function FloatTo2ByteBuffer(count: int): (r: seq<byte>)
    ensures r == [(count / 0x100) % 256, count % 256]
  {
    var t := ToUint32(count);
    ByteLanes(count);
    Pow2Values();
    var middle, low := BitAnd(t, Shl(255, 8)), BitAnd(t, 255);
    LaneShift(middle, (count / 0x100) % 256, 8);
    [Sar(ToInt32(middle), 8), ToInt32(low)]
  }

  /** `Math.floor(float / (ADS1299_VREF / 24 / (2^23 - 1)))`, the count
      floatTo3ByteBuffer encodes (exact real division). */
  function Counts24(v: real): int
  {
    (v / EncodeScale24).Floor
  }

  /** `Math.floor(float / SCALE_FACTOR_ACCEL)`, the count floatTo2ByteBuffer encodes. */
  function Counts16(v: real): int
  {
    (v / ScaleFactorAccel).Floor
  }

  /** Three bytes of a count put back together give the count modulo 2^24. */
  lemma BytesOf24(c: int)
    ensures 0x1_0000 * ((c / 0x1_0000) % 256) + 0x100 * ((c / 0x100) % 256) + c % 256 == c % 0x100_0000
  {
    var n0, c1 := c % 256, c / 256;
    var n1, c2 := c1 % 256, c1 / 256;
    var n2, c3 := c2 % 256, c2 / 256;
    assert c == 0x1_0000 * c2 + (0x100 * n1 + n0);
    DivUnique(c, 0x1_0000, c2, 0x100 * n1 + n0);
    assert c == 0x100 * c1 + n0;
    DivUnique(c, 0x100, c1, n0);
    assert c == 0x100_0000 * c3 + (0x1_0000 * n2 + 0x100 * n1 + n0);
    DivUnique(c, 0x100_0000, c3, 0x1_0000 * n2 + 0x100 * n1 + n0);
  }

  /** Two bytes of a count put back together give the count modulo 2^16. */
  lemma BytesOf16(c: int)
    ensures 0x100 * ((c / 0x100) % 256) + c % 256 == c % 0x1_0000
  {
    var n0, c1 := c % 256, c / 256;
    var n1, c2 := c1 % 256, c1 / 256;
    assert c == 0x100 * c1 + n0;
    DivUnique(c, 0x100, c1, n0);
    assert c == 0x1_0000 * c2 + (0x100 * n1 + n0);
    DivUnique(c, 0x1_0000, c2, 0x100 * n1 + n0);
  }

  /** Encoding any count into three bytes and reading them back yields the count
      wrapped into the signed 24-bit range: the two functions are inverse up to
      the 24-bit truncation of the encoder. */
  lemma Int24Wrap(c: int)
    ensures Interpret24bitAsInt32(FloatTo3ByteBuffer(c)) == c - 0x100_0000 * ((c + 0x80_0000) / 0x100_0000)
  {
    BytesOf24(c);
    var w, q := c % 0x100_0000, c / 0x100_0000;
    assert c == q * 0x100_0000 + w;
    if w < 0x80_0000 {
      DivUnique(c + 0x80_0000, 0x100_0000, q, w + 0x80_0000);
    } else {
      DivUnique(c + 0x80_0000, 0x100_0000, q + 1, w - 0x80_0000);
    }
  }

  /** floatTo3ByteBuffer is the opposite of interpret24bitAsInt32 on every count
      of the signed 24-bit range. */
  lemma Int24RoundTrip(c: int)
    requires -0x80_0000 <= c < 0x80_0000
    ensures Interpret24bitAsInt32(FloatTo3ByteBuffer(c)) == c
  {
    Int24Wrap(c);
    DivUnique(c + 0x80_0000, 0x100_0000, 0, c + 0x80_0000);
  }

  /** The other direction: every three-byte buffer is the encoding of the value read from it. */
  lemma Bytes24RoundTrip(b: seq<byte>)
    requires |b| == 3
    ensures FloatTo3ByteBuffer(Interpret24bitAsInt32(b)) == b
  {
    var b0, b1, b2: int := b[0], b[1], b[2];
    var c := Interpret24bitAsInt32(b);
    var top: int := if b0 > 127 then b0 - 256 else b0;
    assert c == 0x100 * (0x100 * top + b1) + b2;
    DivUnique(c, 0x100, 0x100 * top + b1, b2);
    DivUnique(0x100 * top + b1, 0x100, top, b1);
    assert c == 0x1_0000 * top + (0x100 * b1 + b2);
    DivUnique(c, 0x1_0000, top, 0x100 * b1 + b2);
    DivUnique(top, 0x100, if b0 > 127 then -1 else 0, b0);
    assert FloatTo3ByteBuffer(c) == [b0, b1, b2];
  }

  /** The 16-bit analogue of Int24Wrap. */
  lemma Int16Wrap(c: int)
    ensures Interpret16bitAsInt32(FloatTo2ByteBuffer(c)) == c - 0x1_0000 * ((c + 0x8000) / 0x1_0000)
  {
    BytesOf16(c);
    var w, q := c % 0x1_0000, c / 0x1_0000;
    assert c == q * 0x1_0000 + w;
    if w < 0x8000 {
      DivUnique(c + 0x8000, 0x1_0000, q, w + 0x8000);
    } else {
      DivUnique(c + 0x8000, 0x1_0000, q + 1, w - 0x8000);
    }
  }

  /** floatTo2ByteBuffer is the opposite of interpret16bitAsInt32 on the signed 16-bit range. */
  lemma Int16RoundTrip(c: int)
    requires -0x8000 <= c < 0x8000
    ensures Interpret16bitAsInt32(FloatTo2ByteBuffer(c)) == c
  {
    Int16Wrap(c);
    DivUnique(c + 0x8000, 0x1_0000, 0, c + 0x8000);
  }

  /** Every two-byte buffer is the encoding of the value read from it. */
  lemma Bytes16RoundTrip(b: seq<byte>)
    requires |b| == 2
    ensures FloatTo2ByteBuffer(Interpret16bitAsInt32(b)) == b
  {
    var c := Interpret16bitAsInt32(b);
    var top: int := if b[0] > 127 then b[0] as int - 256 else b[0] as int;
    assert c == 0x100 * top + b[1];
    DivUnique(c, 0x100, top, b[1]);
    DivUnique(top, 0x100, if b[0] > 127 then -1 else 0, b[0]);
  }

  /** The extreme codes of the 24-bit reading. */
  lemma SignExtension24Examples()
    ensures Interpret24bitAsInt32([0xFF, 0xFF, 0xFF]) == -1
    ensures Interpret24bitAsInt32([0x7F, 0xFF, 0xFF]) == 0x7F_FFFF
    ensures Interpret24bitAsInt32([0x80, 0x00, 0x00]) == -0x80_0000
  {
  }

  /** The extreme codes of the 16-bit reading. */
  lemma SignExtension16Examples()
    ensures Interpret16bitAsInt32([0xFF, 0xFF]) == -1
    ensures Interpret16bitAsInt32([0x7F, 0xFF]) == 0x7FFF
    ensures Interpret16bitAsInt32([0x80, 0x00]) == -0x8000
  {
  }

  /** A value that is a whole number of counts encodes to exactly that count. */
  lemma Counts24OfCode(c: int)
    ensures Counts24(c as real * EncodeScale24) == c
  {
    assert (c as real * EncodeScale24) / EncodeScale24 == c as real;
  }

  /** The accelerometer analogue of Counts24OfCode. */
  lemma Counts16OfCode(c: int)
    ensures Counts16(c as real * ScaleFactorAccel) == c
  {
    assert (c as real * ScaleFactorAccel) / ScaleFactorAccel == c as real;
  }

  /** The floor of v / s, scaled back by s > 0, is the multiple of s at or
      below v, less than one step s below it. */
  lemma FloorStep(v: real, s: real)
    requires s > 0.0
    ensures ((v / s).Floor as real) * s <= v < ((v / s).Floor as real) * s + s
  {
    var q := v / s;
    var c := q.Floor as real;
    var d := q - c;
    assert 0.0 <= d < 1.0;
    assert v == c * s + d * s by {
      assert q * s == v;
      assert (c + d) * s == c * s + d * s;
    }
    FractionOfStep(d, s);
    WithinStep(v, s, c, d * s);
  }

  lemma FractionOfStep(d: real, s: real)
    requires 0.0 <= d < 1.0 && s > 0.0
    ensures 0.0 <= d * s < s
  {
    assert (1.0 - d) * s > 0.0;
  }

  lemma WithinStep(v: real, s: real, c: real, e: real)
    requires v == c * s + e && 0.0 <= e < s
    ensures c * s <= v < c * s + s
  {
  }

  /** Counts24 rounds down: the count's voltage at the gain-24 scale is at or
      below v and less than one count below it. */
  lemma Counts24Step(v: real)
    ensures Counts24(v) as real * EncodeScale24 <= v < Counts24(v) as real * EncodeScale24 + EncodeScale24
  {
    FloorStep(v, EncodeScale24);
  }

  /** Counts16 rounds down to a whole number of accelerometer counts. */
  lemma Counts16Step(v: real)
    ensures Counts16(v) as real * ScaleFactorAccel <= v < Counts16(v) as real * ScaleFactorAccel + ScaleFactorAccel
  {
    FloorStep(v, ScaleFactorAccel);
  }
}
