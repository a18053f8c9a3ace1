/** The JavaScript operators the codec is written with, on the 32-bit two's
    complement patterns ECMAScript evaluates them on: ToInt32, ToUint32, `<<`,
    `>>`, `|` and `&`. A pattern is a natural number below 2^32. */
module Int32 {

  const TwoTo31: int := 0x8000_0000
  const TwoTo32: int := 0x1_0000_0000

  type Pattern = x: int | 0 <= x < 0x1_0000_0000

  function Pow2(k: nat): (r: nat)
    ensures r >= 1
  {
    if k == 0 then 1 else 2 * Pow2(k - 1)
  }

  lemma Pow2Values()
    ensures Pow2(8) == 0x100 && Pow2(16) == 0x1_0000 && Pow2(24) == 0x100_0000
  {
    assert Pow2(4) == 16 by {
      assert Pow2(1) == 2 && Pow2(2) == 4 && Pow2(3) == 8;
    }
    assert Pow2(8) == 0x100 by {
      assert Pow2(5) == 32 && Pow2(6) == 64 && Pow2(7) == 128;
    }
    assert Pow2(12) == 0x1000 by {
      assert Pow2(9) == 0x200 && Pow2(10) == 0x400 && Pow2(11) == 0x800;
    }
    assert Pow2(16) == 0x1_0000 by {
      assert Pow2(13) == 0x2000 && Pow2(14) == 0x4000 && Pow2(15) == 0x8000;
    }
    assert Pow2(20) == 0x10_0000 by {
      assert Pow2(17) == 0x2_0000 && Pow2(18) == 0x4_0000 && Pow2(19) == 0x8_0000;
    }
    assert Pow2(24) == 0x100_0000 by {
      assert Pow2(21) == 0x20_0000 && Pow2(22) == 0x40_0000 && Pow2(23) == 0x80_0000;
    }
  }

  lemma {:induction false} Pow2Monotone(j: nat, k: nat)
    requires j <= k
    ensures Pow2(j) <= Pow2(k)
    decreases k - j
  {
    if j < k {
      Pow2Monotone(j, k - 1);
    }
  }

  /** ToUint32: the bit pattern of an integer, i.e. its value modulo 2^32. */
  function ToUint32(x: int): (p: Pattern)
    ensures 0 <= x < TwoTo32 ==> p == x
  {
    x % TwoTo32
  }

  /** ToInt32: the signed reading of a pattern. */
  function ToInt32(p: Pattern): (r: int)
    ensures -TwoTo31 <= r < TwoTo31
    ensures (r - p) % TwoTo32 == 0
  {
    if p < TwoTo31 then p else p - TwoTo32
  }

  /** `x << k`, as the pattern it produces. */
  function Shl(x: int, k: nat): (p: Pattern)
  {
    (ToUint32(x) * Pow2(k)) % TwoTo32
  }

  /** `v >> k` on a signed 32-bit value: shifting right while copying the sign bit
      is floor division by 2^k. */
  function Sar(v: int, k: nat): int
  {
    v / Pow2(k)
  }

  /** Bitwise or of two naturals, one bit at a time from the low end. */
  function BitOr(a: nat, b: nat): nat
    decreases a + b
  {
    if a == 0 then b
    else if b == 0 then a
    else 2 * BitOr(a / 2, b / 2) + (if a % 2 == 1 || b % 2 == 1 then 1 else 0)
  }

  /** Bitwise and of two naturals, one bit at a time from the low end. */
  function BitAnd(a: nat, b: nat): nat
    decreases a + b
  {
    if a == 0 || b == 0 then 0
    else 2 * BitAnd(a / 2, b / 2) + (if a % 2 == 1 && b % 2 == 1 then 1 else 0)
  }

  /** Or-ing a value whose set bits all lie below bit k into a multiple of 2^k adds it. */
  lemma {:induction false} BitOrDisjoint(a: nat, k: nat, b: nat)
    requires b < Pow2(k)
    ensures BitOr(a * Pow2(k), b) == a * Pow2(k) + b
  {
    if a == 0 || b == 0 {
    } else {
      var h := a * Pow2(k - 1);
      assert a * Pow2(k) == 2 * h;
      assert (2 * h) / 2 == h && (2 * h) % 2 == 0;
      BitOrDisjoint(a, k - 1, b / 2);
    }
  }

  /** BitOrDisjoint with the power of two given as a number. */
  lemma BitOrStep(a: nat, p: nat, k: nat, b: nat)
    requires p == Pow2(k) && b < p
    ensures BitOr(a * p, b) == a * p + b
  {
    BitOrDisjoint(a, k, b);
  }

  /** A left shift that stays below 2^32 is a multiplication. */
  lemma ShlExact(x: nat, k: nat, p: nat)
    requires p == Pow2(k) && x < TwoTo32 && x * p < TwoTo32
    ensures Shl(x, k) == x * p
  {
  }

  /** And-ing with 2^n - 1 keeps the low n bits. */
  lemma {:induction false} MaskLow(x: nat, n: nat)
    ensures BitAnd(x, Pow2(n) - 1) == x % Pow2(n)
  {
    var p := Pow2(n);
    if n == 0 {
      ByOne(x, p);
    } else if x == 0 {
      ZeroMod(p);
    } else {
      var m := Pow2(n - 1);
      var mask := m - 1;
      var low := BitAnd(x / 2, mask);
      assert low == (x / 2) % m by {
        MaskLow(x / 2, n - 1);
      }
      assert BitAnd(x, p - 1) == 2 * low + x % 2 by {
        assert p - 1 == 2 * mask + 1;
        HalveOdd(mask);
      }
      assert 2 * low + x % 2 == x % p by {
        assert p == 2 * m;
        HalveMod(x, m);
      }
    }
  }

  lemma ByOne(x: nat, p: int)
    requires p == 1
    ensures BitAnd(x, p - 1) == 0 && x / p == x && x % p == 0
  {
  }

  lemma ZeroMod(p: int)
    requires p > 0
    ensures BitAnd(0, p - 1) == 0 && 0 % p == 0
  {
  }

  /** And-ing with 255 keeps the low byte. */
  lemma MaskLowByte(x: nat)
    ensures BitAnd(x, 255) == x % 256
  {
    assert Pow2(8) - 1 == 255 && Pow2(8) == 256 by {
      Pow2Values();
    }
    MaskLow(x, 8);
  }

  /** And-ing with 255 << k keeps the byte that starts at bit k, in place. */
  lemma {:induction false} MaskByte(x: nat, k: nat)
    ensures BitAnd(x, 255 * Pow2(k)) == ((x / Pow2(k)) % 256) * Pow2(k)
  {
    var p := Pow2(k);
    if k == 0 {
      MaskByteBase(x, p);
    } else {
      var m := Pow2(k - 1);
      var y := (x / p) % 256;
      var b := BitAnd(x / 2, 255 * m);
      assert b == y * m by {
        assert p == 2 * m;
        HalveDiv(x, m);
        MaskByte(x / 2, k - 1);
      }
      assert BitAnd(x, 255 * p) == 2 * b by {
        assert 255 * p == 2 * (255 * m);
        BitAndEven(x, 255 * m);
      }
      assert 2 * b == y * p by {
        assert p == 2 * m;
        ShiftedLane(y, m);
      }
    }
  }

  lemma MaskByteBase(x: nat, p: int)
    requires p == 1
    ensures BitAnd(x, 255 * p) == ((x / p) % 256) * p
  {
    MaskLowByte(x);
  }

  /** And-ing with an even mask drops the low bit of both sides. */
  lemma BitAndEven(x: nat, h: nat)
    requires h > 0
    ensures BitAnd(x, 2 * h) == 2 * BitAnd(x / 2, h)
  {
    HalveEven(h);
  }

  lemma ShiftedLane(y: int, m: int)
    ensures 2 * (y * m) == y * (2 * m)
  {
  }

  lemma HalveOdd(h: nat)
    ensures (2 * h + 1) / 2 == h && (2 * h + 1) % 2 == 1
  {
  }

  lemma HalveEven(h: nat)
    ensures (2 * h) / 2 == h && (2 * h) % 2 == 0
  {
  }

  /** x mod 2m in terms of x/2 mod m and the low bit. */
  lemma HalveMod(x: nat, m: nat)
    requires m > 0
    ensures x % (2 * m) == 2 * ((x / 2) % m) + x % 2
  {
    var q := (x / 2) / m;
    var r := 2 * ((x / 2) % m) + x % 2;
    assert x / 2 == q * m + (x / 2) % m;
    assert x == q * (2 * m) + r;
    DivUnique(x, 2 * m, q, r);
  }

  /** Dividing by 2 and then by m is dividing by 2m. */
  lemma HalveDiv(x: nat, m: nat)
    requires m > 0
    ensures (x / 2) / m == x / (2 * m)
  {
    var q := (x / 2) / m;
    var r := 2 * ((x / 2) % m) + x % 2;
    assert x / 2 == q * m + (x / 2) % m;
    assert x == q * (2 * m) + r;
    DivUnique(x, 2 * m, q, r);
  }

  lemma {:induction false} MulAtLeast(k: int, m: int)
    requires k >= 1 && m > 0
    ensures k * m >= m
    decreases k
  {
    if k > 1 {
      MulAtLeast(k - 1, m);
      assert k * m == (k - 1) * m + m;
    }
  }

  /** Products of naturals grow with their factors. */
  lemma MulLe(a: int, b: int, c: int, d: int)
    requires 0 <= a <= c && 0 <= b <= d
    ensures 0 <= a * b <= c * d
  {
    assert a * b <= c * b;
    assert c * b <= c * d;
  }

  /** Euclidean division is determined by any quotient and remainder that fit. */
  lemma DivUnique(x: int, m: int, q: int, e: int)
    requires m > 0 && 0 <= e < m && x == q * m + e
    ensures x / m == q && x % m == e
  {
    var q', e' := x / m, x % m;
    assert x == q' * m + e';
    var d := q - q';
    assert d * m == e' - e by {
      assert q * m - q' * m == (q - q') * m;
    }
    if d >= 1 {
      MulAtLeast(d, m);
    } else if d <= -1 {
      MulAtLeast(-d, m);
    }
  }

  lemma DivMulAdd(a: int, m: int, r: int)
    requires m > 0
    ensures (a * m + r) / m == a + r / m
    ensures (a * m + r) % m == r % m
  {
    var d, e := r / m, r % m;
    assert r == d * m + e;
    assert a * m + r == (a + d) * m + e;
    DivUnique(a * m + r, m, a + d, e);
  }

  /** Reducing modulo 2^32 first does not change the bytes at bits 0, 8 and 16. */
  lemma LowBytesOfPattern(c: int)
    ensures (ToUint32(c) / 0x1_0000) % 256 == (c / 0x1_0000) % 256
    ensures (ToUint32(c) / 0x100) % 256 == (c / 0x100) % 256
    ensures ToUint32(c) % 256 == c % 256
  {
    var q, r := c / TwoTo32, c % TwoTo32;
    assert c == (q * 0x1_0000) * 0x1_0000 + r;
    DivMulAdd(q * 0x1_0000, 0x1_0000, r);
    DivMulAdd(q * 0x100, 256, r / 0x1_0000);
    assert c == (q * 0x100_0000) * 0x100 + r;
    DivMulAdd(q * 0x100_0000, 0x100, r);
    DivMulAdd(q * 0x1_0000, 256, r / 0x100);
    assert c == (q * 0x100_0000) * 256 + r;
    DivMulAdd(q * 0x100_0000, 256, r);
  }
}
