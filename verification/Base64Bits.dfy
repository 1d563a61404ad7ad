/** The shifts and masks that the base64 code applies to bytes are the arithmetic of the model. */
module Base64Bits {
  lemma OrIsSum(p: bv8, q: bv8)
    requires p & q == 0
    ensures (p | q) as int == p as int + q as int
  {
    assert p | q == p + q && p <= p + q;
  }

  lemma LowTwo(x: bv8)
    ensures ((x & 0x03) << 4) as int == x as int % 4 * 16
  {
    assert (x & 0x03) as int == x as int % 4;
  }

  lemma LowFour(x: bv8)
    ensures ((x & 0x0f) << 2) as int == x as int % 16 * 4
  {
    assert (x & 0x0f) as int == x as int % 16;
  }

  // ---- The sextets of `Quad` and `Tail` ----

  lemma FirstSextet(x: bv8)
    ensures (x >> 2) as int == x as int / 4
  {
  }

  lemma SecondSextet(x: bv8, y: bv8)
    ensures (((x & 0x03) << 4) | (y >> 4)) as int == x as int % 4 * 16 + y as int / 16
  {
    LowTwo(x);
    OrIsSum((x & 0x03) << 4, y >> 4);
    assert (y >> 4) as int == y as int / 16;
  }

  lemma ThirdSextet(x: bv8, y: bv8)
    ensures (((x & 0x0f) << 2) | (y >> 6)) as int == x as int % 16 * 4 + y as int / 64
  {
    LowFour(x);
    OrIsSum((x & 0x0f) << 2, y >> 6);
    assert (y >> 6) as int == y as int / 64;
  }

  lemma FourthSextet(x: bv8)
    ensures (x & 0x3f) as int == x as int % 64
  {
  }

  // ---- The bytes of `Triple` ----

  /** Two numbers without a common bit, one of which is a product cut to eight bits. */
  lemma Joined(p: bv8, q: bv8, a: int, k: int, b: int)
    requires k == 4 || k == 16 || k == 64
    requires p & q == 0 && p as int == a * k % 256 && q as int == b && 0 <= b < k
    ensures (p | q) as int == (a * k + b) % 256
  {
    OrIsSum(p, q);
    ProductPlus(a, k, b);
  }

  lemma ProductPlus(a: int, k: int, b: int)
    requires (k == 4 || k == 16 || k == 64) && 0 <= b < k
    ensures (a * k + b) % 256 == a * k % 256 + b
  {
    if k == 4 {
      PlusTwoBits(a, b);
    } else if k == 16 {
      PlusFourBits(a, b);
    } else {
      PlusSixBits(a, b);
    }
  }

  lemma PlusTwoBits(a: int, b: int)
    requires 0 <= b < 4
    ensures (a * 4 + b) % 256 == a * 4 % 256 + b
  {
    var q, r := a * 4 / 256, a * 4 % 256;
    assert r == 4 * (a - 64 * q);
    Remainder(a * 4 + b, q, r + b);
  }

  lemma PlusFourBits(a: int, b: int)
    requires 0 <= b < 16
    ensures (a * 16 + b) % 256 == a * 16 % 256 + b
  {
    var q, r := a * 16 / 256, a * 16 % 256;
    assert r == 16 * (a - 16 * q);
    Remainder(a * 16 + b, q, r + b);
  }

  lemma PlusSixBits(a: int, b: int)
    requires 0 <= b < 64
    ensures (a * 64 + b) % 256 == a * 64 % 256 + b
  {
    var q, r := a * 64 / 256, a * 64 % 256;
    assert r == 64 * (a - 4 * q);
    Remainder(a * 64 + b, q, r + b);
  }

  lemma Remainder(n: int, q: int, r: int)
    requires n == 256 * q + r && 0 <= r < 256
    ensures n % 256 == r
  {
  }

  lemma FirstByte(x: bv8, y: bv8)
    requires y < 64
    ensures ((x << 2) | (y >> 4)) as int == (x as int * 4 + y as int / 16) % 256
  {
    var p, q := x << 2, y >> 4;
    assert p & q == 0 && q < 4;
    assert p as int == x as int * 4 % 256 by { Left2(x); }
    assert q as int == y as int / 16;
    Joined(p, q, x as int, 4, y as int / 16);
  }

  lemma SecondByte(x: bv8, y: bv8)
    requires y < 64
    ensures ((x << 4) | (y >> 2)) as int == (x as int * 16 + y as int / 4) % 256
  {
    var p, q := x << 4, y >> 2;
    assert p & q == 0 && q < 16;
    assert p as int == x as int * 16 % 256 by { Left4(x); }
    assert q as int == y as int / 4 by { FirstSextet(y); }
    Joined(p, q, x as int, 16, y as int / 4);
  }

  lemma ThirdByte(x: bv8, y: bv8)
    requires y < 64
    ensures ((x << 6) | y) as int == (x as int * 64 + y as int) % 256
  {
    var p := x << 6;
    assert p & y == 0;
    assert p as int == x as int * 64 % 256 by { Left6(x); }
    Joined(p, y, x as int, 64, y as int);
  }

  lemma Left2(x: bv8)
    ensures (x << 2) as int == x as int * 4 % 256
  {
  }

  lemma Left4(x: bv8)
    ensures (x << 4) as int == x as int * 16 % 256
  {
  }

  lemma Left6(x: bv8)
    ensures (x << 6) as int == x as int * 64 % 256
  {
  }
}
