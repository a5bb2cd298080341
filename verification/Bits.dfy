/** 32-bit words: wrap-around arithmetic, shifts and bitwise operations, digit by digit. */
module Bits {
  import opened Bytes

  function Pow2(n: nat): (p: nat)
    ensures p > 0
  {
    if n == 0 then 1 else 2 * Pow2(n - 1)
  }

  lemma Pow2Values()
    ensures Pow2(2) == 4 && Pow2(8) == 0x100 && Pow2(32) == 0x1_0000_0000
  {
    assert Pow2(16) == 0x1_0000;
    assert Pow2(24) == 0x100_0000;
  }

  function Bit(n: int): (b: nat)
    ensures b < 2
  {
    n % 2
  }

  /** Bitwise exclusive or, and, or of the n lowest bits. */
  function XorBits(a: nat, b: nat, n: nat): (r: nat)
    ensures r < Pow2(n)
  {
    if n == 0 then 0 else (Bit(a) + Bit(b)) % 2 + 2 * XorBits(a / 2, b / 2, n - 1)
  }

  function AndBits(a: nat, b: nat, n: nat): (r: nat)
    ensures r < Pow2(n)
  {
    if n == 0 then 0 else Bit(a) * Bit(b) + 2 * AndBits(a / 2, b / 2, n - 1)
  }

  function OrBits(a: nat, b: nat, n: nat): (r: nat)
    ensures r < Pow2(n)
  {
    if n == 0 then 0 else (if Bit(a) + Bit(b) > 0 then 1 else 0) + 2 * OrBits(a / 2, b / 2, n - 1)
  }

  function Xor(a: word, b: word): word {
    Pow2Values();
    XorBits(a, b, 32)
  }

  function And(a: word, b: word): word {
    Pow2Values();
    AndBits(a, b, 32)
  }

  function Or(a: word, b: word): word {
    Pow2Values();
    OrBits(a, b, 32)
  }

  function Not(a: word): word {
    0xFFFF_FFFF - a
  }

  function Add(a: word, b: word): word {
    (a + b) % 0x1_0000_0000
  }

  function Sub(a: word, b: word): word {
    (a - b) % 0x1_0000_0000
  }

  function Shl(a: word, n: nat): word
    decreases n
  {
    if n == 0 then a else Shl(a * 2 % 0x1_0000_0000, n - 1)
  }

  function Shr(a: word, n: nat): word
    decreases n
  {
    if n == 0 then a else Shr(a / 2, n - 1)
  }

  lemma AddSub(a: word, b: word)
    ensures Sub(Add(a, b), b) == a && Add(Sub(a, b), b) == a
  {
  }

  /** A multiple of an odd number vanishes modulo a power of two only where its factor does. */
  lemma {:induction false} OddMultiple(r: nat, d: nat, n: nat)
    requires d % 2 == 1 && r * d % Pow2(n) == 0
    ensures r % Pow2(n) == 0
    decreases n
  {
    if n > 0 {
      var p := Pow2(n - 1);
      var q := r * d / Pow2(n);
      assert r * d == 2 * (p * q) by {
        assert r * d == Pow2(n) * q;
      }
      var h := d / 2;
      assert r * d == 2 * (r * h) + r by {
        assert d == 2 * h + 1;
      }
      assert r == 2 * (p * q - r * h);
      var s := p * q - r * h;
      assert s * d == p * q by {
        assert 2 * s * d == r * d;
        assert 2 * (s * d) == 2 * s * d;
      }
      assert (p * q) % p == 0 by { MultipleMod(p, q); }
      OddMultiple(s, d, n - 1);
      var t := s / p;
      assert s == p * t;
      assert r == Pow2(n) * t by {
        assert r == 2 * (p * t);
      }
      MultipleMod(Pow2(n), t);
    }
  }

  lemma MulAtLeast(j: int, p: nat)
    ensures j >= 1 ==> j * p >= p
    ensures j <= -1 ==> j * p + p <= 0
  {
    if j >= 1 {
      assert j * p == (j - 1) * p + p;
    } else if j <= -1 {
      assert j * p == (j + 1) * p - p;
    }
  }

  lemma MultipleMod(p: nat, q: int)
    requires p > 0
    ensures (p * q) % p == 0
  {
    var x := p * q;
    var j := q - x / p;
    assert j * p == x % p by {
      assert x == p * (x / p) + x % p;
      assert j * p == q * p - (x / p) * p;
    }
    MulAtLeast(j, p);
  }
}
