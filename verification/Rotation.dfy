/** What shifts and rotations of words do to their values. */
module Rotation {
  import opened Bytes
  import opened Bits

  lemma DivModUnique(x: int, p: nat, q: int, r: nat)
    requires p > 0 && x == q * p + r && r < p
    ensures x % p == r && x / p == q
  {
    var j := q - x / p;
    assert j * p == x % p - r by {
      assert x == (x / p) * p + x % p;
      assert j * p == q * p - (x / p) * p;
    }
    MulAtLeast(j, p);
    assert j == 0;
  }

  lemma {:induction false} Pow2Add(m: nat, n: nat)
    ensures Pow2(m + n) == Pow2(m) * Pow2(n)
    decreases m
  {
    if m > 0 {
      Pow2Add(m - 1, n);
      MulAssoc(2, Pow2(m - 1), Pow2(n));
      assert Pow2(m + n) == 2 * Pow2(m - 1 + n);
    }
  }

  lemma DoubleMod(v: nat, k: nat)
    ensures (2 * v) % Pow2(k + 1) == 2 * (v % Pow2(k))
  {
    var p := Pow2(k);
    var q, r := v / p, v % p;
    assert v == q * p + r;
    assert 2 * v == q * (2 * p) + 2 * r by {
      assert q * (2 * p) == 2 * (q * p);
    }
    DivModUnique(2 * v, 2 * p, q, 2 * r);
  }

  lemma HalfDiv(v: nat, k: nat)
    ensures v / Pow2(k + 1) == (v / 2) / Pow2(k)
  {
    var p := Pow2(k);
    var h := v / 2;
    var q, r := h / p, h % p;
    assert h == q * p + r;
    var b := v % 2;
    assert v == q * (2 * p) + (2 * r + b) by {
      assert v == 2 * h + b;
      assert q * (2 * p) == 2 * (q * p);
    }
    DivModUnique(v, 2 * p, q, 2 * r + b);
  }

  lemma MulAssoc(a: int, b: int, c: int)
    ensures a * (b * c) == (a * b) * c
  {
  }

  lemma Distribute(a: int, b: int, c: int)
    ensures (a + b) * c == a * c + b * c
  {
  }

  lemma DivBound(v: nat, p: nat, q: nat)
    requires p > 0 && v < q * p
    ensures v / p < q
  {
    var j := v / p - q;
    Distribute(j, q, p);
    assert v == (v / p) * p + v % p;
    MulAtLeast(j + 1, p);
    Distribute(j, 1, p);
  }

  lemma DivMod(v: nat, p: nat)
    requires p > 0
    ensures v == (v / p) * p + v % p && 0 <= v % p < p
  {
  }

  lemma NestedMod(v: nat, pk: nat, pd: nat, q: nat, r: nat, q2: nat, r2: nat)
    requires v == q * (pd * pk) + r && r == q2 * pk + r2 && r2 < pk
    ensures v % pk == r2
  {
    MulAssoc(q, pd, pk);
    Distribute(q * pd, q2, pk);
    DivModUnique(v, pk, q * pd + q2, r2);
  }

  lemma ModModParts(v: nat, pk: nat, pd: nat, pm: nat)
    requires pk > 0 && pm > 0 && pm == pd * pk
    ensures (v % pm) % pk == v % pk
  {
    DivMod(v, pm);
    ModModOf(v, pk, pd, v / pm, v % pm);
  }

  lemma ModModOf(v: nat, pk: nat, pd: nat, q: nat, r: nat)
    requires pk > 0 && v == q * (pd * pk) + r
    ensures r % pk == v % pk
  {
    DivMod(r, pk);
    NestedMod(v, pk, pd, q, r, r / pk, r % pk);
  }

  lemma ModMod(v: nat, k: nat, m: nat)
    requires k <= m
    ensures (v % Pow2(m)) % Pow2(k) == v % Pow2(k)
  {
    hide Pow2;
    Pow2Add(m - k, k);
    ModModParts(v, Pow2(k), Pow2(m - k), Pow2(m));
  }

  lemma Doubled(c: nat, n: nat)
    requires n > 0
    ensures c * Pow2(n) == 2 * (c * Pow2(n - 1))
  {
    MulAssoc(c, 2, Pow2(n - 1));
    MulAssoc(2, c, Pow2(n - 1));
  }

  lemma {:induction false} ShlIs(v: word, n: nat)
    requires n <= 32
    ensures Shl(v, n) == (v % Pow2(32 - n)) * Pow2(n)
    decreases n
  {
    Pow2Values();
    if n == 0 {
      DivModUnique(v, Pow2(32), 0, v);
    } else {
      hide Pow2;
      ShlIs(v * 2 % 0x1_0000_0000, n - 1);
      ModMod(2 * v, 33 - n, 32);
      DoubleMod(v, 32 - n);
      var c := v % Pow2(32 - n);
      Doubled(c, n);
      MulAssoc(2, c, Pow2(n - 1));
    }
  }

  lemma {:induction false} ShrIs(v: word, n: nat)
    ensures Shr(v, n) == v / Pow2(n)
    decreases n
  {
    if n > 0 {
      ShrIs(v / 2, n - 1);
      HalfDiv(v, n - 1);
    }
  }

  lemma OddMod(v: nat, k: nat)
    ensures v % Pow2(k + 1) == 2 * ((v / 2) % Pow2(k)) + v % 2
  {
    var p := Pow2(k);
    var h, b := v / 2, v % 2;
    DivMod(h, p);
    MulAssoc(h / p, 2, p);
    DivModUnique(v, 2 * p, h / p, 2 * (h % p) + b);
  }

  lemma {:induction false} OrNothing(a: nat, m: nat)
    ensures OrBits(a, 0, m) == a % Pow2(m)
    decreases m
  {
    if m > 0 {
      OrNothing(a / 2, m - 1);
      OddMod(a, m - 1);
    }
  }

  lemma OrStep(x: nat, b: nat, m: nat)
    requires m > 0
    ensures OrBits(2 * x, b, m) == b % 2 + 2 * OrBits(x, b / 2, m - 1)
  {
    assert (2 * x) / 2 == x;
  }

  /** Numbers without a common bit are added. */
  lemma {:induction false} OrDisjoint(a: nat, b: nat, n: nat, m: nat)
    requires n <= m && b < Pow2(n)
    ensures OrBits(a * Pow2(n), b, m) == (a % Pow2(m - n)) * Pow2(n) + b
    decreases n
  {
    hide OrBits;
    if n == 0 {
      OrNothing(a, m);
    } else {
      var p := Pow2(n - 1);
      assert b / 2 < p;
      hide Pow2;
      OrDisjoint(a, b / 2, n - 1, m - 1);
      Doubled(a, n);
      OrStep(a * p, b, m);
      Doubled(a % Pow2(m - n), n);
    }
  }

  /** Or of the two shifts is the rotation: the high n bits become the low ones. */
  lemma RotationIs(v: word, n: nat)
    requires n <= 32
    ensures Or(Shl(v, n), Shr(v, 32 - n)) == (v % Pow2(32 - n)) * Pow2(n) + v / Pow2(32 - n)
  {
    Pow2Values();
    hide Pow2, Shl, Shr, OrBits;
    ShlIs(v, n);
    ShrIs(v, 32 - n);
    Pow2Add(n, 32 - n);
    DivBound(v, Pow2(32 - n), Pow2(n));
    DivMod(v, Pow2(32 - n));
    Rotated(v % Pow2(32 - n), v / Pow2(32 - n), n);
  }

  lemma Rotated(a: nat, b: nat, n: nat)
    requires n <= 32 && a < Pow2(32 - n) && b < Pow2(n)
    ensures OrBits(a * Pow2(n), b, 32) == a * Pow2(n) + b
  {
    hide Pow2, OrBits;
    OrDisjoint(a, b, n, 32);
    DivModUnique(a, Pow2(32 - n), 0, a);
  }
}
