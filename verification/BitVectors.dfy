/** The words of Bits as 32-bit vectors: every operation computes what the operation on vectors does. */
module BitVectors {
  import opened Bytes
  import opened Bits

  function Byte0(v: bv32): bv8 { (v & 0xFF) as bv8 }
  function Byte1(v: bv32): bv8 { ((v >> 8) & 0xFF) as bv8 }
  function Byte2(v: bv32): bv8 { ((v >> 16) & 0xFF) as bv8 }
  function Byte3(v: bv32): bv8 { ((v >> 24) & 0xFF) as bv8 }

  /** The number that a vector stands for, by its bytes. */
  function Val(v: bv32): word {
    Byte0(v) as int + 0x100 * (Byte1(v) as int + 0x100 * (Byte2(v) as int + 0x100 * (Byte3(v) as int)))
  }

  /** The lowest bit, and the others one place down. */
  function Low(v: bv32): bv32 { v & 1 }
  function Half(v: bv32): bv32 { v >> 1 }

  lemma HalfByte(x: bv8, y: bv8)
    ensures (x & 1) as int < 2 && x as int == 2 * ((x >> 1) as int) + ((x & 1) as int)
    ensures ((x >> 1) | (y << 7)) as int == (x >> 1) as int + 0x80 * ((y & 1) as int)
  {
  }

  lemma HalfBytes(v: bv32)
    ensures Byte0(Half(v)) == (Byte0(v) >> 1) | (Byte1(v) << 7)
    ensures Byte1(Half(v)) == (Byte1(v) >> 1) | (Byte2(v) << 7)
    ensures Byte2(Half(v)) == (Byte2(v) >> 1) | (Byte3(v) << 7)
    ensures Byte3(Half(v)) == Byte3(v) >> 1
  {
  }

  lemma LowBytes(v: bv32)
    ensures Byte0(Low(v)) == Byte0(v) & 1 && Byte1(Low(v)) == 0 && Byte2(Low(v)) == 0 && Byte3(Low(v)) == 0
  {
  }

  lemma ValZero()
    ensures Val(0) == 0 && Val(1) == 1
  {
  }

  lemma LowIs(v: bv32)
    ensures Low(v) == 0 || Low(v) == 1
  {
  }

  /** The number of the lowest bit, and of the others. */
  lemma Halves(v: bv32)
    ensures Val(v) == 2 * Val(Half(v)) + Val(Low(v)) && Val(Low(v)) < 2
  {
    hide Byte0, Byte1, Byte2, Byte3, Low, Half;
    HalfBytes(v);
    LowBytes(v);
    HalfByte(Byte0(v), Byte1(v));
    HalfByte(Byte1(v), Byte2(v));
    HalfByte(Byte2(v), Byte3(v));
    HalfByte(Byte3(v), 0);
  }

  lemma LowHalf(v: bv32)
    ensures Val(v) % 2 == Val(Low(v)) && Val(v) / 2 == Val(Half(v))
    ensures Val(Low(v)) == if Low(v) == 0 then 0 else 1
  {
    hide Val, Low, Half;
    Halves(v);
    LowIs(v);
    ValZero();
  }

  /** v has n bits at most. */
  predicate Short(v: bv32, n: nat) {
    if n == 0 then v == 0 else Short(Half(v), n - 1)
  }

  lemma {:induction false} ShortWithin(v: bv32, n: nat)
    requires Val(v) < Pow2(n)
    ensures Short(v, n)
    decreases n
  {
    hide Val, Half, Low;
    LowHalf(v);
    if n == 0 {
      OnlyZero(v);
    } else {
      ShortWithin(Half(v), n - 1);
    }
  }

  lemma OnlyZero(v: bv32)
    requires Val(v) == 0
    ensures v == 0
  {
    hide Byte0, Byte1, Byte2, Byte3;
    ZeroByte(Byte0(v));
    ZeroByte(Byte1(v));
    ZeroByte(Byte2(v));
    ZeroByte(Byte3(v));
    ZeroBytes(v);
  }

  lemma ZeroByte(x: bv8)
    ensures 0 <= x as int && (x as int == 0 ==> x == 0)
  {
  }

  lemma ZeroBytes(v: bv32)
    ensures Byte0(v) == 0 && Byte1(v) == 0 && Byte2(v) == 0 && Byte3(v) == 0 ==> v == 0
  {
  }

  lemma AllShort(v: bv32)
    ensures Short(v, 32)
  {
    hide Val;
    Pow2Values();
    ShortWithin(v, 32);
  }

  // ---- bitwise operations ----

  function XorOf(a: bv32, b: bv32): bv32 { a ^ b }
  function AndOf(a: bv32, b: bv32): bv32 { a & b }
  function OrOf(a: bv32, b: bv32): bv32 { a | b }

  lemma XorLow(a: bv32, b: bv32)
    ensures Half(XorOf(a, b)) == XorOf(Half(a), Half(b)) && Low(XorOf(a, b)) == if Low(a) == Low(b) then 0 else 1
  {
  }

  lemma AndLow(a: bv32, b: bv32)
    ensures Half(AndOf(a, b)) == AndOf(Half(a), Half(b)) && Low(AndOf(a, b)) == if Low(a) == 1 && Low(b) == 1 then 1 else 0
  {
  }

  lemma OrLow(a: bv32, b: bv32)
    ensures Half(OrOf(a, b)) == OrOf(Half(a), Half(b)) && Low(OrOf(a, b)) == if Low(a) == 0 && Low(b) == 0 then 0 else 1
  {
  }

  lemma OpsZero()
    ensures XorOf(0, 0) == 0 && AndOf(0, 0) == 0 && OrOf(0, 0) == 0
  {
  }

  lemma XorNone(a: nat, b: nat)
    ensures XorBits(a, b, 0) == 0
  {
  }

  lemma XorStep(a: nat, b: nat, n: nat)
    requires n > 0
    ensures XorBits(a, b, n) == (if a % 2 == b % 2 then 0 else 1) + 2 * XorBits(a / 2, b / 2, n - 1)
  {
  }

  lemma AndNone(a: nat, b: nat)
    ensures AndBits(a, b, 0) == 0
  {
  }

  lemma AndStep(a: nat, b: nat, n: nat)
    requires n > 0
    ensures AndBits(a, b, n) == (if a % 2 == 1 && b % 2 == 1 then 1 else 0) + 2 * AndBits(a / 2, b / 2, n - 1)
  {
  }

  lemma OrNone(a: nat, b: nat)
    ensures OrBits(a, b, 0) == 0
  {
  }

  lemma OrStep(a: nat, b: nat, n: nat)
    requires n > 0
    ensures OrBits(a, b, n) == (if a % 2 == 0 && b % 2 == 0 then 0 else 1) + 2 * OrBits(a / 2, b / 2, n - 1)
  {
  }

  lemma {:induction false} XorBitsVal(a: bv32, b: bv32, n: nat)
    requires Short(a, n) && Short(b, n)
    ensures XorBits(Val(a), Val(b), n) == Val(XorOf(a, b))
    decreases n
  {
    hide Val, Low, Half, XorOf, XorBits;
    ValZero();
    OpsZero();
    if n == 0 {
      XorNone(Val(a), Val(b));
    } else {
      XorLow(a, b);
      LowIs(a);
      LowIs(b);
      LowHalf(a);
      LowHalf(b);
      Halves(XorOf(a, b));
      XorBitsVal(Half(a), Half(b), n - 1);
      XorStep(Val(a), Val(b), n);
    }
  }

  lemma {:induction false} AndBitsVal(a: bv32, b: bv32, n: nat)
    requires Short(a, n) && Short(b, n)
    ensures AndBits(Val(a), Val(b), n) == Val(AndOf(a, b))
    decreases n
  {
    hide Val, Low, Half, AndOf, AndBits;
    ValZero();
    OpsZero();
    if n == 0 {
      AndNone(Val(a), Val(b));
    } else {
      AndLow(a, b);
      LowIs(a);
      LowIs(b);
      LowHalf(a);
      LowHalf(b);
      Halves(AndOf(a, b));
      AndBitsVal(Half(a), Half(b), n - 1);
      AndStep(Val(a), Val(b), n);
    }
  }

  lemma {:induction false} OrBitsVal(a: bv32, b: bv32, n: nat)
    requires Short(a, n) && Short(b, n)
    ensures OrBits(Val(a), Val(b), n) == Val(OrOf(a, b))
    decreases n
  {
    hide Val, Low, Half, OrOf, OrBits;
    ValZero();
    OpsZero();
    if n == 0 {
      OrNone(Val(a), Val(b));
    } else {
      OrLow(a, b);
      LowIs(a);
      LowIs(b);
      LowHalf(a);
      LowHalf(b);
      Halves(OrOf(a, b));
      OrBitsVal(Half(a), Half(b), n - 1);
      OrStep(Val(a), Val(b), n);
    }
  }

  lemma XorVal(a: bv32, b: bv32)
    ensures Xor(Val(a), Val(b)) == Val(a ^ b)
  {
    hide Val;
    AllShort(a);
    AllShort(b);
    XorBitsVal(a, b, 32);
  }

  lemma AndVal(a: bv32, b: bv32)
    ensures And(Val(a), Val(b)) == Val(a & b)
  {
    hide Val;
    AllShort(a);
    AllShort(b);
    AndBitsVal(a, b, 32);
  }

  lemma OrVal(a: bv32, b: bv32)
    ensures Or(Val(a), Val(b)) == Val(a | b)
  {
    hide Val;
    AllShort(a);
    AllShort(b);
    OrBitsVal(a, b, 32);
  }

  lemma NotVal(a: bv32)
    ensures Not(Val(a)) == Val(!a)
  {
    hide Byte0, Byte1, Byte2, Byte3;
    NotByte(Byte0(a));
    NotByte(Byte1(a));
    NotByte(Byte2(a));
    NotByte(Byte3(a));
    NotBytes(a);
  }

  lemma NotByte(x: bv8)
    ensures (!x) as int == 0xFF - x as int
  {
  }

  lemma NotBytes(v: bv32)
    ensures Byte0(!v) == !Byte0(v) && Byte1(!v) == !Byte1(v) && Byte2(!v) == !Byte2(v) && Byte3(!v) == !Byte3(v)
  {
  }

  // ---- doubling ----

  function DoubleOf(v: bv32, c: bool): bv32 { if c then (v << 1) | 1 else v << 1 }
  function Top(v: bv32): bool { v >= 0x8000_0000 }
  function Rest(v: bv32): bv32 { v & 0x7FFF_FFFF }

  lemma DoubleLow(v: bv32, c: bool)
    ensures Half(DoubleOf(v, c)) == Rest(v) && Low(DoubleOf(v, c)) == if c then 1 else 0
  {
  }

  lemma TopByte(x: bv8)
    ensures x as int == (x & 0x7F) as int + if x >= 0x80 then 0x80 else 0
  {
  }

  lemma TopBytes(v: bv32)
    ensures Byte0(Rest(v)) == Byte0(v) && Byte1(Rest(v)) == Byte1(v) && Byte2(Rest(v)) == Byte2(v)
    ensures Byte3(Rest(v)) == Byte3(v) & 0x7F && (Top(v) <==> Byte3(v) >= 0x80)
  {
  }

  lemma RestVal(v: bv32)
    ensures Val(v) == Val(Rest(v)) + if Top(v) then 0x8000_0000 else 0
  {
    hide Byte0, Byte1, Byte2, Byte3, Rest, Top;
    TopBytes(v);
    TopByte(Byte3(v));
  }

  /** Shifting left doubles, and the top bit is lost. */
  lemma DoubleVal(v: bv32, c: bool)
    ensures Val(DoubleOf(v, c)) == (2 * Val(v) + if c then 1 else 0) % 0x1_0000_0000
  {
    hide Val, Low, Half, DoubleOf, Rest, Top;
    DoubleLow(v, c);
    Halves(DoubleOf(v, c));
    RestVal(v);
    ValZero();
  }

  // ---- addition: the exclusive or, and the carries one place up ----

  function Plus(a: bv32, b: bv32): bv32 { a + b }
  function Shift(v: bv32): bv32 { v << 1 }
  function Carries(a: bv32, b: bv32): bv32 { Shift(AndOf(a, b)) }
  function Without(a: bv32, b: bv32): bv32 { a & !b }

  function PlusTwo(a: bv32, b: bv32, c: bv32): bv32 { a + b + c }
  function Split(a: bv32, b: bv32): bv32 { (a & !b) + (a & b) }

  lemma PlusIs(a: bv32, b: bv32)
    ensures Plus(a, b) == a + b
  {
  }

  lemma PlusSum(a: bv32, b: bv32, c: bv32)
    ensures Plus(a + b, c) == PlusTwo(a, b, c)
  {
  }

  lemma PlusPlus(a: bv32, b: bv32, c: bv32)
    ensures Plus(Plus(a, b), c) == PlusTwo(a, b, c)
  {
    hide Plus, PlusTwo;
    PlusIs(a, b);
    PlusSum(a, b, c);
  }

  lemma PlusTwoSwap(a: bv32, b: bv32, c: bv32)
    ensures PlusTwo(a, b, c) == PlusTwo(a, c, b)
  {
  }

  lemma PlusRight(a: bv32, b: bv32)
    ensures PlusTwo(a, b, b) == Plus(a, b + b)
  {
  }

  lemma Twice(b: bv32)
    ensures b + b == b << 1
  {
  }

  lemma ShiftIs(v: bv32)
    ensures Shift(v) == v << 1
  {
  }

  lemma PlusTwice(a: bv32, b: bv32)
    ensures PlusTwo(a, b, b) == Plus(a, Shift(b))
  {
    hide Plus, Shift, PlusTwo;
    PlusRight(a, b);
    Twice(b);
    ShiftIs(b);
  }

  lemma SplitIs(a: bv32, b: bv32)
    ensures Split(a, b) == a
  {
  }

  lemma SplitPlus(a: bv32, b: bv32)
    ensures Plus(a & !b, a & b) == Split(a, b)
  {
  }

  lemma PartsAre(a: bv32, b: bv32)
    ensures Without(a, b) == a & !b && AndOf(a, b) == a & b
  {
  }

  lemma InParts(a: bv32, b: bv32)
    ensures Plus(Without(a, b), AndOf(a, b)) == a
  {
    hide Plus, Split, Without, AndOf;
    SplitIs(a, b);
    SplitPlus(a, b);
    PartsAre(a, b);
  }

  lemma OrSum(a: bv32, b: bv32)
    ensures (a & !b) + b == a | b
  {
  }

  lemma OrPlus(a: bv32, b: bv32)
    ensures Plus(a & !b, b) == (a & !b) + b
  {
  }

  lemma OrIs(a: bv32, b: bv32)
    ensures Plus(Without(a, b), b) == OrOf(a, b)
  {
    OrSum(a, b);
    OrPlus(a, b);
    hide Plus;
  }

  lemma XorAndSum(a: bv32, b: bv32)
    ensures (a ^ b) + (a & b) == a | b
  {
  }

  lemma XorAndPlus(a: bv32, b: bv32)
    ensures Plus(a ^ b, a & b) == (a ^ b) + (a & b)
  {
  }

  lemma XorAndIs(a: bv32, b: bv32)
    ensures Plus(XorOf(a, b), AndOf(a, b)) == OrOf(a, b)
  {
    XorAndSum(a, b);
    XorAndPlus(a, b);
    hide Plus;
  }

  /** One step of an adder: a | b is a ^ b and a & b together, and a once more adds a & b again. */
  lemma PlusStep(a: bv32, b: bv32)
    ensures Plus(a, b) == Plus(XorOf(a, b), Carries(a, b))
  {
    hide Plus, XorOf, AndOf, OrOf, Without, Shift, PlusTwo;
    InParts(a, b);
    OrIs(a, b);
    XorAndIs(a, b);
    PlusPlus(Without(a, b), AndOf(a, b), b);
    PlusPlus(Without(a, b), b, AndOf(a, b));
    PlusTwoSwap(Without(a, b), AndOf(a, b), b);
    PlusPlus(XorOf(a, b), AndOf(a, b), AndOf(a, b));
    PlusTwice(XorOf(a, b), AndOf(a, b));
  }

  lemma SumModulo(x: word, y: word, u: word, v: word)
    requires x + y == u + 2 * v
    ensures Add(x, y) == Add(u, 2 * v % 0x1_0000_0000)
  {
  }

  lemma CarriesIs(a: bv32, b: bv32)
    ensures Carries(a, b) == DoubleOf(AndOf(a, b), false)
  {
  }

  lemma {:induction false} SumOfBits(a: bv32, b: bv32, n: nat)
    requires Short(a, n) && Short(b, n)
    ensures Val(a) + Val(b) == Val(XorOf(a, b)) + 2 * Val(AndOf(a, b))
    decreases n
  {
    hide Val, Low, Half, XorOf, AndOf;
    ValZero();
    OpsZero();
    if n > 0 {
      XorLow(a, b);
      AndLow(a, b);
      LowIs(a);
      LowIs(b);
      Halves(a);
      Halves(b);
      Halves(XorOf(a, b));
      Halves(AndOf(a, b));
      SumOfBits(Half(a), Half(b), n - 1);
    }
  }

  /** The n lowest bits. */
  function Ones(n: nat): bv32 {
    if n == 0 then 0 else More(Ones(n - 1))
  }

  function More(ones: bv32): bv32 { (ones << 1) | 1 }

  predicate Clear(b: bv32, ones: bv32) { b & ones == 0 }

  lemma OnesGrow(a: bv32, b: bv32, ones: bv32)
    requires Clear(b, ones)
    ensures Clear(Carries(a, b), More(ones))
  {
  }

  lemma AllOnes()
    ensures Ones(32) == 0xFFFF_FFFF
  {
    assert Ones(8) == 0xFF;
    assert Ones(16) == 0xFFFF;
    assert Ones(24) == 0xFF_FFFF;
  }

  lemma OnesNext(n: nat)
    ensures Ones(n + 1) == More(Ones(n))
  {
  }

  lemma ClearAll(b: bv32)
    requires Clear(b, Ones(32))
    ensures b == 0
  {
    AllOnes();
    hide Ones;
  }

  lemma ClearNone(b: bv32)
    ensures Clear(b, Ones(0))
  {
  }

  lemma PlusZero(a: bv32)
    ensures Plus(a, 0) == a
  {
  }

  lemma AddZero(x: word)
    ensures Add(x, 0) == x
  {
  }

  lemma {:induction false} AddFrom(a: bv32, b: bv32, n: nat)
    requires n <= 32 && Clear(b, Ones(n))
    ensures Add(Val(a), Val(b)) == Val(Plus(a, b))
    decreases 32 - n
  {
    hide Val, Plus, Carries, XorOf, AndOf, DoubleOf, Clear, Add, Ones, More, Short;
    if n == 32 {
      ClearAll(b);
      ValZero();
      PlusZero(a);
      AddZero(Val(a));
    } else {
      PlusStep(a, b);
      AllShort(a);
      AllShort(b);
      SumOfBits(a, b, 32);
      CarriesIs(a, b);
      DoubleVal(AndOf(a, b), false);
      SumModulo(Val(a), Val(b), Val(XorOf(a, b)), Val(AndOf(a, b)));
      OnesGrow(a, b, Ones(n));
      OnesNext(n);
      AddFrom(XorOf(a, b), Carries(a, b), n + 1);
    }
  }

  lemma PlusVal(a: bv32, b: bv32)
    ensures Add(Val(a), Val(b)) == Val(Plus(a, b))
  {
    hide Val, Add, Plus, Clear;
    ClearNone(b);
    AddFrom(a, b, 0);
  }

  lemma AddVal(a: bv32, b: bv32)
    ensures Add(Val(a), Val(b)) == Val(a + b)
  {
    hide Val, Add;
    PlusVal(a, b);
  }

  // ---- shifts ----

  /** v shifted by n places, one at a time. */
  function Left(v: bv32, n: nat): bv32
    decreases n
  {
    if n == 0 then v else Left(v << 1, n - 1)
  }

  function Right(v: bv32, n: nat): bv32
    decreases n
  {
    if n == 0 then v else Right(v >> 1, n - 1)
  }

  lemma {:induction false} ShlVal(v: bv32, n: nat)
    ensures Shl(Val(v), n) == Val(Left(v, n))
    decreases n
  {
    hide Val, DoubleOf;
    if n > 0 {
      DoubleIs(v);
      DoubleVal(v, false);
      ShlVal(v << 1, n - 1);
    }
  }

  lemma DoubleIs(v: bv32)
    ensures v << 1 == DoubleOf(v, false)
  {
  }

  lemma HalfIs(v: bv32)
    ensures v >> 1 == Half(v)
  {
  }

  lemma {:induction false} ShrVal(v: bv32, n: nat)
    ensures Shr(Val(v), n) == Val(Right(v, n))
    decreases n
  {
    hide Val, Half;
    if n > 0 {
      HalfIs(v);
      LowHalf(v);
      ShrVal(v >> 1, n - 1);
    }
  }

  lemma Lefts(v: bv32)
    ensures Left(v, 2) == v << 2 && Left(v, 4) == v << 4
  {
  }

  lemma Rights(v: bv32)
    ensures Right(v, 2) == v >> 2 && Right(v, 3) == v >> 3
  {
  }

  lemma FarRights(v: bv32)
    ensures Right(v, 5) == v >> 5 && Right(v, 11) == v >> 11
  {
  }

  /** The two lowest bits, which are the remainder by 4. */
  function LowTwo(v: bv32): bv32 { v & 3 }

  lemma LowTwoParts(v: bv32)
    ensures Half(LowTwo(v)) == Low(Half(v)) && Low(LowTwo(v)) == Low(v)
  {
  }

  lemma LowTwoVal(v: bv32)
    ensures Val(LowTwo(v)) == Val(v) % 4
  {
    hide Val, Low, Half, LowTwo;
    LowTwoParts(v);
    Halves(LowTwo(v));
    LowHalf(v);
    LowHalf(Half(v));
  }

  lemma XorOfVal(a: bv32, b: bv32)
    ensures Xor(Val(a), Val(b)) == Val(XorOf(a, b))
  {
    hide Val;
    XorVal(a, b);
  }

  // ---- every word is a vector ----

  lemma {:induction false} Vector(w: word, n: nat) returns (v: bv32)
    requires w < Pow2(n) && n <= 32
    ensures Val(v) == w
    decreases n
  {
    hide Val, DoubleOf;
    if n == 0 {
      ValZero();
      v := 0;
    } else {
      var h := Vector(w / 2, n - 1);
      v := DoubleOf(h, w % 2 == 1);
      DoubleVal(h, w % 2 == 1);
    }
  }

  /** The vector of a word. */
  lemma VectorOf(w: word) returns (v: bv32)
    ensures Val(v) == w
  {
    Pow2Values();
    v := Vector(w, 32);
  }
}
