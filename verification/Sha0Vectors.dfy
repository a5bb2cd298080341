/** The method of Sha0 in the arithmetic of 32-bit vectors, and the hash of one message
    (Types/ShaHash.cpp:118-228). */
module Sha0Vectors {
  import opened Bytes
  import opened Bits
  import opened BitVectors
  import opened Sha0

  // ---- functions and constants ----

  function FV(t: nat, b: bv32, c: bv32, d: bv32): bv32 {
    if t < 20 then (b & c) | (!b & d)
    else if t < 40 then b ^ c ^ d
    else if t < 60 then (b & c) | (b & d) | (c & d)
    else b ^ c ^ d
  }

  lemma ChoiceParts(b: bv32, c: bv32, d: bv32)
    ensures AndOf(b, c) == b & c && AndOf(!b, d) == !b & d
    ensures OrOf(b & c, !b & d) == (b & c) | (!b & d)
  {
  }

  lemma ParityParts(b: bv32, c: bv32, d: bv32)
    ensures XorOf(b, c) == b ^ c && XorOf(b ^ c, d) == b ^ c ^ d
  {
  }

  lemma MajorityParts(b: bv32, c: bv32, d: bv32)
    ensures AndOf(b, c) == b & c && AndOf(b, d) == b & d && AndOf(c, d) == c & d
    ensures OrOf(b & c, b & d) == (b & c) | (b & d)
  {
  }

  lemma MajorityLast(b: bv32, c: bv32, d: bv32)
    ensures OrOf((b & c) | (b & d), c & d) == (b & c) | (b & d) | (c & d)
  {
  }

  lemma AndOfVal(a: bv32, b: bv32)
    ensures And(Val(a), Val(b)) == Val(AndOf(a, b))
  {
    hide Val;
    AndVal(a, b);
  }

  lemma OrOfVal(a: bv32, b: bv32)
    ensures Or(Val(a), Val(b)) == Val(OrOf(a, b))
  {
    hide Val;
    OrVal(a, b);
  }

  lemma ChoiceIs(b: bv32, c: bv32, d: bv32)
    ensures Or(And(Val(b), Val(c)), And(Not(Val(b)), Val(d))) == Val((b & c) | (!b & d))
  {
    hide Val, And, Or, Not, AndOf, OrOf;
    NotVal(b);
    ChoiceParts(b, c, d);
    AndOfVal(b, c);
    AndOfVal(!b, d);
    OrOfVal(b & c, !b & d);
  }

  lemma ParityIs(b: bv32, c: bv32, d: bv32)
    ensures Xor(Xor(Val(b), Val(c)), Val(d)) == Val(b ^ c ^ d)
  {
    hide Val, Xor, XorOf;
    ParityParts(b, c, d);
    XorOfVal(b, c);
    XorOfVal(b ^ c, d);
  }

  lemma MajorityIs(b: bv32, c: bv32, d: bv32)
    ensures Or(Or(And(Val(b), Val(c)), And(Val(b), Val(d))), And(Val(c), Val(d))) == Val((b & c) | (b & d) | (c & d))
  {
    hide Val, And, Or, AndOf, OrOf;
    MajorityParts(b, c, d);
    MajorityLast(b, c, d);
    AndOfVal(b, c);
    AndOfVal(b, d);
    AndOfVal(c, d);
    OrOfVal(b & c, b & d);
    OrOfVal((b & c) | (b & d), c & d);
  }

  /** f(t) of the method. */
  lemma FIs(t: nat, b: bv32, c: bv32, d: bv32)
    ensures F(t, Val(b), Val(c), Val(d)) == Val(FV(t, b, c, d))
  {
    hide Val, And, Or, Xor, Not;
    ChoiceIs(b, c, d);
    ParityIs(b, c, d);
    MajorityIs(b, c, d);
  }

  /** The first function chooses: where b is set the bit is that of c, elsewhere that of d. */
  lemma ChoiceMeans(b: bv32, c: bv32, d: bv32)
    ensures ((b & c) | (!b & d)) & b == c & b
    ensures ((b & c) | (!b & d)) & !b == d & !b
  {
  }

  /** The third is the majority: where b and c agree the bit is theirs. */
  lemma MajorityAgrees(b: bv32, c: bv32, d: bv32)
    ensures ((b & c) | (b & d) | (c & d)) & !(b ^ c) == b & !(b ^ c)
  {
  }

  /** Elsewhere it is that of d. */
  lemma MajorityDecides(b: bv32, c: bv32, d: bv32)
    ensures ((b & c) | (b & d) | (c & d)) & (b ^ c) == d & (b ^ c)
  {
  }

  /** k is the integer part of 2^30 times the square root of x. */
  predicate RootOf(k: nat, x: nat) {
    k * k <= x * 0x1000_0000_0000_0000 < (k + 1) * (k + 1)
  }

  /** The four constants are the square roots of 2, 3, 5 and 10; the initial hash counts its digits up and
      down again. */
  lemma ConstantsAre(t: nat)
    ensures RootOf(K(t), if t < 20 then 2 else if t < 40 then 3 else if t < 60 then 5 else 10)
    ensures Le32(INITIAL[0]) + Le32(INITIAL[1]) == [0x01, 0x23, 0x45, 0x67, 0x89, 0xAB, 0xCD, 0xEF]
    ensures Le32(INITIAL[2]) + Le32(INITIAL[3]) == [0xFE, 0xDC, 0xBA, 0x98, 0x76, 0x54, 0x32, 0x10]
    ensures Le32(INITIAL[4]) == [0xF0, 0xE1, 0xD2, 0xC3]
  {
  }

  // ---- the method ----

  lemma {:induction false} LeftMore(v: bv32, m: nat, n: nat)
    ensures Left(v, m + n) == Left(Left(v, m), n)
    decreases m
  {
    if m > 0 {
      LeftMore(v << 1, m - 1, n);
    }
  }

  lemma {:induction false} RightMore(v: bv32, m: nat, n: nat)
    ensures Right(v, m + n) == Right(Right(v, m), n)
    decreases m
  {
    if m > 0 {
      RightMore(v >> 1, m - 1, n);
    }
  }

  lemma Left5(v: bv32)
    ensures Left(v, 5) == v << 5
  {
  }

  lemma Left10(v: bv32)
    ensures Left(v, 10) == v << 10
  {
  }

  function Nine(v: bv32): bv32 { v >> 9 }

  lemma Right9(v: bv32)
    ensures Right(v, 9) == Nine(v)
  {
  }

  lemma NineNine(v: bv32)
    ensures Nine(Nine(Nine(v))) == v >> 27
  {
  }

  lemma Left30(v: bv32)
    ensures Left(v, 30) == v << 30
  {
    hide Left;
    LeftMore(v, 10, 20);
    LeftMore(v << 10, 10, 10);
    Left10(v);
    Left10(v << 10);
    Left10(v << 10 << 10);
  }

  lemma Right27(v: bv32)
    ensures Right(v, 27) == v >> 27
  {
    hide Right, Nine;
    RightMore(v, 9, 18);
    RightMore(Nine(v), 9, 9);
    Right9(v);
    Right9(Nine(v));
    Right9(Nine(Nine(v)));
    NineNine(v);
  }

  function Rol5(v: bv32): bv32 { (v << 5) | (v >> 27) }
  function Rol30(v: bv32): bv32 { (v << 30) | (v >> 2) }

  lemma RolParts(v: bv32)
    ensures OrOf(v << 5, v >> 27) == Rol5(v) && OrOf(v << 30, v >> 2) == Rol30(v)
  {
  }

  lemma RolIs(v: bv32)
    ensures Rol32(Val(v), 5) == Val(Rol5(v)) && Rol32(Val(v), 30) == Val(Rol30(v))
  {
    hide Val, Or, Shl, Shr, Left, Right, OrOf, Rol5, Rol30;
    ShlVal(v, 5);
    Left5(v);
    ShrVal(v, 27);
    Right27(v);
    ShlVal(v, 30);
    Left30(v);
    ShrVal(v, 2);
    Rights(v);
    RolParts(v);
    OrOfVal(v << 5, v >> 27);
    OrOfVal(v << 30, v >> 2);
  }

  function KV(t: nat): bv32 {
    if t < 20 then 0x5A82_7999 else if t < 40 then 0x6ED9_EBA1 else if t < 60 then 0x8F1B_BCDC else 0xCA62_C1D6
  }

  lemma KIs(t: nat)
    ensures K(t) == Val(KV(t))
  {
  }

  datatype HashV = HashV(a: bv32, b: bv32, c: bv32, d: bv32, e: bv32)

  function Words(h: HashV): Hash {
    [Val(h.a), Val(h.b), Val(h.c), Val(h.d), Val(h.e)]
  }

  function TempV(t: nat, h: HashV, w: bv32): bv32 {
    Plus(Plus(Plus(Plus(Rol5(h.a), FV(t, h.b, h.c, h.d)), h.e), KV(t)), w)
  }

  function RoundV(t: nat, h: HashV, w: bv32): HashV {
    HashV(TempV(t, h, w), h.a, Rol30(h.b), h.c, h.d)
  }

  lemma RoundIs(t: nat, h: HashV, w: bv32)
    ensures Round(t, Words(h), Val(w)) == Words(RoundV(t, h, w))
  {
    hide Val, F, FV, K, KV, Rol32, Rol5, Rol30, Add, Plus;
    RolIs(h.a);
    RolIs(h.b);
    FIs(t, h.b, h.c, h.d);
    KIs(t);
    PlusVal(Rol5(h.a), FV(t, h.b, h.c, h.d));
    PlusVal(Plus(Rol5(h.a), FV(t, h.b, h.c, h.d)), h.e);
    PlusVal(Plus(Plus(Rol5(h.a), FV(t, h.b, h.c, h.d)), h.e), KV(t));
    PlusVal(Plus(Plus(Plus(Rol5(h.a), FV(t, h.b, h.c, h.d)), h.e), KV(t)), w);
  }

  type Block = b: seq<bv32> | |b| == 16 witness seq(16, _ => 0)

  /** W(t) of the method. */
  function WV(b: Block, t: nat): bv32 {
    if t < 16 then b[t]
    else XorOf(XorOf(XorOf(WV(b, t - 3), WV(b, t - 8)), WV(b, t - 14)), WV(b, t - 16))
  }

  /** The bytes are those of the words. */
  predicate BytesOf(block: seq<byte>, b: Block) {
    |block| == BLOCK && forall t :: 0 <= t < 16 ==> FromBe32(block[4 * t..4 * t + 4]) == Val(b[t])
  }

  lemma {:induction false} ScheduleIs(block: seq<byte>, b: Block, n: nat)
    requires BytesOf(block, b)
    ensures forall t :: 0 <= t < n ==> Schedule(block, n)[t] == Val(WV(b, t))
    decreases n
  {
    hide Val, Xor, XorOf, FromBe32;
    if n > 0 {
      ScheduleIs(block, b, n - 1);
      var t := n - 1;
      if t >= 16 {
        XorOfVal(WV(b, t - 3), WV(b, t - 8));
        XorOfVal(XorOf(WV(b, t - 3), WV(b, t - 8)), WV(b, t - 14));
        XorOfVal(XorOf(XorOf(WV(b, t - 3), WV(b, t - 8)), WV(b, t - 14)), WV(b, t - 16));
      }
    }
  }

  function RoundsV(h: HashV, b: Block, n: nat): HashV {
    if n == 0 then h else RoundV(n - 1, RoundsV(h, b, n - 1), WV(b, n - 1))
  }

  lemma {:induction false} RoundsAre(h: HashV, block: seq<byte>, b: Block, n: nat)
    requires BytesOf(block, b) && n <= 80
    ensures Rounds(Words(h), Schedule(block, 80), n) == Words(RoundsV(h, b, n))
    decreases n
  {
    hide Round, RoundV, Words, Schedule, WV, Val;
    if n > 0 {
      RoundsAre(h, block, b, n - 1);
      ScheduleIs(block, b, 80);
      RoundIs(n - 1, RoundsV(h, b, n - 1), WV(b, n - 1));
    }
  }

  function DigestV(h: HashV, b: Block): HashV {
    var g := RoundsV(h, b, 80);
    HashV(Plus(h.a, g.a), Plus(h.b, g.b), Plus(h.c, g.c), Plus(h.d, g.d), Plus(h.e, g.e))
  }

  /** One block, for every hash and block: the eighty steps of the method, in vectors. */
  lemma DigestIs(h: HashV, block: seq<byte>, b: Block)
    requires BytesOf(block, b)
    ensures Digest(Words(h), block) == Words(DigestV(h, b))
  {
    hide Schedule, Rounds, RoundsV, Plus, Val, Add;
    RoundsAre(h, block, b, 80);
    var g := RoundsV(h, b, 80);
    PlusVal(h.a, g.a);
    PlusVal(h.b, g.b);
    PlusVal(h.c, g.c);
    PlusVal(h.d, g.d);
    PlusVal(h.e, g.e);
  }

  // ---- the message abc ----

  const ABC: Block := [0x6162_6380, 0, 0, 0, 0, 0, 0, 0, 0, 0, 0, 0, 0, 0, 0, 0x18]
  const FIRST := HashV(0x6745_2301, 0xEFCD_AB89, 0x98BA_DCFE, 0x1032_5476, 0xC3D2_E1F0)

  lemma RoundNext(n: nat)
    ensures RoundsV(FIRST, ABC, n + 1) == RoundV(n, RoundsV(FIRST, ABC, n), WV(ABC, n))
  {
  }

  lemma RoundNone()
    ensures RoundsV(FIRST, ABC, 0) == FIRST
  {
  }

  /** Without a rotation every word of the schedule is made of the two words of the block that are not 0. */
  function MixV(a: bool, b: bool): bv32 {
    if a && b then 0x6162_6398 else if a then 0x6162_6380 else if b then 0x18 else 0
  }

  lemma MixXor(a: bool, b: bool, c: bool, d: bool)
    ensures XorOf(MixV(a, b), MixV(c, d)) == MixV(a != c, b != d)
  {
  }

  predicate Odd(a: bool, b: bool, c: bool, d: bool) {
    ((a != b) != c) != d
  }

  /** Whether word number i of the block is in W(t). */
  predicate In(i: nat, t: nat) {
    if t < 16 then t == i else ((In(i, t - 3) != In(i, t - 8)) != In(i, t - 14)) != In(i, t - 16)
  }

  function MixAt(t: nat): bv32 {
    MixV(In(0, t), In(15, t))
  }

  lemma MixNext(t: nat)
    requires t >= 16
    ensures MixAt(t) == XorOf(XorOf(XorOf(MixAt(t - 3), MixAt(t - 8)), MixAt(t - 14)), MixAt(t - 16))
  {
    hide XorOf, MixV, In, Odd;
    InNext(0, t);
    InNext(15, t);
    MixFour(In(0, t - 3), In(15, t - 3), In(0, t - 8), In(15, t - 8), In(0, t - 14), In(15, t - 14),
            In(0, t - 16), In(15, t - 16));
  }

  lemma {:induction false} WIs(t: nat)
    ensures WV(ABC, t) == MixAt(t)
    decreases t
  {
    hide XorOf, MixAt, WV;
    if t < 16 {
      FirstMix(t);
    } else {
      WNext(t);
      MixNext(t);
      WIs(t - 3);
      WIs(t - 8);
      WIs(t - 14);
      WIs(t - 16);
    }
  }

  lemma MixFour(a: bool, b: bool, c: bool, d: bool, e: bool, f: bool, g: bool, h: bool)
    ensures XorOf(XorOf(XorOf(MixV(a, b), MixV(c, d)), MixV(e, f)), MixV(g, h)) == MixV(Odd(a, c, e, g), Odd(b, d, f, h))
  {
    hide XorOf, MixV;
    var a1, b1 := a != c, b != d;
    MixXor(a, b, c, d);
    var a2, b2 := a1 != e, b1 != f;
    MixXor(a1, b1, e, f);
    MixXor(a2, b2, g, h);
  }

  lemma WNext(t: nat)
    requires t >= 16
    ensures WV(ABC, t) == XorOf(XorOf(XorOf(WV(ABC, t - 3), WV(ABC, t - 8)), WV(ABC, t - 14)), WV(ABC, t - 16))
  {
  }

  lemma InNext(i: nat, t: nat)
    requires t >= 16
    ensures In(i, t) == Odd(In(i, t - 3), In(i, t - 8), In(i, t - 14), In(i, t - 16))
  {
  }

  lemma FirstMix(t: nat)
    requires t < 16
    ensures WV(ABC, t) == MixAt(t)
  {
  }

  lemma In10()
    ensures In(0, 0) && !In(15, 0) && !In(0, 1) && !In(15, 1) && !In(0, 2) && !In(15, 2)
    ensures !In(0, 3) && !In(15, 3) && !In(0, 4) && !In(15, 4) && !In(0, 5) && !In(15, 5)
    ensures !In(0, 6) && !In(15, 6) && !In(0, 7) && !In(15, 7) && !In(0, 8) && !In(15, 8)
    ensures !In(0, 9) && !In(15, 9)
  {
  }

  lemma In20()
    ensures !In(0, 10) && !In(15, 10) && !In(0, 11) && !In(15, 11) && !In(0, 12) && !In(15, 12)
    ensures !In(0, 13) && !In(15, 13) && !In(0, 14) && !In(15, 14) && !In(0, 15) && In(15, 15)
    ensures In(0, 16) && !In(15, 16) && !In(0, 17) && !In(15, 17) && !In(0, 18) && In(15, 18)
    ensures In(0, 19) && !In(15, 19)
  {
  }

  lemma In30()
    ensures !In(0, 20) && !In(15, 20) && !In(0, 21) && In(15, 21) && In(0, 22) && !In(15, 22)
    ensures !In(0, 23) && In(15, 23) && In(0, 24) && In(15, 24) && In(0, 25) && !In(15, 25)
    ensures !In(0, 26) && !In(15, 26) && !In(0, 27) && In(15, 27) && In(0, 28) && !In(15, 28)
    ensures !In(0, 29) && !In(15, 29)
  {
  }

  lemma In40()
    ensures !In(0, 30) && In(15, 30) && In(0, 31) && !In(15, 31) && !In(0, 32) && !In(15, 32)
    ensures !In(0, 33) && In(15, 33) && In(0, 34) && In(15, 34) && In(0, 35) && !In(15, 35)
    ensures !In(0, 36) && In(15, 36) && In(0, 37) && In(15, 37) && In(0, 38) && !In(15, 38)
    ensures !In(0, 39) && !In(15, 39)
  {
  }

  lemma In50()
    ensures !In(0, 40) && !In(15, 40) && !In(0, 41) && !In(15, 41) && !In(0, 42) && In(15, 42)
    ensures In(0, 43) && In(15, 43) && In(0, 44) && !In(15, 44) && !In(0, 45) && !In(15, 45)
    ensures !In(0, 46) && !In(15, 46) && !In(0, 47) && In(15, 47) && In(0, 48) && In(15, 48)
    ensures In(0, 49) && In(15, 49)
  {
  }

  lemma In60()
    ensures In(0, 50) && !In(15, 50) && !In(0, 51) && In(15, 51) && In(0, 52) && !In(15, 52)
    ensures !In(0, 53) && In(15, 53) && In(0, 54) && In(15, 54) && In(0, 55) && In(15, 55)
    ensures In(0, 56) && In(15, 56) && In(0, 57) && In(15, 57) && In(0, 58) && !In(15, 58)
    ensures !In(0, 59) && In(15, 59)
  {
  }

  lemma In70()
    ensures In(0, 60) && In(15, 60) && In(0, 61) && !In(15, 61) && !In(0, 62) && In(15, 62)
    ensures In(0, 63) && !In(15, 63) && !In(0, 64) && !In(15, 64) && !In(0, 65) && !In(15, 65)
    ensures !In(0, 66) && !In(15, 66) && !In(0, 67) && In(15, 67) && In(0, 68) && !In(15, 68)
    ensures !In(0, 69) && !In(15, 69)
  {
  }

  lemma In80()
    ensures !In(0, 70) && !In(15, 70) && !In(0, 71) && !In(15, 71) && !In(0, 72) && In(15, 72)
    ensures In(0, 73) && !In(15, 73) && !In(0, 74) && In(15, 74) && In(0, 75) && In(15, 75)
    ensures In(0, 76) && !In(15, 76) && !In(0, 77) && In(15, 77) && In(0, 78) && !In(15, 78)
    ensures !In(0, 79) && !In(15, 79)
  {
  }

  lemma Abc10()
    ensures RoundsV(FIRST, ABC, 10)
         == HashV(0x8351_F929, 0x4B6A_E328, 0x27A3_01F5, 0x664F_8C30, 0x0FF1_F290)
  {
    hide RoundsV, WV, In;
    In10();
    RoundNone();
    RoundNext(0);
    WIs(0);
    assert RoundsV(FIRST, ABC, 1) == HashV(0x0116_FC33, 0x6745_2301, 0x7BF3_6AE2, 0x98BA_DCFE, 0x1032_5476);
    RoundNext(1);
    WIs(1);
    assert RoundsV(FIRST, ABC, 2) == HashV(0x8990_536D, 0x0116_FC33, 0x59D1_48C0, 0x7BF3_6AE2, 0x98BA_DCFE);
    RoundNext(2);
    WIs(2);
    assert RoundsV(FIRST, ABC, 3) == HashV(0xA139_0F08, 0x8990_536D, 0xC045_BF0C, 0x59D1_48C0, 0x7BF3_6AE2);
    RoundNext(3);
    WIs(3);
    assert RoundsV(FIRST, ABC, 4) == HashV(0xCDD8_E11B, 0xA139_0F08, 0x6264_14DB, 0xC045_BF0C, 0x59D1_48C0);
    RoundNext(4);
    WIs(4);
    assert RoundsV(FIRST, ABC, 5) == HashV(0xCFD4_99DE, 0xCDD8_E11B, 0x284E_43C2, 0x6264_14DB, 0xC045_BF0C);
    RoundNext(5);
    WIs(5);
    assert RoundsV(FIRST, ABC, 6) == HashV(0x3FC7_CA40, 0xCFD4_99DE, 0xF376_3846, 0x284E_43C2, 0x6264_14DB);
    RoundNext(6);
    WIs(6);
    assert RoundsV(FIRST, ABC, 7) == HashV(0x993E_30C1, 0x3FC7_CA40, 0xB3F5_2677, 0xF376_3846, 0x284E_43C2);
    RoundNext(7);
    WIs(7);
    assert RoundsV(FIRST, ABC, 8) == HashV(0x9E8C_07D4, 0x993E_30C1, 0x0FF1_F290, 0xB3F5_2677, 0xF376_3846);
    RoundNext(8);
    WIs(8);
    assert RoundsV(FIRST, ABC, 9) == HashV(0x4B6A_E328, 0x9E8C_07D4, 0x664F_8C30, 0x0FF1_F290, 0xB3F5_2677);
    RoundNext(9);
    WIs(9);
  }

  lemma Abc20()
    ensures RoundsV(FIRST, ABC, 20)
         == HashV(0xFE0F_9E4B, 0x550B_1E7F, 0x1597_7DCF, 0xFB4B_FD28, 0xC82F_758B)
  {
    hide RoundsV, WV, In;
    In20();
    Abc10();
    RoundNext(10);
    WIs(10);
    assert RoundsV(FIRST, ABC, 11) == HashV(0xFBDA_9E89, 0x8351_F929, 0x12DA_B8CA, 0x27A3_01F5, 0x664F_8C30);
    RoundNext(11);
    WIs(11);
    assert RoundsV(FIRST, ABC, 12) == HashV(0x6318_8FE4, 0xFBDA_9E89, 0x60D4_7E4A, 0x12DA_B8CA, 0x27A3_01F5);
    RoundNext(12);
    WIs(12);
    assert RoundsV(FIRST, ABC, 13) == HashV(0x4607_B664, 0x6318_8FE4, 0x7EF6_A7A2, 0x60D4_7E4A, 0x12DA_B8CA);
    RoundNext(13);
    WIs(13);
    assert RoundsV(FIRST, ABC, 14) == HashV(0x9128_F695, 0x4607_B664, 0x18C6_23F9, 0x7EF6_A7A2, 0x60D4_7E4A);
    RoundNext(14);
    WIs(14);
    assert RoundsV(FIRST, ABC, 15) == HashV(0x196B_EE77, 0x9128_F695, 0x1181_ED99, 0x18C6_23F9, 0x7EF6_A7A2);
    RoundNext(15);
    WIs(15);
    assert RoundsV(FIRST, ABC, 16) == HashV(0x20BD_D62F, 0x196B_EE77, 0x644A_3DA5, 0x1181_ED99, 0x18C6_23F9);
    RoundNext(16);
    WIs(16);
    assert RoundsV(FIRST, ABC, 17) == HashV(0xED2F_F4A3, 0x20BD_D62F, 0xC65A_FB9D, 0x644A_3DA5, 0x1181_ED99);
    RoundNext(17);
    WIs(17);
    assert RoundsV(FIRST, ABC, 18) == HashV(0x565D_F73C, 0xED2F_F4A3, 0xC82F_758B, 0xC65A_FB9D, 0x644A_3DA5);
    RoundNext(18);
    WIs(18);
    assert RoundsV(FIRST, ABC, 19) == HashV(0x550B_1E7F, 0x565D_F73C, 0xFB4B_FD28, 0xC82F_758B, 0xC65A_FB9D);
    RoundNext(19);
    WIs(19);
  }

  lemma Abc30()
    ensures RoundsV(FIRST, ABC, 30)
         == HashV(0xB898_C685, 0x301E_90BE, 0xC1C3_10DF, 0x40B4_31B4, 0x333A_B59D)
  {
    hide RoundsV, WV, In;
    In30();
    Abc20();
    RoundNext(20);
    WIs(20);
    assert RoundsV(FIRST, ABC, 21) == HashV(0xB4D4_C943, 0xFE0F_9E4B, 0xD542_C79F, 0x1597_7DCF, 0xFB4B_FD28);
    RoundNext(21);
    WIs(21);
    assert RoundsV(FIRST, ABC, 22) == HashV(0x4399_3572, 0xB4D4_C943, 0xFF83_E792, 0xD542_C79F, 0x1597_7DCF);
    RoundNext(22);
    WIs(22);
    assert RoundsV(FIRST, ABC, 23) == HashV(0xF710_6486, 0x4399_3572, 0xED35_3250, 0xFF83_E792, 0xD542_C79F);
    RoundNext(23);
    WIs(23);
    assert RoundsV(FIRST, ABC, 24) == HashV(0x7759_24E6, 0xF710_6486, 0x90E6_4D5C, 0xED35_3250, 0xFF83_E792);
    RoundNext(24);
    WIs(24);
    assert RoundsV(FIRST, ABC, 25) == HashV(0x45A7_EF23, 0x7759_24E6, 0xBDC4_1921, 0x90E6_4D5C, 0xED35_3250);
    RoundNext(25);
    WIs(25);
    assert RoundsV(FIRST, ABC, 26) == HashV(0xCCEA_D674, 0x45A7_EF23, 0x9DD6_4939, 0xBDC4_1921, 0x90E6_4D5C);
    RoundNext(26);
    WIs(26);
    assert RoundsV(FIRST, ABC, 27) == HashV(0x02D0_C6D1, 0xCCEA_D674, 0xD169_FBC8, 0x9DD6_4939, 0xBDC4_1921);
    RoundNext(27);
    WIs(27);
    assert RoundsV(FIRST, ABC, 28) == HashV(0x070C_437F, 0x02D0_C6D1, 0x333A_B59D, 0xD169_FBC8, 0x9DD6_4939);
    RoundNext(28);
    WIs(28);
    assert RoundsV(FIRST, ABC, 29) == HashV(0x301E_90BE, 0x070C_437F, 0x40B4_31B4, 0x333A_B59D, 0xD169_FBC8);
    RoundNext(29);
    WIs(29);
  }

  lemma Abc40()
    ensures RoundsV(FIRST, ABC, 40)
         == HashV(0xEBBD_5233, 0x4BF5_8DC8, 0xC28C_F33D, 0x190C_FF74, 0x3007_318B)
  {
    hide RoundsV, WV, In;
    In40();
    Abc30();
    RoundNext(30);
    WIs(30);
    assert RoundsV(FIRST, ABC, 31) == HashV(0x6697_23E2, 0xB898_C685, 0x8C07_A42F, 0xC1C3_10DF, 0x40B4_31B4);
    RoundNext(31);
    WIs(31);
    assert RoundsV(FIRST, ABC, 32) == HashV(0xD931_6F96, 0x6697_23E2, 0x6E26_31A1, 0x8C07_A42F, 0xC1C3_10DF);
    RoundNext(32);
    WIs(32);
    assert RoundsV(FIRST, ABC, 33) == HashV(0xDB81_A5C7, 0xD931_6F96, 0x99A5_C8F8, 0x6E26_31A1, 0x8C07_A42F);
    RoundNext(33);
    WIs(33);
    assert RoundsV(FIRST, ABC, 34) == HashV(0x99C8_DFB2, 0xDB81_A5C7, 0xB64C_5BE5, 0x99A5_C8F8, 0x6E26_31A1);
    RoundNext(34);
    WIs(34);
    assert RoundsV(FIRST, ABC, 35) == HashV(0x6BE6_AE07, 0x99C8_DFB2, 0xF6E0_6971, 0xB64C_5BE5, 0x99A5_C8F8);
    RoundNext(35);
    WIs(35);
    assert RoundsV(FIRST, ABC, 36) == HashV(0xC01C_C62C, 0x6BE6_AE07, 0xA672_37EC, 0xF6E0_6971, 0xB64C_5BE5);
    RoundNext(36);
    WIs(36);
    assert RoundsV(FIRST, ABC, 37) == HashV(0x6433_FDD0, 0xC01C_C62C, 0xDAF9_AB81, 0xA672_37EC, 0xF6E0_6971);
    RoundNext(37);
    WIs(37);
    assert RoundsV(FIRST, ABC, 38) == HashV(0x0A33_CCF7, 0x6433_FDD0, 0x3007_318B, 0xDAF9_AB81, 0xA672_37EC);
    RoundNext(38);
    WIs(38);
    assert RoundsV(FIRST, ABC, 39) == HashV(0x4BF5_8DC8, 0x0A33_CCF7, 0x190C_FF74, 0x3007_318B, 0xDAF9_AB81);
    RoundNext(39);
    WIs(39);
  }

  lemma Abc50()
    ensures RoundsV(FIRST, ABC, 50)
         == HashV(0xC12B_6426, 0xD0A2_2FFB, 0xA1D5_61B4, 0xFE6B_7D1E, 0xE4FA_EF8F)
  {
    hide RoundsV, WV, In;
    In50();
    Abc40();
    RoundNext(40);
    WIs(40);
    assert RoundsV(FIRST, ABC, 41) == HashV(0x825A_3460, 0xEBBD_5233, 0x12FD_6372, 0xC28C_F33D, 0x190C_FF74);
    RoundNext(41);
    WIs(41);
    assert RoundsV(FIRST, ABC, 42) == HashV(0xB62C_BB93, 0x825A_3460, 0xFAEF_548C, 0x12FD_6372, 0xC28C_F33D);
    RoundNext(42);
    WIs(42);
    assert RoundsV(FIRST, ABC, 43) == HashV(0xAA3F_9707, 0xB62C_BB93, 0x2096_8D18, 0xFAEF_548C, 0x12FD_6372);
    RoundNext(43);
    WIs(43);
    assert RoundsV(FIRST, ABC, 44) == HashV(0xFE1D_0273, 0xAA3F_9707, 0xED8B_2EE4, 0x2096_8D18, 0xFAEF_548C);
    RoundNext(44);
    WIs(44);
    assert RoundsV(FIRST, ABC, 45) == HashV(0x57AD_526B, 0xFE1D_0273, 0xEA8F_E5C1, 0xED8B_2EE4, 0x2096_8D18);
    RoundNext(45);
    WIs(45);
    assert RoundsV(FIRST, ABC, 46) == HashV(0x93EB_BE3F, 0x57AD_526B, 0xFF87_409C, 0xEA8F_E5C1, 0xED8B_2EE4);
    RoundNext(46);
    WIs(46);
    assert RoundsV(FIRST, ABC, 47) == HashV(0xF9AD_F47B, 0x93EB_BE3F, 0xD5EB_549A, 0xFF87_409C, 0xEA8F_E5C1);
    RoundNext(47);
    WIs(47);
    assert RoundsV(FIRST, ABC, 48) == HashV(0x8755_86D2, 0xF9AD_F47B, 0xE4FA_EF8F, 0xD5EB_549A, 0xFF87_409C);
    RoundNext(48);
    WIs(48);
    assert RoundsV(FIRST, ABC, 49) == HashV(0xD0A2_2FFB, 0x8755_86D2, 0xFE6B_7D1E, 0xE4FA_EF8F, 0xD5EB_549A);
    RoundNext(49);
    WIs(49);
  }

  lemma Abc60()
    ensures RoundsV(FIRST, ABC, 60)
         == HashV(0x8FF2_96DB, 0xBE2A_4656, 0x56E3_0CF2, 0xA6D0_D935, 0x48DA_F523)
  {
    hide RoundsV, WV, In;
    In60();
    Abc50();
    RoundNext(50);
    WIs(50);
    assert RoundsV(FIRST, ABC, 51) == HashV(0xEBC9_0281, 0xC12B_6426, 0xF428_8BFE, 0xA1D5_61B4, 0xFE6B_7D1E);
    RoundNext(51);
    WIs(51);
    assert RoundsV(FIRST, ABC, 52) == HashV(0xE7D0_EC05, 0xEBC9_0281, 0xB04A_D909, 0xF428_8BFE, 0xA1D5_61B4);
    RoundNext(52);
    WIs(52);
    assert RoundsV(FIRST, ABC, 53) == HashV(0x7CB9_8E55, 0xE7D0_EC05, 0x7AF2_40A0, 0xB04A_D909, 0xF428_8BFE);
    RoundNext(53);
    WIs(53);
    assert RoundsV(FIRST, ABC, 54) == HashV(0x0D48_DBA2, 0x7CB9_8E55, 0x79F4_3B01, 0x7AF2_40A0, 0xB04A_D909);
    RoundNext(54);
    WIs(54);
    assert RoundsV(FIRST, ABC, 55) == HashV(0xC2D4_77BF, 0x0D48_DBA2, 0x5F2E_6395, 0x79F4_3B01, 0x7AF2_40A0);
    RoundNext(55);
    WIs(55);
    assert RoundsV(FIRST, ABC, 56) == HashV(0x236B_D48D, 0xC2D4_77BF, 0x8352_36E8, 0x5F2E_6395, 0x79F4_3B01);
    RoundNext(56);
    WIs(56);
    assert RoundsV(FIRST, ABC, 57) == HashV(0x9B43_64D6, 0x236B_D48D, 0xF0B5_1DEF, 0x8352_36E8, 0x5F2E_6395);
    RoundNext(57);
    WIs(57);
    assert RoundsV(FIRST, ABC, 58) == HashV(0x5B8C_33C9, 0x9B43_64D6, 0x48DA_F523, 0xF0B5_1DEF, 0x8352_36E8);
    RoundNext(58);
    WIs(58);
    assert RoundsV(FIRST, ABC, 59) == HashV(0xBE2A_4656, 0x5B8C_33C9, 0xA6D0_D935, 0x48DA_F523, 0xF0B5_1DEF);
    RoundNext(59);
    WIs(59);
  }

  lemma Abc70()
    ensures RoundsV(FIRST, ABC, 70)
         == HashV(0x2896_B70F, 0xC241_F74D, 0xEE95_9011, 0x4533_668D, 0x0F2B_1945)
  {
    hide RoundsV, WV, In;
    In70();
    Abc60();
    RoundNext(60);
    WIs(60);
    assert RoundsV(FIRST, ABC, 61) == HashV(0xC10C_8993, 0x8FF2_96DB, 0xAF8A_9195, 0x56E3_0CF2, 0xA6D0_D935);
    RoundNext(61);
    WIs(61);
    assert RoundsV(FIRST, ABC, 62) == HashV(0x6AC2_3CBF, 0xC10C_8993, 0xE3FC_A5B6, 0xAF8A_9195, 0x56E3_0CF2);
    RoundNext(62);
    WIs(62);
    assert RoundsV(FIRST, ABC, 63) == HashV(0x0708_247D, 0x6AC2_3CBF, 0xF043_2264, 0xE3FC_A5B6, 0xAF8A_9195);
    RoundNext(63);
    WIs(63);
    assert RoundsV(FIRST, ABC, 64) == HashV(0x35D2_01F8, 0x0708_247D, 0xDAB0_8F2F, 0xF043_2264, 0xE3FC_A5B6);
    RoundNext(64);
    WIs(64);
    assert RoundsV(FIRST, ABC, 65) == HashV(0x969B_2FC8, 0x35D2_01F8, 0x41C2_091F, 0xDAB0_8F2F, 0xF043_2264);
    RoundNext(65);
    WIs(65);
    assert RoundsV(FIRST, ABC, 66) == HashV(0x3CAC_6514, 0x969B_2FC8, 0x0D74_807E, 0x41C2_091F, 0xDAB0_8F2F);
    RoundNext(66);
    WIs(66);
    assert RoundsV(FIRST, ABC, 67) == HashV(0x14CD_9A35, 0x3CAC_6514, 0x25A6_CBF2, 0x0D74_807E, 0x41C2_091F);
    RoundNext(67);
    WIs(67);
    assert RoundsV(FIRST, ABC, 68) == HashV(0xBA56_4047, 0x14CD_9A35, 0x0F2B_1945, 0x25A6_CBF2, 0x0D74_807E);
    RoundNext(68);
    WIs(68);
    assert RoundsV(FIRST, ABC, 69) == HashV(0xC241_F74D, 0xBA56_4047, 0x4533_668D, 0x0F2B_1945, 0x25A6_CBF2);
    RoundNext(69);
    WIs(69);
  }

  lemma Abc80()
    ensures RoundsV(FIRST, ABC, 80)
         == HashV(0x9A1F_95A8, 0x24FF_7ED5, 0xDC0A_1B01, 0xF7F9_F921, 0x2E1B_1690)
  {
    hide RoundsV, WV, In;
    In80();
    Abc70();
    RoundNext(70);
    WIs(70);
    assert RoundsV(FIRST, ABC, 71) == HashV(0x564B_BED1, 0x2896_B70F, 0x7090_7DD3, 0xEE95_9011, 0x4533_668D);
    RoundNext(71);
    WIs(71);
    assert RoundsV(FIRST, ABC, 72) == HashV(0x8FA1_5D5A, 0x564B_BED1, 0xCA25_ADC3, 0x7090_7DD3, 0xEE95_9011);
    RoundNext(72);
    WIs(72);
    assert RoundsV(FIRST, ABC, 73) == HashV(0x9A22_6C11, 0x8FA1_5D5A, 0x5592_EFB4, 0xCA25_ADC3, 0x7090_7DD3);
    RoundNext(73);
    WIs(73);
    assert RoundsV(FIRST, ABC, 74) == HashV(0xF0B9_4489, 0x9A22_6C11, 0xA3E8_5756, 0x5592_EFB4, 0xCA25_ADC3);
    RoundNext(74);
    WIs(74);
    assert RoundsV(FIRST, ABC, 75) == HashV(0x1809_D5E2, 0xF0B9_4489, 0x6688_9B04, 0xA3E8_5756, 0x5592_EFB4);
    RoundNext(75);
    WIs(75);
    assert RoundsV(FIRST, ABC, 76) == HashV(0xB86C_5A40, 0x1809_D5E2, 0x7C2E_5122, 0x6688_9B04, 0xA3E8_5756);
    RoundNext(76);
    WIs(76);
    assert RoundsV(FIRST, ABC, 77) == HashV(0xDFE7_E487, 0xB86C_5A40, 0x8602_7578, 0x7C2E_5122, 0x6688_9B04);
    RoundNext(77);
    WIs(77);
    assert RoundsV(FIRST, ABC, 78) == HashV(0x7028_6C07, 0xDFE7_E487, 0x2E1B_1690, 0x8602_7578, 0x7C2E_5122);
    RoundNext(78);
    WIs(78);
    assert RoundsV(FIRST, ABC, 79) == HashV(0x24FF_7ED5, 0x7028_6C07, 0xF7F9_F921, 0x2E1B_1690, 0x8602_7578);
    RoundNext(79);
    WIs(79);
  }

  lemma AbcDigest()
    ensures DigestV(FIRST, ABC) == HashV(0x0164_B8A9, 0x14CD_2A5E, 0x74C4_F7FF, 0x082C_4D97, 0xF1ED_F880)
  {
    hide RoundsV;
    Abc80();
  }

  lemma AbcPadding()
    ensures Padding([97, 98, 99]) == [97, 98, 99, 0x80] + Zeros(59) + [24] && |Padding([97, 98, 99])| == 64
  {
    hide Padding, BigEndian, PaddedSize;
    AbcParts();
    BigZero(7);
    LastByte();
    assert Zeros(52) + Zeros(7) == Zeros(59);
    assert Padding([97, 98, 99]) == [97, 98, 99] + [0x80] + Zeros(52) + (Zeros(7) + [24]);
  }

  lemma AbcParts()
    ensures Padding([97, 98, 99]) == [97, 98, 99] + [0x80] + Zeros(52) + BigEndian(24, 8)
  {
    hide BigEndian, Zeros;
    assert PaddedSize(3) == 64;
  }

  lemma LastByte()
    ensures BigEndian(24, 8) == BigEndian(0, 7) + [24]
  {
  }

  lemma {:induction false} BigZero(n: nat)
    ensures BigEndian(0, n) == Zeros(n)
    decreases n
  {
    if n > 0 {
      BigZero(n - 1);
    }
  }

  lemma AbcWords()
    ensures BytesOf(Padding([97, 98, 99]), ABC)
  {
    hide Padding;
    AbcPadding();
    var p := Padding([97, 98, 99]);
    SmallVals();
    forall t | 0 <= t < 16 ensures FromBe32(p[4 * t..4 * t + 4]) == Val(ABC[t]) {
      if t == 0 {
        assert p[0..4] == [97, 98, 99, 0x80];
      } else if t == 15 {
        assert p[60..64] == [0, 0, 0, 24];
      } else {
        assert p[4 * t..4 * t + 4] == [0, 0, 0, 0];
        assert ABC[t] == 0;
      }
    }
  }

  lemma SmallVals()
    ensures Val(0) == 0 && Val(0x18) == 24 && Val(0x6162_6380) == 0x6162_6380
    ensures FromBe32([97, 98, 99, 0x80]) == 0x6162_6380 && FromBe32([0, 0, 0, 24]) == 24 && FromBe32([0, 0, 0, 0]) == 0
  {
  }

  /** The hash of the message abc. */
  lemma KnownDigest()
    ensures Hashed([97, 98, 99]) == [0x0164_B8A9, 0x14CD_2A5E, 0x74C4_F7FF, 0x082C_4D97, 0xF1ED_F880]
  {
    hide Padding, Digest, DigestV, RoundsV;
    AbcWords();
    FirstWords();
    DigestIs(FIRST, Padding([97, 98, 99]), ABC);
    AbcDigest();
    AbcVals();
    var p := Padding([97, 98, 99]);
    assert p[0..64] == p;
    assert Fold(p, 0) == INITIAL;
  }

  lemma FirstWords()
    ensures Words(FIRST) == INITIAL
  {
  }

  lemma AbcVals()
    ensures Val(0x0164_B8A9) == 0x0164_B8A9 && Val(0x14CD_2A5E) == 0x14CD_2A5E && Val(0x74C4_F7FF) == 0x74C4_F7FF
    ensures Val(0x082C_4D97) == 0x082C_4D97 && Val(0xF1ED_F880) == 0xF1ED_F880
  {
  }
}
