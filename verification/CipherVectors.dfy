/** The two block ciphers in the arithmetic of 32-bit vectors, for every key, block and number of rounds,
    and what they make of one block (streams.cpp:384-460). */
module CipherVectors {
  import opened Bytes
  import opened Bits
  import opened BitVectors
  import opened Ciphers
  import opened CipherBlocks

  type VectorKey = k: seq<bv32> | |k| == 4 witness [0, 0, 0, 0]

  function KeyOf(k: VectorKey): Key {
    [Val(k[0]), Val(k[1]), Val(k[2]), Val(k[3])]
  }

  /** The number of a key word, from two bits. */
  function Number(v: bv32): (n: nat)
    ensures n < 4
  {
    if v & 3 == 0 then 0 else if v & 3 == 1 then 1 else if v & 3 == 2 then 2 else 3
  }

  lemma NumberIs(v: bv32)
    ensures Number(v) == Val(v) % 4
  {
    hide Val;
    LowTwoVal(v);
    NumberLow(v);
  }

  lemma NumberLow(v: bv32)
    ensures Number(v) == Val(LowTwo(v))
  {
    hide Byte0, Byte1, Byte2, Byte3;
    LowTwoBytes(v);
    SmallBytes();
  }

  lemma SmallBytes()
    ensures (0 as bv8) as int == 0 && (1 as bv8) as int == 1 && (2 as bv8) as int == 2 && (3 as bv8) as int == 3
  {
  }

  lemma LowTwoBytes(v: bv32)
    ensures Byte1(LowTwo(v)) == 0 && Byte2(LowTwo(v)) == 0 && Byte3(LowTwo(v)) == 0
    ensures Byte0(LowTwo(v)) == if v & 3 == 0 then 0 else if v & 3 == 1 then 1 else if v & 3 == 2 then 2 else 3
  {
  }

  // ---- TEA ----

  function TeaMixV(h: bv32, k: bv32): bv32 {
    (((h >> 5) ^ (h << 4)) + h) ^ k
  }

  lemma TeaShifts(h: bv32)
    ensures XorOf(h >> 5, h << 4) == (h >> 5) ^ (h << 4)
    ensures Plus((h >> 5) ^ (h << 4), h) == ((h >> 5) ^ (h << 4)) + h
  {
  }

  lemma TeaMixParts(h: bv32, k: bv32)
    ensures XorOf(((h >> 5) ^ (h << 4)) + h, k) == TeaMixV(h, k)
  {
  }

  lemma TeaMixIs(h: bv32, k: bv32)
    ensures TeaMix(Val(h), Val(k)) == Val(TeaMixV(h, k))
  {
    hide Val, Add, Xor, Shl, Shr, Left, Right, XorOf, Plus, TeaMixV;
    ShrVal(h, 5);
    FarRights(h);
    ShlVal(h, 4);
    Lefts(h);
    XorOfVal(Right(h, 5), Left(h, 4));
    TeaShifts(h);
    PlusVal(XorOf(Right(h, 5), Left(h, 4)), h);
    TeaMixParts(h, k);
    XorOfVal(Plus(XorOf(Right(h, 5), Left(h, 4)), h), k);
  }

  function DeltaTimes(n: nat): bv32 {
    if n == 0 then 0 else Plus(DeltaTimes(n - 1), 0x9E37_79B9)
  }

  lemma {:induction false} RoundKeyIs(n: nat)
    ensures RoundKey(n) == Val(DeltaTimes(n))
    decreases n
  {
    hide Val, RoundKey, Add, Plus;
    if n == 0 {
      ValZero();
      RoundKeyZeroIff(0);
    } else {
      RoundKeyIs(n - 1);
      RoundKeyStep(n - 1);
      DeltaVal();
      PlusVal(DeltaTimes(n - 1), 0x9E37_79B9);
    }
  }

  lemma DeltaVal()
    ensures Val(0x9E37_79B9) == DELTA
  {
  }

  /** The key for the first half, and for the second. */
  function TeaKey1V(k: VectorKey, key: bv32): bv32 { Plus(k[Number(key)], key) }
  function TeaKey2V(k: VectorKey, key: bv32): bv32 { Plus(k[Number(key >> 11)], key) }

  function TeaRoundV(k: VectorKey, key: bv32, b: (bv32, bv32)): (bv32, bv32) {
    var first := Plus(b.0, TeaMixV(b.1, TeaKey1V(k, key)));
    var next := Plus(key, 0x9E37_79B9);
    (first, Plus(b.1, TeaMixV(first, TeaKey2V(k, next))))
  }

  function TeaV(k: VectorKey, b: (bv32, bv32), n: nat): (bv32, bv32) {
    if n == 0 then b else TeaRoundV(k, DeltaTimes(n - 1), TeaV(k, b, n - 1))
  }

  function Numbers(b: (bv32, bv32)): Pair {
    (Val(b.0), Val(b.1))
  }

  lemma TeaKey1Is(k: VectorKey, key: bv32)
    ensures TeaKey1(KeyOf(k), Val(key)) == Val(TeaKey1V(k, key))
  {
    hide Val, Add, Number, Plus;
    NumberIs(key);
    PlusVal(k[Number(key)], key);
  }

  lemma Number11(key: bv32)
    ensures Number(key >> 11) == Shr(Val(key), 11) % 4
  {
    hide Val, Number, Shr, Right;
    ShrVal(key, 11);
    FarRights(key);
    NumberIs(key >> 11);
  }

  lemma TeaKey2Is(k: VectorKey, key: bv32)
    ensures TeaKey2(KeyOf(k), Val(key)) == Val(TeaKey2V(k, key))
  {
    hide Val, Add, Number, Shr, Plus;
    Number11(key);
    PlusVal(k[Number(key >> 11)], key);
  }

  lemma TeaRoundIs(k: VectorKey, key: bv32, b: (bv32, bv32))
    ensures TeaRound(KeyOf(k), Val(key), Numbers(b)) == Numbers(TeaRoundV(k, key, b))
  {
    hide Val, Add, TeaMix, TeaMixV, TeaKey1, TeaKey2, TeaKey1V, TeaKey2V, KeyOf, Plus;
    TeaKey1Is(k, key);
    TeaMixIs(b.1, TeaKey1V(k, key));
    PlusVal(b.0, TeaMixV(b.1, TeaKey1V(k, key)));
    var first := Plus(b.0, TeaMixV(b.1, TeaKey1V(k, key)));
    DeltaVal();
    PlusVal(key, 0x9E37_79B9);
    var next := Plus(key, 0x9E37_79B9);
    TeaKey2Is(k, next);
    TeaMixIs(first, TeaKey2V(k, next));
    PlusVal(b.1, TeaMixV(first, TeaKey2V(k, next)));
  }

  /** TEA: the rounds of the source, in vectors. */
  lemma {:induction false} TeaIs(k: VectorKey, b: (bv32, bv32), n: nat)
    ensures TeaRounds(KeyOf(k), Numbers(b), n) == Numbers(TeaV(k, b, n))
    decreases n
  {
    hide TeaRound, TeaRoundV, Numbers, KeyOf, RoundKey, DeltaTimes;
    if n > 0 {
      TeaIs(k, b, n - 1);
      RoundKeyIs(n - 1);
      TeaRoundIs(k, DeltaTimes(n - 1), TeaV(k, b, n - 1));
    }
  }

  // ---- XXTEA ----

  function XxteaMixV(kz: bv32, key: bv32, z: bv32): bv32 {
    (((z << 4) ^ (z >> 3)) + ((z >> 5) ^ (z << 2))) ^ ((kz ^ z) + (key ^ z))
  }

  /** Exclusive or of two-bit numbers. */
  function XorTwo(a: nat, b: nat): (r: nat)
    ensures r < 4
  {
    (if a % 2 == b % 2 then 0 else 1) + (if a / 2 % 2 == b / 2 % 2 then 0 else 2)
  }

  lemma XorTwoIs(a: nat, b: nat)
    ensures XorBits(a, b, 2) == XorTwo(a, b)
  {
    assert XorBits(a / 2, b / 2, 1) == (Bit(a / 2) + Bit(b / 2)) % 2 + 2 * XorBits(a / 2 / 2, b / 2 / 2, 0);
  }

  lemma XxteaShifts(z: bv32)
    ensures XorOf(z << 4, z >> 3) == (z << 4) ^ (z >> 3) && XorOf(z >> 5, z << 2) == (z >> 5) ^ (z << 2)
    ensures Plus((z << 4) ^ (z >> 3), (z >> 5) ^ (z << 2)) == ((z << 4) ^ (z >> 3)) + ((z >> 5) ^ (z << 2))
  {
  }

  lemma XxteaKeys(kz: bv32, key: bv32, z: bv32)
    ensures XorOf(kz, z) == kz ^ z && XorOf(key, z) == key ^ z
    ensures Plus(kz ^ z, key ^ z) == (kz ^ z) + (key ^ z)
  {
  }

  lemma XxteaMixParts(kz: bv32, key: bv32, z: bv32)
    ensures XorOf(((z << 4) ^ (z >> 3)) + ((z >> 5) ^ (z << 2)), (kz ^ z) + (key ^ z)) == XxteaMixV(kz, key, z)
  {
  }

  lemma XxteaMixIs(k: VectorKey, key: bv32, p: nat, z: bv32)
    ensures XxteaMix(KeyOf(k), Val(key), p, Val(z)) == Val(XxteaMixV(XxteaKeyV(k, key, p), key, z))
  {
    hide Val, Add, Xor, Shl, Shr, Left, Right, XorOf, Plus, XxteaMixV, XorTwo, XorBits, Number;
    var kz := XxteaKeyV(k, key, p);
    ShlVal(z, 4);
    ShlVal(z, 2);
    Lefts(z);
    ShrVal(z, 3);
    Rights(z);
    ShrVal(z, 5);
    FarRights(z);
    ShrVal(key, 2);
    Rights(key);
    NumberIs(key >> 2);
    XorTwoIs(p % 4, Number(key >> 2));
    XxteaShifts(z);
    XxteaKeys(kz, key, z);
    XxteaMixParts(kz, key, z);
    XorOfVal(z << 4, z >> 3);
    XorOfVal(z >> 5, z << 2);
    PlusVal(XorOf(z << 4, z >> 3), XorOf(z >> 5, z << 2));
    XorOfVal(kz, z);
    XorOfVal(key, z);
    PlusVal(XorOf(kz, z), XorOf(key, z));
    XorOfVal(Plus(XorOf(z << 4, z >> 3), XorOf(z >> 5, z << 2)), Plus(XorOf(kz, z), XorOf(key, z)));
  }

  /** The key word for word p: its number is that of the word, exclusive or the round key's bits at bit 2. */
  function XxteaKeyV(k: VectorKey, key: bv32, p: nat): bv32 {
    k[XorTwo(p % 4, Number(key >> 2))]
  }

  function XxteaRoundV(k: VectorKey, key: bv32, b: (bv32, bv32)): (bv32, bv32) {
    var first := Plus(b.0, XxteaMixV(XxteaKeyV(k, key, 0), key, b.1));
    (first, Plus(b.1, XxteaMixV(XxteaKeyV(k, key, 1), key, first)))
  }

  function XxteaV(k: VectorKey, b: (bv32, bv32), n: nat): (bv32, bv32) {
    if n == 0 then b else XxteaRoundV(k, DeltaTimes(n), XxteaV(k, b, n - 1))
  }

  function Words(b: (bv32, bv32)): seq<word> {
    [Val(b.0), Val(b.1)]
  }

  lemma XxteaRoundIs(k: VectorKey, key: bv32, b: (bv32, bv32))
    ensures XxteaPass(KeyOf(k), Val(key), Words(b), 2) == Words(XxteaRoundV(k, key, b))
  {
    hide Val, Add, XxteaMix, XxteaMixV, XxteaKeyV, KeyOf, Plus;
    var kw := KeyOf(k);
    XxteaMixIs(k, key, 0, b.1);
    PlusVal(b.0, XxteaMixV(XxteaKeyV(k, key, 0), key, b.1));
    var first := Plus(b.0, XxteaMixV(XxteaKeyV(k, key, 0), key, b.1));
    assert XxteaPass(kw, Val(key), Words(b), 1) == [Val(first), Val(b.1)];
    XxteaMixIs(k, key, 1, first);
    PlusVal(b.1, XxteaMixV(XxteaKeyV(k, key, 1), key, first));
  }

  /** XXTEA: the rounds of the source on a block of two words, in vectors. */
  lemma {:induction false} XxteaIs(k: VectorKey, b: (bv32, bv32), n: nat)
    ensures XxteaRounds(KeyOf(k), Words(b), n) == Words(XxteaV(k, b, n))
    decreases n
  {
    hide XxteaPass, XxteaRoundV, KeyOf, RoundKey, DeltaTimes, Val;
    if n > 0 {
      XxteaIs(k, b, n - 1);
      RoundKeyIs(n);
      XxteaRoundIs(k, DeltaTimes(n), XxteaV(k, b, n - 1));
    }
  }

  // ---- one block under the key 1, 2, 3, 4 ----

  const KEY: VectorKey := [1, 2, 3, 4]
  const BLOCK_01: (bv32, bv32) := (0, 1)

  lemma XxteaNext(n: nat)
    ensures XxteaV(KEY, BLOCK_01, n + 1) == XxteaRoundV(KEY, DeltaTimes(n + 1), XxteaV(KEY, BLOCK_01, n))
  {
  }

  lemma TeaNext(n: nat)
    ensures TeaV(KEY, BLOCK_01, n + 1) == TeaRoundV(KEY, DeltaTimes(n), TeaV(KEY, BLOCK_01, n))
  {
  }

  lemma Start()
    ensures XxteaV(KEY, BLOCK_01, 0) == BLOCK_01 && TeaV(KEY, BLOCK_01, 0) == BLOCK_01
  {
  }

  lemma Keys8()
    ensures DeltaTimes(0) == 0x0000_0000 && DeltaTimes(1) == 0x9E37_79B9 && DeltaTimes(2) == 0x3C6E_F372
    ensures DeltaTimes(3) == 0xDAA6_6D2B && DeltaTimes(4) == 0x78DD_E6E4 && DeltaTimes(5) == 0x1715_609D
    ensures DeltaTimes(6) == 0xB54C_DA56 && DeltaTimes(7) == 0x5384_540F && DeltaTimes(8) == 0xF1BB_CDC8
  {
  }

  lemma Keys16()
    ensures DeltaTimes(8) == 0xF1BB_CDC8 && DeltaTimes(9) == 0x8FF3_4781 && DeltaTimes(10) == 0x2E2A_C13A
    ensures DeltaTimes(11) == 0xCC62_3AF3 && DeltaTimes(12) == 0x6A99_B4AC && DeltaTimes(13) == 0x08D1_2E65
    ensures DeltaTimes(14) == 0xA708_A81E && DeltaTimes(15) == 0x4540_21D7 && DeltaTimes(16) == 0xE377_9B90
  {
    Keys8();
  }

  lemma Keys24()
    ensures DeltaTimes(16) == 0xE377_9B90 && DeltaTimes(17) == 0x81AF_1549 && DeltaTimes(18) == 0x1FE6_8F02
    ensures DeltaTimes(19) == 0xBE1E_08BB && DeltaTimes(20) == 0x5C55_8274 && DeltaTimes(21) == 0xFA8C_FC2D
    ensures DeltaTimes(22) == 0x98C4_75E6 && DeltaTimes(23) == 0x36FB_EF9F && DeltaTimes(24) == 0xD533_6958
  {
    Keys16();
  }

  lemma Keys32()
    ensures DeltaTimes(24) == 0xD533_6958 && DeltaTimes(25) == 0x736A_E311 && DeltaTimes(26) == 0x11A2_5CCA
    ensures DeltaTimes(27) == 0xAFD9_D683 && DeltaTimes(28) == 0x4E11_503C && DeltaTimes(29) == 0xEC48_C9F5
    ensures DeltaTimes(30) == 0x8A80_43AE && DeltaTimes(31) == 0x28B7_BD67 && DeltaTimes(32) == 0xC6EF_3720
  {
    Keys24();
  }

  /** The key words of XXTEA, round by round. */
  lemma KeyWords4()
    ensures XxteaKeyV(KEY, 0x9E37_79B9, 0) == 3 && XxteaKeyV(KEY, 0x9E37_79B9, 1) == 4
    ensures XxteaKeyV(KEY, 0x3C6E_F372, 0) == 1 && XxteaKeyV(KEY, 0x3C6E_F372, 1) == 2
    ensures XxteaKeyV(KEY, 0xDAA6_6D2B, 0) == 3 && XxteaKeyV(KEY, 0xDAA6_6D2B, 1) == 4
    ensures XxteaKeyV(KEY, 0x78DD_E6E4, 0) == 2 && XxteaKeyV(KEY, 0x78DD_E6E4, 1) == 1
  {
  }

  lemma KeyWords8()
    ensures XxteaKeyV(KEY, 0x1715_609D, 0) == 4 && XxteaKeyV(KEY, 0x1715_609D, 1) == 3
    ensures XxteaKeyV(KEY, 0xB54C_DA56, 0) == 2 && XxteaKeyV(KEY, 0xB54C_DA56, 1) == 1
    ensures XxteaKeyV(KEY, 0x5384_540F, 0) == 4 && XxteaKeyV(KEY, 0x5384_540F, 1) == 3
    ensures XxteaKeyV(KEY, 0xF1BB_CDC8, 0) == 3 && XxteaKeyV(KEY, 0xF1BB_CDC8, 1) == 4
  {
  }

  lemma KeyWords12()
    ensures XxteaKeyV(KEY, 0x8FF3_4781, 0) == 1 && XxteaKeyV(KEY, 0x8FF3_4781, 1) == 2
    ensures XxteaKeyV(KEY, 0x2E2A_C13A, 0) == 3 && XxteaKeyV(KEY, 0x2E2A_C13A, 1) == 4
    ensures XxteaKeyV(KEY, 0xCC62_3AF3, 0) == 1 && XxteaKeyV(KEY, 0xCC62_3AF3, 1) == 2
    ensures XxteaKeyV(KEY, 0x6A99_B4AC, 0) == 4 && XxteaKeyV(KEY, 0x6A99_B4AC, 1) == 3
  {
  }

  lemma KeyWords16()
    ensures XxteaKeyV(KEY, 0x08D1_2E65, 0) == 2 && XxteaKeyV(KEY, 0x08D1_2E65, 1) == 1
    ensures XxteaKeyV(KEY, 0xA708_A81E, 0) == 4 && XxteaKeyV(KEY, 0xA708_A81E, 1) == 3
    ensures XxteaKeyV(KEY, 0x4540_21D7, 0) == 2 && XxteaKeyV(KEY, 0x4540_21D7, 1) == 1
    ensures XxteaKeyV(KEY, 0xE377_9B90, 0) == 1 && XxteaKeyV(KEY, 0xE377_9B90, 1) == 2
  {
  }

  lemma KeyWords20()
    ensures XxteaKeyV(KEY, 0x81AF_1549, 0) == 3 && XxteaKeyV(KEY, 0x81AF_1549, 1) == 4
    ensures XxteaKeyV(KEY, 0x1FE6_8F02, 0) == 1 && XxteaKeyV(KEY, 0x1FE6_8F02, 1) == 2
    ensures XxteaKeyV(KEY, 0xBE1E_08BB, 0) == 3 && XxteaKeyV(KEY, 0xBE1E_08BB, 1) == 4
    ensures XxteaKeyV(KEY, 0x5C55_8274, 0) == 2 && XxteaKeyV(KEY, 0x5C55_8274, 1) == 1
  {
  }

  lemma KeyWords24()
    ensures XxteaKeyV(KEY, 0xFA8C_FC2D, 0) == 4 && XxteaKeyV(KEY, 0xFA8C_FC2D, 1) == 3
    ensures XxteaKeyV(KEY, 0x98C4_75E6, 0) == 2 && XxteaKeyV(KEY, 0x98C4_75E6, 1) == 1
    ensures XxteaKeyV(KEY, 0x36FB_EF9F, 0) == 4 && XxteaKeyV(KEY, 0x36FB_EF9F, 1) == 3
    ensures XxteaKeyV(KEY, 0xD533_6958, 0) == 3 && XxteaKeyV(KEY, 0xD533_6958, 1) == 4
  {
  }

  lemma KeyWords28()
    ensures XxteaKeyV(KEY, 0x736A_E311, 0) == 1 && XxteaKeyV(KEY, 0x736A_E311, 1) == 2
    ensures XxteaKeyV(KEY, 0x11A2_5CCA, 0) == 3 && XxteaKeyV(KEY, 0x11A2_5CCA, 1) == 4
    ensures XxteaKeyV(KEY, 0xAFD9_D683, 0) == 1 && XxteaKeyV(KEY, 0xAFD9_D683, 1) == 2
    ensures XxteaKeyV(KEY, 0x4E11_503C, 0) == 4 && XxteaKeyV(KEY, 0x4E11_503C, 1) == 3
  {
  }

  lemma KeyWords32()
    ensures XxteaKeyV(KEY, 0xEC48_C9F5, 0) == 2 && XxteaKeyV(KEY, 0xEC48_C9F5, 1) == 1
    ensures XxteaKeyV(KEY, 0x8A80_43AE, 0) == 4 && XxteaKeyV(KEY, 0x8A80_43AE, 1) == 3
    ensures XxteaKeyV(KEY, 0x28B7_BD67, 0) == 2 && XxteaKeyV(KEY, 0x28B7_BD67, 1) == 1
    ensures XxteaKeyV(KEY, 0xC6EF_3720, 0) == 1 && XxteaKeyV(KEY, 0xC6EF_3720, 1) == 2
  {
  }

  lemma Xxtea4()
    ensures XxteaV(KEY, BLOCK_01, 4) == (0xEB83_4061, 0x7CFA_6AEE)
  {
    hide XxteaV, DeltaTimes, XxteaKeyV;
    KeyWords4();
    Keys8();
    Start();
    XxteaNext(0);
    assert XxteaV(KEY, BLOCK_01, 1) == (0x9E37_79AE, 0xF2EA_AA8C);
    XxteaNext(1);
    assert XxteaV(KEY, BLOCK_01, 2) == (0xDA92_722C, 0xD186_DEB6);
    XxteaNext(2);
    assert XxteaV(KEY, BLOCK_01, 3) == (0x78E6_60DD, 0x4C85_FBA8);
    XxteaNext(3);
  }

  lemma Xxtea8()
    ensures XxteaV(KEY, BLOCK_01, 8) == (0x258A_4655, 0x9827_D30E)
  {
    hide XxteaV, DeltaTimes, XxteaKeyV;
    KeyWords8();
    Keys8();
    Xxtea4();
    XxteaNext(4);
    assert XxteaV(KEY, BLOCK_01, 5) == (0x4424_6A52, 0x4722_3292);
    XxteaNext(5);
    assert XxteaV(KEY, BLOCK_01, 6) == (0xE50C_BA6C, 0x31EB_D9E9);
    XxteaNext(6);
    assert XxteaV(KEY, BLOCK_01, 7) == (0x3007_3337, 0x8D86_2A20);
    XxteaNext(7);
  }

  lemma Xxtea12()
    ensures XxteaV(KEY, BLOCK_01, 12) == (0x6D81_F2DA, 0x3832_698B)
  {
    hide XxteaV, DeltaTimes, XxteaKeyV;
    KeyWords12();
    Keys16();
    Xxtea8();
    XxteaNext(8);
    assert XxteaV(KEY, BLOCK_01, 9) == (0x7FAE_A114, 0x1A93_041F);
    XxteaNext(9);
    assert XxteaV(KEY, BLOCK_01, 10) == (0xDB65_01A2, 0xE2D2_2EC6);
    XxteaNext(10);
    assert XxteaV(KEY, BLOCK_01, 11) == (0x87B9_987C, 0x38B1_87D5);
    XxteaNext(11);
  }

  lemma Xxtea16()
    ensures XxteaV(KEY, BLOCK_01, 16) == (0x4DB1_7106, 0xCBF0_E9C0)
  {
    hide XxteaV, DeltaTimes, XxteaKeyV;
    KeyWords16();
    Keys16();
    Xxtea12();
    XxteaNext(12);
    assert XxteaV(KEY, BLOCK_01, 13) == (0x79BE_AE70, 0xC96C_BA92);
    XxteaNext(13);
    assert XxteaV(KEY, BLOCK_01, 14) == (0xFDCD_B19C, 0xB616_4B60);
    XxteaNext(14);
    assert XxteaV(KEY, BLOCK_01, 15) == (0xFACA_5AFA, 0xD0BF_1376);
    XxteaNext(15);
  }

  lemma Xxtea20()
    ensures XxteaV(KEY, BLOCK_01, 20) == (0x0317_DB8C, 0x2B31_8486)
  {
    hide XxteaV, DeltaTimes, XxteaKeyV;
    KeyWords20();
    Keys24();
    Xxtea16();
    XxteaNext(16);
    assert XxteaV(KEY, BLOCK_01, 17) == (0x140D_B8D0, 0x0731_988D);
    XxteaNext(17);
    assert XxteaV(KEY, BLOCK_01, 18) == (0xC504_D37A, 0xCBFF_CF3F);
    XxteaNext(18);
    assert XxteaV(KEY, BLOCK_01, 19) == (0x56C7_2DD6, 0xCBF4_636E);
    XxteaNext(19);
  }

  lemma Xxtea24()
    ensures XxteaV(KEY, BLOCK_01, 24) == (0xBF04_7C8D, 0xF2E1_624A)
  {
    hide XxteaV, DeltaTimes, XxteaKeyV;
    KeyWords24();
    Keys24();
    Xxtea20();
    XxteaNext(20);
    assert XxteaV(KEY, BLOCK_01, 21) == (0x9C08_C58D, 0x708D_F3DD);
    XxteaNext(21);
    assert XxteaV(KEY, BLOCK_01, 22) == (0x2C5E_241C, 0x0109_8461);
    XxteaNext(22);
    assert XxteaV(KEY, BLOCK_01, 23) == (0x587A_483C, 0x2A36_D6FB);
    XxteaNext(23);
  }

  lemma Xxtea28()
    ensures XxteaV(KEY, BLOCK_01, 28) == (0x6ABF_C776, 0xCAB8_91DF)
  {
    hide XxteaV, DeltaTimes, XxteaKeyV;
    KeyWords28();
    Keys32();
    Xxtea24();
    XxteaNext(24);
    assert XxteaV(KEY, BLOCK_01, 25) == (0x4734_E512, 0xD3E3_4E3B);
    XxteaNext(25);
    assert XxteaV(KEY, BLOCK_01, 26) == (0x42B3_B14F, 0x8D70_739A);
    XxteaNext(26);
    assert XxteaV(KEY, BLOCK_01, 27) == (0x8AFD_4EC2, 0xEB80_6411);
    XxteaNext(27);
  }

  lemma Xxtea32()
    ensures XxteaV(KEY, BLOCK_01, 32) == (0x46C4_257B, 0x0855_3DFD)
  {
    hide XxteaV, DeltaTimes, XxteaKeyV;
    KeyWords32();
    Keys32();
    Xxtea28();
    XxteaNext(28);
    assert XxteaV(KEY, BLOCK_01, 29) == (0x98FD_4130, 0xD904_F1F8);
    XxteaNext(29);
    assert XxteaV(KEY, BLOCK_01, 30) == (0x5BC0_07AC, 0xE15B_C56B);
    XxteaNext(30);
    assert XxteaV(KEY, BLOCK_01, 31) == (0x7C74_CC7D, 0x4D26_8DCB);
    XxteaNext(31);
  }

  lemma Tea8()
    ensures TeaV(KEY, BLOCK_01, 8) == (0x662A_8510, 0x0836_BC79)
  {
    hide TeaV, DeltaTimes;
    Keys8();
    Start();
    TeaNext(0);
    assert TeaV(KEY, BLOCK_01, 1) == (0x0000_0010, 0x9E37_78AE);
    TeaNext(1);
    assert TeaV(KEY, BLOCK_01, 2) == (0x1B8A_D078, 0x8DCA_4ABC);
    TeaNext(2);
    assert TeaV(KEY, BLOCK_01, 3) == (0x7686_879C, 0xC68F_0371);
    TeaNext(3);
    assert TeaV(KEY, BLOCK_01, 4) == (0x667B_C6EF, 0x7A65_94C4);
    TeaNext(4);
    assert TeaV(KEY, BLOCK_01, 5) == (0xCDAD_DA3E, 0x37B1_5CB5);
    TeaNext(5);
    assert TeaV(KEY, BLOCK_01, 6) == (0x72FA_D933, 0x622B_222B);
    TeaNext(6);
    assert TeaV(KEY, BLOCK_01, 7) == (0xA97D_20C8, 0xD1BE_7487);
    TeaNext(7);
  }

  lemma Tea16()
    ensures TeaV(KEY, BLOCK_01, 16) == (0x44E2_1E9F, 0x0D16_FE92)
  {
    hide TeaV, DeltaTimes;
    Keys16();
    Tea8();
    TeaNext(8);
    assert TeaV(KEY, BLOCK_01, 9) == (0xE105_6835, 0x7FCE_143D);
    TeaNext(9);
    assert TeaV(KEY, BLOCK_01, 10) == (0xD223_6862, 0x58AF_D93B);
    TeaNext(10);
    assert TeaV(KEY, BLOCK_01, 11) == (0xA0E5_6FEB, 0xB905_5888);
    TeaNext(11);
    assert TeaV(KEY, BLOCK_01, 12) == (0x23A6_3026, 0xEEC3_2930);
    TeaNext(12);
    assert TeaV(KEY, BLOCK_01, 13) == (0xD444_37FA, 0x0EB7_E1AE);
    TeaNext(13);
    assert TeaV(KEY, BLOCK_01, 14) == (0xC556_E1F6, 0xCE4B_03F3);
    TeaNext(14);
    assert TeaV(KEY, BLOCK_01, 15) == (0xDB5C_A4F9, 0x9978_725B);
    TeaNext(15);
  }

  lemma Tea24()
    ensures TeaV(KEY, BLOCK_01, 24) == (0x698C_7742, 0xFE7E_414B)
  {
    hide TeaV, DeltaTimes;
    Keys24();
    Tea16();
    TeaNext(16);
    assert TeaV(KEY, BLOCK_01, 17) == (0x824B_E596, 0x306F_FD40);
    TeaNext(17);
    assert TeaV(KEY, BLOCK_01, 18) == (0x388F_A1F7, 0x0E98_88B2);
    TeaNext(18);
    assert TeaV(KEY, BLOCK_01, 19) == (0x2001_F909, 0xADD8_198E);
    TeaNext(19);
    assert TeaV(KEY, BLOCK_01, 20) == (0x58DB_720E, 0x61F1_0899);
    TeaNext(20);
    assert TeaV(KEY, BLOCK_01, 21) == (0x7B20_FA26, 0x386C_6C7F);
    TeaNext(21);
    assert TeaV(KEY, BLOCK_01, 22) == (0xC11F_E763, 0x7A3E_7206);
    TeaNext(22);
    assert TeaV(KEY, BLOCK_01, 23) == (0x43D1_1782, 0x2E59_59C5);
    TeaNext(23);
  }

  lemma Tea32()
    ensures TeaV(KEY, BLOCK_01, 32) == (0x6AF1_5CF2, 0x0DB6_62C0)
  {
    hide TeaV, DeltaTimes;
    Keys32();
    Tea24();
    TeaNext(24);
    assert TeaV(KEY, BLOCK_01, 25) == (0x7531_B89E, 0xB507_A11B);
    TeaNext(25);
    assert TeaV(KEY, BLOCK_01, 26) == (0xEEE4_E75E, 0x7EC4_0811);
    TeaNext(26);
    assert TeaV(KEY, BLOCK_01, 27) == (0x6EBD_DD0A, 0x7783_D5E5);
    TeaNext(27);
    assert TeaV(KEY, BLOCK_01, 28) == (0xCB9A_9D6D, 0x3D22_A57C);
    TeaNext(28);
    assert TeaV(KEY, BLOCK_01, 29) == (0x2A8F_55C7, 0x759B_5ACE);
    TeaNext(29);
    assert TeaV(KEY, BLOCK_01, 30) == (0x4E8B_6EBA, 0x2969_B6EE);
    TeaNext(30);
    assert TeaV(KEY, BLOCK_01, 31) == (0x9A45_08AE, 0x3BD9_CD26);
    TeaNext(31);
  }

  /** The block 00000000 01000000 under this key, enciphered by either cipher. */
  lemma KnownBlocks()
    ensures KeyOf(KEY) == [1, 2, 3, 4]
    ensures EncBlock(Xxtea, [1, 2, 3, 4], [0, 0, 0, 0, 1, 0, 0, 0]) == [0x7B, 0x25, 0xC4, 0x46, 0xFD, 0x3D, 0x55, 0x08]
    ensures EncBlock(Tea, [1, 2, 3, 4], [0, 0, 0, 0, 1, 0, 0, 0]) == [0xF2, 0x5C, 0xF1, 0x6A, 0xC0, 0x62, 0xB6, 0x0D]
  {
    hide XxteaV, TeaV, XxteaRounds, TeaRounds;
    SmallWords();
    assert KeyOf(KEY) == [1, 2, 3, 4];
    assert WordsOf([0, 0, 0, 0, 1, 0, 0, 0]) == [0, 1];
    XxteaIs(KEY, BLOCK_01, 32);
    Xxtea32();
    TeaIs(KEY, BLOCK_01, 32);
    Tea32();
    XxteaBytes();
    TeaBytes();
  }

  lemma SmallWords()
    ensures Val(0) == 0 && Val(1) == 1 && Val(2) == 2 && Val(3) == 3 && Val(4) == 4
  {
  }

  lemma XxteaBytes()
    ensures BytesOf([Val(0x46C4_257B), Val(0x0855_3DFD)]) == [0x7B, 0x25, 0xC4, 0x46, 0xFD, 0x3D, 0x55, 0x08]
  {
    assert Le32(Val(0x46C4_257B)) == [0x7B, 0x25, 0xC4, 0x46];
    assert Le32(Val(0x0855_3DFD)) == [0xFD, 0x3D, 0x55, 0x08];
  }

  lemma TeaBytes()
    ensures BytesOf([Val(0x6AF1_5CF2), Val(0x0DB6_62C0)]) == [0xF2, 0x5C, 0xF1, 0x6A, 0xC0, 0x62, 0xB6, 0x0D]
  {
    assert Le32(Val(0x6AF1_5CF2)) == [0xF2, 0x5C, 0xF1, 0x6A];
    assert Le32(Val(0x0DB6_62C0)) == [0xC0, 0x62, 0xB6, 0x0D];
  }
}
