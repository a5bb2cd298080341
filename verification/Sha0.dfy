/** The SHA-0 hash (Types/ShaHash.cpp:118-228): the loops against the method of section 6.1 of RFC 3174
    without the rotation in its message schedule, over the padding of section 4 of RFC 3174. */
module Sha0 {
  import opened Bytes
  import opened Bits
  import Rotation

  const BLOCK := 64

  // ---- padding ----

  /** The n low bytes of v, the highest first. */
  function BigEndian(v: nat, n: nat): (r: seq<byte>)
    ensures |r| == n
    decreases n
  {
    if n == 0 then [] else BigEndian(v / 0x100, n - 1) + [v % 0x100]
  }

  function FromBigEndian(s: seq<byte>): nat {
    if s == [] then 0 else FromBigEndian(s[..|s| - 1]) * 0x100 + s[|s| - 1]
  }

  function Pow256(n: nat): nat {
    if n == 0 then 1 else 0x100 * Pow256(n - 1)
  }

  lemma {:induction false} BigEndianRoundTrip(v: nat, n: nat)
    requires v < Pow256(n)
    ensures FromBigEndian(BigEndian(v, n)) == v
    decreases n
  {
    if n > 0 {
      var s := BigEndian(v, n);
      assert s[..n - 1] == BigEndian(v / 0x100, n - 1);
      BigEndianRoundTrip(v / 0x100, n - 1);
    }
  }

  /** The size of the padded message: a one bit, and the length in eight bytes. */
  function PaddedSize(size: nat): (n: nat)
    ensures n % BLOCK == 0 && size + 9 <= n < size + 9 + BLOCK
  {
    var n := size + 1 + 8;
    if n % BLOCK != 0 then n + (BLOCK - n % BLOCK) else n
  }

  const SIZE_LIMIT: nat := 0x2000_0000_0000_0000

  function Padding(msg: seq<byte>): (r: seq<byte>)
    ensures |r| == PaddedSize(|msg|)
  {
    msg + [0x80] + Zeros(PaddedSize(|msg|) - |msg| - 9) + BigEndian(|msg| * 8 % 0x1_0000_0000_0000_0000, 8)
  }

  /** No shorter multiple of the block size has room for the message, the bit and the length. */
  lemma PaddingShortest(msg: seq<byte>, n: nat)
    requires n % BLOCK == 0 && |msg| + 9 <= n
    ensures |Padding(msg)| <= n
  {
    hide Padding, PaddedSize;
    var p := PaddedSize(|msg|);
    var a, b := p / BLOCK, n / BLOCK;
    assert p == BLOCK * a && n == BLOCK * b;
    assert BLOCK * a < BLOCK * (b + 1);
  }

  lemma PaddingParts(msg: seq<byte>)
    ensures var n := PaddedSize(|msg|);
            Padding(msg)[..|msg|] == msg && Padding(msg)[n - 8..] == BigEndian(|msg| * 8 % 0x1_0000_0000_0000_0000, 8)
  {
    hide BigEndian, PaddedSize, Zeros;
    var zeros := Zeros(PaddedSize(|msg|) - |msg| - 9);
    Framed(msg, [0x80], zeros, BigEndian(|msg| * 8 % 0x1_0000_0000_0000_0000, 8));
  }

  lemma Framed(a: seq<byte>, b: seq<byte>, c: seq<byte>, d: seq<byte>)
    ensures var s := a + b + c + d; s[..|a|] == a && s[|s| - |d|..] == d
  {
    var s := a + b + c + d;
    assert s == a + (b + c + d);
  }

  /** Messages below 2^61 bytes that are padded alike are the same. */
  lemma PaddingInjective(a: seq<byte>, b: seq<byte>)
    requires |a| < SIZE_LIMIT && |b| < SIZE_LIMIT && Padding(a) == Padding(b)
    ensures a == b
  {
    hide Padding, PaddedSize, BigEndian, FromBigEndian;
    PaddingParts(a);
    PaddingParts(b);
    assert Pow256(8) == 0x1_0000_0000_0000_0000;
    assert |a| * 8 % 0x1_0000_0000_0000_0000 == |a| * 8 && |b| * 8 % 0x1_0000_0000_0000_0000 == |b| * 8;
    BigEndianRoundTrip(|a| * 8, 8);
    BigEndianRoundTrip(|b| * 8, 8);
  }

  // ---- rotation ----

  /** rol32 */
  function Rol32(value: word, n: nat): word
    requires n <= 32
  {
    Or(Shl(value, n), Shr(value, 32 - n))
  }

  /** It is the circular shift of the method: the high n bits become the low ones. */
  lemma RolIsCircular(value: word, n: nat)
    requires n <= 32
    ensures Rol32(value, n) == (value % Pow2(32 - n)) * Pow2(n) + value / Pow2(32 - n)
  {
    Rotation.RotationIs(value, n);
  }

  // ---- the method ----

  /** f(t; B, C, D) and K(t) */
  function F(t: nat, b: word, c: word, d: word): word {
    if t < 20 then Or(And(b, c), And(Not(b), d))
    else if t < 40 then Xor(Xor(b, c), d)
    else if t < 60 then Or(Or(And(b, c), And(b, d)), And(c, d))
    else Xor(Xor(b, c), d)
  }

  function K(t: nat): word {
    if t < 20 then 0x5A82_7999 else if t < 40 then 0x6ED9_EBA1 else if t < 60 then 0x8F1B_BCDC else 0xCA62_C1D6
  }

  function FromBe32(s: seq<byte>): word
    requires |s| == 4
  {
    var a: int, b: int, c: int, d: int := s[0], s[1], s[2], s[3];
    d + 0x100 * (c + 0x100 * (b + 0x100 * a))
  }

  /** The words W(0) to W(n - 1). */
  function Schedule(block: seq<byte>, n: nat): (w: seq<word>)
    requires |block| == BLOCK
    ensures |w| == n
  {
    if n == 0 then []
    else
      var w := Schedule(block, n - 1);
      var t := n - 1;
      w + [if t < 16 then FromBe32(block[4 * t..4 * t + 4])
           else Xor(Xor(Xor(w[t - 3], w[t - 8]), w[t - 14]), w[t - 16])]
  }

  type Hash = h: seq<word> | |h| == 5 witness [0, 0, 0, 0, 0]

  /** Step t of the method, on A, B, C, D, E. */
  function Round(t: nat, h: Hash, w: word): Hash {
    var temp := Add(Add(Add(Add(Rol32(h[0], 5), F(t, h[1], h[2], h[3])), h[4]), K(t)), w);
    [temp, h[0], Rol32(h[1], 30), h[2], h[3]]
  }

  function Rounds(h: Hash, w: seq<word>, n: nat): Hash
    requires n <= |w|
  {
    if n == 0 then h else Round(n - 1, Rounds(h, w, n - 1), w[n - 1])
  }

  function Sums(h: Hash, g: Hash): Hash {
    [Add(h[0], g[0]), Add(h[1], g[1]), Add(h[2], g[2]), Add(h[3], g[3]), Add(h[4], g[4])]
  }

  function Digest(h: Hash, block: seq<byte>): Hash
    requires |block| == BLOCK
  {
    Sums(h, Rounds(h, Schedule(block, 80), 80))
  }

  const INITIAL: Hash := [0x6745_2301, 0xEFCD_AB89, 0x98BA_DCFE, 0x1032_5476, 0xC3D2_E1F0]

  /** The fold over the first n blocks. */
  function Fold(padded: seq<byte>, n: nat): Hash
    requires n * BLOCK <= |padded|
  {
    if n == 0 then INITIAL else Digest(Fold(padded, n - 1), padded[(n - 1) * BLOCK..n * BLOCK])
  }

  /** The hash of a message, as big-endian words. */
  function Hashed(msg: seq<byte>): Hash {
    Fold(Padding(msg), PaddedSize(|msg|) / BLOCK)
  }

  // ---- the loops ----

  /** SWAP_BYTES */
  function Swap(w: word): word {
    FromLe32([w / 0x100_0000, w / 0x1_0000 % 0x100, w / 0x100 % 0x100, w % 0x100])
  }

  lemma SwapLe(s: seq<byte>)
    requires |s| == 4
    ensures Swap(FromLe32(s)) == FromBe32(s)
  {
    Le32Injective(s);
    var w := FromLe32(s);
    assert Le32(w) == s;
    assert [w % 0x100, w / 0x100 % 0x100, w / 0x1_0000 % 0x100, w / 0x100_0000] == s;
  }

  method FillBuffer(data: seq<byte>) returns (buf: array<byte>)
    requires |data| < SIZE_LIMIT
    ensures buf[..] == Padding(data)
  {
    var size := |data|;
    var bufSize := size + 1 + 8;
    if bufSize % BLOCK != 0 {
      bufSize := bufSize + (BLOCK - bufSize % BLOCK);
    }
    buf := new byte[bufSize](_ => 0);
    forall i | 0 <= i < size {
      buf[i] := data[i];
    }
    buf[size] := 0x80;
    var length := BigEndian(size * 8 % 0x1_0000_0000_0000_0000, 8);
    forall i | 0 <= i < 8 {
      buf[bufSize - 8 + i] := length[i];
    }
    assert buf[..] == Padding(data);
  }

  method FillWork(block: seq<byte>, work: array<word>)
    requires |block| == BLOCK && work.Length == 80
    modifies work
    ensures work[..] == Schedule(block, 80)
  {
    hide Xor, FromBe32, FromLe32, Swap;
    for i := 0 to 16
      invariant work[..i] == Schedule(block, i)
    {
      SwapLe(block[4 * i..4 * i + 4]);
      work[i] := Swap(FromLe32(block[4 * i..4 * i + 4]));
      assert work[..i + 1] == work[..i] + [work[i]];
    }
    for i := 16 to 80
      invariant work[..i] == Schedule(block, i)
    {
      assert forall k :: 0 <= k < i ==> work[k] == Schedule(block, i)[k];
      work[i] := Xor(Xor(Xor(work[i - 3], work[i - 8]), work[i - 14]), work[i - 16]);
      assert work[..i + 1] == work[..i] + [work[i]];
    }
    assert work[..] == work[..80];
  }

  /** The rounds from one multiple of twenty to the next. */
  method TwentyRounds(first: nat, hv: array<word>, work: array<word>, ghost h: Hash)
    requires hv.Length == 5 && work.Length == 80 && hv != work && first <= 60 && first % 20 == 0
    requires hv[..] == Rounds(h, work[..], first)
    modifies hv
    ensures hv[..] == Rounds(h, work[..], first + 20)
  {
    hide F, K, Rol32, Add;
    for i := first to first + 20
      invariant hv[..] == Rounds(h, work[..], i)
    {
      var f := F(i, hv[1], hv[2], hv[3]);
      var temp := Add(Add(Add(Add(Rol32(hv[0], 5), f), hv[4]), K(i)), work[i]);
      ghost var before := hv[..];
      hv[4] := hv[3];
      hv[3] := hv[2];
      hv[2] := Rol32(hv[1], 30);
      hv[1] := hv[0];
      hv[0] := temp;
      assert hv[..] == Round(i, before, work[..][i]);
    }
  }

  method DigestBlock(block: seq<byte>, hash: array<word>, work: array<word>)
    requires |block| == BLOCK && hash.Length == 5 && work.Length == 80 && hash != work
    modifies hash, work
    ensures hash[..] == Digest(old(hash[..]), block)
  {
    hide Rounds, Schedule, Add;
    FillWork(block, work);
    var hv := new word[5](i requires 0 <= i < 5 reads hash => hash[i]);
    ghost var h: Hash := hash[..];
    assert hv[..] == h;
    RoundsNone(h, work[..]);
    TwentyRounds(0, hv, work, h);
    TwentyRounds(20, hv, work, h);
    TwentyRounds(40, hv, work, h);
    TwentyRounds(60, hv, work, h);
    ghost var g: Hash := hv[..];
    hash[0] := Add(hash[0], hv[0]);
    hash[1] := Add(hash[1], hv[1]);
    hash[2] := Add(hash[2], hv[2]);
    hash[3] := Add(hash[3], hv[3]);
    hash[4] := Add(hash[4], hv[4]);
    assert hash[..] == Sums(h, g);
  }

  lemma RoundsNone(h: Hash, w: seq<word>)
    ensures Rounds(h, w, 0) == h
  {
  }

  /** _ds_internal_sha0: the words come out byte-swapped. */
  method InternalSha0(data: seq<byte>) returns (result: seq<word>)
    requires |data| < SIZE_LIMIT
    ensures |result| == 5 && forall i :: 0 <= i < 5 ==> result[i] == Swap(Hashed(data)[i])
  {
    hide Digest, Padding, Swap;
    var hash := new word[5](i requires 0 <= i < 5 => INITIAL[i]);
    assert hash[..] == INITIAL;
    var buf := FillBuffer(data);
    var work := new word[80];
    var p := 0;
    ghost var n := 0;
    while p < buf.Length
      invariant p == n * BLOCK <= buf.Length && buf[..] == Padding(data)
      invariant hash[..] == Fold(buf[..], n)
    {
      assert buf[p..p + BLOCK] == buf[..][n * BLOCK..(n + 1) * BLOCK];
      DigestBlock(buf[p..p + BLOCK], hash, work);
      p, n := p + BLOCK, n + 1;
    }
    assert n == PaddedSize(|data|) / BLOCK;
    result := seq(5, i requires 0 <= i < 5 reads hash => Swap(hash[i]));
  }
}
