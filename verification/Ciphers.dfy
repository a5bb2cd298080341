/** The two block ciphers of EncryptedStream (streams.cpp:384-460). */
module Ciphers {
  import opened Bytes
  import opened Bits
  import opened Rotation

  datatype Type = Xxtea | Tea

  type Key = k: seq<word> | |k| == 4 witness [0, 0, 0, 0]

  const DELTA: word := 0x9E37_79B9
  const MINUS_DELTA: word := 0x61C8_8647

  /** The round key after n additions of DELTA. */
  function RoundKey(n: nat): word {
    n * DELTA % 0x1_0000_0000
  }

  lemma RoundKeyNext(n: nat)
    ensures RoundKey(n + 1) == if RoundKey(n) + DELTA < 0x1_0000_0000 then RoundKey(n) + DELTA
                               else RoundKey(n) + DELTA - 0x1_0000_0000
  {
    var q, r := n * DELTA / 0x1_0000_0000, n * DELTA % 0x1_0000_0000;
    var carry := if r + DELTA < 0x1_0000_0000 then 0 else 1;
    DivModUnique((n + 1) * DELTA, 0x1_0000_0000, q + carry, r + DELTA - carry * 0x1_0000_0000);
  }

  lemma RoundKeyStep(n: nat)
    ensures Add(RoundKey(n), DELTA) == RoundKey(n + 1)
    ensures Sub(RoundKey(n + 1), DELTA) == RoundKey(n)
    ensures Add(RoundKey(n + 1), MINUS_DELTA) == RoundKey(n)
    ensures Sub(RoundKey(n), MINUS_DELTA) == RoundKey(n + 1)
  {
    hide RoundKey;
    RoundKeyNext(n);
  }

  /** The round constant is odd, so its multiples come back to 0 modulo 2^32 only after 2^32 rounds. */
  lemma RoundKeyZeroIff(n: nat)
    requires n < 0x1_0000_0000
    ensures RoundKey(n) == 0 <==> n == 0
  {
    if RoundKey(n) == 0 {
      Pow2Values();
      OddMultiple(n, DELTA, 32);
    }
  }

  // ---- TEA ----

  type Pair = (word, word)

  /** What one half contributes to the other. */
  function TeaMix(half: word, k: word): word {
    Xor(Add(Xor(Shr(half, 5), Shl(half, 4)), half), k)
  }

  function TeaKey1(k: Key, key: word): word {
    Add(k[key % 4], key)
  }

  function TeaKey2(k: Key, key: word): word {
    Add(k[Shr(key, 11) % 4], key)
  }

  /** One round, which begins with the given key and leaves the next one. */
  function TeaRound(k: Key, key: word, b: Pair): Pair {
    var first := Add(b.0, TeaMix(b.1, TeaKey1(k, key)));
    var next := Add(key, DELTA);
    (first, Add(b.1, TeaMix(first, TeaKey2(k, next))))
  }

  /** The first n rounds. */
  function TeaRounds(k: Key, b: Pair, n: nat): Pair {
    if n == 0 then b else TeaRound(k, RoundKey(n - 1), TeaRounds(k, b, n - 1))
  }

  /** The inverse round, which begins with the key that the round left. */
  function TeaUnround(k: Key, key: word, b: Pair): Pair {
    var second := Sub(b.1, TeaMix(b.0, TeaKey2(k, key)));
    var prior := Sub(key, DELTA);
    (Sub(b.0, TeaMix(second, TeaKey1(k, prior))), second)
  }

  function TeaUnrounds(k: Key, b: Pair, n: nat): Pair
    decreases n
  {
    if n == 0 then b else TeaUnrounds(k, TeaUnround(k, RoundKey(n), b), n - 1)
  }

  lemma {:induction false} TeaInverse(k: Key, b: Pair, n: nat)
    ensures TeaUnrounds(k, TeaRounds(k, b, n), n) == b
  {
    hide TeaMix, TeaKey1, TeaKey2, RoundKey, Add, Sub;
    if n > 0 {
      var before := TeaRounds(k, b, n - 1);
      var key, next := RoundKey(n - 1), RoundKey(n);
      RoundKeyStep(n - 1);
      AddSub(before.0, TeaMix(before.1, TeaKey1(k, key)));
      AddSub(before.1, TeaMix(TeaRound(k, key, before).0, TeaKey2(k, next)));
      assert TeaUnround(k, next, TeaRound(k, key, before)) == before;
      TeaInverse(k, b, n - 1);
    }
  }

  const TEA_ROUNDS := 32

  method TeaEncipher(k: Key, buf: array<word>)
    requires buf.Length == 2
    modifies buf
    ensures (buf[0], buf[1]) == TeaRounds(k, old((buf[0], buf[1])), TEA_ROUNDS)
  {
    hide TeaMix, TeaKey1, TeaKey2, RoundKey, Add;
    var first, second, key: word := buf[0], buf[1], 0;
    assert RoundKey(0) == 0 by { RoundKeyZeroIff(0); }
    for i := 0 to TEA_ROUNDS
      invariant key == RoundKey(i) && (first, second) == TeaRounds(k, old((buf[0], buf[1])), i)
    {
      first := Add(first, TeaMix(second, TeaKey1(k, key)));
      RoundKeyStep(i);
      key := Add(key, DELTA);
      second := Add(second, TeaMix(first, TeaKey2(k, key)));
    }
    buf[1] := second;
    buf[0] := first;
  }

  method TeaDecipher(k: Key, buf: array<word>)
    requires buf.Length == 2
    modifies buf
    ensures (buf[0], buf[1]) == TeaUnrounds(k, old((buf[0], buf[1])), TEA_ROUNDS)
  {
    hide TeaMix, TeaKey1, TeaKey2, Add, Sub;
    var second, first, key: word := buf[1], buf[0], 0xC6EF_3720;
    assert key == RoundKey(32);
    hide RoundKey;
    for i := 0 to TEA_ROUNDS
      invariant key == RoundKey(TEA_ROUNDS - i)
      invariant TeaUnrounds(k, (first, second), TEA_ROUNDS - i) == TeaUnrounds(k, old((buf[0], buf[1])), TEA_ROUNDS)
    {
      second := Sub(second, TeaMix(first, TeaKey2(k, key)));
      RoundKeyStep(TEA_ROUNDS - i - 1);
      key := Sub(key, DELTA);
      first := Sub(first, TeaMix(second, TeaKey1(k, key)));
    }
    buf[0] := first;
    buf[1] := second;
  }

  // ---- XXTEA ----

  /** How many rounds a block of num words takes. */
  function Count(num: nat): (n: nat)
    requires num > 0
    ensures 6 <= n <= 58
  {
    CountBound(num);
    52 / num + 6
  }

  lemma CountBound(num: nat)
    requires num > 0
    ensures 0 <= 52 / num <= 52
  {
  }

  /** What a neighbour z contributes to word p. */
  function XxteaMix(k: Key, key: word, p: nat, z: word): word {
    Pow2Values();
    var i := XorBits(p % 4, Shr(key, 2) % 4, 2);
    Xor(Add(Xor(Shl(z, 4), Shr(z, 3)), Xor(Shr(z, 5), Shl(z, 2))), Add(Xor(k[i], z), Xor(key, z)))
  }

  /** The round of encipherment after its first i words. */
  function XxteaPass(k: Key, key: word, s: seq<word>, i: nat): (r: seq<word>)
    requires i <= |s|
    ensures |r| == |s|
  {
    if i == 0 then s
    else
      var t := XxteaPass(k, key, s, i - 1);
      var z := if i < |s| then t[i] else t[0];
      t[i - 1 := Add(t[i - 1], XxteaMix(k, key, i - 1, z))]
  }

  /** The first n rounds of encipherment. */
  function XxteaRounds(k: Key, s: seq<word>, n: nat): (r: seq<word>)
    ensures |r| == |s|
  {
    if n == 0 then s
    else
      var t := XxteaRounds(k, s, n - 1);
      XxteaPass(k, RoundKey(n), t, |t|)
  }

  /** The round of decipherment after its last i words: the neighbour is the word below. */
  function XxteaUnpass(k: Key, key: word, s: seq<word>, i: nat): (r: seq<word>)
    requires i <= |s|
    ensures |r| == |s|
  {
    if i == 0 then s
    else
      var t := XxteaUnpass(k, key, s, i - 1);
      var p := |s| - i;
      var z := if p > 0 then t[p - 1] else t[|s| - 1];
      t[p := Sub(t[p], XxteaMix(k, key, p, z))]
  }

  function XxteaUnrounds(k: Key, s: seq<word>, n: nat): (r: seq<word>)
    ensures |r| == |s|
    decreases n
  {
    if n == 0 then s else XxteaUnrounds(k, XxteaUnpass(k, RoundKey(n), s, |s|), n - 1)
  }

  lemma XxteaUnpassPass(k: Key, key: word, s: seq<word>)
    requires |s| == 2
    ensures XxteaUnpass(k, key, XxteaPass(k, key, s, 2), 2) == s
  {
    hide XxteaMix, Add, Sub;
    var a := Add(s[0], XxteaMix(k, key, 0, s[1]));
    var b := Add(s[1], XxteaMix(k, key, 1, a));
    assert XxteaPass(k, key, s, 1) == [a, s[1]];
    assert XxteaPass(k, key, s, 2) == [a, b];
    AddSub(s[0], XxteaMix(k, key, 0, s[1]));
    AddSub(s[1], XxteaMix(k, key, 1, a));
    assert XxteaUnpass(k, key, [a, b], 1) == [a, s[1]];
    assert XxteaUnpass(k, key, [a, b], 2) == s;
  }

  /** For blocks of two words, the only ones the streams use, decipherment undoes encipherment. */
  lemma {:induction false} XxteaInverse(k: Key, s: seq<word>, n: nat)
    requires |s| == 2
    ensures XxteaUnrounds(k, XxteaRounds(k, s, n), n) == s
  {
    hide XxteaPass, XxteaUnpass, RoundKey;
    if n > 0 {
      XxteaUnpassPass(k, RoundKey(n), XxteaRounds(k, s, n - 1));
      XxteaInverse(k, s, n - 1);
    }
  }

  method XxteaEncipher(k: Key, buf: array<word>)
    requires buf.Length > 0
    modifies buf
    ensures buf[..] == XxteaRounds(k, old(buf[..]), Count(buf.Length))
  {
    hide XxteaMix, RoundKey, Add, Sub;
    var num := buf.Length;
    var key: word, count := 0, Count(num);
    ghost var n := 0;
    assert RoundKey(0) == 0 by { RoundKeyZeroIff(0); }
    while count != 0
      invariant n + count == Count(num)
      invariant key == RoundKey(n) && buf[..] == XxteaRounds(k, old(buf[..]), n)
      decreases count
    {
      RoundKeyStep(n);
      key := Sub(key, MINUS_DELTA);
      ghost var before := buf[..];
      var i := 0;
      while i != num - 1
        invariant 0 <= i < num && buf[..] == XxteaPass(k, key, before, i)
      {
        buf[i] := Add(buf[i], XxteaMix(k, key, i, buf[i + 1]));
        i := i + 1;
      }
      buf[num - 1] := Add(buf[num - 1], XxteaMix(k, key, i, buf[0]));
      assert buf[..] == XxteaPass(k, key, before, num);
      count, n := count - 1, n + 1;
    }
  }

  method XxteaDecipherRound(k: Key, key: word, buf: array<word>)
    requires buf.Length > 0
    modifies buf
    ensures buf[..] == XxteaUnpass(k, key, old(buf[..]), buf.Length)
  {
    hide XxteaMix, Sub;
    var num := buf.Length;
    var i := num - 1;
    while i != 0
      invariant 0 <= i < num && buf[..] == XxteaUnpass(k, key, old(buf[..]), num - 1 - i)
      decreases i
    {
      buf[i] := Sub(buf[i], XxteaMix(k, key, i, buf[i - 1]));
      i := i - 1;
    }
    buf[0] := Sub(buf[0], XxteaMix(k, key, i, buf[num - 1]));
    assert buf[..] == XxteaUnpass(k, key, old(buf[..]), num);
  }

  /** The loop ends when the key comes back to 0, which happens after Count(num) rounds and not before. */
  method XxteaDecipher(k: Key, buf: array<word>) returns (ghost rounds: nat)
    requires buf.Length > 0
    modifies buf
    ensures rounds == Count(buf.Length)
    ensures buf[..] == XxteaUnrounds(k, old(buf[..]), Count(buf.Length))
  {
    var num := buf.Length;
    hide XxteaMix, Add, Sub, Count, XxteaUnpass;
    var key: word := Count(num) * DELTA % 0x1_0000_0000;
    assert key == RoundKey(Count(num));
    hide RoundKey;
    rounds := 0;
    RoundKeyZeroIff(Count(num));
    while key != 0
      invariant rounds <= Count(num) <= 58 && key == RoundKey(Count(num) - rounds)
      invariant key == 0 <==> rounds == Count(num)
      invariant XxteaUnrounds(k, buf[..], Count(num) - rounds) == XxteaUnrounds(k, old(buf[..]), Count(num))
      decreases Count(num) - rounds
    {
      XxteaDecipherRound(k, key, buf);
      RoundKeyStep(Count(num) - rounds - 1);
      key, rounds := Add(key, MINUS_DELTA), rounds + 1;
      RoundKeyZeroIff(Count(num) - rounds);
    }
  }
}
