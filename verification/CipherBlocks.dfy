/** What a stream enciphers: eight-byte blocks as pairs of little-endian words (streams.cpp:462-473). */
module CipherBlocks {
  import opened Bytes
  import opened Ciphers

  const BLOCK := 8

  function WordsOf(b: seq<byte>): (w: seq<word>)
    requires |b| == BLOCK
    ensures |w| == 2
  {
    [FromLe32(b[..4]), FromLe32(b[4..])]
  }

  function BytesOf(w: seq<word>): (b: seq<byte>)
    requires |w| == 2
    ensures |b| == BLOCK
  {
    Le32(w[0]) + Le32(w[1])
  }

  lemma WordsBytes(w: seq<word>)
    requires |w| == 2
    ensures WordsOf(BytesOf(w)) == w
  {
    Le32RoundTrip(w[0]);
    Le32RoundTrip(w[1]);
    assert BytesOf(w)[..4] == Le32(w[0]) && BytesOf(w)[4..] == Le32(w[1]);
  }

  lemma BytesWords(b: seq<byte>)
    requires |b| == BLOCK
    ensures BytesOf(WordsOf(b)) == b
  {
    Le32Injective(b[..4]);
    Le32Injective(b[4..]);
    assert b == b[..4] + b[4..];
  }

  function EncWords(ty: Type, k: Key, w: seq<word>): (r: seq<word>)
    requires |w| == 2
    ensures |r| == 2
  {
    match ty
    case Xxtea => XxteaRounds(k, w, Count(2))
    case Tea => var p := TeaRounds(k, (w[0], w[1]), TEA_ROUNDS); [p.0, p.1]
  }

  function DecWords(ty: Type, k: Key, w: seq<word>): (r: seq<word>)
    requires |w| == 2
    ensures |r| == 2
  {
    match ty
    case Xxtea => XxteaUnrounds(k, w, Count(2))
    case Tea => var p := TeaUnrounds(k, (w[0], w[1]), TEA_ROUNDS); [p.0, p.1]
  }

  function EncBlock(ty: Type, k: Key, b: seq<byte>): (r: seq<byte>)
    requires |b| == BLOCK
    ensures |r| == BLOCK
  {
    BytesOf(EncWords(ty, k, WordsOf(b)))
  }

  function DecBlock(ty: Type, k: Key, b: seq<byte>): (r: seq<byte>)
    requires |b| == BLOCK
    ensures |r| == BLOCK
  {
    BytesOf(DecWords(ty, k, WordsOf(b)))
  }

  /** For both ciphers and every key, decipherment undoes encipherment. */
  lemma BlockInverse(ty: Type, k: Key, b: seq<byte>)
    requires |b| == BLOCK
    ensures DecBlock(ty, k, EncBlock(ty, k, b)) == b
  {
    hide XxteaRounds, XxteaUnrounds, TeaRounds, TeaUnrounds, FromLe32, Le32, Count;
    var w := WordsOf(b);
    if ty.Xxtea? {
      XxteaInverse(k, w, Count(2));
    } else {
      TeaInverse(k, (w[0], w[1]), TEA_ROUNDS);
    }
    assert DecWords(ty, k, EncWords(ty, k, w)) == w;
    WordsBytes(EncWords(ty, k, w));
    BytesWords(b);
  }

  predicate Whole(s: seq<byte>) { |s| % BLOCK == 0 }

  function EncBlocks(ty: Type, k: Key, s: seq<byte>): (r: seq<byte>)
    requires Whole(s)
    ensures |r| == |s|
  {
    if s == [] then []
    else var n := |s| - BLOCK; EncBlocks(ty, k, s[..n]) + EncBlock(ty, k, s[n..])
  }

  function DecBlocks(ty: Type, k: Key, s: seq<byte>): (r: seq<byte>)
    requires Whole(s)
    ensures |r| == |s|
  {
    if s == [] then []
    else var n := |s| - BLOCK; DecBlocks(ty, k, s[..n]) + DecBlock(ty, k, s[n..])
  }

  lemma {:induction false} BlocksInverse(ty: Type, k: Key, s: seq<byte>)
    requires Whole(s)
    ensures DecBlocks(ty, k, EncBlocks(ty, k, s)) == s
    decreases |s|
  {
    hide EncBlock, DecBlock;
    if s != [] {
      var n := |s| - BLOCK;
      var e := EncBlocks(ty, k, s);
      assert e[..n] == EncBlocks(ty, k, s[..n]) && e[n..] == EncBlock(ty, k, s[n..]);
      BlocksInverse(ty, k, s[..n]);
      BlockInverse(ty, k, s[n..]);
      assert s == s[..n] + s[n..];
    }
  }

  /** Block i of the deciphered bytes depends on block i alone. */
  lemma {:induction false} DecBlockAt(ty: Type, k: Key, s: seq<byte>, i: nat)
    requires Whole(s) && i % BLOCK == 0 && i + BLOCK <= |s|
    ensures DecBlocks(ty, k, s)[i..i + BLOCK] == DecBlock(ty, k, s[i..i + BLOCK])
    decreases |s|
  {
    hide DecBlock;
    var n := |s| - BLOCK;
    if i < n {
      DecBlockAt(ty, k, s[..n], i);
      assert s[..n][i..i + BLOCK] == s[i..i + BLOCK];
      assert DecBlocks(ty, k, s)[i..i + BLOCK] == DecBlocks(ty, k, s[..n])[i..i + BLOCK];
    } else {
      assert s[i..i + BLOCK] == s[n..];
    }
  }

  /** Filled with zeros to a whole number of blocks. */
  function Padded(s: seq<byte>): (r: seq<byte>)
    ensures Whole(r) && |s| <= |r| < |s| + BLOCK && r[..|s|] == s
  {
    s + Zeros((BLOCK - |s| % BLOCK) % BLOCK)
  }
}
