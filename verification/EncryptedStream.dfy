/** The block cipher behind a byte stream (streams.cpp:282-382, 462-531). */
module EncryptedStream {
  import opened Bytes
  import opened BufferStream
  import opened Sums
  import opened Ciphers
  import opened CipherBlocks
  import Rotation

  datatype Mode = ReadMode | WriteMode

  const HEADER := 16

  const XXTEA_MAGIC: seq<byte> := [110, 111, 116, 116, 104, 101, 100, 114, 111, 105, 100, 115]
  const TEA_MAGIC: seq<byte> := [119, 104, 97, 116, 100, 111, 121, 111, 117, 115, 101, 101]
  const OLD_TEA_MAGIC: seq<byte> := [66, 114, 105, 99, 101, 73, 115, 83, 109, 97, 114, 116]

  function Magic(ty: Type): (r: seq<byte>)
    ensures |r| == 12
  {
    if ty.Xxtea? then XXTEA_MAGIC else TEA_MAGIC
  }

  function TypeOf(magic: seq<byte>): Option<Type> {
    if magic == TEA_MAGIC || magic == OLD_TEA_MAGIC then Some(Tea)
    else if magic == XXTEA_MAGIC then Some(Xxtea)
    else None
  }

  function Ascii(s: string): (r: seq<byte>)
    requires forall i :: 0 <= i < |s| ==> s[i] as int < 0x80
    ensures |r| == |s| && forall i :: 0 <= i < |r| ==> r[i] == s[i] as int
  {
    seq<byte>(|s|, i requires 0 <= i < |s| => s[i] as int)
  }

  /** The magics as text, and the types that they stand for. */
  lemma MagicSpelled()
    ensures Magic(Xxtea) == Ascii("notthedroids") && Magic(Tea) == Ascii("whatdoyousee")
    ensures TypeOf(Ascii("notthedroids")) == Some(Xxtea)
    ensures TypeOf(Ascii("whatdoyousee")) == Some(Tea) && TypeOf(Ascii("BriceIsSmart")) == Some(Tea)
  {
    assert Ascii("notthedroids") == XXTEA_MAGIC;
    assert Ascii("whatdoyousee") == TEA_MAGIC;
    assert Ascii("BriceIsSmart") == OLD_TEA_MAGIC;
    assert XXTEA_MAGIC[0] != TEA_MAGIC[0] && XXTEA_MAGIC[0] != OLD_TEA_MAGIC[0];
  }

  lemma MagicType(ty: Type)
    ensures TypeOf(Magic(ty)) == Some(ty)
  {
    assert XXTEA_MAGIC[0] != TEA_MAGIC[0] && XXTEA_MAGIC[0] != OLD_TEA_MAGIC[0];
  }

  /** A whole encrypted stream: magic, length, and the enciphered zero-padded blocks. */
  function Sealed(ty: Type, k: Key, plain: seq<byte>): (r: seq<byte>)
    requires |plain| < 0x1_0000_0000
    ensures |r| == HEADER + |Padded(plain)|
  {
    Magic(ty) + Le32(|plain|) + EncBlocks(ty, k, Padded(plain))
  }

  /** The whole blocks of s. */
  function Blocks(s: seq<byte>): (r: seq<byte>)
    ensures Whole(r) && |s| - BLOCK < |r| <= |s|
  {
    s[..|s| - |s| % BLOCK]
  }

  function Tail(s: seq<byte>): (r: seq<byte>)
    ensures |r| == |s| % BLOCK && Blocks(s) + r == s
  {
    s[|s| - |s| % BLOCK..]
  }

  class EncryptedStream {
    const base: BufferStream
    const buffer: array<byte>
    var key: Key
    var pos: nat
    var size: nat
    var ty: Type
    const mode: Mode
    /** Everything written so far. */
    ghost var plain: seq<byte>
    /** How much has been read so far. */
    ghost var taken: nat
    var closed: bool

    ghost predicate Separate()
      reads base
    {
      buffer.Length == BLOCK && buffer != base.buffer
    }

    /** The base holds the whole blocks of `written` and the buffer the rest. */
    ghost predicate Holds(ty: Type, k: Key, written: seq<byte>)
      reads base, base.buffer, buffer
    {
      && Separate() && base.Valid()
      && base.Contents() == Model(Zeros(HEADER) + EncBlocks(ty, k, Blocks(written)), HEADER + |Blocks(written)|)
      && buffer[..] == Tail(written) + Zeros(BLOCK - |Tail(written)|)
    }

    /** The state of a stream that is written to. */
    ghost predicate Writing()
      reads this, base, base.buffer, buffer
    {
      mode == WriteMode && !closed && pos == size == |plain| < 0x1_0000_0000 && Holds(ty, key, plain)
    }

    constructor Create(base: BufferStream, ty: Type, k: Key)
      requires base.Valid() && base.Contents() == Model([], 0)
      modifies base, base.buffer
      ensures Writing() && plain == [] && this.base == base && this.ty == ty && key == k
      ensures fresh(buffer) && (base.buffer == old(base.buffer) || fresh(base.buffer))
    {
      this.base, buffer := base, new byte[BLOCK](_ => 0);
      key, pos, size, this.ty, mode, plain, closed := k, 0, 0, ty, WriteMode, [], false;
      new;
      base.WriteBytes(Zeros(HEADER));
    }
  
    /** The buffer through the cipher to the base; then it is cleared. */
    method CryptFlush()
      requires Separate() && base.Valid()
      modifies buffer, base, base.buffer
      ensures Separate() && base.Valid() && (base.buffer == old(base.buffer) || fresh(base.buffer))
      ensures base.Contents() == Written(old(base.Contents()), EncBlock(ty, key, old(buffer[..])))
      ensures buffer[..] == Zeros(BLOCK)
    {
      hide XxteaRounds, TeaRounds, FromLe32, Le32, Count, Written;
      var block := buffer[..];
      var w := new word[2];
      w[0], w[1] := FromLe32(block[..4]), FromLe32(block[4..]);
      assert w[..] == WordsOf(block);
      if ty.Xxtea? {
        XxteaEncipher(key, w);
      } else {
        TeaEncipher(key, w);
        assert w[..] == [w[0], w[1]];
      }
      assert w[..] == EncWords(ty, key, WordsOf(block));
      base.WriteBytes(BytesOf(w[..]));
      forall i | 0 <= i < BLOCK {
        buffer[i] := 0;
      }
    }

    /** One round of writing: a piece that fills the buffer at most. */
    method Absorb(ghost written: seq<byte>, lp: nat, piece: seq<byte>)
      requires Holds(ty, key, written) && lp == |written| % BLOCK && lp + |piece| <= BLOCK
      modifies buffer, base, base.buffer
      ensures Holds(ty, key, written + piece) && (base.buffer == old(base.buffer) || fresh(base.buffer))
    {
      hide EncBlocks, EncBlock;
      forall i | 0 <= i < |piece| {
        buffer[lp + i] := piece[i];
      }
      assert buffer[..] == Tail(written) + piece + Zeros(BLOCK - lp - |piece|);
      if lp + |piece| == BLOCK {
        FullBlock(ty, key, written, piece);
        assert buffer[..] == Tail(written) + piece;
        CryptFlush();
        assert Zeros(BLOCK) == [] + Zeros(BLOCK);
      } else {
        PartBlock(written, piece);
      }
    }

    /** However the data is split, the base holds the whole blocks of all that was written and the
        buffer the rest. */
    method WriteBytes(data: seq<byte>) returns (ok: bool)
      requires mode == WriteMode ==> Writing() && |plain| + |data| < 0x1_0000_0000
      modifies this, buffer, base, base.buffer
      ensures ok <==> mode == WriteMode
      ensures ok ==> Writing() && plain == old(plain) + data && ty == old(ty) && key == old(key)
      ensures ok ==> base.buffer == old(base.buffer) || fresh(base.buffer)
    {
      hide Holds;
      if mode != WriteMode {
        return false;
      }
      var bp, lp := 0, pos % BLOCK;
      assert plain + data[..0] == plain;
      while bp < |data|
        invariant 0 <= bp <= |data| && (bp < |data| ==> lp == (|plain| + bp) % BLOCK)
        invariant Holds(ty, key, plain + data[..bp]) && (base.buffer == old(base.buffer) || fresh(base.buffer))
        invariant plain == old(plain) && pos == size == |plain| && |plain| + |data| < 0x1_0000_0000
        invariant !closed && ty == old(ty) && key == old(key)
      {
        var n := if lp + (|data| - bp) >= BLOCK then BLOCK - lp else |data| - bp;
        Absorb(plain + data[..bp], lp, data[bp..bp + n]);
        assert plain + data[..bp] + data[bp..bp + n] == plain + data[..bp + n];
        bp := bp + n;
        lp := if lp + n == BLOCK then 0 else lp;
      }
      assert data[..bp] == data;
      pos := pos + |data|;
      size := if pos > size then pos else size;
      plain := plain + data;
      return true;
    }

    /** close: the padding goes out and the header is patched in. */
    method Close()
      requires !closed ==> if mode == WriteMode then Writing() else Reading()
      modifies this, buffer, base, base.buffer
      ensures closed && plain == old(plain)
      ensures !old(closed) ==> base.Valid() && (base.buffer == old(base.buffer) || fresh(base.buffer))
      ensures !old(closed) && mode == WriteMode ==>
                old(|plain|) < 0x1_0000_0000 && base.Contents().bytes == Sealed(old(ty), old(key), old(plain))
    {
      hide Written, Step, EncBlocks, Blocks, Body, LoadCount, Block, Padded, Holds;
      if closed {
        return;
      }
      if mode == WriteMode {
        FlushLast();
        SeekStart(base.Contents());
        base.SeekTo(0, SeekSet);
        base.WriteBytes(Magic(ty));
        base.WriteBytes(Le32(size));
        HeaderPatched(Magic(ty), Le32(size), EncBlocks(ty, key, Padded(plain)));
      }
      closed := true;
    }

    /** The last block, filled with the zeros that the buffer holds. */
    method FlushLast()
      requires Writing()
      modifies buffer, base, base.buffer
      ensures Separate() && base.Valid() && (base.buffer == old(base.buffer) || fresh(base.buffer))
      ensures base.Contents().bytes == Zeros(HEADER) + EncBlocks(ty, key, Padded(plain))
    {
      hide EncBlocks, EncBlock, Written, Padded, Blocks, Tail;
      PadBlock(ty, key, plain);
      if pos % BLOCK != 0 {
        Appended(base.Contents().bytes, EncBlock(ty, key, buffer[..]));
        CryptFlush();
      }
    }

    // ---- reading ----

    /** The state of a stream that is read from: the position is a 32-bit number. */
    ghost predicate Reading()
      reads this, base, base.buffer, buffer
    {
      mode == ReadMode && !closed && pos == taken % 0x1_0000_0000 && base.Valid() && Loaded(ty, key, taken)
    }

    /** Every block that the first p bytes are in has been read from the base, as far as there is one,
        and the last of them is in the buffer. */
    ghost predicate Loaded(ty: Type, k: Key, p: nat)
      reads base, base.buffer, buffer
    {
      && Separate() && base.Valid()
      && var m := base.Contents();
      && m.cursor == (if |m.bytes| < HEADER then |m.bytes| else HEADER + Min(LoadCount(p) * BLOCK, |m.bytes| - HEADER))
      && buffer[..] == Block(ty, k, Body(m.bytes), LoadCount(p))
    }

    constructor ForReading(base: BufferStream, ty: Type, k: Key, size: nat)
      requires base.Valid() && base.Contents().cursor == Min(HEADER, |base.Contents().bytes|)
      ensures Reading() && this.base == base && this.ty == ty && key == k && this.size == size && taken == 0
      ensures fresh(buffer)
    {
      this.base, buffer := base, new byte[BLOCK](_ => 0);
      key, pos, this.size, this.ty, mode, closed := k, 0, size, ty, ReadMode, false;
      plain, taken := [], 0;
    }

    /** The next bytes of the base over what the buffer held, and through the cipher. */
    method LoadBlock(ghost n: nat)
      requires Loaded(ty, key, n * BLOCK)
      modifies base, buffer
      ensures base.Valid() && base.buffer == old(base.buffer) && base.Contents().bytes == old(base.Contents().bytes)
      ensures Loaded(ty, key, (n + 1) * BLOCK)
    {
      hide DecBlock, Mixed, Taken, Body;
      ghost var m := base.Contents();
      ghost var body := Body(m.bytes);
      ghost var stale := buffer[..];
      var read := base.ReadBytes(BLOCK);
      NextRead(m, body, n, stale, read);
      forall i | 0 <= i < |read| {
        buffer[i] := read[i];
      }
      assert buffer[..] == Mixed(body, n, stale);
      DecipherBuffer();
    }

    method DecipherBuffer()
      requires buffer.Length == BLOCK
      modifies buffer
      ensures buffer[..] == DecBlock(ty, key, old(buffer[..]))
    {
      hide XxteaUnrounds, TeaUnrounds, FromLe32, Le32, Count;
      var block := buffer[..];
      var w := new word[2];
      w[0], w[1] := FromLe32(block[..4]), FromLe32(block[4..]);
      assert w[..] == WordsOf(block);
      if ty.Xxtea? {
        ghost var rounds := XxteaDecipher(key, w);
      } else {
        TeaDecipher(key, w);
        assert w[..] == [w[0], w[1]];
      }
      var clear := BytesOf(w[..]);
      forall i | 0 <= i < BLOCK {
        buffer[i] := clear[i];
      }
      assert buffer[..] == clear;
    }

    /** However the reads are split, they return consecutive slices of the deciphered stream, within the
        blocks of the base and beyond them. */
    method ReadBytes(count: nat) returns (ok: bool, data: seq<byte>)
      requires mode == ReadMode ==> Reading()
      modifies this, base, buffer
      ensures ok <==> mode == ReadMode
      ensures ok ==> Reading() && taken == old(taken) + count
      ensures ok ==> ty == old(ty) && key == old(key) && size == old(size)
      ensures ok ==> base.Valid() && base.buffer == old(base.buffer) && base.Contents().bytes == old(base.Contents().bytes)
      ensures ok ==> data == Slice(ty, key, Body(base.Contents().bytes), old(taken), count)
    {
      hide Loaded, Slice, Body;
      if mode != ReadMode {
        return false, [];
      }
      LowBits(taken, count);
      data := ReadPieces(count);
      pos, taken := (pos + count) % 0x1_0000_0000, taken + count;
      ok := true;
    }

    method ReadPieces(count: nat) returns (data: seq<byte>)
      requires Loaded(ty, key, taken) && base.Valid() && pos % BLOCK == taken % BLOCK
      modifies base, buffer
      ensures base.Valid() && base.buffer == old(base.buffer) && base.Contents().bytes == old(base.Contents().bytes)
      ensures Loaded(ty, key, taken + count) && data == Slice(ty, key, Body(base.Contents().bytes), taken, count)
    {
      hide Loaded, Body, Clear;
      data := [];
      var bp, lp := 0, pos % BLOCK;
      ghost var body := Body(base.Contents().bytes);
      while bp < count
        invariant 0 <= bp <= count && (bp < count ==> lp == (taken + bp) % BLOCK)
        invariant base.Valid() && base.buffer == old(base.buffer) && base.Contents().bytes == old(base.Contents().bytes)
        invariant Loaded(ty, key, taken + bp)
        invariant data == Slice(ty, key, body, taken, bp)
      {
        var n := if lp + (count - bp) >= BLOCK then BLOCK - lp else count - bp;
        BlockStep(taken + bp, n);
        var piece := ReadPiece(taken + bp, lp, n);
        JoinClear(ty, key, body, taken, bp, n);
        data := data + piece;
        bp := bp + n;
        lp := if lp + n == BLOCK then 0 else lp;
      }
    }

    /** One round of reading: a piece that lies in one block. */
    method ReadPiece(ghost p: nat, lp: nat, n: nat) returns (piece: seq<byte>)
      requires Loaded(ty, key, p) && base.Valid() && lp == p % BLOCK && 0 < n <= BLOCK - lp
      modifies base, buffer
      ensures base.Valid() && base.buffer == old(base.buffer) && base.Contents().bytes == old(base.Contents().bytes)
      ensures Loaded(ty, key, p + n) && piece == Slice(ty, key, Body(base.Contents().bytes), p, n)
    {
      hide Body, Block, LoadCount, DecBlock;
      BlockStep(p, n);
      if lp == 0 {
        LoadBlock(p / BLOCK);
      }
      piece := buffer[lp..lp + n];
      PieceOf(ty, key, Body(base.Contents().bytes), p, n);
    }
  }

  /** The bytes behind the header. */
  function Body(bytes: seq<byte>): (r: seq<byte>) {
    if |bytes| >= HEADER then bytes[HEADER..] else []
  }

  /** How many blocks the first p bytes are in. */
  function LoadCount(p: nat): nat {
    if p % BLOCK == 0 then p / BLOCK else p / BLOCK + 1
  }

  /** Block i of the body over a stale buffer, of which the end stays when the body is too short. */
  function Mixed(body: seq<byte>, i: nat, stale: seq<byte>): (r: seq<byte>)
    requires |stale| == BLOCK
    ensures |r| == BLOCK
  {
    var piece := body[Min(i * BLOCK, |body|)..Min((i + 1) * BLOCK, |body|)];
    piece + stale[|piece|..]
  }

  /** The buffer after n blocks have been deciphered. */
  function Block(ty: Type, k: Key, body: seq<byte>, n: nat): (r: seq<byte>)
    ensures |r| == BLOCK
  {
    if n == 0 then Zeros(BLOCK) else DecBlock(ty, k, Mixed(body, n - 1, Block(ty, k, body, n - 1)))
  }

  /** Byte p of the deciphered stream. */
  function Clear(ty: Type, k: Key, body: seq<byte>, p: nat): byte {
    Block(ty, k, body, p / BLOCK + 1)[p % BLOCK]
  }

  function Slice(ty: Type, k: Key, body: seq<byte>, p: nat, n: nat): (r: seq<byte>)
    ensures |r| == n
  {
    seq<byte>(n, i requires 0 <= i < n => Clear(ty, k, body, p + i))
  }

  lemma SliceAt(ty: Type, k: Key, body: seq<byte>, p: nat, n: nat, i: nat)
    requires i < n
    ensures Slice(ty, k, body, p, n)[i] == Clear(ty, k, body, p + i)
  {
    hide Clear;
  }

  lemma BlockStep(p: nat, n: nat)
    requires 0 < n <= BLOCK - p % BLOCK
    ensures LoadCount(p + n) == p / BLOCK + 1
    ensures LoadCount(p) == if p % BLOCK == 0 then p / BLOCK else p / BLOCK + 1
    ensures p % BLOCK == 0 ==> p == p / BLOCK * BLOCK && LoadCount((p / BLOCK + 1) * BLOCK) == p / BLOCK + 1
    ensures (p + n) % BLOCK == if n == BLOCK - p % BLOCK then 0 else p % BLOCK + n
  {
  }

  lemma SameBlock(p: nat, i: nat)
    requires i < BLOCK - p % BLOCK
    ensures (p + i) / BLOCK == p / BLOCK && (p + i) % BLOCK == p % BLOCK + i
  {
  }

  /** The wrap-around of the position keeps the place in the block. */
  lemma LowBits(p: nat, n: nat)
    ensures p % 0x1_0000_0000 % BLOCK == p % BLOCK
    ensures (p % 0x1_0000_0000 + n) % 0x1_0000_0000 == (p + n) % 0x1_0000_0000
  {
    var q, r := p / 0x1_0000_0000, p % 0x1_0000_0000;
    Rotation.DivModUnique(p, BLOCK, 0x2000_0000 * q + r / BLOCK, r % BLOCK);
    var q1, r1 := (r + n) / 0x1_0000_0000, (r + n) % 0x1_0000_0000;
    Rotation.DivModUnique(p + n, 0x1_0000_0000, q + q1, r1);
  }

  lemma PieceOf(ty: Type, k: Key, body: seq<byte>, p: nat, n: nat)
    requires 0 < n <= BLOCK - p % BLOCK
    ensures Block(ty, k, body, p / BLOCK + 1)[p % BLOCK..p % BLOCK + n] == Slice(ty, k, body, p, n)
  {
    hide Block;
    var l, r := Block(ty, k, body, p / BLOCK + 1)[p % BLOCK..p % BLOCK + n], Slice(ty, k, body, p, n);
    forall i | 0 <= i < n ensures l[i] == r[i] {
      SameBlock(p, i);
      SliceAt(ty, k, body, p, n, i);
    }
  }

  lemma JoinClear(ty: Type, k: Key, body: seq<byte>, p: nat, m: nat, n: nat)
    ensures Slice(ty, k, body, p, m) + Slice(ty, k, body, p + m, n) == Slice(ty, k, body, p, m + n)
  {
    hide Clear, Slice;
    var l, r := Slice(ty, k, body, p, m) + Slice(ty, k, body, p + m, n), Slice(ty, k, body, p, m + n);
    forall i | 0 <= i < m + n ensures l[i] == r[i] {
      SliceAt(ty, k, body, p, m + n, i);
      if i < m {
        SliceAt(ty, k, body, p, m, i);
      } else {
        SliceAt(ty, k, body, p + m, n, i - m);
      }
    }
  }

  /** What the base gives for block n. */
  lemma NextRead(m: Model, body: seq<byte>, n: nat, stale: seq<byte>, read: seq<byte>)
    requires m.Valid() && body == Body(m.bytes) && |stale| == BLOCK && read == Taken(m, BLOCK)
    requires m.cursor == if |m.bytes| < HEADER then |m.bytes| else HEADER + Min(n * BLOCK, |m.bytes| - HEADER)
    ensures |read| <= BLOCK && read + stale[|read|..] == Mixed(body, n, stale)
    ensures m.cursor + |read|
         == if |m.bytes| < HEADER then |m.bytes| else HEADER + Min((n + 1) * BLOCK, |m.bytes| - HEADER)
  {
    assert read == body[Min(n * BLOCK, |body|)..Min((n + 1) * BLOCK, |body|)];
  }

  /** Within the whole blocks of the body, the deciphered stream is those blocks deciphered. */
  lemma ClearWithin(ty: Type, k: Key, body: seq<byte>, p: nat)
    requires p < |Blocks(body)|
    ensures Clear(ty, k, body, p) == DecBlocks(ty, k, Blocks(body))[p]
  {
    hide DecBlock, DecBlocks, Mixed, Blocks;
    var n, r := p / BLOCK, p % BLOCK;
    var i := n * BLOCK;
    var blocks := Blocks(body);
    assert p == i + r && i % BLOCK == 0;
    InBlock(|blocks|, n, r);
    DecBlockAt(ty, k, blocks, i);
    MixedWhole(body, n, Block(ty, k, body, n));
    InSlice(DecBlocks(ty, k, blocks), i, r);
    assert Block(ty, k, body, n + 1) == DecBlock(ty, k, blocks[i..i + BLOCK]);
  }

  lemma InBlock(size: nat, n: nat, r: nat)
    requires size % BLOCK == 0 && n * BLOCK + r < size && r < BLOCK
    ensures n * BLOCK + BLOCK <= size
  {
    assert size == BLOCK * (size / BLOCK);
  }

  lemma InSlice(s: seq<byte>, i: nat, r: nat)
    requires r < BLOCK && i + BLOCK <= |s|
    ensures s[i..i + BLOCK][r] == s[i + r]
  {
  }

  /** A block that the body has leaves nothing of the stale buffer. */
  lemma MixedWhole(body: seq<byte>, n: nat, stale: seq<byte>)
    requires |stale| == BLOCK && n * BLOCK + BLOCK <= |Blocks(body)|
    ensures Mixed(body, n, stale) == Blocks(body)[n * BLOCK..n * BLOCK + BLOCK]
  {
    assert (n + 1) * BLOCK == n * BLOCK + BLOCK;
  }

  lemma SliceWithin(ty: Type, k: Key, body: seq<byte>, n: nat)
    ensures var d := DecBlocks(ty, k, Blocks(body));
            forall i :: 0 <= i < n && i < |d| ==> Slice(ty, k, body, 0, n)[i] == d[i]
  {
    hide Clear, DecBlocks, Slice, Blocks;
    forall i | 0 <= i < n && i < |Blocks(body)|
      ensures Slice(ty, k, body, 0, n)[i] == DecBlocks(ty, k, Blocks(body))[i]
    {
      ClearWithin(ty, k, body, i);
      SliceAt(ty, k, body, 0, n, i);
    }
  }

  lemma PadBlock(ty: Type, k: Key, s: seq<byte>)
    ensures |s| % BLOCK == 0 ==> Blocks(s) == Padded(s)
    ensures |s| % BLOCK != 0 ==>
              var t := Tail(s) + Zeros(BLOCK - |Tail(s)|);
              |t| == BLOCK && EncBlocks(ty, k, Padded(s)) == EncBlocks(ty, k, Blocks(s)) + EncBlock(ty, k, t)
  {
    hide EncBlocks, EncBlock;
    if |s| % BLOCK != 0 {
      var zeros := Zeros(BLOCK - |s| % BLOCK);
      FullBlock(ty, k, s, zeros);
      assert Padded(s) == s + zeros;
      assert Blocks(s + zeros) == s + zeros;
    }
  }

  lemma Appended(s: seq<byte>, data: seq<byte>)
    ensures Written(Model(s, |s|), data) == Model(s + data, |s| + |data|)
  {
    assert s[..|s|] == s;
  }

  lemma SeekStart(m: Model)
    requires m.Valid()
    ensures Step(m, Seek(0, SeekSet)) == Model(m.bytes, 0)
  {
  }

  lemma HeaderPatched(magic: seq<byte>, length: seq<byte>, body: seq<byte>)
    requires |magic| == 12 && |length| == 4
    ensures Written(Written(Model(Zeros(HEADER) + body, 0), magic), length).bytes == magic + length + body
  {
  }

  lemma FullBlock(ty: Type, k: Key, s: seq<byte>, more: seq<byte>)
    requires |s| % BLOCK + |more| == BLOCK
    ensures Tail(s + more) == []
    ensures EncBlocks(ty, k, Blocks(s + more)) == EncBlocks(ty, k, Blocks(s)) + EncBlock(ty, k, Tail(s) + more)
  {
    var t := s + more;
    var n := |s| - |s| % BLOCK;
    assert |t| == n + BLOCK && |t| % BLOCK == 0;
    assert Blocks(t) == t;
    assert t[..n] == Blocks(s) && t[n..] == Tail(s) + more;
  }

  lemma PartBlock(s: seq<byte>, more: seq<byte>)
    requires |s| % BLOCK + |more| < BLOCK
    ensures Tail(s + more) == Tail(s) + more && Blocks(s + more) == Blocks(s)
  {
    assert |s + more| - |s + more| % BLOCK == |s| - |s| % BLOCK;
  }

  // ---- whole streams ----

  /** The header: what a short stream lacks of it is zero. */
  function HeaderOf(bytes: seq<byte>): (h: seq<byte>)
    ensures |h| == HEADER
  {
    if |bytes| >= HEADER then bytes[..HEADER] else bytes + Zeros(HEADER - |bytes|)
  }

  /** The constructor in read mode; null stands for the exception on an unknown magic. */
  method Open(base: BufferStream, k: Key) returns (s: EncryptedStream?)
    requires base.Valid() && base.Contents().cursor == 0
    modifies base
    ensures base.Valid() && base.buffer == old(base.buffer) && base.Contents().bytes == old(base.Contents().bytes)
    ensures var h := HeaderOf(base.Contents().bytes);
            if TypeOf(h[..12]).None? then s == null
            else s != null && fresh(s) && fresh(s.buffer) && s.base == base && s.Reading() && s.taken == 0 && s.key == k
                 && s.ty == TypeOf(h[..12]).value && s.size == FromLe32(h[12..])
  {
    hide FromLe32;
    var header := base.ReadBytes(HEADER);
    header := header + Zeros(HEADER - |header|);
    assert header == HeaderOf(base.Contents().bytes);
    var ty := TypeOf(header[..12]);
    if ty.None? {
      return null;
    }
    s := new EncryptedStream.ForReading(base, ty.value, k, FromLe32(header[12..]));
  }

  /** A 32-bit number as a signed one. */
  function ToInt32(n: nat): (r: int)
    requires n < 0x1_0000_0000
    ensures Int32(r)
  {
    if n >= 0x8000_0000 then n - 0x1_0000_0000 else n
  }

  /** CheckEncryption: looks at the magic and seeks back to where the cursor was. stack is what the local
      array holds before it is read into, of which the end stays when the stream is too short. */
  method CheckEncryption(stream: BufferStream, stack: seq<byte>) returns (ty: Option<Type>)
    requires stream.Valid() && |stack| == 12
    modifies stream
    ensures stream.Valid() && stream.buffer == old(stream.buffer)
    ensures var m := old(stream.Contents());
            var read := Taken(Start(m), 12);
            && |read| <= 12 && ty == TypeOf(read + stack[|read|..])
            && stream.Contents() == Step(m, Seek(ToInt32(m.cursor % 0x1_0000_0000), SeekSet))
            && (|m.bytes| < 0x8000_0000 ==> Start(m).cursor == 0 && stream.Contents() == m)
  {
    hide TypeOf, Sought;
    ghost var m := stream.Contents();
    var pos := stream.position % 0x1_0000_0000;
    SeekSets(m, pos);
    if pos != 0 {
      SeekStart(m);
      stream.SeekTo(0, SeekSet);
    }
    var header := stream.ReadBytes(12);
    stream.SeekTo(ToInt32(pos), SeekSet);
    ty := TypeOf(header + stack[|header|..]);
  }

  /** Where the check reads: at the start, which the position is taken for when its low 32 bits are 0. */
  function Start(m: Model): (r: Model)
    requires m.Valid()
    ensures r.Valid()
  {
    if m.cursor % 0x1_0000_0000 == 0 then m else Model(m.bytes, 0)
  }

  lemma SeekSets(m: Model, pos: nat)
    requires m.Valid() && pos == m.cursor % 0x1_0000_0000
    ensures forall other: Model :: other.bytes == m.bytes ==> Sought(other, ToInt32(pos), SeekSet) == Sought(m, ToInt32(pos), SeekSet)
    ensures |m.bytes| < 0x8000_0000 ==> Sought(m, ToInt32(pos), SeekSet) == m.cursor
  {
    if |m.bytes| < 0x8000_0000 {
      SeekWithin(m, m.cursor, SeekSet);
    }
  }

  /** A sealed stream has the type, the length and the padded contents that went into it. */
  lemma SealedOpens(ty: Type, k: Key, plain: seq<byte>)
    requires |plain| < 0x1_0000_0000
    ensures var bytes := Sealed(ty, k, plain);
            && TypeOf(HeaderOf(bytes)[..12]) == Some(ty) && FromLe32(HeaderOf(bytes)[12..]) == |plain|
            && DecBlocks(ty, k, Blocks(Body(bytes))) == Padded(plain)
  {
    hide EncBlocks, DecBlocks, Le32, FromLe32, TypeOf, Magic;
    var bytes := Sealed(ty, k, plain);
    var h := HeaderOf(bytes);
    MagicType(ty);
    Le32RoundTrip(|plain|);
    assert h[..12] == Magic(ty) && h[12..] == Le32(|plain|);
    assert Body(bytes) == EncBlocks(ty, k, Padded(plain));
    assert Blocks(Body(bytes)) == Body(bytes);
    BlocksInverse(ty, k, Padded(plain));
  }

  function Concat(pieces: seq<seq<byte>>): seq<byte> {
    if pieces == [] then [] else Concat(pieces[..|pieces| - 1]) + pieces[|pieces| - 1]
  }

  /** Any split of the data over writes gives the same closed stream. */
  method WriteAll(pieces: seq<seq<byte>>, ty: Type, k: Key) returns (base: BufferStream)
    requires forall n :: 0 <= n <= |pieces| ==> |Concat(pieces[..n])| < 0x1_0000_0000
    ensures fresh(base) && base.Valid() && |Concat(pieces)| < 0x1_0000_0000
    ensures base.Contents().bytes == Sealed(ty, k, Concat(pieces))
  {
    hide Sealed, Blocks, Tail, EncBlocks, Zeros, EncryptedStream.Holds;
    assert pieces[..|pieces|] == pieces;
    base := new BufferStream();
    var s := new EncryptedStream.Create(base, ty, k);
    for i := 0 to |pieces|
      invariant fresh(s) && fresh(base.buffer) && fresh(s.buffer) && s.base == base && s.Writing() && s.ty == ty && s.key == k
      invariant s.plain == Concat(pieces[..i])
    {
      assert pieces[..i + 1][..i] == pieces[..i];
      assert |Concat(pieces[..i + 1])| < 0x1_0000_0000;
      var ok := s.WriteBytes(pieces[i]);
    }
    s.Close();
  }

  /** Any split of the reads over a sealed stream gives back the plain data, then the padding. */
  method ReadAll(base: BufferStream, ghost ty: Type, k: Key, ghost plain: seq<byte>, counts: seq<nat>)
    returns (data: seq<byte>, size: nat)
    requires |plain| < 0x1_0000_0000 && base.Valid() && base.Contents() == Model(Sealed(ty, k, plain), 0)
    modifies base
    ensures size == |plain| && |data| == Sum(counts)
    ensures forall i :: 0 <= i < |data| && i < |Padded(plain)| ==> data[i] == Padded(plain)[i]
    ensures Sum(counts) == |plain| ==> data == plain
  {
    hide Sealed, DecBlocks, Padded, Blocks, HeaderOf, Sum, Body, TypeOf, FromLe32, Clear, Slice,
         LoadCount, Block;
    SealedOpens(ty, k, plain);
    var s := Open(base, k);
    size := s.size;
    data := [];
    assert counts[..0] == [] && counts[..|counts|] == counts;
    SumNone();
    ghost var body := Body(base.Contents().bytes);
    for i := 0 to |counts|
      invariant fresh(s) && fresh(s.buffer) && s.base == base && base.Valid() && base.buffer == old(base.buffer)
      invariant base.Contents().bytes == old(base.Contents().bytes)
      invariant s.Reading() && s.taken == Sum(counts[..i]) && s.size == size && s.ty == ty && s.key == k
      invariant data == Slice(ty, k, body, 0, s.taken)
    {
      assert counts[..i + 1] == counts[..i] + [counts[i]];
      SumAppend(counts[..i], counts[i]);
      var ok, piece := s.ReadBytes(counts[i]);
      JoinClear(ty, k, body, 0, Sum(counts[..i]), counts[i]);
      data := data + piece;
    }
    SliceWithin(ty, k, body, |data|);
  }

  lemma SumNone()
    ensures Sum([]) == 0
  {
  }
}
