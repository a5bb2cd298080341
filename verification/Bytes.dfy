/** Bytes, machine words, their little-endian layout, and reading them from a blob.
    Words are integers with explicit bounds; every wrap-around is written out. */
module Bytes {

  type byte = x: int | 0 <= x < 0x100
  type half = x: int | 0 <= x < 0x1_0000
  type word = x: int | 0 <= x < 0x1_0000_0000

  datatype Option<+T> = None | Some(value: T)

  /** The value of a stream read: the value and the next position, or the exception thrown. */
  datatype Parse<+T> = Parsed(value: T, next: nat) | Failed(error: StreamError) {
    predicate IsFailure() { Failed? }

    function PropagateFailure<U>(): Parse<U>
      requires Failed?
    {
      Failed(error)
    }

    function Extract(): (T, nat)
      requires Parsed?
    {
      (value, next)
    }
  }

  predicate Int32(n: int) { -0x8000_0000 <= n < 0x8000_0000 }

  function Min(a: nat, b: nat): nat {
    if a < b then a else b
  }

  function Zeros(n: nat): (r: seq<byte>)
    ensures |r| == n && forall i :: 0 <= i < n ==> r[i] == 0
  {
    seq(n, _ => 0)
  }

  datatype StreamError = Eof | Malformed

  function Le16(n: half): (s: seq<byte>)
    ensures |s| == 2
  {
    [n % 0x100, n / 0x100]
  }

  function Le32(n: word): (s: seq<byte>)
    ensures |s| == 4
  {
    [n % 0x100, n / 0x100 % 0x100, n / 0x1_0000 % 0x100, n / 0x100_0000]
  }

  function FromLe16(s: seq<byte>): half
    requires |s| == 2
  {
    var a: int, b: int := s[0], s[1];
    a + 0x100 * b
  }

  function FromLe32(s: seq<byte>): word
    requires |s| == 4
  {
    var a: int, b: int, c: int, d: int := s[0], s[1], s[2], s[3];
    a + 0x100 * (b + 0x100 * (c + 0x100 * d))
  }

  lemma Le16RoundTrip(n: half)
    ensures FromLe16(Le16(n)) == n
  {
  }

  lemma Le32RoundTrip(n: word)
    ensures FromLe32(Le32(n)) == n
  {
    var m := n / 0x100;
    var l := m / 0x100;
    assert n == n % 0x100 + 0x100 * m && m == m % 0x100 + 0x100 * l;
    assert n / 0x1_0000 == l && n / 0x100_0000 == l / 0x100;
  }

  lemma Le32Injective(s: seq<byte>)
    requires |s| == 4
    ensures Le32(FromLe32(s)) == s
  {
    var a: int, b: int, c: int, d: int := s[0], s[1], s[2], s[3];
    var n := FromLe32(s);
    assert n / 0x100 == b + 0x100 * (c + 0x100 * d);
    assert n / 0x1_0000 == c + 0x100 * d;
  }

  // ---- reading from a blob ----

  /** The bytes bs stand in data at position pos. */
  predicate At(data: seq<byte>, pos: nat, bs: seq<byte>) {
    pos + |bs| <= |data| && data[pos..pos + |bs|] == bs
  }

  lemma AtSplit(data: seq<byte>, pos: nat, a: seq<byte>, b: seq<byte>)
    ensures At(data, pos, a + b) <==> At(data, pos, a) && At(data, pos + |a|, b)
  {
    if pos + |a| + |b| <= |data| {
      var w := data[pos..pos + |a| + |b|];
      assert w[..|a|] == data[pos..pos + |a|];
      assert w[|a|..] == data[pos + |a|..pos + |a| + |b|];
      assert w == w[..|a|] + w[|a|..];
      assert (a + b)[..|a|] == a && (a + b)[|a|..] == b;
    }
  }

  function ReadBytes(data: seq<byte>, pos: nat, n: nat): (r: Parse<seq<byte>>)
    ensures r.Parsed? ==> r.next == pos + n <= |data| && |r.value| == n
  {
    if pos + n <= |data| then Parsed(data[pos..pos + n], pos + n) else Failed(Eof)
  }

  function ReadU8(data: seq<byte>, pos: nat): Parse<byte> {
    if pos + 1 <= |data| then Parsed(data[pos], pos + 1) else Failed(Eof)
  }

  function ReadU16(data: seq<byte>, pos: nat): Parse<half> {
    if pos + 2 <= |data| then Parsed(FromLe16(data[pos..pos + 2]), pos + 2) else Failed(Eof)
  }

  function ReadU32(data: seq<byte>, pos: nat): Parse<word> {
    if pos + 4 <= |data| then Parsed(FromLe32(data[pos..pos + 4]), pos + 4) else Failed(Eof)
  }

  lemma ReadBytesAt(data: seq<byte>, pos: nat, bs: seq<byte>)
    requires At(data, pos, bs)
    ensures ReadBytes(data, pos, |bs|) == Parsed(bs, pos + |bs|)
  {
  }

  lemma ReadU8At(data: seq<byte>, pos: nat, n: byte)
    requires At(data, pos, [n])
    ensures ReadU8(data, pos) == Parsed(n, pos + 1)
  {
    assert data[pos] == data[pos..pos + 1][0];
  }

  lemma ReadU16At(data: seq<byte>, pos: nat, n: half)
    requires At(data, pos, Le16(n))
    ensures ReadU16(data, pos) == Parsed(n, pos + 2)
  {
    Le16RoundTrip(n);
  }

  lemma ReadU32At(data: seq<byte>, pos: nat, n: word)
    requires At(data, pos, Le32(n))
    ensures ReadU32(data, pos) == Parsed(n, pos + 4)
  {
    Le32RoundTrip(n);
  }
}
