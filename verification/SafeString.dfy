/** The "safe string" encoding of streams.cpp: a 12-bit length under a 0xF000 marker, followed by
    the complemented code units, with a redundant terminator in the 16-bit form. */
module SafeString {
  import opened Bytes

  datatype Format = Raw8 | Utf16

  function UnitLimit(f: Format): nat {
    if f.Raw8? then 0x100 else 0x1_0000
  }

  function UnitSize(f: Format): nat {
    if f.Raw8? then 1 else 2
  }

  predicate Units(f: Format, s: seq<half>) {
    forall i :: 0 <= i < |s| ==> s[i] < UnitLimit(f)
  }

  /** The top bit of a unit is set. */
  predicate TopBit(f: Format, u: half) {
    u >= UnitLimit(f) / 2
  }

  /** Bitwise complement of every unit. */
  function Complement(f: Format, s: seq<half>): (r: seq<half>)
    requires Units(f, s)
    ensures |r| == |s| && Units(f, r)
    ensures forall i :: 0 <= i < |s| ==> r[i] == UnitLimit(f) - 1 - s[i]
  {
    seq(|s|, i requires 0 <= i < |s| => UnitLimit(f) - 1 - s[i])
  }

  function EncodeUnit(f: Format, u: half): (r: seq<byte>)
    requires u < UnitLimit(f)
    ensures |r| == UnitSize(f)
  {
    if f.Raw8? then [u] else Le16(u)
  }

  function EncodeUnits(f: Format, s: seq<half>): (r: seq<byte>)
    requires Units(f, s)
    ensures |r| == |s| * UnitSize(f)
  {
    if s == [] then [] else EncodeUnit(f, s[0]) + EncodeUnits(f, s[1..])
  }

  function DecodeUnits(f: Format, data: seq<byte>, pos: nat, n: nat): (r: Parse<seq<half>>)
    ensures r.Parsed? ==> |r.value| == n && Units(f, r.value)
    decreases n
  {
    if n == 0 then Parsed([], pos)
    else
      var (u: half, p: nat) :- if f.Raw8? then ReadU8(data, pos) else ReadU16(data, pos);
      var (rest: seq<half>, q: nat) :- DecodeUnits(f, data, p, n - 1);
      Parsed([u] + rest, q)
  }

  /** writeSafeString: only the low twelve bits of the length survive. */
  function Write(f: Format, s: seq<half>): seq<byte>
    requires Units(f, s)
  {
    var n := |s| % 0x1000;
    Le16(n + 0xF000) + EncodeUnits(f, Complement(f, s[..n])) + Terminator(f)
  }

  /** The length in front of a string; an unmarked one is followed by a discarded word. */
  function ReadLength(data: seq<byte>, pos: nat): (r: Parse<nat>)
    ensures r.Parsed? ==> r.value < 0x1000
  {
    var (length, p) :- ReadU16(data, pos);
    if length / 0x1000 != 0 then Parsed(length % 0x1000, p)
    else
      var (_, q) :- ReadU16(data, p);
      Parsed(length, q)
  }

  function ReadTerminator(f: Format, data: seq<byte>, pos: nat): Parse<()> {
    if f.Raw8? then Parsed((), pos)
    else
      var (_, p) :- ReadU16(data, pos);
      Parsed((), p)
  }

  /** The units are complemented back exactly when the first one has its top bit set. */
  function Plain(f: Format, units: seq<half>): (r: seq<half>)
    requires Units(f, units)
  {
    if units != [] && TopBit(f, units[0]) then Complement(f, units) else units
  }

  /** readSafeString */
  function Read(f: Format, data: seq<byte>, pos: nat): (r: Parse<seq<half>>)
    ensures r.Parsed? ==> Units(f, r.value)
  {
    var (length, p) :- ReadLength(data, pos);
    var (units, q) :- DecodeUnits(f, data, p, length);
    var (_, next) :- ReadTerminator(f, data, q);
    Parsed(Plain(f, units), next)
  }

  /** What a string must satisfy to survive the encoding. */
  predicate Safe(f: Format, s: seq<half>) {
    |s| < 0x1000 && (s == [] || !TopBit(f, s[0]))
  }

  lemma {:induction false} DecodeEncoded(f: Format, data: seq<byte>, pos: nat, s: seq<half>)
    requires Units(f, s) && At(data, pos, EncodeUnits(f, s))
    ensures DecodeUnits(f, data, pos, |s|) == Parsed(s, pos + |EncodeUnits(f, s)|)
    decreases |s|
  {
    hide At;
    if s != [] {
      AtSplit(data, pos, EncodeUnit(f, s[0]), EncodeUnits(f, s[1..]));
      if f.Raw8? {
        ReadU8At(data, pos, s[0]);
      } else {
        ReadU16At(data, pos, s[0]);
      }
      DecodeEncoded(f, data, pos + UnitSize(f), s[1..]);
      assert s == [s[0]] + s[1..];
    }
  }

  function Terminator(f: Format): seq<byte> {
    if f.Utf16? then [0, 0] else []
  }

  lemma ReadLengthAt(data: seq<byte>, pos: nat, n: nat)
    requires n < 0x1000 && At(data, pos, Le16(n + 0xF000))
    ensures ReadLength(data, pos) == Parsed(n, pos + 2)
  {
    ReadU16At(data, pos, n + 0xF000);
  }

  lemma ReadTerminatorAt(f: Format, data: seq<byte>, pos: nat)
    requires At(data, pos, Terminator(f))
    ensures ReadTerminator(f, data, pos) == Parsed((), pos + |Terminator(f)|)
  {
    if f.Utf16? {
      assert Terminator(f) == Le16(0);
      ReadU16At(data, pos, 0);
    }
  }

  lemma WrittenParts(f: Format, data: seq<byte>, pos: nat, s: seq<half>)
    requires Units(f, s) && At(data, pos, Write(f, s))
    ensures var n := |s| % 0x1000;
            var body := EncodeUnits(f, Complement(f, s[..n]));
            && At(data, pos, Le16(n + 0xF000)) && At(data, pos + 2, body)
            && At(data, pos + 2 + |body|, Terminator(f))
            && |Write(f, s)| == 2 + |body| + |Terminator(f)|
  {
    var n := |s| % 0x1000;
    var body := EncodeUnits(f, Complement(f, s[..n]));
    AtSplit(data, pos, Le16(n + 0xF000) + body, Terminator(f));
    AtSplit(data, pos, Le16(n + 0xF000), body);
  }

  /** Whatever string was written, the reader consumes exactly the bytes of the encoding. */
  lemma ReadWritten(f: Format, data: seq<byte>, pos: nat, s: seq<half>)
    requires Units(f, s) && At(data, pos, Write(f, s))
    ensures Read(f, data, pos)
         == Parsed(Plain(f, Complement(f, s[..|s| % 0x1000])), pos + |Write(f, s)|)
  {
    var n := |s| % 0x1000;
    var coded := Complement(f, s[..n]);
    WrittenParts(f, data, pos, s);
    ReadLengthAt(data, pos, n);
    DecodeEncoded(f, data, pos + 2, coded);
    ReadTerminatorAt(f, data, pos + 2 + |EncodeUnits(f, coded)|);
  }

  /** The exact condition: a string comes back unchanged if and only if it is Safe. */
  lemma SurvivesIffSafe(f: Format, data: seq<byte>, pos: nat, s: seq<half>)
    requires Units(f, s) && At(data, pos, Write(f, s))
    ensures Read(f, data, pos) == Parsed(s, pos + |Write(f, s)|) <==> Safe(f, s)
  {
    ReadWritten(f, data, pos, s);
    var kept := s[..|s| % 0x1000];
    var coded := Complement(f, kept);
    assert Complement(f, coded) == kept;
    if kept != [] && TopBit(f, kept[0]) {
      assert coded[0] != kept[0] == s[0];
    }
    if |s| < 0x1000 {
      assert kept == s;
    }
  }
}
