/** The element codecs of Variable::_ref::read and write, with the object keys they embed. */
module SdlElements {
  import opened Bytes
  import opened SdlTypes
  import SafeString

  // ---- strings ----

  function SafeBytes(s: Str): seq<byte> {
    SafeString.Write(SafeString.Raw8, s)
  }

  predicate SafeStr(s: Str) {
    SafeString.Safe(SafeString.Raw8, s)
  }

  function ReadSafe(data: seq<byte>, pos: nat): Parse<Str> {
    var (units, next) :- SafeString.Read(SafeString.Raw8, data, pos);
    Parsed(units, next)
  }

  lemma SafeRoundTrip(data: seq<byte>, pos: nat, s: Str)
    requires At(data, pos, SafeBytes(s)) && SafeStr(s)
    ensures ReadSafe(data, pos) == Parsed(s, pos + |SafeBytes(s)|)
  {
    SafeString.SurvivesIffSafe(SafeString.Raw8, data, pos, s);
  }

  /** The C string in front of the first NUL. */
  function UntilNul(s: seq<byte>): seq<byte> {
    if s == [] || s[0] == 0 then [] else [s[0]] + UntilNul(s[1..])
  }

  /** strncpy into 32 zeroed bytes, the last of which is then zeroed. */
  function FixedString(s: Str): (r: seq<byte>)
    ensures |r| == 32
  {
    var c := UntilNul(s);
    var kept := if |c| > 31 then c[..31] else c;
    kept + seq(32 - |kept|, _ => 0)
  }

  lemma {:induction false} UntilNulPrefix(s: seq<byte>, zeros: seq<byte>)
    requires 0 !in s && zeros != [] && zeros[0] == 0
    ensures UntilNul(s + zeros) == s
    decreases |s|
  {
    if s == [] {
      assert s + zeros == zeros;
    } else {
      assert (s + zeros)[1..] == s[1..] + zeros;
      UntilNulPrefix(s[1..], zeros);
    }
  }

  lemma {:induction false} UntilNulHasNone(s: seq<byte>)
    ensures 0 !in UntilNul(s)
    ensures 0 !in s ==> UntilNul(s) == s
    decreases |s|
  {
    if s != [] && s[0] != 0 {
      UntilNulHasNone(s[1..]);
    }
  }

  /** A string variable survives exactly when it has at most 31 bytes and no NUL. */
  lemma FixedStringSurvives(s: Str)
    ensures UntilNul(FixedString(s)) == s <==> |s| <= 31 && 0 !in s
  {
    var c := UntilNul(s);
    var kept := if |c| > 31 then c[..31] else c;
    var zeros := seq(32 - |kept|, _ => 0 as byte);
    UntilNulHasNone(s);
    UntilNulPrefix(kept, zeros);
    assert FixedString(s) == kept + zeros;
  }

  // ---- object keys ----

  /** The fields in front of the name. */
  function UoidHead(k: Uoid): seq<byte> {
    [UoidContents(k)] + Le32(k.sequence) + Le16(k.locationFlags) + UoidMask(k) + Le16(k.ty) + Le32(k.id)
  }

  function UoidMask(k: Uoid): seq<byte> {
    if k.loadMask != 0xFF then [k.loadMask] else []
  }

  function UoidClone(k: Uoid): seq<byte> {
    if HasClone(k) then Le32(k.cloneId) + Le32(k.clonePlayerId) else []
  }

  function UoidBytes(k: Uoid): seq<byte> {
    UoidHead(k) + SafeBytes(k.name) + UoidClone(k)
  }

  predicate HasClone(k: Uoid) {
    k.cloneId != 0 || k.clonePlayerId != 0
  }

  function UoidContents(k: Uoid): byte {
    (if k.loadMask != 0xFF then 2 else 0) + (if HasClone(k) then 1 else 0)
  }

  /** The fields in front of the name, in a key without name or clone ids, and the contents byte. */
  function ReadUoidHead(data: seq<byte>, pos: nat): Parse<(byte, Uoid)> {
    var (contents, p0) :- ReadU8(data, pos);
    var (sequence, p1) :- ReadU32(data, p0);
    var (locationFlags, p2) :- ReadU16(data, p1);
    var (loadMask, p3) :- if contents / 2 % 2 == 1 then ReadU8(data, p2) else Parsed(0xFF, p2);
    var (ty, p4) :- ReadU16(data, p3);
    var (id, p5) :- ReadU32(data, p4);
    Parsed((contents, Uoid(sequence, locationFlags, loadMask, ty, [], id, 0, 0)), p5)
  }

  function ReadUoidClone(contents: byte, data: seq<byte>, pos: nat): Parse<(word, word)> {
    if contents % 2 == 0 then Parsed((0, 0), pos)
    else
      var (cloneId, p) :- ReadU32(data, pos);
      var (clonePlayerId, q) :- ReadU32(data, p);
      Parsed((cloneId, clonePlayerId), q)
  }

  function ReadUoid(data: seq<byte>, pos: nat): Parse<Uoid> {
    var (head, p) :- ReadUoidHead(data, pos);
    var (name, q) :- ReadSafe(data, p);
    var (clone, next) :- ReadUoidClone(head.0, data, q);
    Parsed(head.1.(name := name, cloneId := clone.0, clonePlayerId := clone.1), next)
  }

  lemma UoidHeadRoundTrip(data: seq<byte>, pos: nat, k: Uoid)
    requires At(data, pos, UoidHead(k))
    ensures ReadUoidHead(data, pos)
         == Parsed((UoidContents(k), k.(name := [], cloneId := 0, clonePlayerId := 0)), pos + |UoidHead(k)|)
  {
    var m := UoidMask(k);
    var b1 := [UoidContents(k)] + Le32(k.sequence);
    var b2 := b1 + Le16(k.locationFlags);
    var b4 := b2 + m + Le16(k.ty);
    AtSplit(data, pos, b4, Le32(k.id));
    AtSplit(data, pos, b2 + m, Le16(k.ty));
    AtSplit(data, pos, b2, m);
    AtSplit(data, pos, b1, Le16(k.locationFlags));
    AtSplit(data, pos, [UoidContents(k)], Le32(k.sequence));
    ReadU8At(data, pos, UoidContents(k));
    ReadU32At(data, pos + 1, k.sequence);
    ReadU16At(data, pos + 5, k.locationFlags);
    if k.loadMask != 0xFF {
      ReadU8At(data, pos + 7, k.loadMask);
    }
    ReadU16At(data, pos + 7 + |m|, k.ty);
    ReadU32At(data, pos + 9 + |m|, k.id);
  }

  lemma UoidCloneRoundTrip(data: seq<byte>, pos: nat, k: Uoid)
    requires At(data, pos, UoidClone(k))
    ensures ReadUoidClone(UoidContents(k), data, pos)
         == Parsed((k.cloneId, k.clonePlayerId), pos + |UoidClone(k)|)
  {
    if HasClone(k) {
      AtSplit(data, pos, Le32(k.cloneId), Le32(k.clonePlayerId));
      ReadU32At(data, pos, k.cloneId);
      ReadU32At(data, pos + 4, k.clonePlayerId);
    }
  }

  lemma UoidParts(data: seq<byte>, pos: nat, head: seq<byte>, name: seq<byte>, clone: seq<byte>)
    requires At(data, pos, head + name + clone)
    ensures At(data, pos, head) && At(data, pos + |head|, name) && At(data, pos + |head| + |name|, clone)
  {
    AtSplit(data, pos, head + name, clone);
    AtSplit(data, pos, head, name);
  }

  /** A key with a safe name comes back unchanged. */
  lemma UoidRoundTrip(data: seq<byte>, pos: nat, k: Uoid)
    requires At(data, pos, UoidBytes(k)) && SafeStr(k.name)
    ensures ReadUoid(data, pos) == Parsed(k, pos + |UoidBytes(k)|)
  {
    hide UoidHead, UoidClone, SafeBytes, ReadUoidHead, ReadUoidClone, ReadSafe, SafeStr, At;
    var p := pos + |UoidHead(k)|;
    var q := p + |SafeBytes(k.name)|;
    UoidParts(data, pos, UoidHead(k), SafeBytes(k.name), UoidClone(k));
    assert ReadUoidHead(data, pos) == Parsed((UoidContents(k), k.(name := [], cloneId := 0, clonePlayerId := 0)), p) by {
      UoidHeadRoundTrip(data, pos, k);
    }
    assert ReadSafe(data, p) == Parsed(k.name, q) by {
      SafeRoundTrip(data, p, k.name);
    }
    assert ReadUoidClone(UoidContents(k), data, q) == Parsed((k.cloneId, k.clonePlayerId), pos + |UoidBytes(k)|) by {
      UoidCloneRoundTrip(data, q, k);
    }
  }

  // ---- elements ----

  /** Two's complement encodings. */
  function Unsigned(n: int, limit: nat): int {
    if n < 0 then n + limit else n
  }

  function Signed(u: int, limit: nat): int {
    if u >= limit / 2 then u - limit else u
  }

  function WordsBytes(ws: seq<word>): (r: seq<byte>)
    ensures |r| == 4 * |ws|
  {
    if ws == [] then [] else Le32(ws[0]) + WordsBytes(ws[1..])
  }

  function ReadWords(data: seq<byte>, pos: nat, n: nat): (r: Parse<seq<word>>)
    ensures r.Parsed? ==> |r.value| == n
    decreases n
  {
    if n == 0 then Parsed([], pos)
    else
      var (w, p) :- ReadU32(data, pos);
      var (rest, q) :- ReadWords(data, p, n - 1);
      Parsed([w] + rest, q)
  }

  lemma {:induction false} WordsRoundTrip(data: seq<byte>, pos: nat, ws: seq<word>)
    requires At(data, pos, WordsBytes(ws))
    ensures ReadWords(data, pos, |ws|) == Parsed(ws, pos + 4 * |ws|)
    decreases |ws|
  {
    if ws != [] {
      AtSplit(data, pos, Le32(ws[0]), WordsBytes(ws[1..]));
      ReadU32At(data, pos, ws[0]);
      WordsRoundTrip(data, pos + 4, ws[1..]);
      assert ws == [ws[0]] + ws[1..];
    }
  }

  function ObjectBytes(o: Option<Object>): seq<byte> {
    if o.None? then Le16(0x8000)
    else Le16(o.value.classId) + Le32(|o.value.body| % 0x1_0000_0000) + o.value.body
  }

  function ReadObject(data: seq<byte>, pos: nat): (r: Parse<Option<Object>>)
    ensures r.Parsed? ==> ElemOf(Creatable, ObjectElem(r.value))
  {
    var (ty, p) :- ReadU16(data, pos);
    if ty == 0x8000 then Parsed(None, p)
    else
      var (size, q) :- ReadU32(data, p);
      var (body, next) :- ReadBytes(data, q, size);
      Parsed(Some(Object(ty, body)), next)
  }

  /** How many of the stored numbers are written: the RGB types leave their alpha out. */
  function WrittenCount(ty: VarType): nat {
    match ty
    case Float => 1
    case Double => 2
    case Vector3 => 3
    case Point3 => 3
    case Rgb => 3
    case Rgb8 => 3
    case _ => 4
  }

  function ElemBytes(ty: VarType, e: Elem): seq<byte>
    requires ElemOf(ty, e)
  {
    match e
    case IntElem(n) =>
      if ty.Int? then Le32(Unsigned(n, 0x1_0000_0000))
      else if ty.Short? then Le16(Unsigned(n, 0x1_0000))
      else [Unsigned(n, 0x100)]
    case BoolElem(b) => [if b then 1 else 0]
    case StringElem(s) => FixedString(s)
    case KeyElem(k) => UoidBytes(k)
    case ObjectElem(o) => ObjectBytes(o)
    case TimeElem(t) => Le32(t.secs) + Le32(t.micros)
    case FloatsElem(ws) => WordsBytes(ws[..WrittenCount(ty)])
    case ColorElem(bs) => bs[..WrittenCount(ty)]
    case NoElem => []
  }

  function ReadTime(data: seq<byte>, pos: nat): Parse<UnifiedTime> {
    var (secs, p) :- ReadU32(data, pos);
    var (micros, q) :- ReadU32(data, p);
    Parsed(UnifiedTime(secs, micros), q)
  }

  function ReadInt(ty: VarType, data: seq<byte>, pos: nat): (r: Parse<int>)
    requires ty.Int? || ty.Short? || ty.Byte?
    ensures r.Parsed? ==> ElemOf(ty, IntElem(r.value))
  {
    if ty.Int? then
      var (u, p) :- ReadU32(data, pos);
      Parsed(Signed(u, 0x1_0000_0000), p)
    else if ty.Short? then
      var (u, p) :- ReadU16(data, pos);
      Parsed(Signed(u, 0x1_0000), p)
    else
      var (u, p) :- ReadU8(data, pos);
      Parsed(Signed(u, 0x100), p)
  }

  function ReadFloats(ty: VarType, ws: seq<word>, data: seq<byte>, pos: nat): (r: Parse<Elem>)
    requires ElemOf(ty, FloatsElem(ws))
    ensures r.Parsed? ==> ElemOf(ty, r.value)
  {
    var (read, p) :- ReadWords(data, pos, WrittenCount(ty));
    Parsed(FloatsElem(read + ws[WrittenCount(ty)..]), p)
  }

  function ReadColor(ty: VarType, bs: seq<byte>, data: seq<byte>, pos: nat): (r: Parse<Elem>)
    requires ElemOf(ty, ColorElem(bs))
    ensures r.Parsed? ==> ElemOf(ty, r.value)
  {
    var (read, p) :- ReadBytes(data, pos, WrittenCount(ty));
    Parsed(ColorElem(read + bs[WrittenCount(ty)..]), p)
  }

  /** Read one element over what the array slot holds. */
  function ReadElem(ty: VarType, slot: Elem, data: seq<byte>, pos: nat): (r: Parse<Elem>)
    requires ElemOf(ty, slot)
    ensures r.Parsed? ==> ElemOf(ty, r.value)
  {
    match slot
    case IntElem(_) =>
      var (n, p) :- ReadInt(ty, data, pos);
      Parsed(IntElem(n), p)
    case BoolElem(_) =>
      var (u, p) :- ReadU8(data, pos);
      Parsed(BoolElem(u != 0), p)
    case StringElem(_) =>
      var (bs, p) :- ReadBytes(data, pos, 32);
      Parsed(StringElem(UntilNul(bs)), p)
    case KeyElem(_) =>
      var (k, p) :- ReadUoid(data, pos);
      Parsed(KeyElem(k), p)
    case ObjectElem(held) =>
      var (o, p) :- ReadObject(data, pos);
      Parsed(ObjectElem(if o.Some? then o else held), p)
    case TimeElem(_) =>
      var (t, p) :- ReadTime(data, pos);
      Parsed(TimeElem(t), p)
    case FloatsElem(ws) =>
      ReadFloats(ty, ws, data, pos)
    case ColorElem(bs) =>
      ReadColor(ty, bs, data, pos)
    case NoElem => Parsed(NoElem, pos)
  }

  /** What an element must satisfy for its encoding to determine it. */
  predicate Writable(e: Elem) {
    match e
    case StringElem(s) => |s| <= 31 && 0 !in s
    case KeyElem(k) => SafeStr(k.name)
    case ObjectElem(o) => o.Some? ==> |o.value.body| < 0x1_0000_0000
    case _ => true
  }

  /** The slot after reading e back: e itself, but for the alpha of an RGB colour, and an absent
      object leaves the slot as it was. */
  function Landed(ty: VarType, slot: Elem, e: Elem): Elem
    requires ElemOf(ty, slot) && ElemOf(ty, e)
  {
    match e
    case FloatsElem(ws) => FloatsElem(ws[..WrittenCount(ty)] + slot.ws[WrittenCount(ty)..])
    case ColorElem(bs) => ColorElem(bs[..WrittenCount(ty)] + slot.bs[WrittenCount(ty)..])
    case ObjectElem(o) => if o.None? then slot else e
    case _ => e
  }

  /** Landed is the identity but for these two cases. */
  lemma LandedSame(ty: VarType, slot: Elem, e: Elem)
    requires ElemOf(ty, slot) && ElemOf(ty, e)
    requires ty.Rgb? ==> e.ws[3] == slot.ws[3]
    requires ty.Rgb8? ==> e.bs[3] == slot.bs[3]
    requires e == ObjectElem(None) ==> slot == e
    ensures Landed(ty, slot, e) == e
  {
    if e.FloatsElem? {
      assert e.ws[..WrittenCount(ty)] + slot.ws[WrittenCount(ty)..] == e.ws;
    } else if e.ColorElem? {
      assert e.bs[..WrittenCount(ty)] + slot.bs[WrittenCount(ty)..] == e.bs;
    }
  }

  lemma IntRoundTrip(ty: VarType, e: Elem, data: seq<byte>, pos: nat)
    requires ElemOf(ty, e) && e.IntElem?
    requires At(data, pos, ElemBytes(ty, e))
    ensures ReadInt(ty, data, pos) == Parsed(e.n, pos + |ElemBytes(ty, e)|)
  {
    if ty.Int? {
      ReadU32At(data, pos, Unsigned(e.n, 0x1_0000_0000));
    } else if ty.Short? {
      ReadU16At(data, pos, Unsigned(e.n, 0x1_0000));
    } else {
      ReadU8At(data, pos, Unsigned(e.n, 0x100));
    }
  }

  lemma TimeRoundTrip(t: UnifiedTime, data: seq<byte>, pos: nat)
    requires At(data, pos, Le32(t.secs) + Le32(t.micros))
    ensures ReadTime(data, pos) == Parsed(t, pos + 8)
  {
    AtSplit(data, pos, Le32(t.secs), Le32(t.micros));
    ReadU32At(data, pos, t.secs);
    ReadU32At(data, pos + 4, t.micros);
  }

  lemma ObjectRoundTrip(o: Option<Object>, data: seq<byte>, pos: nat)
    requires ElemOf(Creatable, ObjectElem(o)) && Writable(ObjectElem(o))
    requires At(data, pos, ObjectBytes(o))
    ensures ReadObject(data, pos) == Parsed(o, pos + |ObjectBytes(o)|)
  {
    hide At, Le16, Le32, ReadU16, ReadU32, ReadBytes;
    if o.None? {
      ReadU16At(data, pos, 0x8000);
    } else {
      var size := |o.value.body|;
      AtSplit(data, pos, Le16(o.value.classId) + Le32(size), o.value.body);
      AtSplit(data, pos, Le16(o.value.classId), Le32(size));
      ReadU16At(data, pos, o.value.classId);
      ReadU32At(data, pos + 2, size);
      ReadBytesAt(data, pos + 6, o.value.body);
    }
  }

  /** Reading an element where it was written lands it in the slot. */
  lemma ElemRoundTrip(ty: VarType, slot: Elem, e: Elem, data: seq<byte>, pos: nat)
    requires ElemOf(ty, slot) && ElemOf(ty, e) && Writable(e)
    requires At(data, pos, ElemBytes(ty, e))
    ensures ReadElem(ty, slot, data, pos) == Parsed(Landed(ty, slot, e), pos + |ElemBytes(ty, e)|)
  {
    match e
    case IntElem(_) => IntRoundTrip(ty, e, data, pos);
    case BoolElem(b) => ReadU8At(data, pos, if b then 1 else 0);
    case StringElem(s) => FixedStringSurvives(s);
    case KeyElem(k) => UoidRoundTrip(data, pos, k);
    case ObjectElem(o) => ObjectRoundTrip(o, data, pos);
    case TimeElem(t) => TimeRoundTrip(t, data, pos);
    case FloatsElem(ws) => WordsRoundTrip(data, pos, ws[..WrittenCount(ty)]);
    case ColorElem(_) =>
    case NoElem =>
  }
}
