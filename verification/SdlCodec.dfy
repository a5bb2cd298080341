/** The sparse binary codec of SDL states (SDL/StateInfo.cpp): only dirty variables are written,
    with indices when some are missing, and nested states recursively. */
module SdlCodec {
  import opened Bytes
  import opened SdlTypes
  import opened SdlElements
  import Bits

  const IO_VERSION: byte := 6
  const MAX_ELEMENTS := 10000

  // ---- width-dependent lengths: stupidLengthRead and stupidLengthWrite ----

  function LengthBytes(max: nat, n: nat): (r: seq<byte>)
    ensures |r| == if max < 0x100 then 1 else if max < 0x1_0000 then 2 else 4
  {
    if max < 0x100 then [n % 0x100]
    else if max < 0x1_0000 then Le16(n % 0x1_0000)
    else Le32(n % 0x1_0000_0000)
  }

  function ReadLength(max: nat, data: seq<byte>, pos: nat): (r: Parse<nat>)
  {
    if max < 0x100 then
      var (n, p) :- ReadU8(data, pos);
      Parsed(n, p)
    else if max < 0x1_0000 then
      var (n, p) :- ReadU16(data, pos);
      Parsed(n, p)
    else
      var (n, p) :- ReadU32(data, pos);
      Parsed(n, p)
  }

  lemma LengthRoundTrip(max: nat, n: nat, data: seq<byte>, pos: nat)
    requires n <= max < 0x1_0000_0000 || (max == 0 && n < 0x100)
    requires At(data, pos, LengthBytes(max, n))
    ensures ReadLength(max, data, pos) == Parsed(n, pos + |LengthBytes(max, n)|)
  {
    if max < 0x100 {
      ReadU8At(data, pos, n);
    } else if max < 0x1_0000 {
      ReadU16At(data, pos, n);
    } else {
      ReadU32At(data, pos, n);
    }
  }

  // ---- the flag byte ----

  /** The number whose bits, lowest first, are bs. */
  function FromBits(bs: seq<bool>): nat {
    if bs == [] then 0 else (if bs[0] then 1 else 0) + 2 * FromBits(bs[1..])
  }

  /** The n lowest bits of v, lowest first. */
  function ToBits(v: nat, n: nat): (bs: seq<bool>)
    ensures |bs| == n
    decreases n
  {
    if n == 0 then [] else [v % 2 == 1] + ToBits(v / 2, n - 1)
  }

  lemma {:induction false} BitsRoundTrip(bs: seq<bool>)
    ensures ToBits(FromBits(bs), |bs|) == bs
    decreases |bs|
  {
    if bs != [] {
      BitsRoundTrip(bs[1..]);
    }
  }

  lemma {:induction false} BitsBound(bs: seq<bool>)
    ensures FromBits(bs) < Bits.Pow2(|bs|)
    decreases |bs|
  {
    if bs != [] {
      BitsBound(bs[1..]);
    }
  }

  function FlagBits(f: Flags): seq<bool> {
    [f.hasUoid, f.hasNotification, f.hasTimeStamp, f.sameAsDefault, f.hasDirtyFlag, f.wantTimeStamp, f.bit6, f.bit7]
  }

  function ByteOfBits(bs: seq<bool>): (b: byte)
    requires |bs| == 8
    ensures b == FromBits(bs)
  {
    BitsBound(bs);
    assert Bits.Pow2(8) == 0x100;
    FromBits(bs)
  }

  function FlagByte(f: Flags): byte {
    ByteOfBits(FlagBits(f))
  }

  function FlagsOfBits(bs: seq<bool>): Flags
    requires |bs| == 8
  {
    Flags(bs[0], bs[1], bs[2], bs[3], bs[4], bs[5], bs[6], bs[7])
  }

  function FlagsOf(b: byte): Flags {
    FlagsOfBits(ToBits(b, 8))
  }

  lemma ByteOfBitsRoundTrip(bs: seq<bool>)
    requires |bs| == 8
    ensures ToBits(ByteOfBits(bs), 8) == bs
  {
    BitsRoundTrip(bs);
  }

  lemma FlagsRoundTrip(f: Flags)
    ensures FlagsOf(FlagByte(f)) == f
  {
    ByteOfBitsRoundTrip(FlagBits(f));
  }

  // ---- which variables are simple and which are nested ----

  /** The positions from i on of the nested (or of the simple) variables, in order:
      m_sdVars and m_simpleVars. */
  function Positions(vars: seq<VarDesc>, nested: bool, i: nat): (r: seq<nat>)
    requires i <= |vars|
    ensures |r| <= |vars| - i
    ensures forall k :: 0 <= k < |r| ==> i <= r[k] < |vars| && vars[r[k]].ty.StateDesc? == nested
    ensures forall k, m :: 0 <= k < m < |r| ==> r[k] < r[m]
    ensures forall j :: i <= j < |vars| && vars[j].ty.StateDesc? == nested ==> j in r
    decreases |vars| - i
  {
    if i == |vars| then []
    else if vars[i].ty.StateDesc? == nested then [i] + Positions(vars, nested, i + 1)
    else Positions(vars, nested, i + 1)
  }

  function SimpleVars(d: Desc): seq<nat> {
    Positions(d.vars, false, 0)
  }

  function NestedVars(d: Desc): seq<nat> {
    Positions(d.vars, true, 0)
  }

  predicate Indices(vars: seq<VarDesc>, idxs: seq<nat>) {
    forall k :: 0 <= k < |idxs| ==> idxs[k] < |vars|
  }

  /** How many of the cells at idxs[i..n] are dirty. */
  function DirtyCount(vars: seq<Cell>, idxs: seq<nat>, i: nat, n: nat): (r: nat)
    requires n <= |idxs| && forall k :: 0 <= k < |idxs| ==> idxs[k] < |vars|
    ensures i <= n ==> r <= n - i
    decreases n - i
  {
    if i >= n then 0 else (if vars[idxs[i]].dirty then 1 else 0) + DirtyCount(vars, idxs, i + 1, n)
  }

  // ---- writing ----

  function TimeBytes(t: UnifiedTime): seq<byte> {
    Le32(t.secs) + Le32(t.micros)
  }

  function HintBytes(hint: Str): seq<byte> {
    if hint == [] then [0] else [2, 0] + SafeBytes(hint)
  }

  function ElemsBytes(ty: VarType, elems: seq<Elem>): seq<byte>
    requires forall k :: 0 <= k < |elems| ==> ElemOf(ty, elems[k])
  {
    if elems == [] then [] else ElemBytes(ty, elems[0]) + ElemsBytes(ty, elems[1..])
  }

  /** The largest value the count of a nested array is sized for; zero when it is variable-length. */
  function CountLimit(vd: VarDesc, n: nat): nat {
    if vd.VariableLength() then 0 else n
  }

  function SizeBytes(vd: VarDesc, n: nat): seq<byte> {
    if vd.VariableLength() then Le32(n % 0x1_0000_0000) else []
  }

  /** Every child is counted, but only the dirty ones are written, and never with an index. */
  function ChildrenBytes(children: seq<State>): seq<byte>
    requires forall k :: 0 <= k < |children| ==> Shaped(children[k])
    decreases children, 0, 0
  {
    if children == [] then []
    else (if IsDirty(children[0]) then StateBytes(children[0]) else []) + ChildrenBytes(children[1..])
  }

  function NestedBytes(vd: VarDesc, children: seq<State>): seq<byte>
    requires forall k :: 0 <= k < |children| ==> Shaped(children[k])
    decreases children, 1, 0
  {
    SizeBytes(vd, |children|) + LengthBytes(CountLimit(vd, |children|), |children|) + ChildrenBytes(children)
  }

  function FlatBytes(vd: VarDesc, elems: seq<Elem>, flags: Flags, timestamp: UnifiedTime): seq<byte>
    requires forall k :: 0 <= k < |elems| ==> ElemOf(vd.ty, elems[k])
  {
    (if flags.hasTimeStamp then TimeBytes(timestamp) else [])
    + (if flags.sameAsDefault then [] else SizeBytes(vd, |elems|) + ElemsBytes(vd.ty, elems))
  }

  /** Variable::write */
  function VarBytes(vd: VarDesc, c: Cell): seq<byte>
    requires CellShaped(vd, c)
    decreases c, 0, 0
  {
    var flags := Marked(vd, c);
    HintBytes(c.hint) + [FlagByte(flags)]
    + match c.payload {
        case Nested(children) => NestedBytes(vd, children)
        case Flat(elems) => FlatBytes(vd, elems, flags, c.timestamp)
      }
  }

  /** One round of a write loop: nothing for a clean variable. */
  function ItemBytes(st: State, idxs: seq<nat>, i: nat, useIndices: bool): seq<byte>
    requires st.State? && Shaped(st) && Indices(st.desc.vars, idxs) && i < |idxs|
    decreases st, 0, 0
  {
    if st.vars[idxs[i]].dirty then
      (if useIndices then LengthBytes(|st.desc.vars|, i) else []) + VarBytes(st.desc.vars[idxs[i]], st.vars[idxs[i]])
    else []
  }

  function ItemsBytes(st: State, idxs: seq<nat>, i: nat, n: nat, useIndices: bool): seq<byte>
    requires st.State? && Shaped(st) && Indices(st.desc.vars, idxs) && n <= |idxs|
    decreases st, 1, n - i
  {
    if i >= n then [] else ItemBytes(st, idxs, i, useIndices) + ItemsBytes(st, idxs, i + 1, n, useIndices)
  }

  /** The count of dirty variables among idxs and the loop over the first n of them. */
  function SectionBytes(st: State, idxs: seq<nat>, count: nat, n: nat): seq<byte>
    requires st.State? && Shaped(st) && Indices(st.desc.vars, idxs) && n <= |idxs|
    decreases st, 2, 0
  {
    LengthBytes(|st.desc.vars|, count) + ItemsBytes(st, idxs, 0, n, count != |idxs|)
  }

  /** State::write. The loop over the nested variables makes only as many rounds as there are
      dirty ones. */
  function StateBytes(st: State): seq<byte>
    requires st.State? && Shaped(st)
    decreases st, 3, 0
  {
    var simple, nested := SimpleVars(st.desc), NestedVars(st.desc);
    var count, nestedCount := DirtyCount(st.vars, simple, 0, |simple|), DirtyCount(st.vars, nested, 0, |nested|);
    Le16(st.flags) + [IO_VERSION] + SectionBytes(st, simple, count, |simple|)
    + SectionBytes(st, nested, nestedCount, nestedCount)
  }

  // ---- reading ----

  function ReadHint(hint: Str, data: seq<byte>, pos: nat): Parse<Str> {
    var (contents, p) :- ReadU8(data, pos);
    if contents / 2 % 2 == 1 then
      var (_, q) :- ReadU8(data, p);
      ReadSafe(data, q)
    else Parsed(hint, p)
  }

  function ReadElems(ty: VarType, slots: seq<Elem>, data: seq<byte>, pos: nat): (r: Parse<seq<Elem>>)
    requires forall k :: 0 <= k < |slots| ==> ElemOf(ty, slots[k])
    ensures r.Parsed? ==> |r.value| == |slots| && forall k :: 0 <= k < |r.value| ==> ElemOf(ty, r.value[k])
    decreases |slots|
  {
    if slots == [] then Parsed([], pos)
    else
      var (e, p) :- ReadElem(ty, slots[0], data, pos);
      var (rest, q) :- ReadElems(ty, slots[1..], data, p);
      Parsed([e] + rest, q)
  }

  /** The length in front of a variable-length array, at most 9999. */
  function ReadSize(vd: VarDesc, n: nat, data: seq<byte>, pos: nat): Parse<nat> {
    if vd.VariableLength() then
      var (count, p) :- ReadU32(data, pos);
      if count >= MAX_ELEMENTS then Failed(Malformed) else Parsed(count, p)
    else Parsed(n, pos)
  }

  /** The elements that `resize` leaves in a variable-length array. */
  function ZeroElems(ty: VarType, n: nat): (r: seq<Elem>)
    ensures |r| == n && forall k :: 0 <= k < n ==> r[k] == ZeroElem(ty)
  {
    seq(n, _ => ZeroElem(ty))
  }

  /** The value of a flat variable, unless the flags say that it is the default. */
  function ReadFlat(vd: VarDesc, elems: seq<Elem>, flags: Flags, data: seq<byte>, pos: nat): (r: Parse<seq<Elem>>)
    requires !vd.ty.StateDesc? && CellMatches(vd, Cell(Flat(elems), flags, false, NULL_TIME, []))
    ensures r.Parsed? ==> CellMatches(vd, Cell(Flat(r.value), flags, false, NULL_TIME, []))
  {
    if flags.sameAsDefault then Parsed(elems, pos)
    else
      var (n, p) :- ReadSize(vd, |elems|, data, pos);
      ReadElems(vd.ty, if vd.VariableLength() then ZeroElems(vd.ty, n) else elems, data, p)
  }

  function ReadChildren(vd: VarDesc, children: seq<State>, i: nat, count: nat, useIndices: bool, limit: nat,
                        now: UnifiedTime, data: seq<byte>, pos: nat): (r: Parse<seq<State>>)
    requires WellTyped(vd) && forall k :: 0 <= k < |children| ==> ChildMatches(vd, children[k])
    ensures r.Parsed? ==> |r.value| == |children| && forall k :: 0 <= k < |r.value| ==> ChildMatches(vd, r.value[k])
    decreases vd, 0, count - i
  {
    if i >= count then Parsed(children, pos)
    else
      var (idx, p) :- if useIndices then ReadLength(limit, data, pos) else Parsed(i, pos);
      if idx >= |children| then Failed(Malformed)
      else
        assert ChildMatches(vd, children[idx]);
        var (ch, q) :- if vd.child.Some? then ReadState(vd.child.value, children[idx], now, data, p)
                       else Parsed(children[idx], p);
        ReadChildren(vd, children[idx := ch], i + 1, count, useIndices, limit, now, data, q)
  }

  function ReadNested(vd: VarDesc, children: seq<State>, now: UnifiedTime, data: seq<byte>, pos: nat): (r: Parse<seq<State>>)
    requires WellTyped(vd) && (!vd.VariableLength() ==> |children| == vd.FixedLen())
    requires forall k :: 0 <= k < |children| ==> ChildMatches(vd, children[k])
    ensures r.Parsed? ==> (!vd.VariableLength() ==> |r.value| == vd.FixedLen())
    ensures r.Parsed? ==> forall k :: 0 <= k < |r.value| ==> ChildMatches(vd, r.value[k])
    decreases vd, 1, 0
  {
    var (n, p) :- ReadSize(vd, |children|, data, pos);
    var slots := if vd.VariableLength() then FreshChildren(vd, n) else children;
    var (count, q) :- ReadLength(CountLimit(vd, n), data, p);
    ReadChildren(vd, slots, 0, count, count != n, CountLimit(vd, n), now, data, q)
  }

  /** The flags and the timestamp of a flat variable: a wanted timestamp is taken from the clock. */
  function ReadStamp(flags: Flags, timestamp: UnifiedTime, now: UnifiedTime, data: seq<byte>, pos: nat)
    : Parse<(Flags, UnifiedTime)>
  {
    var (t, p) :- if flags.hasTimeStamp then ReadTime(data, pos) else Parsed(timestamp, pos);
    if flags.hasDirtyFlag && flags.wantTimeStamp then
      Parsed((flags.(wantTimeStamp := false, hasTimeStamp := true), now), p)
    else Parsed((flags, t), p)
  }

  /** Variable::read */
  function ReadVar(vd: VarDesc, c: Cell, now: UnifiedTime, data: seq<byte>, pos: nat): (r: Parse<Cell>)
    requires WellTyped(vd) && CellMatches(vd, c)
    ensures r.Parsed? ==> CellMatches(vd, r.value)
    decreases vd, 2, 0
  {
    var (hint, p0) :- ReadHint(c.hint, data, pos);
    var (b, p1) :- ReadU8(data, p0);
    var flags := FlagsOf(b);
    match c.payload
    case Nested(children) =>
      var (read, next) :- ReadNested(vd, children, now, data, p1);
      Parsed(Cell(Nested(read), flags, true, c.timestamp, hint), next)
    case Flat(elems) =>
      var (stamp, p2) :- ReadStamp(flags, c.timestamp, now, data, p1);
      var (read, next) :- ReadFlat(vd, elems, stamp.0, data, p2);
      Parsed(Cell(Flat(read), stamp.0, true, stamp.1, hint), next)
  }

  predicate VarsMatch(d: Desc, vars: seq<Cell>) {
    |vars| == |d.vars| && forall i :: 0 <= i < |d.vars| ==> CellMatches(d.vars[i], vars[i])
  }

  /** A read loop: each round reads one variable, whose number is given or is the round's own. */
  function ReadItems(d: Desc, vars: seq<Cell>, idxs: seq<nat>, i: nat, count: nat, useIndices: bool,
                     now: UnifiedTime, data: seq<byte>, pos: nat): (r: Parse<seq<Cell>>)
    requires WellTypedDesc(d) && VarsMatch(d, vars) && Indices(d.vars, idxs)
    ensures r.Parsed? ==> VarsMatch(d, r.value)
    decreases d, 0, count - i
  {
    if i >= count then Parsed(vars, pos)
    else
      var (idx, p) :- if useIndices then ReadLength(|d.vars|, data, pos) else Parsed(i, pos);
      if idx >= |idxs| then Failed(Malformed)
      else
        var (c, q) :- ReadVar(d.vars[idxs[idx]], vars[idxs[idx]], now, data, p);
        ReadItems(d, vars[idxs[idx] := c], idxs, i + 1, count, useIndices, now, data, q)
  }

  function ReadSection(d: Desc, vars: seq<Cell>, idxs: seq<nat>, now: UnifiedTime, data: seq<byte>, pos: nat)
    : (r: Parse<seq<Cell>>)
    requires WellTypedDesc(d) && VarsMatch(d, vars) && Indices(d.vars, idxs)
    ensures r.Parsed? ==> VarsMatch(d, r.value)
    decreases d, 1, 0
  {
    var (count, p) :- ReadLength(|d.vars|, data, pos);
    ReadItems(d, vars, idxs, 0, count, count != |idxs|, now, data, p)
  }

  /** State::read */
  function ReadState(d: Desc, st: State, now: UnifiedTime, data: seq<byte>, pos: nat): (r: Parse<State>)
    requires WellTypedDesc(d) && Matches(d, st)
    ensures r.Parsed? ==> Matches(d, r.value) && r.value.desc == st.desc && r.value.objectKey == st.objectKey
    decreases d, 2, 0
  {
    var (flags, p0) :- ReadU16(data, pos);
    var (version, p1) :- ReadU8(data, p0);
    if version != IO_VERSION then Failed(Malformed)
    else
      var (vars, p2) :- ReadSection(d, st.vars, SimpleVars(d), now, data, p1);
      var (vars', p3) :- ReadSection(d, vars, NestedVars(d), now, data, p2);
      Parsed(State(st.desc, vars', st.objectKey, flags), p3)
  }
}
