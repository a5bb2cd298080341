/** The loops of Variable::read/write and State::read/write (SDL/StateInfo.cpp:373-464, 873-936),
    proved to compute the codec functions. An exception is a Failed result. */
module SdlCodecLoops {
  import opened Bytes
  import opened SdlTypes
  import opened SdlElements
  import opened SdlCodec

  // ---- writing ----

  method WriteElems(ty: VarType, elems: seq<Elem>) returns (out: seq<byte>)
    requires forall k :: 0 <= k < |elems| ==> ElemOf(ty, elems[k])
    ensures out == ElemsBytes(ty, elems)
  {
    hide ElemBytes, ElemOf;
    out := [];
    assert elems[0..] == elems;
    for i := 0 to |elems|
      invariant out + ElemsBytes(ty, elems[i..]) == ElemsBytes(ty, elems)
    {
      assert elems[i..][0] == elems[i] && elems[i..][1..] == elems[i + 1..];
      out := out + ElemBytes(ty, elems[i]);
    }
  }

  /** The nested part of Variable::write. */
  method WriteNested(vd: VarDesc, children: seq<State>) returns (out: seq<byte>)
    requires forall k :: 0 <= k < |children| ==> Shaped(children[k])
    ensures out == NestedBytes(vd, children)
    decreases children, 0
  {
    hide Shaped, StateBytes, LengthBytes, IsDirty;
    out := SizeBytes(vd, |children|);
    var dirty: seq<bool>, count := [], 0;
    for i := 0 to |children|
      invariant count == |dirty| == i && forall k :: 0 <= k < i ==> dirty[k] == IsDirty(children[k])
    {
      dirty, count := dirty + [IsDirty(children[i])], count + 1;
    }
    out := out + LengthBytes(CountLimit(vd, |children|), count);
    assert children[0..] == children;
    for i := 0 to |children|
      invariant out + ChildrenBytes(children[i..]) == NestedBytes(vd, children)
    {
      assert children[i..][0] == children[i] && children[i..][1..] == children[i + 1..];
      if dirty[i] {
        DirtyIsState(children[i]);
        var b := WriteState(children[i]);
        out := out + b;
      }
    }
  }

  lemma DirtyIsState(st: State)
    requires IsDirty(st)
    ensures st.State?
  {
  }

  /** Variable::write */
  method WriteVar(vd: VarDesc, c: Cell) returns (out: seq<byte>)
    requires CellShaped(vd, c)
    ensures out == VarBytes(vd, c)
    decreases c, 0
  {
    hide Shaped, IsDefaultCell, FlagByte, ElemOf, NestedBytes, ElemsBytes, HintBytes;
    var flags := Marked(vd, c);
    out := HintBytes(c.hint) + [FlagByte(flags)];
    match c.payload
    case Nested(children) =>
      var b := WriteNested(vd, children);
      out := out + b;
    case Flat(elems) =>
      ghost var head := out;
      var stamp: seq<byte> := [];
      if flags.hasTimeStamp {
        stamp := TimeBytes(c.timestamp);
      }
      out := out + stamp;
      if !flags.sameAsDefault {
        var b := WriteElems(vd.ty, elems);
        out := out + (SizeBytes(vd, |elems|) + b);
      }
      assert out == head + FlatBytes(vd, elems, flags, c.timestamp);
  }

  method CountDirty(vars: seq<Cell>, idxs: seq<nat>) returns (count: nat)
    requires forall k :: 0 <= k < |idxs| ==> idxs[k] < |vars|
    ensures count == DirtyCount(vars, idxs, 0, |idxs|)
  {
    count := 0;
    for i := 0 to |idxs|
      invariant count + DirtyCount(vars, idxs, i, |idxs|) == DirtyCount(vars, idxs, 0, |idxs|)
    {
      if vars[idxs[i]].dirty {
        count := count + 1;
      }
    }
  }

  /** One round of a write loop. */
  method WriteItem(st: State, idxs: seq<nat>, i: nat, useIndices: bool) returns (item: seq<byte>)
    requires st.State? && Shaped(st) && Indices(st.desc.vars, idxs) && i < |idxs|
    ensures item == ItemBytes(st, idxs, i, useIndices)
    decreases st, 0, 0
  {
    hide VarBytes, LengthBytes;
    item := [];
    if st.vars[idxs[i]].dirty {
      if useIndices {
        item := LengthBytes(|st.desc.vars|, i);
      }
      var b := WriteVar(st.desc.vars[idxs[i]], st.vars[idxs[i]]);
      item := item + b;
    }
  }

  /** One of the two write loops of State::write. */
  method WriteItems(st: State, idxs: seq<nat>, n: nat, useIndices: bool) returns (out: seq<byte>)
    requires st.State? && Shaped(st) && Indices(st.desc.vars, idxs) && n <= |idxs|
    ensures out == ItemsBytes(st, idxs, 0, n, useIndices)
    decreases st, 0, 1
  {
    hide VarBytes, CellShaped, LengthBytes, ItemBytes;
    out := [];
    for i := 0 to n
      invariant out + ItemsBytes(st, idxs, i, n, useIndices) == ItemsBytes(st, idxs, 0, n, useIndices)
    {
      var item := WriteItem(st, idxs, i, useIndices);
      ghost var rest := ItemsBytes(st, idxs, i + 1, n, useIndices);
      assert out + (item + rest) == out + item + rest;
      out := out + item;
    }
  }

  /** State::write */
  method WriteState(st: State) returns (out: seq<byte>)
    requires st.State? && Shaped(st)
    ensures out == StateBytes(st)
    decreases st, 1
  {
    hide Shaped, Positions, ItemsBytes, DirtyCount, LengthBytes;
    var simple, nested := SimpleVars(st.desc), NestedVars(st.desc);
    ShapedVars(st);
    var count := CountDirty(st.vars, simple);
    var b := WriteItems(st, simple, |simple|, count != |simple|);
    out := Le16(st.flags) + [IO_VERSION] + LengthBytes(|st.desc.vars|, count) + b;
    count := CountDirty(st.vars, nested);
    b := WriteItems(st, nested, count, count != |nested|);
    out := out + LengthBytes(|st.desc.vars|, count) + b;
    SectionsJoined(Le16(st.flags) + [IO_VERSION], SectionBytes(st, simple, DirtyCount(st.vars, simple, 0, |simple|), |simple|),
                   LengthBytes(|st.desc.vars|, count), b);
    assert SectionBytes(st, nested, count, count) == LengthBytes(|st.desc.vars|, count) + b;
  }

  lemma SectionsJoined(a: seq<byte>, b: seq<byte>, c: seq<byte>, e: seq<byte>)
    ensures a + b + c + e == a + b + (c + e)
  {
  }

  lemma ShapedVars(st: State)
    requires st.State? && Shaped(st)
    ensures |st.vars| == |st.desc.vars|
  {
    hide CellShaped;
  }

  // ---- reading ----

  function Prepended<T>(front: seq<T>, r: Parse<seq<T>>): Parse<seq<T>> {
    if r.Parsed? then Parsed(front + r.value, r.next) else r
  }

  lemma PrependedStep<T>(front: seq<T>, e: T, r: Parse<seq<T>>)
    requires r.Parsed?
    ensures Prepended(front, Parsed([e] + r.value, r.next)) == Prepended(front + [e], r)
  {
    assert front + ([e] + r.value) == front + [e] + r.value;
  }

  lemma PrependedNone<T>(r: Parse<seq<T>>)
    ensures Prepended([], r) == r
  {
    if r.Parsed? {
      assert [] + r.value == r.value;
    }
  }

  method ReadElemsLoop(ty: VarType, slots: seq<Elem>, data: seq<byte>, pos: nat) returns (r: Parse<seq<Elem>>)
    requires forall k :: 0 <= k < |slots| ==> ElemOf(ty, slots[k])
    ensures r == ReadElems(ty, slots, data, pos)
  {
    hide ReadElem, ElemOf;
    var elems: seq<Elem>, p := [], pos;
    assert slots[0..] == slots;
    PrependedNone(ReadElems(ty, slots, data, pos));
    for i := 0 to |slots|
      invariant |elems| == i
      invariant ReadElems(ty, slots, data, pos) == Prepended(elems, ReadElems(ty, slots[i..], data, p))
    {
      assert slots[i..][0] == slots[i] && slots[i..][1..] == slots[i + 1..];
      var e := ReadElem(ty, slots[i], data, p);
      if e.Failed? {
        return Failed(e.error);
      }
      ghost var rest := ReadElems(ty, slots[i + 1..], data, e.next);
      if rest.Parsed? {
        PrependedStep(elems, e.value, rest);
      }
      elems, p := elems + [e.value], e.next;
    }
    assert slots[|slots|..] == [] && elems + [] == elems;
    return Parsed(elems, p);
  }

  method ReadChildrenLoop(vd: VarDesc, children: seq<State>, count: nat, useIndices: bool, limit: nat,
                          now: UnifiedTime, data: seq<byte>, pos: nat) returns (r: Parse<seq<State>>)
    requires WellTyped(vd) && forall k :: 0 <= k < |children| ==> ChildMatches(vd, children[k])
    ensures r == ReadChildren(vd, children, 0, count, useIndices, limit, now, data, pos)
    decreases vd, 0
  {
    hide ReadState, WellTypedDesc, Matches, ReadLength;
    var slots, p := children, pos;
    for i := 0 to count
      invariant |slots| == |children| && forall k :: 0 <= k < |slots| ==> ChildMatches(vd, slots[k])
      invariant ReadChildren(vd, children, 0, count, useIndices, limit, now, data, pos)
             == ReadChildren(vd, slots, i, count, useIndices, limit, now, data, p)
    {
      var idx: Parse<nat> := if useIndices then ReadLength(limit, data, p) else Parsed(i, p);
      if idx.Failed? {
        return Failed(idx.error);
      }
      if idx.value >= |slots| {
        return Failed(Malformed);
      }
      p := idx.next;
      assert ChildMatches(vd, slots[idx.value]);
      if vd.child.Some? {
        var ch := ReadStateLoop(vd.child.value, slots[idx.value], now, data, p);
        if ch.Failed? {
          return Failed(ch.error);
        }
        slots, p := slots[idx.value := ch.value], ch.next;
      } else {
        assert slots[idx.value := slots[idx.value]] == slots;
      }
    }
    return Parsed(slots, p);
  }

  /** The nested part of Variable::read. */
  method ReadNestedLoop(vd: VarDesc, children: seq<State>, now: UnifiedTime, data: seq<byte>, pos: nat)
    returns (r: Parse<seq<State>>)
    requires WellTyped(vd) && (!vd.VariableLength() ==> |children| == vd.FixedLen())
    requires forall k :: 0 <= k < |children| ==> ChildMatches(vd, children[k])
    ensures r == ReadNested(vd, children, now, data, pos)
    decreases vd, 1
  {
    hide ReadChildren, WellTyped, ChildMatches, FreshChild, ReadLength, ReadSize;
    var n := ReadSize(vd, |children|, data, pos);
    if n.Failed? {
      return Failed(n.error);
    }
    var slots := if vd.VariableLength() then FreshChildren(vd, n.value) else children;
    var count := ReadLength(CountLimit(vd, n.value), data, n.next);
    if count.Failed? {
      return Failed(count.error);
    }
    r := ReadChildrenLoop(vd, slots, count.value, count.value != n.value, CountLimit(vd, n.value), now, data, count.next);
  }

  /** Variable::read */
  method ReadVarLoop(vd: VarDesc, c: Cell, now: UnifiedTime, data: seq<byte>, pos: nat) returns (r: Parse<Cell>)
    requires WellTyped(vd) && CellMatches(vd, c)
    ensures r == ReadVar(vd, c, now, data, pos)
    decreases vd, 2
  {
    hide ReadNested, WellTyped, ChildMatches, ReadHint, FlagsOf, ReadElems, ElemOf, ReadU8, ReadU32, ReadTime;
    var hint := ReadHint(c.hint, data, pos);
    if hint.Failed? {
      return Failed(hint.error);
    }
    var b := ReadU8(data, hint.next);
    if b.Failed? {
      return Failed(b.error);
    }
    var flags, timestamp, p := FlagsOf(b.value), c.timestamp, b.next;
    match c.payload
    case Nested(children) =>
      var read := ReadNestedLoop(vd, children, now, data, p);
      if read.Failed? {
        return Failed(read.error);
      }
      return Parsed(Cell(Nested(read.value), flags, true, timestamp, hint.value), read.next);
    case Flat(elems) =>
      if flags.hasTimeStamp {
        var t := ReadTime(data, p);
        if t.Failed? {
          return Failed(t.error);
        }
        timestamp, p := t.value, t.next;
      }
      if flags.hasDirtyFlag && flags.wantTimeStamp {
        timestamp := now;
        flags := flags.(wantTimeStamp := false, hasTimeStamp := true);
      }
      var value := elems;
      if !flags.sameAsDefault {
        if vd.VariableLength() {
          var n := ReadSize(vd, |elems|, data, p);
          if n.Failed? {
            return Failed(n.error);
          }
          value, p := ZeroElems(vd.ty, n.value), n.next;
        }
        var read := ReadElemsLoop(vd.ty, value, data, p);
        if read.Failed? {
          return Failed(read.error);
        }
        value, p := read.value, read.next;
      }
      return Parsed(Cell(Flat(value), flags, true, timestamp, hint.value), p);
  }

  /** One of the two read loops of State::read. */
  method ReadItemsLoop(d: Desc, vars: seq<Cell>, idxs: seq<nat>, count: nat, useIndices: bool,
                       now: UnifiedTime, data: seq<byte>, pos: nat) returns (r: Parse<seq<Cell>>)
    requires WellTypedDesc(d) && VarsMatch(d, vars) && Indices(d.vars, idxs)
    ensures r == ReadItems(d, vars, idxs, 0, count, useIndices, now, data, pos)
    decreases d, 0
  {
    hide ReadVar, WellTyped, CellMatches, ReadLength;
    var cells, p := vars, pos;
    for i := 0 to count
      invariant VarsMatch(d, cells)
      invariant ReadItems(d, vars, idxs, 0, count, useIndices, now, data, pos)
             == ReadItems(d, cells, idxs, i, count, useIndices, now, data, p)
    {
      var idx: Parse<nat> := if useIndices then ReadLength(|d.vars|, data, p) else Parsed(i, p);
      if idx.Failed? {
        return Failed(idx.error);
      }
      if idx.value >= |idxs| {
        return Failed(Malformed);
      }
      var v := idxs[idx.value];
      var c := ReadVarLoop(d.vars[v], cells[v], now, data, idx.next);
      if c.Failed? {
        return Failed(c.error);
      }
      cells, p := cells[v := c.value], c.next;
    }
    return Parsed(cells, p);
  }

  /** State::read */
  method ReadStateLoop(d: Desc, st: State, now: UnifiedTime, data: seq<byte>, pos: nat) returns (r: Parse<State>)
    requires WellTypedDesc(d) && Matches(d, st)
    ensures r == ReadState(d, st, now, data, pos)
    decreases d, 1
  {
    hide ReadItems, Positions, WellTypedDesc, CellMatches, ReadU16, ReadU8, ReadLength;
    var flags := ReadU16(data, pos);
    if flags.Failed? {
      return Failed(flags.error);
    }
    var version := ReadU8(data, flags.next);
    if version.Failed? {
      return Failed(version.error);
    }
    if version.value != IO_VERSION {
      return Failed(Malformed);
    }
    var vars, p := st.vars, version.next;
    var simple, nested := SimpleVars(d), NestedVars(d);
    var count := ReadLength(|d.vars|, data, p);
    if count.Failed? {
      return Failed(count.error);
    }
    var read := ReadItemsLoop(d, vars, simple, count.value, count.value != |simple|, now, data, count.next);
    if read.Failed? {
      return Failed(read.error);
    }
    vars, p := read.value, read.next;
    count := ReadLength(|d.vars|, data, p);
    if count.Failed? {
      return Failed(count.error);
    }
    read := ReadItemsLoop(d, vars, nested, count.value, count.value != |nested|, now, data, count.next);
    if read.Failed? {
      return Failed(read.error);
    }
    return Parsed(State(st.desc, read.value, st.objectKey, flags.value), read.next);
  }
}
