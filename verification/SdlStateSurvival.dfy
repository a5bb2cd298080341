/** Which states come back with their values: the exact condition for a whole state, to any depth
    (SDL/StateInfo.cpp:373-464, 873-936, 1044-1078). */
module SdlStateSurvival {
  import opened Bytes
  import opened SdlTypes
  import opened SdlElements
  import opened SdlCodec
  import opened DescriptorDb
  import opened SdlRoundTrip
  import opened SdlSurvival

  // ---- states that the reader can follow ----

  /** Lengths that their fields can hold; the dirty nested variables come first, and the children of a
      written variable are all dirty. Nothing is asked of strings, hints, flags and timestamps. */
  predicate Steady(d: Desc, st: State)
    decreases d, 0
  {
    && WellTypedDesc(d)
    && Matches(d, st) && Shaped(st)
    && |d.vars| < 0x1_0000_0000
    && PrefixDirty(st.vars, NestedVars(d))
    && forall i :: 0 <= i < |d.vars| && st.vars[i].dirty ==> SteadyCell(d.vars[i], st.vars[i])
  }

  predicate SteadyCell(vd: VarDesc, c: Cell)
    decreases vd, 1
  {
    && WellTyped(vd)
    && CellMatches(vd, c)
    && CellShaped(vd, c)
    && match c.payload {
      case Flat(elems) => |elems| < 0x1_0000_0000 && forall k :: 0 <= k < |elems| ==> SteadyElem(elems[k])
      case Nested(children) =>
        && (if vd.VariableLength() then |children| < 0x100 else |children| < 0x1_0000_0000)
        && forall k :: 0 <= k < |children| ==> SteadyChild(vd, children[k])
    }
  }

  predicate SteadyElem(e: Elem) {
    e.ObjectElem? && e.creatable.Some? ==> |e.creatable.value.body| < 0x1_0000_0000
  }

  predicate SteadyChild(vd: VarDesc, ch: State)
    decreases vd, 0
  {
    vd.child.Some? && IsDirty(ch) && Steady(vd.child.value, ch)
  }

  /** The condition: what is written is determined by its encoding, and what is not written is the default. */
  predicate StateDetermined(d: Desc, st: State)
    requires Steady(d, st)
    decreases d, 0
  {
    forall i :: 0 <= i < |d.vars| ==>
      if st.vars[i].dirty then CellSurvives(d.vars[i], st.vars[i])
      else SamePayload(FreshCell(d.vars[i]).payload, st.vars[i].payload)
  }

  predicate CellSurvives(vd: VarDesc, c: Cell)
    requires SteadyCell(vd, c)
    decreases vd, 1
  {
    match c.payload
    case Flat(_) => Determined(vd, c)
    case Nested(children) =>
      forall k :: 0 <= k < |children| ==> SteadyChild(vd, children[k]) && StateDetermined(vd.child.value, children[k])
  }

  // ---- flat variables: right or wrong, the reader stays in step ----

  lemma KeyInStep(data: seq<byte>, pos: nat, k: Uoid)
    requires At(data, pos, UoidBytes(k))
    ensures var r := ReadUoid(data, pos); r.Parsed? ==> r.next == pos + |UoidBytes(k)|
  {
    hide ReadUoidHead, UoidHead, UoidClone, ReadUoidClone, ReadSafe, SafeBytes, SafeStr;
    if SafeStr(k.name) {
      UoidRoundTrip(data, pos, k);
    } else {
      UoidParts(data, pos, UoidHead(k), SafeBytes(k.name), UoidClone(k));
      UoidHeadRoundTrip(data, pos, k);
      UnsafeName(data, pos + |UoidHead(k)|, k.name);
      UoidCloneRoundTrip(data, pos + |UoidHead(k)| + |SafeBytes(k.name)|, k);
    }
  }

  lemma ElemInStep(ty: VarType, slot: Elem, e: Elem, data: seq<byte>, pos: nat)
    requires ElemOf(ty, slot) && ElemOf(ty, e) && SteadyElem(e) && At(data, pos, ElemBytes(ty, e))
    ensures var r := ReadElem(ty, slot, data, pos); r.Parsed? ==> r.next == pos + |ElemBytes(ty, e)|
  {
    hide UoidBytes, ReadUoid, ReadObject, ObjectBytes, FixedString, UntilNul, SafeStr;
    if Writable(e) {
      ElemRoundTrip(ty, slot, e, data, pos);
    } else {
      match e
      case StringElem(s) => ReadBytesAt(data, pos, FixedString(s));
      case KeyElem(k) => KeyInStep(data, pos, k);
    }
  }

  lemma {:induction false} ElemsInStep(ty: VarType, slots: seq<Elem>, elems: seq<Elem>, data: seq<byte>, pos: nat)
    requires |slots| == |elems|
    requires forall k :: 0 <= k < |elems| ==> ElemOf(ty, elems[k]) && SteadyElem(elems[k]) && ElemOf(ty, slots[k])
    requires At(data, pos, ElemsBytes(ty, elems))
    ensures var r := ReadElems(ty, slots, data, pos); r.Parsed? ==> r.next == pos + |ElemsBytes(ty, elems)|
    decreases |elems|
  {
    hide ElemBytes, ReadElem, SteadyElem, ElemOf;
    if elems != [] {
      AtSplit(data, pos, ElemBytes(ty, elems[0]), ElemsBytes(ty, elems[1..]));
      ElemInStep(ty, slots[0], elems[0], data, pos);
      if ReadElem(ty, slots[0], data, pos).Parsed? {
        ElemsInStep(ty, slots[1..], elems[1..], data, pos + |ElemBytes(ty, elems[0])|);
      }
    }
  }

  lemma SizeRefused(vd: VarDesc, n: nat, m: nat, data: seq<byte>, pos: nat)
    requires vd.VariableLength() && MAX_ELEMENTS <= n < 0x1_0000_0000 && At(data, pos, SizeBytes(vd, n))
    ensures ReadSize(vd, m, data, pos).Failed?
  {
    hide Le32;
    ReadU32At(data, pos, n);
  }

  lemma FlatInStep(vd: VarDesc, elems: seq<Elem>, flags: Flags, data: seq<byte>, pos: nat)
    requires WellTyped(vd) && CellMatches(vd, Cell(Flat(elems), flags, false, NULL_TIME, [])) && !flags.sameAsDefault
    requires |elems| < 0x1_0000_0000 && forall k :: 0 <= k < |elems| ==> SteadyElem(elems[k])
    requires At(data, pos, SizeBytes(vd, |elems|) + ElemsBytes(vd.ty, elems))
    ensures var r := ReadFlat(vd, FreshElems(vd), flags, data, pos);
            r.Parsed? ==> r.next == pos + |SizeBytes(vd, |elems|) + ElemsBytes(vd.ty, elems)|
  {
    hide ElemsBytes, ReadElems, SteadyElem, ElemOf, At, WellTyped, DefaultElem, SizeBytes, ReadSize;
    var n := |elems|;
    AtSplit(data, pos, SizeBytes(vd, n), ElemsBytes(vd.ty, elems));
    if vd.VariableLength() && n >= MAX_ELEMENTS {
      SizeRefused(vd, n, |FreshElems(vd)|, data, pos);
    } else {
      SizeRoundTrip(vd, n, |FreshElems(vd)|, data, pos);
      var slots := if vd.VariableLength() then ZeroElems(vd.ty, n) else FreshElems(vd);
      SlotsAre(vd, n);
      ElemsInStep(vd.ty, slots, elems, data, pos + |SizeBytes(vd, n)|);
    }
  }

  /** What the reader makes of a variable: it stays in step, and the value is right exactly when it survives. */
  predicate ReadsAs(vd: VarDesc, c: Cell, r: Parse<Cell>, end: nat)
    requires SteadyCell(vd, c)
  {
    && (r.Parsed? ==> r.next == end)
    && (r.Parsed? && SamePayload(r.value.payload, c.payload) <==> CellSurvives(vd, c))
  }

  lemma FlatVarReadsAs(vd: VarDesc, c: Cell, now: UnifiedTime, data: seq<byte>, pos: nat)
    requires c.payload.Flat? && SteadyCell(vd, c) && At(data, pos, VarBytes(vd, c))
    ensures ReadsAs(vd, c, ReadVar(vd, FreshCell(vd), now, data, pos), pos + |VarBytes(vd, c)|)
  {
    hide ElemsBytes, ReadVar, VarBytes, FreshCell, FreshElems, Marked, WellTyped, SizeBytes, ElemOf, At, Determined,
         ReadElems, ReadSize;
    ValueRestoredIffDetermined(vd, c, now, data, pos);
    var flags, q := FlatVarParts(vd, c, now, data, pos);
    if !flags.sameAsDefault {
      FlatInStep(vd, c.payload.elems, flags, data, q);
    }
  }

  // ---- nested variables ----

  lemma ChildrenReadAs(vd: VarDesc, all: seq<State>, slots: seq<State>, i: nat, now: UnifiedTime, data: seq<byte>, pos: nat)
    requires WellTyped(vd) && |slots| == |all| && i <= |all|
    requires forall k :: 0 <= k < |all| ==> SteadyChild(vd, all[k]) && Shaped(all[k]) && ChildMatches(vd, all[k])
    requires forall k :: 0 <= k < |slots| ==> ChildMatches(vd, slots[k])
    requires forall k :: i <= k < |slots| ==> slots[k] == FreshChild(vd)
    requires At(data, pos, ChildrenBytes(all[i..]))
    ensures ChildrenCame(vd, all, slots, i, ReadChildren(vd, slots, i, |all|, false, CountLimit(vd, |all|), now, data, pos),
                         pos + |ChildrenBytes(all[i..])|)
    decreases vd, 0, |all| - i
  {
    hide StateBytes, ReadState, Fresh, Matches, Shaped, Steady, At, WellTypedDesc, SameValues, StateDetermined, ChildrenCame, ReadChildren;
    if i == |all| {
      NoChild(vd, slots, i, CountLimit(vd, |all|), now, data, pos);
      NoneCame(vd, all, slots, pos);
    } else {
      var ch := all[i];
      var d := vd.child.value;
      assert SteadyChild(vd, ch);
      assert all[i..][0] == ch && all[i..][1..] == all[i + 1..];
      assert ChildMatches(vd, slots[i]) && slots[i] == Fresh(d);
      AtSplit(data, pos, StateBytes(ch), ChildrenBytes(all[i + 1..]));
      StateReadsAs(d, ch, now, data, pos);
      var end := pos + |ChildrenBytes(all[i..])|;
      var r := ReadState(d, slots[i], now, data, pos);
      OneChild(vd, slots, i, |all|, CountLimit(vd, |all|), now, data, pos);
      if r.Parsed? {
        var next := slots[i := r.value];
        assert ChildMatches(vd, next[i]);
        ChildrenReadAs(vd, all, next, i + 1, now, data, r.next);
        var rest := ReadChildren(vd, next, i + 1, |all|, false, CountLimit(vd, |all|), now, data, r.next);
        ChildCame(vd, all, slots, i, r.value, rest, end);
      } else {
        ChildFailed(vd, all, slots, i, Failed(r.error), end);
      }
    }
  }

  /** One round of the loop over unnumbered children. */
  lemma OneChild(vd: VarDesc, slots: seq<State>, i: nat, count: nat, limit: nat, now: UnifiedTime, data: seq<byte>, pos: nat)
    requires WellTyped(vd) && vd.child.Some? && i < count <= |slots|
    requires forall k :: 0 <= k < |slots| ==> ChildMatches(vd, slots[k])
    ensures Matches(vd.child.value, slots[i]) && WellTypedDesc(vd.child.value)
    ensures var r := ReadState(vd.child.value, slots[i], now, data, pos);
            && (r.Parsed? ==> ChildMatches(vd, r.value))
            && ReadChildren(vd, slots, i, count, false, limit, now, data, pos)
               == if r.Parsed? then ReadChildren(vd, slots[i := r.value], i + 1, count, false, limit, now, data, r.next)
                  else Failed(r.error)
  {
    hide ReadState, Matches, WellTypedDesc;
    assert ChildMatches(vd, slots[i]);
  }

  lemma NoChild(vd: VarDesc, slots: seq<State>, i: nat, limit: nat, now: UnifiedTime, data: seq<byte>, pos: nat)
    requires WellTyped(vd) && forall k :: 0 <= k < |slots| ==> ChildMatches(vd, slots[k])
    ensures ReadChildren(vd, slots, i, i, false, limit, now, data, pos) == Parsed(slots, pos)
  {
    hide ChildMatches;
  }

  /** After the loop from child i on: every child is right exactly when it survives, and those before i are
      as they were. */
  predicate ChildrenCame(vd: VarDesc, all: seq<State>, slots: seq<State>, i: nat, r: Parse<seq<State>>, end: nat)
    requires |slots| == |all| && forall k :: 0 <= k < |all| ==> SteadyChild(vd, all[k])
  {
    && (r.Parsed? ==>
          && r.next == end && |r.value| == |all|
          && (forall k :: 0 <= k < i && k < |all| ==> r.value[k] == slots[k])
          && (forall k :: i <= k < |all| ==> (SameValues(r.value[k], all[k]) <==> ChildSurvives(vd, all[k]))))
    && ((forall k :: i <= k < |all| ==> ChildSurvives(vd, all[k])) ==> r.Parsed?)
  }

  lemma NoneCame(vd: VarDesc, all: seq<State>, slots: seq<State>, end: nat)
    requires |slots| == |all| && forall k :: 0 <= k < |all| ==> SteadyChild(vd, all[k])
    ensures ChildrenCame(vd, all, slots, |all|, Parsed(slots, end), end)
  {
    hide SteadyChild, SameValues, ChildSurvives;
  }

  lemma ChildCame(vd: VarDesc, all: seq<State>, slots: seq<State>, i: nat, ch: State, r: Parse<seq<State>>, end: nat)
    requires i < |slots| == |all| && forall k :: 0 <= k < |all| ==> SteadyChild(vd, all[k])
    requires SameValues(ch, all[i]) <==> ChildSurvives(vd, all[i])
    requires ChildrenCame(vd, all, slots[i := ch], i + 1, r, end)
    ensures ChildrenCame(vd, all, slots, i, r, end)
  {
    hide SteadyChild, SameValues, ChildSurvives;
  }

  lemma ChildFailed(vd: VarDesc, all: seq<State>, slots: seq<State>, i: nat, r: Parse<seq<State>>, end: nat)
    requires i < |slots| == |all| && forall k :: 0 <= k < |all| ==> SteadyChild(vd, all[k])
    requires r.Failed? && !ChildSurvives(vd, all[i])
    ensures ChildrenCame(vd, all, slots, i, r, end)
  {
    hide SteadyChild, SameValues, ChildSurvives;
  }

  predicate ChildSurvives(vd: VarDesc, ch: State)
    requires SteadyChild(vd, ch)
  {
    StateDetermined(vd.child.value, ch)
  }

  lemma NestedBodyReadsAs(vd: VarDesc, children: seq<State>, now: UnifiedTime, data: seq<byte>, pos: nat)
    requires WellTyped(vd) && (!vd.VariableLength() ==> |children| == vd.FixedLen())
    requires if vd.VariableLength() then |children| < 0x100 else |children| < 0x1_0000_0000
    requires forall k :: 0 <= k < |children| ==>
               SteadyChild(vd, children[k]) && Shaped(children[k]) && ChildMatches(vd, children[k])
    requires At(data, pos, NestedBytes(vd, children))
    ensures var r := ReadNested(vd, FreshChildren(vd, vd.FixedLen()), now, data, pos);
            && (r.Parsed? ==> r.next == pos + |NestedBytes(vd, children)| && |r.value| == |children|)
            && (r.Parsed? ==> forall k :: 0 <= k < |children| ==>
                                (SameValues(r.value[k], children[k]) <==> ChildSurvives(vd, children[k])))
            && ((forall k :: 0 <= k < |children| ==> ChildSurvives(vd, children[k])) ==> r.Parsed?)
    decreases vd, 1, 0
  {
    hide ChildrenBytes, ReadChildren, SteadyChild, Shaped, ChildMatches, WellTyped, ChildSurvives, SameValues;
    var n := |children|;
    var size, length := SizeBytes(vd, n), LengthBytes(CountLimit(vd, n), n);
    AtSplit(data, pos, size + length, ChildrenBytes(children));
    AtSplit(data, pos, size, length);
    SizeRoundTrip(vd, n, vd.FixedLen(), data, pos);
    LengthRoundTrip(CountLimit(vd, n), n, data, pos + |size|);
    assert children[0..] == children;
    ChildrenReadAs(vd, children, FreshChildren(vd, n), 0, now, data, pos + |size| + |length|);
  }

  /** Variable::read of a nested variable, whether or not its children can be read. */
  lemma NestedVarReads(vd: VarDesc, now: UnifiedTime, data: seq<byte>, pos: nat, hint: Str, p: nat, b: byte)
    requires WellTyped(vd) && vd.ty.StateDesc?
    requires ReadHint([], data, pos) == Parsed(hint, p) && ReadU8(data, p) == Parsed(b, p + 1)
    ensures var read := ReadNested(vd, FreshChildren(vd, vd.FixedLen()), now, data, p + 1);
            ReadVar(vd, FreshCell(vd), now, data, pos)
            == if read.Parsed? then Parsed(Cell(Nested(read.value), FlagsOf(b), true, NULL_TIME, hint), read.next)
               else Failed(read.error)
  {
    hide ReadHint, ReadU8, FlagsOf, ReadFlat, ReadStamp, ReadNested, ChildMatches, WellTyped, FreshChildren;
    FreshNested(vd);
  }

  lemma NestedVarReadsAs(vd: VarDesc, c: Cell, now: UnifiedTime, data: seq<byte>, pos: nat)
    requires c.payload.Nested? && SteadyCell(vd, c) && At(data, pos, VarBytes(vd, c))
    ensures ReadsAs(vd, c, ReadVar(vd, FreshCell(vd), now, data, pos), pos + |VarBytes(vd, c)|)
    decreases vd, 2, 0
  {
    hide ReadHint, HintBytes, FlagByte, FlagsOf, NestedBytes, ReadNested, ReadVar, FreshCell, ReadU8, At, Marked,
         SteadyChild, ChildMatches, WellTyped, SameValues, StateDetermined;
    var children := c.payload.children;
    var flag := FlagByte(Marked(vd, c));
    var rest := NestedBytes(vd, children);
    var p := pos + |HintBytes(c.hint)|;
    VarParts(HintBytes(c.hint), flag, rest, data, pos);
    HintRead(c.hint, data, pos);
    NestedBodyReadsAs(vd, children, now, data, p + 1);
    NestedVarReads(vd, now, data, pos, ReadHint([], data, pos).value, p, flag);
    ChildrenSurvive(vd, c);
  }

  lemma ChildrenSurvive(vd: VarDesc, c: Cell)
    requires c.payload.Nested? && SteadyCell(vd, c)
    ensures forall k :: 0 <= k < |c.payload.children| ==> SteadyChild(vd, c.payload.children[k])
    ensures CellSurvives(vd, c) <==> forall k :: 0 <= k < |c.payload.children| ==> ChildSurvives(vd, c.payload.children[k])
  {
    hide SteadyChild, StateDetermined;
  }

  lemma VarReadsAs(vd: VarDesc, c: Cell, now: UnifiedTime, data: seq<byte>, pos: nat)
    requires SteadyCell(vd, c) && At(data, pos, VarBytes(vd, c))
    ensures ReadsAs(vd, c, ReadVar(vd, FreshCell(vd), now, data, pos), pos + |VarBytes(vd, c)|)
    decreases vd, 3, 0
  {
    hide ReadVar, VarBytes, ReadsAs, FreshCell, SteadyCell;
    match c.payload
    case Flat(_) => FlatVarReadsAs(vd, c, now, data, pos);
    case Nested(_) => NestedVarReadsAs(vd, c, now, data, pos);
  }

  // ---- the loops ----

  predicate Touched(st: State, idxs: seq<nat>, i: nat, n: nat, j: nat)
    requires st.State? && n <= |idxs| && j < |st.vars|
  {
    st.vars[j].dirty && exists m :: i <= m < n && idxs[m] == j
  }

  /** Variable j after a loop: right exactly when it survives, if the loop has come to it, else as before. */
  predicate Came(d: Desc, st: State, idxs: seq<nat>, i: nat, n: nat, before: Cell, after: Cell, j: nat)
    requires Steady(d, st) && n <= |idxs| && j < |d.vars|
  {
    if Touched(st, idxs, i, n, j) then SamePayload(after.payload, st.vars[j].payload) <==> CellSurvives(d.vars[j], st.vars[j])
    else after == before
  }

  /** Every variable that the loop comes to survives. */
  predicate AllSurvive(d: Desc, st: State, idxs: seq<nat>, i: nat, n: nat)
    requires Steady(d, st) && Indices(d.vars, idxs) && n <= |idxs|
  {
    forall m :: i <= m < n && st.vars[idxs[m]].dirty ==> CellSurvives(d.vars[idxs[m]], st.vars[idxs[m]])
  }

  predicate LoopReadsAs(d: Desc, st: State, vars: seq<Cell>, idxs: seq<nat>, i: nat, n: nat, r: Parse<seq<Cell>>, end: nat)
    requires Steady(d, st) && Indices(d.vars, idxs) && n <= |idxs| && |vars| == |d.vars|
  {
    && (r.Parsed? ==>
          && r.next == end && |r.value| == |vars|
          && forall j :: 0 <= j < |vars| ==> Came(d, st, idxs, i, n, vars[j], r.value[j], j))
    && (AllSurvive(d, st, idxs, i, n) ==> r.Parsed?)
  }

  lemma ItemReadsAs(d: Desc, st: State, idxs: seq<nat>, i: nat, useIndices: bool, now: UnifiedTime,
                    data: seq<byte>, pos: nat)
    requires Steady(d, st) && Indices(d.vars, idxs) && i < |idxs| <= |d.vars| && st.vars[idxs[i]].dirty
    requires At(data, pos, ItemBytes(st, idxs, i, useIndices))
    ensures var j := idxs[i];
            var index := if useIndices then ReadLength(|d.vars|, data, pos) else Parsed(i, pos);
            && index.Parsed? && index.value == i
            && ReadsAs(d.vars[j], st.vars[j], ReadVar(d.vars[j], FreshCell(d.vars[j]), now, data, index.next),
                       pos + |ItemBytes(st, idxs, i, useIndices)|)
    decreases d, 2, 0
  {
    hide VarBytes, ReadVar, FreshCell, SteadyCell, CellMatches, CellShaped, LengthBytes, ReadLength, ReadsAs;
    var j := idxs[i];
    var index := if useIndices then LengthBytes(|d.vars|, i) else [];
    var c := VarBytes(d.vars[j], st.vars[j]);
    assert ItemBytes(st, idxs, i, useIndices) == index + c;
    AtSplit(data, pos, index, c);
    if useIndices {
      LengthRoundTrip(|d.vars|, i, data, pos);
    }
    VarReadsAs(d.vars[j], st.vars[j], now, data, pos + |index|);
  }

  lemma ItemsReadAs(d: Desc, st: State, vars: seq<Cell>, idxs: seq<nat>, i: nat, n: nat, k: nat,
                    useIndices: bool, now: UnifiedTime, data: seq<byte>, pos: nat)
    requires Steady(d, st) && Readable(d, st) && VarsMatch(d, vars) && Indices(d.vars, idxs) && i <= n <= |idxs| <= |d.vars|
    requires forall m :: i <= m < n ==> vars[idxs[m]] == FreshCell(d.vars[idxs[m]])
    requires forall m, m' :: i <= m < m' < n ==> idxs[m] != idxs[m']
    requires !useIndices ==> k == i && forall m :: i <= m < n ==> st.vars[idxs[m]].dirty
    requires At(data, pos, ItemsBytes(st, idxs, i, n, useIndices))
    ensures LoopReadsAs(d, st, vars, idxs, i, n,
                        ReadItems(d, vars, idxs, k, k + DirtyCount(st.vars, idxs, i, n), useIndices, now, data, pos),
                        pos + |ItemsBytes(st, idxs, i, n, useIndices)|)
    decreases d, 3, n - i
  {
    hide ReadVar, FreshCell, CellMatches, ReadLength, Steady, Shaped, ItemBytes, CellSurvives, SamePayload, LoopReadsAs,
         SteadyCell, ReadItems, At, WellTyped;
    if i >= n {
      NoRound(d, vars, idxs, k, useIndices, now, data, pos);
      LoopOver(d, st, vars, idxs, i, n, pos);
    } else {
      var j := idxs[i];
      var here := |ItemBytes(st, idxs, i, useIndices)|;
      AtSplit(data, pos, ItemBytes(st, idxs, i, useIndices), ItemsBytes(st, idxs, i + 1, n, useIndices));
      if st.vars[j].dirty {
        ItemReadsAs(d, st, idxs, i, useIndices, now, data, pos);
        var index := if useIndices then ReadLength(|d.vars|, data, pos) else Parsed(i, pos);
        var r := ReadVar(d.vars[j], vars[j], now, data, index.next);
        OneRound(d, vars, idxs, k, k + DirtyCount(st.vars, idxs, i, n), useIndices, now, data, pos, index);
        if r.Parsed? {
          var rest := ReadItems(d, vars[j := r.value], idxs, k + 1, k + DirtyCount(st.vars, idxs, i, n), useIndices, now, data,
                                pos + here);
          ItemsReadAs(d, st, vars[j := r.value], idxs, i + 1, n, k + 1, useIndices, now, data, pos + here);
          LoopWent(d, st, vars, idxs, i, n, r.value, rest, pos + |ItemsBytes(st, idxs, i, n, useIndices)|);
        } else {
          LoopFailed(d, st, vars, idxs, i, n, Failed(r.error), pos + |ItemsBytes(st, idxs, i, n, useIndices)|);
        }
      } else {
        assert ItemBytes(st, idxs, i, useIndices) == [] by { CleanItem(st, idxs, i, useIndices); }
        ItemsReadAs(d, st, vars, idxs, i + 1, n, k, useIndices, now, data, pos);
        var rest := ReadItems(d, vars, idxs, k, k + DirtyCount(st.vars, idxs, i, n), useIndices, now, data, pos);
        LoopSkipped(d, st, vars, idxs, i, n, rest, pos + |ItemsBytes(st, idxs, i, n, useIndices)|);
      }
    }
  }

  lemma LoopOver(d: Desc, st: State, vars: seq<Cell>, idxs: seq<nat>, i: nat, n: nat, end: nat)
    requires Steady(d, st) && Indices(d.vars, idxs) && i >= n && n <= |idxs| && |vars| == |d.vars|
    ensures LoopReadsAs(d, st, vars, idxs, i, n, Parsed(vars, end), end)
  {
    hide Steady, CellSurvives, SamePayload;
    SteadyReadable(d, st);
  }

  /** The loop has read one more variable, right or wrong, and does not come to it again. */
  lemma LoopWent(d: Desc, st: State, vars: seq<Cell>, idxs: seq<nat>, i: nat, n: nat, c: Cell, r: Parse<seq<Cell>>, end: nat)
    requires Steady(d, st) && Indices(d.vars, idxs) && i < n <= |idxs| && |vars| == |d.vars| && st.vars[idxs[i]].dirty
    requires forall m, m' :: i <= m < m' < n ==> idxs[m] != idxs[m']
    requires SamePayload(c.payload, st.vars[idxs[i]].payload) <==> CellSurvives(d.vars[idxs[i]], st.vars[idxs[i]])
    requires LoopReadsAs(d, st, vars[idxs[i] := c], idxs, i + 1, n, r, end)
    ensures LoopReadsAs(d, st, vars, idxs, i, n, r, end)
  {
    hide Steady, CellSurvives, SamePayload;
    SteadyReadable(d, st);
    if r.Parsed? {
      forall j | 0 <= j < |vars| ensures Came(d, st, idxs, i, n, vars[j], r.value[j], j) {
        assert Came(d, st, idxs, i + 1, n, vars[idxs[i] := c][j], r.value[j], j);
      }
    }
  }

  lemma LoopFailed(d: Desc, st: State, vars: seq<Cell>, idxs: seq<nat>, i: nat, n: nat, r: Parse<seq<Cell>>, end: nat)
    requires Steady(d, st) && Indices(d.vars, idxs) && i < n <= |idxs| && |vars| == |d.vars| && st.vars[idxs[i]].dirty
    requires r.Failed? && !CellSurvives(d.vars[idxs[i]], st.vars[idxs[i]])
    ensures LoopReadsAs(d, st, vars, idxs, i, n, r, end)
  {
    hide Steady, CellSurvives, SamePayload;
  }

  lemma LoopSkipped(d: Desc, st: State, vars: seq<Cell>, idxs: seq<nat>, i: nat, n: nat, r: Parse<seq<Cell>>, end: nat)
    requires Steady(d, st) && Indices(d.vars, idxs) && i < n <= |idxs| && |vars| == |d.vars| && !st.vars[idxs[i]].dirty
    requires LoopReadsAs(d, st, vars, idxs, i + 1, n, r, end)
    ensures LoopReadsAs(d, st, vars, idxs, i, n, r, end)
  {
    hide Steady, CellSurvives, SamePayload;
    SteadyReadable(d, st);
    if r.Parsed? {
      forall j | 0 <= j < |vars| ensures Came(d, st, idxs, i, n, vars[j], r.value[j], j) {
        assert Came(d, st, idxs, i + 1, n, vars[j], r.value[j], j);
      }
    }
  }

  lemma SectionReadsAs(d: Desc, st: State, vars: seq<Cell>, idxs: seq<nat>, n: nat, now: UnifiedTime,
                       data: seq<byte>, pos: nat)
    requires Steady(d, st) && VarsMatch(d, vars) && Indices(d.vars, idxs) && n <= |idxs| <= |d.vars|
    requires forall m :: 0 <= m < n ==> vars[idxs[m]] == FreshCell(d.vars[idxs[m]])
    requires forall m, m' :: 0 <= m < m' < n ==> idxs[m] != idxs[m']
    requires At(data, pos, SectionBytes(st, idxs, DirtyCount(st.vars, idxs, 0, n), n))
    ensures LoopReadsAs(d, st, vars, idxs, 0, n, ReadSection(d, vars, idxs, now, data, pos),
                        pos + |SectionBytes(st, idxs, DirtyCount(st.vars, idxs, 0, n), n)|)
    decreases d, 4, 0
  {
    hide ItemsBytes, ReadItems, FreshCell, SteadyCell, CellMatches, CellShaped, LengthBytes, ReadLength, Came, AllSurvive;
    var count := DirtyCount(st.vars, idxs, 0, n);
    var length := LengthBytes(|d.vars|, count);
    AtSplit(data, pos, length, ItemsBytes(st, idxs, 0, n, count != |idxs|));
    LengthRoundTrip(|d.vars|, count, data, pos);
    if count == |idxs| {
      AllDirty(st.vars, idxs, 0, n);
    }
    ItemsReadAs(d, st, vars, idxs, 0, n, 0, count != |idxs|, now, data, pos + |length|);
  }

  // ---- states ----

  /** State::read, whether or not its variables can be read. */
  lemma StateReads(d: Desc, now: UnifiedTime, data: seq<byte>, pos: nat, flags: half)
    requires WellTypedDesc(d)
    requires ReadU16(data, pos) == Parsed(flags, pos + 2) && ReadU8(data, pos + 2) == Parsed(IO_VERSION, pos + 3)
    ensures var first := ReadSection(d, FreshVars(d), SimpleVars(d), now, data, pos + 3);
            var r := ReadState(d, Fresh(d), now, data, pos);
            if first.Failed? then r.Failed?
            else
              var second := ReadSection(d, first.value, NestedVars(d), now, data, first.next);
              r == if second.Parsed? then Parsed(State(d, second.value, NULL_UOID, flags), second.next)
                   else Failed(second.error)
  {
    hide ReadU16, ReadU8, ReadSection, CellMatches, Positions, WellTyped;
  }

  /** After both loops every dirty variable is right exactly when it survives, every other one is fresh. */
  lemma BothCame(d: Desc, st: State, first: seq<Cell>, second: seq<Cell>)
    requires Steady(d, st) && |first| == |second| == |d.vars|
    requires var simple := SimpleVars(d);
             forall j :: 0 <= j < |d.vars| ==> Came(d, st, simple, 0, |simple|, FreshVars(d)[j], first[j], j)
    requires var nested := NestedVars(d);
             var n := DirtyCount(st.vars, nested, 0, |nested|);
             forall j :: 0 <= j < |d.vars| ==> Came(d, st, nested, 0, n, first[j], second[j], j)
    ensures forall j :: 0 <= j < |d.vars| ==>
              if st.vars[j].dirty then SamePayload(second[j].payload, st.vars[j].payload) <==> CellSurvives(d.vars[j], st.vars[j])
              else second[j] == FreshCell(d.vars[j])
  {
    hide FreshVars, DirtyCount, Positions, FreshCell, CellMatches, Matches, WellTyped, Shaped, SteadyCell, CellSurvives, SamePayload;
    var simple, nested := SimpleVars(d), NestedVars(d);
    SteadyReadable(d, st);
    PrefixCount(st.vars, nested, 0);
    forall j | 0 <= j < |d.vars|
      ensures if st.vars[j].dirty then SamePayload(second[j].payload, st.vars[j].payload) <==> CellSurvives(d.vars[j], st.vars[j])
              else second[j] == FreshCell(d.vars[j])
    {
      if d.vars[j].ty.StateDesc? {
        assert j in nested && j !in simple;
      } else {
        assert j in simple && j !in nested;
      }
    }
  }

  lemma DeterminedSurvives(d: Desc, st: State, idxs: seq<nat>, n: nat)
    requires Steady(d, st) && Indices(d.vars, idxs) && n <= |idxs|
    ensures StateDetermined(d, st) ==> AllSurvive(d, st, idxs, 0, n)
  {
    hide CellSurvives, SamePayload, FreshCell, Steady;
  }

  lemma SteadyReadable(d: Desc, st: State)
    requires Steady(d, st)
    ensures Readable(d, st) && PrefixDirty(st.vars, NestedVars(d)) && |d.vars| < 0x1_0000_0000
  {
  }

  /** Right variables are a right state. */
  lemma SameIffDetermined(d: Desc, st: State, r: State)
    requires Steady(d, st) && r.State? && r.desc.vars == d.vars && |r.vars| == |d.vars|
    requires forall j :: 0 <= j < |d.vars| ==>
               if st.vars[j].dirty then SamePayload(r.vars[j].payload, st.vars[j].payload) <==> CellSurvives(d.vars[j], st.vars[j])
               else r.vars[j] == FreshCell(d.vars[j])
    ensures SameValues(r, st) <==> StateDetermined(d, st)
  {
    hide CellSurvives, SamePayload, FreshCell, SteadyCell, CellMatches, CellShaped, Positions, WellTyped;
  }

  /** The exact condition: a state that has been written is read back with its values if and only if it is
      determined; in any case the reader stays in step. */
  lemma StateReadsAs(d: Desc, st: State, now: UnifiedTime, data: seq<byte>, pos: nat)
    requires Steady(d, st) && At(data, pos, StateBytes(st))
    ensures var r := ReadState(d, Fresh(d), now, data, pos);
            && (r.Parsed? ==> r.next == pos + |StateBytes(st)| && r.value.State?)
            && (r.Parsed? && SameValues(r.value, st) <==> StateDetermined(d, st))
    decreases d, 5, 0
  {
    hide SectionBytes, ReadSection, ReadState, Positions, DirtyCount, FreshVars, Matches, Shaped, WellTypedDesc,
         Steady, FreshCell, CellMatches, At, PrefixDirty, Came, AllSurvive, SameValues, StateDetermined;
    SteadyReadable(d, st);
    var simple, nested := SimpleVars(d), NestedVars(d);
    var n := DirtyCount(st.vars, nested, 0, |nested|);
    var s1 := SectionBytes(st, simple, DirtyCount(st.vars, simple, 0, |simple|), |simple|);
    var s2 := SectionBytes(st, nested, n, n);
    PrefixCount(st.vars, nested, 0);
    StateParts(st.flags, s1, s2, data, pos);
    SectionReadsAs(d, st, FreshVars(d), simple, |simple|, now, data, pos + 3);
    StateReads(d, now, data, pos, st.flags);
    DeterminedSurvives(d, st, simple, |simple|);
    DeterminedSurvives(d, st, nested, n);
    var first := ReadSection(d, FreshVars(d), simple, now, data, pos + 3);
    if first.Parsed? {
      NestedStillFresh(d, st, first.value);
      SectionReadsAs(d, st, first.value, nested, n, now, data, pos + 3 + |s1|);
      var second := ReadSection(d, first.value, nested, now, data, first.next);
      if second.Parsed? {
        BothCame(d, st, first.value, second.value);
        SameIffDetermined(d, st, State(d, second.value, NULL_UOID, st.flags));
      }
    }
  }

  /** The loop over the simple variables leaves the nested ones as they were. */
  lemma NestedStillFresh(d: Desc, st: State, first: seq<Cell>)
    requires Steady(d, st) && |first| == |d.vars|
    requires var simple := SimpleVars(d);
             forall j :: 0 <= j < |d.vars| ==> Came(d, st, simple, 0, |simple|, FreshVars(d)[j], first[j], j)
    ensures var nested := NestedVars(d); forall m :: 0 <= m < |nested| ==> first[nested[m]] == FreshCell(d.vars[nested[m]])
  {
    hide FreshVars, Positions, FreshCell, CellMatches, Matches, WellTyped, Shaped, SteadyCell, CellSurvives, SamePayload;
    var simple, nested := SimpleVars(d), NestedVars(d);
    forall m | 0 <= m < |nested| ensures first[nested[m]] == FreshCell(d.vars[nested[m]]) {
      assert nested[m] !in simple;
    }
  }

  // ---- blobs ----

  lemma ReadAnyObject(d: Desc, objectKey: Uoid, now: UnifiedTime, data: seq<byte>, pos: nat)
    requires WellTypedDesc(d)
    ensures Fresh(d).State? && Blank(d, objectKey) == Fresh(d).(objectKey := objectKey)
    ensures var r, o := ReadState(d, Fresh(d), now, data, pos), ReadState(d, Blank(d, objectKey), now, data, pos);
            if r.Parsed? then o == Parsed(r.value.(objectKey := objectKey), r.next) else o.Failed?
  {
    hide ReadSection, CellMatches, FreshCell;
  }

  lemma SameForAnyObject(r: State, st: State, objectKey: Uoid)
    requires r.State?
    ensures SameValues(r.(objectKey := objectKey), st) <==> SameValues(r, st)
  {
    hide SamePayload;
  }

  /** The exact condition for FromBlob(toBlob(st)): it has the values of st, to any depth, if and only if
      they are determined; when it can be read at all, every byte is consumed. */
  lemma BlobSurvivesIff(db: Catalog, st: State, now: UnifiedTime)
    requires ValidCatalog(db) && st.State? && Shaped(st) && Found(db, st)
    requires Steady(db[(st.desc.name, st.desc.version)], st)
    ensures var blob := ToBlob(st);
            var r := FromBlob(db, now, blob);
            && (r.Parsed? ==> r.next == |blob|)
            && (r.Parsed? && SameValues(r.value, st) <==> StateDetermined(db[(st.desc.name, st.desc.version)], st))
  {
    hide ToBlob, Create, StateBytes, ReadState, Steady, StateDetermined, Shaped, Matches, FreshVars, SameValues;
    var d := db[(st.desc.name, st.desc.version)];
    var blob := ToBlob(st);
    var head := |blob| - |StateBytes(st)|;
    HeaderRoundTrip(db, st, blob);
    StateReadsAs(d, st, now, blob, head);
    ReadAnyObject(d, SavedObject(st), now, blob, head);
    var r := ReadState(d, Fresh(d), now, blob, head);
    if r.Parsed? {
      SameForAnyObject(r.value, st, SavedObject(st));
    }
  }
}
