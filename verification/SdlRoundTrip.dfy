/** What the SDL codec preserves: reading back a well-formed state restores every dirty variable,
    leaves every other one at its default, and consumes exactly the bytes written. */
module SdlRoundTrip {
  import opened Bytes
  import opened SdlTypes
  import opened SdlElements
  import opened SdlCodec
  import opened DescriptorDb

  // ---- what the writer needs ----

  /** The write loop over the nested variables stops after as many rounds as there are dirty ones,
      so the dirty ones must come first. */
  predicate PrefixDirty(vars: seq<Cell>, idxs: seq<nat>)
    requires forall k :: 0 <= k < |idxs| ==> idxs[k] < |vars|
  {
    forall k, m :: 0 <= k < m < |idxs| && vars[idxs[m]].dirty ==> vars[idxs[k]].dirty
  }

  predicate WellFormed(d: Desc, st: State)
    decreases d, 0
  {
    && WellTypedDesc(d)
    && Matches(d, st) && Shaped(st)
    && |d.vars| < 0x1_0000_0000
    && PrefixDirty(st.vars, NestedVars(d))
    && forall i :: 0 <= i < |d.vars| && st.vars[i].dirty ==> WellFormedCell(d.vars[i], st.vars[i])
  }

  predicate WellFormedCell(vd: VarDesc, c: Cell)
    decreases vd, 1
  {
    && WellTyped(vd)
    && CellMatches(vd, c)
    && CellShaped(vd, c)
    && SafeStr(c.hint)
    && match c.payload {
      case Flat(elems) =>
        (!Marked(vd, c).sameAsDefault ==>
              && (vd.VariableLength() ==> |elems| < MAX_ELEMENTS)
              && forall k :: 0 <= k < |elems| ==> Writable(elems[k]))
      case Nested(children) =>
        && (if vd.VariableLength() then |children| < 0x100 else |children| < 0x1_0000_0000)
        && forall k :: 0 <= k < |children| ==> WellFormedChild(vd, children[k])
    }
  }

  /** Children are counted whether or not they are written, so all of them must be dirty. */
  predicate WellFormedChild(vd: VarDesc, ch: State)
    decreases vd, 0
  {
    vd.child.Some? && IsDirty(ch) && WellFormed(vd.child.value, ch)
  }

  // ---- what the reader recovers ----

  /** The element that a slot holds before it is read. */
  function Slot(vd: VarDesc): (e: Elem)
    requires WellTyped(vd)
    ensures !vd.ty.StateDesc? ==> ElemOf(vd.ty, e)
  {
    if vd.VariableLength() then ZeroElem(vd.ty) else DefaultElem(vd)
  }

  function LandedAll(vd: VarDesc, elems: seq<Elem>): (r: seq<Elem>)
    requires WellTyped(vd) && !vd.ty.StateDesc?
    requires forall k :: 0 <= k < |elems| ==> ElemOf(vd.ty, elems[k])
  {
    seq(|elems|, k requires 0 <= k < |elems| => Landed(vd.ty, Slot(vd), elems[k]))
  }

  function FreshElems(vd: VarDesc): seq<Elem>
    requires WellTyped(vd)
  {
    seq(vd.FixedLen(), _ => DefaultElem(vd))
  }

  /** The flags that a reader leaves: a timestamp that is asked for is given. */
  function StampedFlags(flags: Flags): Flags {
    if flags.hasDirtyFlag && flags.wantTimeStamp then flags.(wantTimeStamp := false, hasTimeStamp := true) else flags
  }

  /** The timestamp that a reader sees: one that is asked for is taken from the clock. */
  function SeenTime(flags: Flags, timestamp: UnifiedTime, now: UnifiedTime): UnifiedTime {
    if flags.hasDirtyFlag && flags.wantTimeStamp then now
    else if flags.hasTimeStamp then timestamp
    else NULL_TIME
  }

  function Restored(d: Desc, st: State, now: UnifiedTime): (r: State)
    requires WellTypedDesc(d) && Matches(d, st)
    ensures r.State? && r.desc == d && |r.vars| == |d.vars|
    decreases d, 0
  {
    State(d, seq(|d.vars|, i requires 0 <= i < |d.vars| => RestoredCell(d.vars[i], st.vars[i], now)), NULL_UOID, st.flags)
  }

  function RestoredCell(vd: VarDesc, c: Cell, now: UnifiedTime): Cell
    requires WellTyped(vd) && CellMatches(vd, c)
    decreases vd, 2
  {
    if c.dirty then Saved(vd, c, now) else FreshCell(vd)
  }

  function Saved(vd: VarDesc, c: Cell, now: UnifiedTime): Cell
    requires WellTyped(vd) && CellMatches(vd, c)
    decreases vd, 1
  {
    CellMatchesShaped(vd, c);
    var flags := Marked(vd, c);
    match c.payload
    case Nested(children) =>
      var restored := seq(|children|, k requires 0 <= k < |children| => RestoredChild(vd, children[k], now));
      Cell(Nested(restored), flags, true, NULL_TIME, c.hint)
    case Flat(elems) =>
      Cell(Flat(if flags.sameAsDefault then FreshElems(vd) else LandedAll(vd, elems)),
           StampedFlags(flags), true, SeenTime(flags, c.timestamp, now), c.hint)
  }

  function RestoredChild(vd: VarDesc, ch: State, now: UnifiedTime): State
    requires WellTyped(vd) && ChildMatches(vd, ch)
    decreases vd, 0
  {
    if vd.child.Some? then Restored(vd.child.value, ch, now) else Null
  }

  // ---- flat variables ----

  lemma HintRoundTrip(hint: Str, data: seq<byte>, pos: nat)
    requires SafeStr(hint) && At(data, pos, HintBytes(hint))
    ensures ReadHint([], data, pos) == Parsed(hint, pos + |HintBytes(hint)|)
  {
    if hint == [] {
      ReadU8At(data, pos, 0);
    } else {
      AtSplit(data, pos, [2, 0], SafeBytes(hint));
      AtSplit(data, pos, [2], [0]);
      assert [2, 0] == [2 as byte] + [0];
      ReadU8At(data, pos, 2);
      ReadU8At(data, pos + 1, 0);
      SafeRoundTrip(data, pos + 2, hint);
    }
  }

  lemma {:induction false} ElemsRoundTrip(ty: VarType, slots: seq<Elem>, elems: seq<Elem>, data: seq<byte>, pos: nat)
    requires |slots| == |elems|
    requires forall k :: 0 <= k < |elems| ==> ElemOf(ty, elems[k]) && Writable(elems[k]) && ElemOf(ty, slots[k])
    requires At(data, pos, ElemsBytes(ty, elems))
    ensures var r := ReadElems(ty, slots, data, pos);
            && r.Parsed? && r.next == pos + |ElemsBytes(ty, elems)|
            && forall k :: 0 <= k < |elems| ==> r.value[k] == Landed(ty, slots[k], elems[k])
    decreases |elems|
  {
    hide ElemBytes, ReadElem, Landed, ElemOf;
    if elems != [] {
      AtSplit(data, pos, ElemBytes(ty, elems[0]), ElemsBytes(ty, elems[1..]));
      ElemRoundTrip(ty, slots[0], elems[0], data, pos);
      ElemsRoundTrip(ty, slots[1..], elems[1..], data, pos + |ElemBytes(ty, elems[0])|);
    }
  }

  lemma SizeRoundTrip(vd: VarDesc, n: nat, m: nat, data: seq<byte>, pos: nat)
    requires vd.VariableLength() ==> n < MAX_ELEMENTS
    requires !vd.VariableLength() ==> m == n
    requires At(data, pos, SizeBytes(vd, n))
    ensures ReadSize(vd, m, data, pos) == Parsed(n, pos + |SizeBytes(vd, n)|)
  {
    if vd.VariableLength() {
      ReadU32At(data, pos, n);
    }
  }

  lemma FlatRoundTrip(vd: VarDesc, elems: seq<Elem>, flags: Flags, data: seq<byte>, pos: nat)
    requires WellTyped(vd) && CellMatches(vd, Cell(Flat(elems), flags, false, NULL_TIME, [])) && !flags.sameAsDefault
    requires vd.VariableLength() ==> |elems| < MAX_ELEMENTS
    requires forall k :: 0 <= k < |elems| ==> Writable(elems[k])
    requires At(data, pos, SizeBytes(vd, |elems|) + ElemsBytes(vd.ty, elems))
    ensures ReadFlat(vd, FreshElems(vd), flags, data, pos)
         == Parsed(LandedAll(vd, elems), pos + |SizeBytes(vd, |elems|)| + |ElemsBytes(vd.ty, elems)|)
  {
    hide ElemsBytes, ReadElems, Writable, Landed;
    var n := |elems|;
    AtSplit(data, pos, SizeBytes(vd, n), ElemsBytes(vd.ty, elems));
    SizeRoundTrip(vd, n, |FreshElems(vd)|, data, pos);
    var p := pos + |SizeBytes(vd, n)|;
    var slots := if vd.VariableLength() then ZeroElems(vd.ty, n) else FreshElems(vd);
    ElemsRoundTrip(vd.ty, slots, elems, data, p);
    assert ReadElems(vd.ty, slots, data, p).value == LandedAll(vd, elems);
  }

  lemma StampRoundTrip(flags: Flags, timestamp: UnifiedTime, now: UnifiedTime, data: seq<byte>, pos: nat)
    requires flags.hasTimeStamp ==> At(data, pos, TimeBytes(timestamp))
    ensures ReadStamp(flags, NULL_TIME, now, data, pos)
         == Parsed((StampedFlags(flags), SeenTime(flags, timestamp, now)), pos + if flags.hasTimeStamp then 8 else 0)
  {
    if flags.hasTimeStamp {
      TimeRoundTrip(timestamp, data, pos);
    }
  }

  // ---- whole variables and states ----

  lemma VarParts(hint: seq<byte>, flag: byte, rest: seq<byte>, data: seq<byte>, pos: nat)
    requires At(data, pos, hint + [flag] + rest)
    ensures At(data, pos, hint) && At(data, pos + |hint| + 1, rest)
    ensures ReadU8(data, pos + |hint|) == Parsed(flag, pos + |hint| + 1)
  {
    AtSplit(data, pos, hint + [flag], rest);
    AtSplit(data, pos, hint, [flag]);
    ReadU8At(data, pos + |hint|, flag);
  }

  /** What follows the flag byte of a flat variable. */
  lemma FlatBodyRoundTrip(vd: VarDesc, elems: seq<Elem>, flags: Flags, timestamp: UnifiedTime, now: UnifiedTime,
                          data: seq<byte>, pos: nat)
    requires WellTyped(vd) && CellMatches(vd, Cell(Flat(elems), flags, false, NULL_TIME, []))
    requires !flags.sameAsDefault ==> (vd.VariableLength() ==> |elems| < MAX_ELEMENTS)
                                      && forall k :: 0 <= k < |elems| ==> Writable(elems[k])
    requires At(data, pos, FlatBytes(vd, elems, flags, timestamp))
    ensures var p := pos + if flags.hasTimeStamp then 8 else 0;
            && ReadStamp(flags, NULL_TIME, now, data, pos)
               == Parsed((StampedFlags(flags), SeenTime(flags, timestamp, now)), p)
            && ReadFlat(vd, FreshElems(vd), StampedFlags(flags), data, p)
               == Parsed(if flags.sameAsDefault then FreshElems(vd) else LandedAll(vd, elems),
                         pos + |FlatBytes(vd, elems, flags, timestamp)|)
  {
    hide ElemsBytes, ReadElems, Writable, Landed, LandedAll, SizeBytes, ReadSize, ReadStamp, At, WellTyped;
    var stamp := if flags.hasTimeStamp then TimeBytes(timestamp) else [];
    var value := if flags.sameAsDefault then [] else SizeBytes(vd, |elems|) + ElemsBytes(vd.ty, elems);
    AtSplit(data, pos, stamp, value);
    StampRoundTrip(flags, timestamp, now, data, pos);
    if !flags.sameAsDefault {
      FlatRoundTrip(vd, elems, StampedFlags(flags), data, pos + |stamp|);
    }
  }

  lemma FreshFlat(vd: VarDesc)
    requires WellTyped(vd) && !vd.ty.StateDesc?
    ensures FreshCell(vd) == Cell(Flat(FreshElems(vd)), NO_FLAGS.(sameAsDefault := true), false, NULL_TIME, [])
  {
  }

  /** Variable::read of a flat variable, step by step. */
  lemma FlatVarRead(vd: VarDesc, slot: Cell, now: UnifiedTime, data: seq<byte>, pos: nat,
                    hint: Str, p: nat, b: byte, flags: Flags, timestamp: UnifiedTime, q: nat, elems: seq<Elem>, next: nat)
    requires WellTyped(vd) && CellMatches(vd, slot) && slot.payload.Flat?
    requires ReadHint(slot.hint, data, pos) == Parsed(hint, p) && ReadU8(data, p) == Parsed(b, p + 1)
    requires ReadStamp(FlagsOf(b), slot.timestamp, now, data, p + 1) == Parsed((flags, timestamp), q)
    requires ReadFlat(vd, slot.payload.elems, flags, data, q) == Parsed(elems, next)
    ensures ReadVar(vd, slot, now, data, pos) == Parsed(Cell(Flat(elems), flags, true, timestamp, hint), next)
  {
    hide ReadHint, ReadU8, ReadStamp, FlagsOf, ReadFlat, ReadNested, CellMatches, WellTyped;
  }

  lemma FlatVarRoundTrip(vd: VarDesc, c: Cell, now: UnifiedTime, data: seq<byte>, pos: nat)
    requires c.dirty && c.payload.Flat? && WellFormedCell(vd, c) && At(data, pos, VarBytes(vd, c))
    ensures ReadVar(vd, FreshCell(vd), now, data, pos) == Parsed(Saved(vd, c, now), pos + |VarBytes(vd, c)|)
  {
    hide ReadHint, HintBytes, FlagByte, FlagsOf, FlatBytes, ReadStamp, ReadFlat, ReadVar, FreshCell, FreshElems,
         LandedAll, Writable, ReadU8, At, Marked;
    var flags := Marked(vd, c);
    var elems := c.payload.elems;
    var rest := FlatBytes(vd, elems, flags, c.timestamp);
    var p := pos + |HintBytes(c.hint)|;
    VarParts(HintBytes(c.hint), FlagByte(flags), rest, data, pos);
    HintRoundTrip(c.hint, data, pos);
    FlagsRoundTrip(flags);
    FreshFlat(vd);
    MarkedKeeps(vd, c);
    FlatBodyRoundTrip(vd, elems, flags, c.timestamp, now, data, p + 1);
    FlatVarRead(vd, FreshCell(vd), now, data, pos, c.hint, p, FlagByte(flags), StampedFlags(flags),
                SeenTime(flags, c.timestamp, now), p + 1 + (if flags.hasTimeStamp then 8 else 0),
                if flags.sameAsDefault then FreshElems(vd) else LandedAll(vd, elems), p + 1 + |rest|);
  }

  lemma MarkedKeeps(vd: VarDesc, c: Cell)
    requires CellShaped(vd, c)
    ensures Marked(vd, c) == c.flags.(sameAsDefault := Marked(vd, c).sameAsDefault)
  {
  }

  // ---- nested variables and states ----

  lemma {:induction false} ChildrenRoundTrip(vd: VarDesc, all: seq<State>, slots: seq<State>, i: nat,
                                             now: UnifiedTime, data: seq<byte>, pos: nat)
    requires WellTyped(vd) && |slots| == |all| && i <= |all|
    requires forall k :: 0 <= k < |all| ==> WellFormedChild(vd, all[k]) && Shaped(all[k]) && ChildMatches(vd, all[k])
    requires forall k :: 0 <= k < |slots| ==> ChildMatches(vd, slots[k])
    requires forall k :: i <= k < |slots| ==> slots[k] == FreshChild(vd)
    requires At(data, pos, ChildrenBytes(all[i..]))
    ensures var r := ReadChildren(vd, slots, i, |all|, false, CountLimit(vd, |all|), now, data, pos);
            && r.Parsed? && r.next == pos + |ChildrenBytes(all[i..])| && |r.value| == |all|
            && (forall k :: 0 <= k < i ==> r.value[k] == slots[k])
            && (forall k :: i <= k < |all| ==> r.value[k] == RestoredChild(vd, all[k], now))
    decreases vd, 0, |all| - i
  {
    hide StateBytes, ReadState, Restored, Fresh, Matches, Shaped, WellFormed, At, WellTypedDesc;
    if i < |all| {
      var ch := all[i];
      var d := vd.child.value;
      assert WellFormedChild(vd, ch);
      assert all[i..][0] == ch && all[i..][1..] == all[i + 1..];
      assert ChildMatches(vd, slots[i]) && slots[i] == Fresh(d);
      AtSplit(data, pos, StateBytes(ch), ChildrenBytes(all[i + 1..]));
      StateRoundTrip(d, ch, now, data, pos);
      var next := slots[i := Restored(d, ch, now)];
      assert ReadState(d, slots[i], now, data, pos).Parsed?;
      assert ChildMatches(vd, next[i]);
      ChildrenRoundTrip(vd, all, next, i + 1, now, data, pos + |StateBytes(ch)|);
    }
  }

  /** What follows the flag byte of a nested variable. */
  lemma NestedBodyRoundTrip(vd: VarDesc, children: seq<State>, now: UnifiedTime, data: seq<byte>, pos: nat)
    requires WellTyped(vd) && (!vd.VariableLength() ==> |children| == vd.FixedLen())
    requires if vd.VariableLength() then |children| < 0x100 else |children| < 0x1_0000_0000
    requires forall k :: 0 <= k < |children| ==>
               WellFormedChild(vd, children[k]) && Shaped(children[k]) && ChildMatches(vd, children[k])
    requires At(data, pos, NestedBytes(vd, children))
    ensures var r := ReadNested(vd, FreshChildren(vd, vd.FixedLen()), now, data, pos);
            && r.Parsed? && r.next == pos + |NestedBytes(vd, children)| && |r.value| == |children|
            && forall k :: 0 <= k < |children| ==> r.value[k] == RestoredChild(vd, children[k], now)
    decreases vd, 1, 0
  {
    hide ChildrenBytes, ReadChildren, RestoredChild, WellFormedChild, Shaped, ChildMatches, WellTyped;
    var n := |children|;
    var size, length := SizeBytes(vd, n), LengthBytes(CountLimit(vd, n), n);
    AtSplit(data, pos, size + length, ChildrenBytes(children));
    AtSplit(data, pos, size, length);
    SizeRoundTrip(vd, n, vd.FixedLen(), data, pos);
    LengthRoundTrip(CountLimit(vd, n), n, data, pos + |size|);
    assert children[0..] == children;
    ChildrenRoundTrip(vd, children, FreshChildren(vd, n), 0, now, data, pos + |size| + |length|);
  }

  lemma FreshNested(vd: VarDesc)
    requires WellTyped(vd) && vd.ty.StateDesc?
    ensures FreshCell(vd)
         == Cell(Nested(FreshChildren(vd, vd.FixedLen())), NO_FLAGS.(sameAsDefault := true), false, NULL_TIME, [])
  {
  }

  /** Variable::read of a nested variable, step by step. */
  lemma NestedVarRead(vd: VarDesc, slot: Cell, now: UnifiedTime, data: seq<byte>, pos: nat,
                      hint: Str, p: nat, b: byte, children: seq<State>, next: nat)
    requires WellTyped(vd) && CellMatches(vd, slot) && slot.payload.Nested?
    requires ReadHint(slot.hint, data, pos) == Parsed(hint, p) && ReadU8(data, p) == Parsed(b, p + 1)
    requires (!vd.VariableLength() ==> |slot.payload.children| == vd.FixedLen())
             && forall k :: 0 <= k < |slot.payload.children| ==> ChildMatches(vd, slot.payload.children[k])
    requires ReadNested(vd, slot.payload.children, now, data, p + 1) == Parsed(children, next)
    ensures ReadVar(vd, slot, now, data, pos)
         == Parsed(Cell(Nested(children), FlagsOf(b), true, slot.timestamp, hint), next)
  {
    hide ReadHint, ReadU8, FlagsOf, ReadFlat, ReadStamp, ReadNested, CellMatches, ChildMatches, WellTyped;
  }

  lemma NestedVarRoundTrip(vd: VarDesc, c: Cell, now: UnifiedTime, data: seq<byte>, pos: nat)
    requires c.dirty && c.payload.Nested? && WellFormedCell(vd, c) && At(data, pos, VarBytes(vd, c))
    ensures ReadVar(vd, FreshCell(vd), now, data, pos) == Parsed(Saved(vd, c, now), pos + |VarBytes(vd, c)|)
    decreases vd, 2, 0
  {
    hide ReadHint, HintBytes, FlagByte, FlagsOf, NestedBytes, ReadNested, ReadVar, FreshCell, ReadU8, At, Marked,
         RestoredChild, WellFormedChild, ChildMatches, WellTyped;
    var flags := Marked(vd, c);
    var children := c.payload.children;
    var rest := NestedBytes(vd, children);
    var p := pos + |HintBytes(c.hint)|;
    VarParts(HintBytes(c.hint), FlagByte(flags), rest, data, pos);
    HintRoundTrip(c.hint, data, pos);
    FlagsRoundTrip(flags);
    FreshNested(vd);
    NestedBodyRoundTrip(vd, children, now, data, p + 1);
    var initial := FreshChildren(vd, vd.FixedLen());
    var restored := ReadNested(vd, initial, now, data, p + 1).value;
    assert restored == Saved(vd, c, now).payload.children;
    NestedVarRead(vd, FreshCell(vd), now, data, pos, c.hint, p, FlagByte(flags), restored, p + 1 + |rest|);
  }

  /** Reading a dirty variable where it was written restores it. */
  lemma VarRoundTrip(vd: VarDesc, c: Cell, now: UnifiedTime, data: seq<byte>, pos: nat)
    requires c.dirty && WellFormedCell(vd, c) && At(data, pos, VarBytes(vd, c))
    ensures ReadVar(vd, FreshCell(vd), now, data, pos) == Parsed(Saved(vd, c, now), pos + |VarBytes(vd, c)|)
    decreases vd, 3, 0
  {
    match c.payload
    case Flat(_) => FlatVarRoundTrip(vd, c, now, data, pos);
    case Nested(_) => NestedVarRoundTrip(vd, c, now, data, pos);
  }

  // ---- the write loops against the read loops ----

  /** The variables after the loop over idxs[i..n] has been read back into vars. */
  function Target(d: Desc, st: State, vars: seq<Cell>, idxs: seq<nat>, i: nat, n: nat, now: UnifiedTime): (r: seq<Cell>)
    requires WellTypedDesc(d) && Matches(d, st) && |vars| == |d.vars| && Indices(d.vars, idxs) && n <= |idxs|
    ensures |r| == |vars|
    decreases n - i
  {
    if i >= n then vars
    else
      var j := idxs[i];
      Target(d, st, if st.vars[j].dirty then vars[j := Saved(d.vars[j], st.vars[j], now)] else vars, idxs, i + 1, n, now)
  }

  lemma {:induction false} TargetAt(d: Desc, st: State, vars: seq<Cell>, idxs: seq<nat>, i: nat, n: nat, j: nat, now: UnifiedTime)
    requires WellTypedDesc(d) && Matches(d, st) && |vars| == |d.vars| && Indices(d.vars, idxs) && n <= |idxs| && j < |d.vars|
    ensures Target(d, st, vars, idxs, i, n, now)[j]
         == if st.vars[j].dirty && (exists k :: i <= k < n && idxs[k] == j) then Saved(d.vars[j], st.vars[j], now) else vars[j]
    decreases n - i
  {
    hide Saved, CellMatches;
    if i < n {
      var m := idxs[i];
      var vars' := if st.vars[m].dirty then vars[m := Saved(d.vars[m], st.vars[m], now)] else vars;
      TargetAt(d, st, vars', idxs, i + 1, n, j, now);
    }
  }

  /** One dirty variable: its index when there is one, then the variable itself. */
  lemma ItemRoundTrip(d: Desc, st: State, idxs: seq<nat>, i: nat, useIndices: bool, now: UnifiedTime,
                      data: seq<byte>, pos: nat)
    requires WellFormed(d, st) && Indices(d.vars, idxs) && i < |idxs| <= |d.vars| && st.vars[idxs[i]].dirty
    requires At(data, pos, ItemBytes(st, idxs, i, useIndices))
    ensures var j := idxs[i];
            var index := if useIndices then ReadLength(|d.vars|, data, pos) else Parsed(i, pos);
            && index.Parsed? && index.value == i
            && ReadVar(d.vars[j], FreshCell(d.vars[j]), now, data, index.next)
               == Parsed(Saved(d.vars[j], st.vars[j], now), pos + |ItemBytes(st, idxs, i, useIndices)|)
    decreases d, 2, 0
  {
    hide VarBytes, ReadVar, FreshCell, Saved, WellFormedCell, CellMatches, CellShaped, LengthBytes, ReadLength;
    var j := idxs[i];
    var index := if useIndices then LengthBytes(|d.vars|, i) else [];
    var c := VarBytes(d.vars[j], st.vars[j]);
    assert ItemBytes(st, idxs, i, useIndices) == index + c;
    AtSplit(data, pos, index, c);
    if useIndices {
      LengthRoundTrip(|d.vars|, i, data, pos);
    }
    VarRoundTrip(d.vars[j], st.vars[j], now, data, pos + |index|);
  }

  predicate Readable(d: Desc, st: State) {
    && WellTypedDesc(d) && Matches(d, st) && Shaped(st)
    && st.State? && st.desc.vars == d.vars && |st.vars| == |d.vars|
  }

  lemma CleanItem(st: State, idxs: seq<nat>, i: nat, useIndices: bool)
    requires st.State? && Shaped(st) && Indices(st.desc.vars, idxs) && i < |idxs| && !st.vars[idxs[i]].dirty
    ensures ItemBytes(st, idxs, i, useIndices) == []
  {
  }

  /** One round of the read loop. */
  lemma OneRound(d: Desc, vars: seq<Cell>, idxs: seq<nat>, k: nat, count: nat, useIndices: bool, now: UnifiedTime,
                 data: seq<byte>, pos: nat, index: Parse<nat>)
    requires WellTypedDesc(d) && VarsMatch(d, vars) && Indices(d.vars, idxs) && k < count
    requires index == if useIndices then ReadLength(|d.vars|, data, pos) else Parsed(k, pos)
    requires index.Parsed? && index.value < |idxs|
    ensures var j := idxs[index.value];
            var r := ReadVar(d.vars[j], vars[j], now, data, index.next);
            && (r.Parsed? ==> VarsMatch(d, vars[j := r.value]))
            && ReadItems(d, vars, idxs, k, count, useIndices, now, data, pos)
               == if r.Parsed? then ReadItems(d, vars[j := r.value], idxs, k + 1, count, useIndices, now, data, r.next)
                  else Failed(r.error)
  {
    hide ReadVar, ReadLength, CellMatches;
  }

  lemma NoRound(d: Desc, vars: seq<Cell>, idxs: seq<nat>, k: nat, useIndices: bool, now: UnifiedTime,
                data: seq<byte>, pos: nat)
    requires WellTypedDesc(d) && VarsMatch(d, vars) && Indices(d.vars, idxs)
    ensures ReadItems(d, vars, idxs, k, k, useIndices, now, data, pos) == Parsed(vars, pos)
  {
  }

  /** The loop that reads idxs[i..n] back. Without indices every variable must be dirty. */
  lemma {:induction false} ItemsRoundTrip(d: Desc, st: State, vars: seq<Cell>, idxs: seq<nat>, i: nat, n: nat, k: nat,
                                          useIndices: bool, now: UnifiedTime, data: seq<byte>, pos: nat)
    requires WellFormed(d, st) && Readable(d, st) && VarsMatch(d, vars) && Indices(d.vars, idxs) && i <= n <= |idxs| <= |d.vars|
    requires forall m :: i <= m < n ==> vars[idxs[m]] == FreshCell(d.vars[idxs[m]])
    requires forall m, m' :: i <= m < m' < n ==> idxs[m] != idxs[m']
    requires !useIndices ==> k == i && forall m :: i <= m < n ==> st.vars[idxs[m]].dirty
    requires At(data, pos, ItemsBytes(st, idxs, i, n, useIndices))
    ensures ReadItems(d, vars, idxs, k, k + DirtyCount(st.vars, idxs, i, n), useIndices, now, data, pos)
         == Parsed(Target(d, st, vars, idxs, i, n, now), pos + |ItemsBytes(st, idxs, i, n, useIndices)|)
    decreases d, 3, n - i
  {
    hide ReadVar, FreshCell, Saved, CellMatches, ReadLength, WellFormed, Shaped, ItemBytes, At, WellTyped, ReadItems;
    if i >= n {
      NoRound(d, vars, idxs, k, useIndices, now, data, pos);
    } else {
      var j := idxs[i];
      var here := |ItemBytes(st, idxs, i, useIndices)|;
      AtSplit(data, pos, ItemBytes(st, idxs, i, useIndices), ItemsBytes(st, idxs, i + 1, n, useIndices));
      if st.vars[j].dirty {
        ItemRoundTrip(d, st, idxs, i, useIndices, now, data, pos);
        var index := if useIndices then ReadLength(|d.vars|, data, pos) else Parsed(i, pos);
        OneRound(d, vars, idxs, k, k + DirtyCount(st.vars, idxs, i, n), useIndices, now, data, pos, index);
        var vars' := vars[j := Saved(d.vars[j], st.vars[j], now)];
        ItemsRoundTrip(d, st, vars', idxs, i + 1, n, k + 1, useIndices, now, data, pos + here);
      } else {
        assert ItemBytes(st, idxs, i, useIndices) == [] by { CleanItem(st, idxs, i, useIndices); }
        ItemsRoundTrip(d, st, vars, idxs, i + 1, n, k, useIndices, now, data, pos);
      }
    }
  }

  /** A section: the count, then the loop. Only the first n variables can be dirty. */
  lemma SectionRoundTrip(d: Desc, st: State, vars: seq<Cell>, idxs: seq<nat>, n: nat, now: UnifiedTime,
                         data: seq<byte>, pos: nat)
    requires WellFormed(d, st) && VarsMatch(d, vars) && Indices(d.vars, idxs) && n <= |idxs| <= |d.vars|
    requires forall m :: 0 <= m < n ==> vars[idxs[m]] == FreshCell(d.vars[idxs[m]])
    requires forall m, m' :: 0 <= m < m' < n ==> idxs[m] != idxs[m']
    requires At(data, pos, SectionBytes(st, idxs, DirtyCount(st.vars, idxs, 0, n), n))
    ensures ReadSection(d, vars, idxs, now, data, pos)
         == Parsed(Target(d, st, vars, idxs, 0, n, now),
                   pos + |SectionBytes(st, idxs, DirtyCount(st.vars, idxs, 0, n), n)|)
    decreases d, 4, 0
  {
    hide ItemsBytes, ReadItems, FreshCell, WellFormedCell, CellMatches, CellShaped, LengthBytes, ReadLength, Target;
    var count := DirtyCount(st.vars, idxs, 0, n);
    var length := LengthBytes(|d.vars|, count);
    AtSplit(data, pos, length, ItemsBytes(st, idxs, 0, n, count != |idxs|));
    LengthRoundTrip(|d.vars|, count, data, pos);
    if count == |idxs| {
      AllDirty(st.vars, idxs, 0, n);
    }
    ItemsRoundTrip(d, st, vars, idxs, 0, n, 0, count != |idxs|, now, data, pos + |length|);
  }

  lemma {:induction false} AllDirty(vars: seq<Cell>, idxs: seq<nat>, i: nat, n: nat)
    requires i <= n <= |idxs| && forall k :: 0 <= k < |idxs| ==> idxs[k] < |vars|
    requires DirtyCount(vars, idxs, i, n) == n - i
    ensures forall k :: i <= k < n ==> vars[idxs[k]].dirty
    decreases n - i
  {
    if i < n {
      AllDirty(vars, idxs, i + 1, n);
    }
  }

  /** When the dirty variables come first, the first `count` of them are exactly the dirty ones. */
  lemma {:induction false} PrefixCount(vars: seq<Cell>, idxs: seq<nat>, i: nat)
    requires i <= |idxs| && (forall k :: 0 <= k < |idxs| ==> idxs[k] < |vars|) && PrefixDirty(vars, idxs)
    ensures var n := i + DirtyCount(vars, idxs, i, |idxs|);
            && n <= |idxs|
            && DirtyCount(vars, idxs, i, n) == n - i
            && (forall k :: i <= k < n ==> vars[idxs[k]].dirty)
            && (forall k :: n <= k < |idxs| ==> !vars[idxs[k]].dirty)
    decreases |idxs| - i
  {
    if i < |idxs| {
      PrefixCount(vars, idxs, i + 1);
      if !vars[idxs[i]].dirty {
        assert forall k :: i + 1 <= k < |idxs| ==> !vars[idxs[k]].dirty;
      }
    }
  }

  /** After both sections every dirty variable is restored and every other one untouched. */
  lemma TargetsRestore(d: Desc, st: State, now: UnifiedTime)
    requires Readable(d, st) && PrefixDirty(st.vars, NestedVars(d))
    ensures var simple, nested := SimpleVars(d), NestedVars(d);
            Target(d, st, Target(d, st, FreshVars(d), simple, 0, |simple|, now), nested, 0, DirtyCount(st.vars, nested, 0, |nested|), now)
            == Restored(d, st, now).vars
  {
    hide FreshVars, Target, DirtyCount, Positions, Saved, FreshCell, CellMatches, Matches, WellTyped, Shaped;
    var simple, nested := SimpleVars(d), NestedVars(d);
    var n := DirtyCount(st.vars, nested, 0, |nested|);
    PrefixCount(st.vars, nested, 0);
    var first := Target(d, st, FreshVars(d), simple, 0, |simple|, now);
    var second := Target(d, st, first, nested, 0, n, now);
    forall j | 0 <= j < |d.vars| ensures second[j] == Restored(d, st, now).vars[j] {
      TargetAt(d, st, FreshVars(d), simple, 0, |simple|, j, now);
      TargetAt(d, st, first, nested, 0, n, j, now);
      if d.vars[j].ty.StateDesc? {
        assert j in nested && j !in simple;
      } else {
        assert j in simple && j !in nested;
      }
    }
  }

  /** The exact condition on nested variables: the write loop writes every variable that it counted
      if and only if the dirty ones come first. */
  lemma CountedAreWrittenIffPrefix(vars: seq<Cell>, idxs: seq<nat>)
    requires forall k :: 0 <= k < |idxs| ==> idxs[k] < |vars|
    ensures var count := DirtyCount(vars, idxs, 0, |idxs|);
            DirtyCount(vars, idxs, 0, count) == count <==> PrefixDirty(vars, idxs)
  {
    var count := DirtyCount(vars, idxs, 0, |idxs|);
    DirtyCountSplit(vars, idxs, 0, count, |idxs|);
    if PrefixDirty(vars, idxs) {
      PrefixCount(vars, idxs, 0);
    }
    if DirtyCount(vars, idxs, 0, count) == count {
      AllDirty(vars, idxs, 0, count);
      NoneDirty(vars, idxs, count, |idxs|);
    }
  }

  /** How many children of a nested variable are written. */
  function WrittenChildren(children: seq<State>): (n: nat)
    ensures n <= |children|
  {
    if children == [] then 0 else (if IsDirty(children[0]) then 1 else 0) + WrittenChildren(children[1..])
  }

  /** The exact condition on children: as many are written as are counted if and only if all are dirty. */
  lemma {:induction false} CountedChildrenAreWrittenIff(children: seq<State>)
    ensures WrittenChildren(children) == |children| <==> forall k :: 0 <= k < |children| ==> IsDirty(children[k])
    decreases |children|
  {
    hide IsDirty;
    if children != [] {
      CountedChildrenAreWrittenIff(children[1..]);
      assert forall k :: 0 < k < |children| ==> children[k] == children[1..][k - 1];
    }
  }

  lemma {:induction false} DirtyCountSplit(vars: seq<Cell>, idxs: seq<nat>, i: nat, m: nat, n: nat)
    requires i <= m <= n <= |idxs| && forall k :: 0 <= k < |idxs| ==> idxs[k] < |vars|
    ensures DirtyCount(vars, idxs, i, n) == DirtyCount(vars, idxs, i, m) + DirtyCount(vars, idxs, m, n)
    decreases m - i
  {
    if i < m {
      DirtyCountSplit(vars, idxs, i + 1, m, n);
    }
  }

  lemma {:induction false} NoneDirty(vars: seq<Cell>, idxs: seq<nat>, i: nat, n: nat)
    requires i <= n <= |idxs| && forall k :: 0 <= k < |idxs| ==> idxs[k] < |vars|
    requires DirtyCount(vars, idxs, i, n) == 0
    ensures forall k :: i <= k < n ==> !vars[idxs[k]].dirty
    decreases n - i
  {
    if i < n {
      NoneDirty(vars, idxs, i + 1, n);
    }
  }

  lemma WellFormedReadable(d: Desc, st: State)
    requires WellFormed(d, st)
    ensures Readable(d, st) && PrefixDirty(st.vars, NestedVars(d)) && |d.vars| < 0x1_0000_0000
  {
  }

  lemma StateParts(flags: half, s1: seq<byte>, s2: seq<byte>, data: seq<byte>, pos: nat)
    requires At(data, pos, Le16(flags) + [IO_VERSION] + s1 + s2)
    ensures ReadU16(data, pos) == Parsed(flags, pos + 2) && ReadU8(data, pos + 2) == Parsed(IO_VERSION, pos + 3)
    ensures At(data, pos + 3, s1) && At(data, pos + 3 + |s1|, s2)
  {
    var head := Le16(flags) + [IO_VERSION];
    AtSplit(data, pos, head + s1, s2);
    AtSplit(data, pos, head, s1);
    AtSplit(data, pos, Le16(flags), [IO_VERSION]);
    ReadU16At(data, pos, flags);
    ReadU8At(data, pos + 2, IO_VERSION);
  }

  /** State::read, step by step. */
  lemma StateRead(d: Desc, slot: State, now: UnifiedTime, data: seq<byte>, pos: nat,
                  flags: half, first: seq<Cell>, p: nat, second: seq<Cell>, next: nat)
    requires WellTypedDesc(d) && Matches(d, slot) && slot.State? && VarsMatch(d, slot.vars) && VarsMatch(d, first)
    requires ReadU16(data, pos) == Parsed(flags, pos + 2) && ReadU8(data, pos + 2) == Parsed(IO_VERSION, pos + 3)
    requires ReadSection(d, slot.vars, SimpleVars(d), now, data, pos + 3) == Parsed(first, p)
    requires ReadSection(d, first, NestedVars(d), now, data, p) == Parsed(second, next)
    ensures ReadState(d, slot, now, data, pos) == Parsed(State(slot.desc, second, slot.objectKey, flags), next)
  {
    hide ReadU16, ReadU8, ReadSection, Matches, VarsMatch, WellTypedDesc, Positions;
  }

  /** Reading a well-formed state where it was written restores it. */
  lemma StateRoundTrip(d: Desc, st: State, now: UnifiedTime, data: seq<byte>, pos: nat)
    requires WellFormed(d, st) && At(data, pos, StateBytes(st))
    ensures ReadState(d, Fresh(d), now, data, pos) == Parsed(Restored(d, st, now), pos + |StateBytes(st)|)
    decreases d, 5, 0
  {
    hide SectionBytes, ReadSection, ReadState, Target, Positions, DirtyCount, FreshVars, Matches, Shaped, WellTypedDesc,
         WellFormed, FreshCell, CellMatches, At, PrefixDirty;
    WellFormedReadable(d, st);
    var simple, nested := SimpleVars(d), NestedVars(d);
    var n := DirtyCount(st.vars, nested, 0, |nested|);
    var s1 := SectionBytes(st, simple, DirtyCount(st.vars, simple, 0, |simple|), |simple|);
    var s2 := SectionBytes(st, nested, n, n);
    StateParts(st.flags, s1, s2, data, pos);
    SectionRoundTrip(d, st, FreshVars(d), simple, |simple|, now, data, pos + 3);
    var first := ReadSection(d, FreshVars(d), simple, now, data, pos + 3).value;
    PrefixCount(st.vars, nested, 0);
    SimpleKeepsNested(d, st, now);
    SectionRoundTrip(d, st, first, nested, n, now, data, pos + 3 + |s1|);
    TargetsRestore(d, st, now);
    StateRead(d, Fresh(d), now, data, pos, st.flags, first, pos + 3 + |s1|, Restored(d, st, now).vars, pos + 3 + |s1| + |s2|);
  }

  /** Restoring the simple variables leaves the nested ones as they were. */
  lemma SimpleKeepsNested(d: Desc, st: State, now: UnifiedTime)
    requires Readable(d, st)
    ensures var simple, nested := SimpleVars(d), NestedVars(d);
            forall m :: 0 <= m < |nested| ==>
              Target(d, st, FreshVars(d), simple, 0, |simple|, now)[nested[m]] == FreshCell(d.vars[nested[m]])
  {
    hide FreshVars, Target, Positions, Saved, FreshCell, CellMatches, Matches, WellTyped, Shaped;
    var simple, nested := SimpleVars(d), NestedVars(d);
    forall m | 0 <= m < |nested|
      ensures Target(d, st, FreshVars(d), simple, 0, |simple|, now)[nested[m]] == FreshCell(d.vars[nested[m]])
    {
      TargetAt(d, st, FreshVars(d), simple, 0, |simple|, nested[m], now);
    }
  }

  // ---- blobs ----

  const HEADER: half := 0x8000
  const HEADER_VOLATILE: half := 0x8001

  /** State::toBlob */
  function ToBlob(st: State): seq<byte>
    requires Shaped(st)
  {
    if st.Null? then []
    else if st.objectKey.IsNull() then
      Le16(HEADER) + SafeBytes(st.desc.name) + Le16(st.desc.version % 0x1_0000) + StateBytes(st)
    else
      Le16(HEADER_VOLATILE) + SafeBytes(st.desc.name) + Le16(st.desc.version % 0x1_0000)
      + UoidBytes(st.objectKey) + StateBytes(st)
  }

  /** A fresh state that belongs to an object. */
  function Blank(d: Desc, objectKey: Uoid): (st: State)
    requires WellTypedDesc(d)
    ensures st.State? && st.desc == d && Matches(d, st)
  {
    State(d, FreshVars(d), objectKey, 0)
  }

  /** State::Create: a state of the named descriptor, null when there is none. */
  function Create(db: Catalog, data: seq<byte>, pos: nat): (r: Parse<State>)
    requires ValidCatalog(db)
    ensures r.Parsed? && r.value.State? ==>
              r.value.desc in db.Values && Matches(r.value.desc, r.value) && WellTypedDesc(r.value.desc)
  {
    var (flags, p0) :- ReadU16(data, pos);
    if flags < 0x8000 then Failed(Malformed)
    else
      var (name, p1) :- ReadSafe(data, p0);
      var (version, p2) :- ReadU16(data, p1);
      var key := (name, Signed(version, 0x1_0000));
      if key !in db then Parsed(Null, p2)
      else if flags % 2 == 1 then
        var (objectKey, p3) :- ReadUoid(data, p2);
        Parsed(Blank(db[key], objectKey), p3)
      else Parsed(Blank(db[key], NULL_UOID), p2)
  }

  /** State::FromBlob: bytes left over are only warned about. */
  function FromBlob(db: Catalog, now: UnifiedTime, data: seq<byte>): Parse<State>
    requires ValidCatalog(db)
  {
    if data == [] then Parsed(Null, 0)
    else
      var (st, p) :- Create(db, data, 0);
      if st.Null? then Parsed(st, p) else ReadState(st.desc, st, now, data, p)
  }

  /** The descriptor of st is found again under the name and version that st is written with. */
  predicate Found(db: Catalog, st: State)
    requires st.State?
  {
    var key := (st.desc.name, st.desc.version);
    && SafeStr(st.desc.name) && -0x8000 <= st.desc.version < 0x8000 && SafeStr(st.objectKey.name)
    && key in db && db[key].vars == st.desc.vars
  }

  // ---- the main theorem ----

  /** The value of a flat variable is determined by its encoding. A variable flagged as default is not
      written at all; any other needs elements that can be written, fewer than 10000 of them in a
      variable-length array, and the alpha of an RGB colour, which is not written, as the slot has it. */
  predicate Determined(vd: VarDesc, c: Cell)
    requires WellTyped(vd) && CellMatches(vd, c) && CellShaped(vd, c) && c.payload.Flat?
  {
    if Marked(vd, c).sameAsDefault then c.payload == Flat(FreshElems(vd))
    else
      && (vd.VariableLength() ==> |c.payload.elems| < MAX_ELEMENTS)
      && forall k :: 0 <= k < |c.payload.elems| ==> Survives(vd.ty, Slot(vd), c.payload.elems[k])
  }

  /** An element that comes back from its encoding. */
  predicate Survives(ty: VarType, slot: Elem, e: Elem)
    requires ElemOf(ty, slot) && ElemOf(ty, e)
  {
    Writable(e) && AlphaOf(ty, e) == AlphaOf(ty, slot)
  }

  /** The part of an element that is kept in memory only. */
  function AlphaOf(ty: VarType, e: Elem): int
    requires ElemOf(ty, e)
  {
    if ty.Rgb? then e.ws[3] else if ty.Rgb8? then e.bs[3] else 0
  }

  lemma LandedIff(ty: VarType, slot: Elem, e: Elem)
    requires ElemOf(ty, slot) && ElemOf(ty, e) && (ty.Creatable? ==> slot == ObjectElem(None))
    ensures Landed(ty, slot, e) == e <==> AlphaOf(ty, e) == AlphaOf(ty, slot)
  {
    if AlphaOf(ty, e) == AlphaOf(ty, slot) {
      LandedSame(ty, slot, e);
    }
  }

  /** A determined value is what the reader of a well-formed variable sees. */
  lemma DeterminedIsSaved(vd: VarDesc, c: Cell, now: UnifiedTime)
    requires WellTyped(vd) && CellMatches(vd, c) && CellShaped(vd, c) && c.payload.Flat? && Determined(vd, c)
    ensures Saved(vd, c, now).payload == c.payload
  {
    hide Writable;
    var elems := c.payload.elems;
    if !Marked(vd, c).sameAsDefault {
      forall k | 0 <= k < |elems| ensures LandedAll(vd, elems)[k] == elems[k] {
        LandedIff(vd.ty, Slot(vd), elems[k]);
      }
      assert LandedAll(vd, elems) == elems;
    }
  }

  predicate AllDetermined(d: Desc, st: State)
    requires WellFormed(d, st)
    decreases d, 0
  {
    forall i :: 0 <= i < |d.vars| && st.vars[i].dirty ==> CellDetermined(d.vars[i], st.vars[i])
  }

  predicate CellDetermined(vd: VarDesc, c: Cell)
    requires WellFormedCell(vd, c)
    decreases vd, 1
  {
    match c.payload
    case Flat(_) => Determined(vd, c)
    case Nested(children) =>
      forall k :: 0 <= k < |children| ==> WellFormedChild(vd, children[k]) && AllDetermined(vd.child.value, children[k])
  }

  /** r is what a reader must see of st at the time now: every dirty variable with its value, its hint, its
      saved flags and, when flat and stamped, its timestamp; a flat one that asks for a timestamp has the
      clock's and asks no more; every other variable is at its default. */
  predicate Restores(d: Desc, st: State, r: State, now: UnifiedTime)
    requires WellFormed(d, st)
    decreases d, 0
  {
    && r.State? && r.desc == d && r.flags == st.flags && |r.vars| == |d.vars|
    && forall i :: 0 <= i < |d.vars| ==>
         if st.vars[i].dirty then CellRestores(d.vars[i], st.vars[i], r.vars[i], now)
         else r.vars[i] == FreshCell(d.vars[i])
  }

  predicate CellRestores(vd: VarDesc, c: Cell, r: Cell, now: UnifiedTime)
    requires WellFormedCell(vd, c)
    decreases vd, 1
  {
    var flags := Marked(vd, c);
    && r.dirty && r.hint == c.hint
    && match c.payload {
      case Flat(_) =>
        && r.payload == c.payload
        && (if flags.hasDirtyFlag && flags.wantTimeStamp then
              r.flags == flags.(wantTimeStamp := false, hasTimeStamp := true) && r.timestamp == now
            else
              r.flags == flags && (flags.hasTimeStamp ==> r.timestamp == c.timestamp))
      case Nested(children) =>
        && r.flags == flags && r.payload.Nested? && |r.payload.children| == |children|
        && forall k :: 0 <= k < |children| ==>
             WellFormedChild(vd, children[k]) && Restores(vd.child.value, children[k], r.payload.children[k], now)
    }
  }

  lemma {:induction false} RestoredRestores(d: Desc, st: State, now: UnifiedTime)
    requires WellFormed(d, st) && AllDetermined(d, st)
    ensures Restores(d, st, Restored(d, st, now), now)
    decreases d, 0
  {
    hide WellFormedCell, CellDetermined, CellRestores, CellMatches, Saved, FreshCell, Shaped;
    forall i | 0 <= i < |d.vars| && st.vars[i].dirty
      ensures CellRestores(d.vars[i], st.vars[i], Saved(d.vars[i], st.vars[i], now), now)
    {
      SavedRestores(d.vars[i], st.vars[i], now);
    }
  }

  lemma {:induction false} SavedRestores(vd: VarDesc, c: Cell, now: UnifiedTime)
    requires WellFormedCell(vd, c) && CellDetermined(vd, c)
    ensures CellRestores(vd, c, Saved(vd, c, now), now)
    decreases vd, 1
  {
    hide WellFormed, AllDetermined, Restores, Restored, Matches, Shaped, WellTypedDesc, Marked, IsDirty;
    match c.payload
    case Flat(_) => DeterminedIsSaved(vd, c, now);
    case Nested(children) =>
      forall k | 0 <= k < |children|
        ensures WellFormedChild(vd, children[k]) && Restores(vd.child.value, children[k], RestoredChild(vd, children[k], now), now)
      {
        assert WellFormedChild(vd, children[k]);
        RestoredRestores(vd.child.value, children[k], now);
      }
  }

  lemma ReadStateKeepsObject(d: Desc, slot: State, objectKey: Uoid, now: UnifiedTime, data: seq<byte>, pos: nat)
    requires WellTypedDesc(d) && Matches(d, slot) && ReadState(d, slot, now, data, pos).Parsed?
    ensures Matches(d, slot.(objectKey := objectKey))
    ensures var r := ReadState(d, slot, now, data, pos);
            ReadState(d, slot.(objectKey := objectKey), now, data, pos)
            == Parsed(r.value.(objectKey := objectKey), r.next)
  {
    hide ReadSection, CellMatches;
  }

  /** Only a non-null object key is written. */
  function SavedObject(st: State): Uoid
    requires st.State?
  {
    if st.objectKey.IsNull() then NULL_UOID else st.objectKey
  }

  /** State::Create, step by step. */
  lemma CreateRead(db: Catalog, data: seq<byte>, flags: half, name: Str, p: nat, version: int, d: Desc, objectKey: Uoid, q: nat)
    requires ValidCatalog(db) && (name, version) in db && db[(name, version)] == d && WellTypedDesc(d)
    requires flags >= 0x8000 && -0x8000 <= version < 0x8000
    requires ReadU16(data, 0) == Parsed(flags, 2) && ReadSafe(data, 2) == Parsed(name, p)
    requires ReadU16(data, p) == Parsed(version % 0x1_0000, p + 2)
    requires if flags % 2 == 1 then ReadUoid(data, p + 2) == Parsed(objectKey, q) else objectKey == NULL_UOID && q == p + 2
    ensures Create(db, data, 0) == Parsed(Blank(d, objectKey), q)
  {
    hide ReadU16, ReadSafe, ReadUoid, Blank;
    assert Signed(version % 0x1_0000, 0x1_0000) == version;
  }

  lemma HeaderParts(st: State, flags: half, key: seq<byte>, data: seq<byte>)
    requires st.State? && Shaped(st)
    requires data == Le16(flags) + SafeBytes(st.desc.name) + Le16(st.desc.version % 0x1_0000) + key + StateBytes(st)
    ensures var p := 2 + |SafeBytes(st.desc.name)|;
            && ReadU16(data, 0) == Parsed(flags, 2) && At(data, 2, SafeBytes(st.desc.name))
            && ReadU16(data, p) == Parsed(st.desc.version % 0x1_0000, p + 2) && At(data, p + 2, key)
            && At(data, p + 2 + |key|, StateBytes(st)) && |data| == p + 2 + |key| + |StateBytes(st)|
  {
    hide StateBytes, SafeBytes, Shaped;
    var name := SafeBytes(st.desc.name);
    var version := Le16(st.desc.version % 0x1_0000);
    var front := Le16(flags) + name + version;
    assert data[0..|data|] == data;
    AtSplit(data, 0, front + key, StateBytes(st));
    AtSplit(data, 0, front, key);
    AtSplit(data, 0, Le16(flags) + name, version);
    AtSplit(data, 0, Le16(flags), name);
    ReadU16At(data, 0, flags);
    ReadU16At(data, 2 + |name|, st.desc.version % 0x1_0000);
  }

  lemma StateBytesNonempty(st: State)
    requires st.State? && Shaped(st)
    ensures |StateBytes(st)| > 0
  {
    hide SectionBytes, Positions, DirtyCount;
  }

  lemma HeaderRoundTrip(db: Catalog, st: State, data: seq<byte>)
    requires ValidCatalog(db) && st.State? && Shaped(st) && Found(db, st)
    requires data == ToBlob(st)
    ensures var head := |data| - |StateBytes(st)|;
            && 0 < head < |data| && At(data, head, StateBytes(st))
            && Create(db, data, 0)
               == Parsed(Blank(db[(st.desc.name, st.desc.version)], SavedObject(st)), head)
  {
    hide StateBytes, SafeBytes, ReadSafe, UoidBytes, ReadUoid, Blank, Shaped, SafeStr, Create, ReadU16, At;
    var d := db[(st.desc.name, st.desc.version)];
    var p := 2 + |SafeBytes(st.desc.name)|;
    assert |StateBytes(st)| > 0 by { StateBytesNonempty(st); }
    if st.objectKey.IsNull() {
      assert data == Le16(HEADER) + SafeBytes(st.desc.name) + Le16(st.desc.version % 0x1_0000) + [] + StateBytes(st);
      HeaderParts(st, HEADER, [], data);
      SafeRoundTrip(data, 2, st.desc.name);
      CreateRead(db, data, HEADER, st.desc.name, p, st.desc.version, d, NULL_UOID, p + 2);
    } else {
      var key := UoidBytes(st.objectKey);
      HeaderParts(st, HEADER_VOLATILE, key, data);
      SafeRoundTrip(data, 2, st.desc.name);
      UoidRoundTrip(data, p + 2, st.objectKey);
      CreateRead(db, data, HEADER_VOLATILE, st.desc.name, p, st.desc.version, d, st.objectKey, p + 2 + |key|);
    }
  }

  lemma RestoresAnyObject(d: Desc, st: State, r: State, objectKey: Uoid, now: UnifiedTime)
    requires WellFormed(d, st) && Restores(d, st, r, now)
    ensures Restores(d, st, r.(objectKey := objectKey), now)
  {
    hide WellFormed, CellRestores, FreshCell;
  }

  /** The blob of a well-formed state parses to exactly what its variables determine. */
  lemma BlobRestored(db: Catalog, st: State, now: UnifiedTime)
    requires ValidCatalog(db) && st.State? && Shaped(st) && Found(db, st)
    requires WellFormed(db[(st.desc.name, st.desc.version)], st)
    ensures var d := db[(st.desc.name, st.desc.version)];
            && Matches(d, st) && WellTypedDesc(d)
            && FromBlob(db, now, ToBlob(st)) == Parsed(Restored(d, st, now).(objectKey := SavedObject(st)), |ToBlob(st)|)
  {
    hide ToBlob, Create, StateBytes, ReadState, WellFormed, Shaped, Matches, FreshVars;
    var d := db[(st.desc.name, st.desc.version)];
    var blob := ToBlob(st);
    var head := |blob| - |StateBytes(st)|;
    WellFormedReadable(d, st);
    HeaderRoundTrip(db, st, blob);
    StateRoundTrip(d, st, now, blob, head);
    ReadStateKeepsObject(d, Fresh(d), SavedObject(st), now, blob, head);
  }

  /** FromBlob(toBlob(st)) consumes exactly the bytes written and restores st. */
  lemma BlobRoundTrip(db: Catalog, st: State, now: UnifiedTime)
    requires ValidCatalog(db) && st.State? && Shaped(st) && Found(db, st)
    requires var d := db[(st.desc.name, st.desc.version)]; WellFormed(d, st) && AllDetermined(d, st)
    ensures var blob := ToBlob(st);
            var r := FromBlob(db, now, blob);
            && r.Parsed? && r.next == |blob|
            && Restores(db[(st.desc.name, st.desc.version)], st, r.value, now)
            && r.value.objectKey == SavedObject(st)
  {
    hide ToBlob, FromBlob, WellFormed, AllDetermined, Shaped, Matches;
    var d := db[(st.desc.name, st.desc.version)];
    BlobRestored(db, st, now);
    RestoredRestores(d, st, now);
    RestoresAnyObject(d, st, Restored(d, st, now), SavedObject(st), now);
  }
}
