/** Writing a variable that is at its default also sets e_SameAsDefault in its cell, which other states
    may share (SDL/StateInfo.cpp:430-432). No later blob shows it. */
module SdlMarks {
  import opened SdlTypes
  import opened SdlCodec

  /** st' is st after some of its cells, at any depth, have been written. */
  predicate MarkedAs(st: State, st': State)
    requires Shaped(st)
    decreases st
  {
    (st.Null? && st'.Null?)
    || (&& st.State? && st'.State?
        && st'.desc == st.desc && st'.objectKey == st.objectKey && st'.flags == st.flags && |st'.vars| == |st.vars|
        && forall i :: 0 <= i < |st.vars| ==> CellMarkedAs(st.desc.vars[i], st.vars[i], st'.vars[i]))
  }

  predicate CellMarkedAs(vd: VarDesc, c: Cell, c': Cell)
    requires CellShaped(vd, c)
    decreases c
  {
    && (c'.flags == c.flags || c'.flags == Marked(vd, c))
    && c'.dirty == c.dirty && c'.timestamp == c.timestamp && c'.hint == c.hint
    && match c.payload {
      case Flat(_) => c'.payload == c.payload
      case Nested(children) =>
        && c'.payload.Nested? && |c'.payload.children| == |children|
        && forall k :: 0 <= k < |children| ==> MarkedAs(children[k], c'.payload.children[k])
    }
  }

  lemma {:induction false} MarksShaped(st: State, st': State)
    requires Shaped(st) && MarkedAs(st, st')
    ensures Shaped(st') && (IsDefault(st') <==> IsDefault(st)) && (IsDirty(st') <==> IsDirty(st))
    decreases st
  {
    hide CellMarkedAs, CellShaped, IsDefaultCell;
    if st.State? {
      forall i | 0 <= i < |st.vars|
        ensures CellShaped(st.desc.vars[i], st'.vars[i]) && st'.vars[i].dirty == st.vars[i].dirty
        ensures IsDefaultCell(st.desc.vars[i], st'.vars[i]) <==> IsDefaultCell(st.desc.vars[i], st.vars[i])
      {
        CellMarksShaped(st.desc.vars[i], st.vars[i], st'.vars[i]);
      }
    }
  }

  lemma {:induction false} CellMarksShaped(vd: VarDesc, c: Cell, c': Cell)
    requires CellShaped(vd, c) && CellMarkedAs(vd, c, c')
    ensures CellShaped(vd, c') && c'.dirty == c.dirty
    ensures IsDefaultCell(vd, c') <==> IsDefaultCell(vd, c)
    ensures Marked(vd, c') == Marked(vd, c)
    decreases c
  {
    hide MarkedAs, Shaped, IsDefault, ElemOf;
    if c.payload.Nested? {
      var children := c.payload.children;
      forall k | 0 <= k < |children|
        ensures Shaped(c'.payload.children[k])
        ensures IsDefault(c'.payload.children[k]) <==> IsDefault(children[k])
      {
        MarksShaped(children[k], c'.payload.children[k]);
      }
    }
  }

  lemma {:induction false} ChildrenUnseen(children: seq<State>, children': seq<State>)
    requires |children| == |children'|
    requires forall k :: 0 <= k < |children| ==>
               Shaped(children[k]) && Shaped(children'[k]) && MarkedAs(children[k], children'[k])
    ensures ChildrenBytes(children') == ChildrenBytes(children)
    decreases children, 0
  {
    hide StateBytes, MarkedAs, Shaped;
    if children != [] {
      MarksShaped(children[0], children'[0]);
      if IsDirty(children[0]) {
        MarksUnseen(children[0], children'[0]);
      }
      ChildrenUnseen(children[1..], children'[1..]);
    }
  }

  lemma {:induction false} CellMarksUnseen(vd: VarDesc, c: Cell, c': Cell)
    requires CellShaped(vd, c) && CellMarkedAs(vd, c, c')
    ensures CellShaped(vd, c') && VarBytes(vd, c') == VarBytes(vd, c)
    decreases c, 0
  {
    hide MarkedAs, Shaped, Marked, ElemOf, HintBytes, FlagByte, FlatBytes, ChildrenBytes, LengthBytes;
    CellMarksShaped(vd, c, c');
    if c.payload.Nested? {
      var children, children' := c.payload.children, c'.payload.children;
      ChildrenUnseen(children, children');
    }
  }

  lemma {:induction false} ItemsUnseen(st: State, st': State, idxs: seq<nat>, i: nat, n: nat, useIndices: bool)
    requires st.State? && Shaped(st) && Shaped(st') && MarkedAs(st, st') && Indices(st.desc.vars, idxs) && n <= |idxs|
    ensures ItemsBytes(st', idxs, i, n, useIndices) == ItemsBytes(st, idxs, i, n, useIndices)
    ensures |st.vars| == |st'.vars| == |st.desc.vars| && DirtyCount(st'.vars, idxs, i, n) == DirtyCount(st.vars, idxs, i, n)
    decreases st, 0, n - i
  {
    hide CellMarkedAs, CellShaped, VarBytes, LengthBytes;
    if i < n {
      var v := idxs[i];
      CellMarksShaped(st.desc.vars[v], st.vars[v], st'.vars[v]);
      CellMarksUnseen(st.desc.vars[v], st.vars[v], st'.vars[v]);
      ItemsUnseen(st, st', idxs, i + 1, n, useIndices);
    }
  }

  /** A state is written alike before and after its cells have been marked. */
  lemma {:induction false} MarksUnseen(st: State, st': State)
    requires st.State? && Shaped(st) && MarkedAs(st, st')
    ensures st'.State? && Shaped(st') && StateBytes(st') == StateBytes(st)
    decreases st, 1
  {
    hide CellMarkedAs, CellShaped, ItemsBytes, DirtyCount, Positions, LengthBytes;
    MarksShaped(st, st');
    var simple, nested := SimpleVars(st.desc), NestedVars(st.desc);
    ItemsUnseen(st, st', simple, 0, |simple|, DirtyCount(st.vars, simple, 0, |simple|) != |simple|);
    var n := DirtyCount(st.vars, nested, 0, |nested|);
    ItemsUnseen(st, st', nested, 0, |nested|, true);
    ItemsUnseen(st, st', nested, 0, n, n != |nested|);
  }
}
