/** The loops of State::update and Variable::copy (SDL/StateInfo.cpp:466-546, 988-1009), proved to
    compute the migrated state. None stands for MalformedData. */
module SdlUpdateLoops {
  import opened Bytes
  import opened SdlTypes
  import opened DescriptorDb
  import opened SdlUpdate

  /** Variable::copy into the fresh variable that `update` has made. */
  method CopyVar(db: DescriptorDb, vd: VarDesc, from: VarDesc, c: Cell) returns (r: Option<Cell>)
    requires db.Valid() && Linked(db.catalog) && WellTyped(vd) && CellShaped(from, c) && TrackedCell(db.catalog, c)
    ensures r == Copied(db.catalog, vd, from, c)
    decreases c, 0
  {
    hide Updated, Tracked, Shaped, Linked, WellTyped, FreshChild, ElemOf, DefaultElem;
    if vd.ty != from.ty {
      return None;
    }
    match c.payload
    case Flat(elems) =>
      var n := NewLen(vd, |elems|);
      var kept := seq(n, _ => DefaultElem(vd));
      for i := 0 to Min(n, |elems|)
        invariant |kept| == n
        invariant forall k :: 0 <= k < n ==> kept[k] == if k < i then elems[k] else DefaultElem(vd)
      {
        kept := kept[i := elems[i]];
      }
      assert kept == KeptElems(vd, elems);
      return Some(FreshCell(vd).(payload := Flat(kept)));
    case Nested(children) =>
      var n := NewLen(vd, |children|);
      var slots := FreshChildren(vd, n);
      for i := 0 to Min(n, |children|)
        invariant |slots| == n
        invariant forall k :: 0 <= k < i ==> Updated(db.catalog, children[k]) == Some(slots[k])
        invariant forall k :: i <= k < n ==> slots[k] == FreshChild(vd)
      {
        var ch := UpdateState(db, children[i]);
        if ch.None? {
          return None;
        }
        slots := slots[i := ch.value];
      }
      ghost var copied := Copied(db.catalog, vd, from, c);
      assert copied.Some? && copied.value.payload.children == slots;
      return Some(FreshCell(vd).(payload := Nested(slots)));
  }

  /** State::update */
  method UpdateState(db: DescriptorDb, st: State) returns (r: Option<State>)
    requires db.Valid() && Linked(db.catalog) && Tracked(db.catalog, st) && Shaped(st)
    ensures r == Updated(db.catalog, st)
    decreases st, 1
  {
    hide Tracked, Shaped, Linked, WellTypedDesc, WellTyped, FreshCell, Copied;
    if st.Null? {
      return Some(st);
    }
    LinkedKeyed(db.catalog, st);
    LatestTyped(db.catalog, st.desc.name, st.desc.key);
    var latest := db.FindLatest(st.desc.name);
    var d := latest.value;
    LatestUnique(db.catalog, st.desc.name, d, Latest(db.catalog, st.desc.name, st.desc.key));
    if d == st.desc {
      return Some(st);
    }
    var vars := FreshVars(d);
    ShapedVars(st);
    for i := 0 to |d.vars|
      invariant |vars| == |d.vars|
      invariant forall k :: 0 <= k < |d.vars| ==> WellTyped(d.vars[k])
      invariant forall k :: 0 <= k < i ==> Migrated(db.catalog, d.vars[k], st) == Some(vars[k])
      invariant forall k :: i <= k < |vars| ==> vars[k] == FreshCell(d.vars[k])
    {
      var j := LastNamed(st.desc.vars, d.vars[i].name);
      if j >= 0 {
        CellAt(db.catalog, st, j);
        var c := CopyVar(db, d.vars[i], st.desc.vars[j], st.vars[j]);
        if c.None? {
          return None;
        }
        vars := vars[i := c.value];
      }
    }
    assert Updated(db.catalog, st).Some? && Updated(db.catalog, st).value.vars == vars;
    return Some(State(d, vars, NULL_UOID, 0));
  }

  lemma CellAt(db: Catalog, st: State, j: nat)
    requires Tracked(db, st) && Shaped(st) && st.State? && j < |st.vars|
    ensures |st.vars| == |st.desc.vars| && CellShaped(st.desc.vars[j], st.vars[j]) && TrackedCell(db, st.vars[j])
  {
  }
}
