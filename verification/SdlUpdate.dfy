/** Schema migration: State::update and Variable::copy (SDL/StateInfo.cpp:466-546, 988-1009). */
module SdlUpdate {
  import opened Bytes
  import opened SdlTypes
  import opened SdlElements
  import opened SdlCodec
  import opened DescriptorDb
  import opened SdlRoundTrip

  // ---- the catalog during an update ----

  predicate ChildLinked(db: Catalog, vd: VarDesc) {
    vd.child == if vd.ty.StateDesc? && (vd.typeName, CACHED) in db then Some(db[(vd.typeName, CACHED)]) else None
  }

  /** The nested descriptors of the catalog are its own cached copies: FindDescriptor(typeName, -1). */
  predicate Linked(db: Catalog) {
    && ValidCatalog(db) && Keyed(db)
    && forall k, i :: k in db && 0 <= i < |db[k].vars| ==> ChildLinked(db, db[k].vars[i])
  }

  /** st was built on descriptors of the catalog, to any depth. */
  predicate Tracked(db: Catalog, st: State)
    decreases st
  {
    st.State? ==>
    && (st.desc.name, st.desc.key) in db && db[(st.desc.name, st.desc.key)] == st.desc
    && forall i, k :: 0 <= i < |st.vars| && st.vars[i].payload.Nested? && 0 <= k < |st.vars[i].payload.children| ==>
         Tracked(db, st.vars[i].payload.children[k])
  }

  lemma {:induction false} HighestKey(versions: set<int>)
    requires exists v :: v in versions
    ensures exists v :: v in versions && forall w :: w in versions ==> w <= v
    decreases |versions|
  {
    var v :| v in versions;
    if w :| w in versions - {v} {
      HighestKey(versions - {v});
      var u :| u in versions - {v} && forall w :: w in versions - {v} ==> w <= u;
      assert forall w :: w in versions ==> w == v || w in versions - {v};
      assert if u >= v then forall w :: w in versions ==> w <= u else forall w :: w in versions ==> w <= v;
    } else {
      assert forall w :: w in versions ==> w == v || w in versions - {v};
    }
  }

  lemma LatestExists(db: Catalog, name: Str, version: int)
    requires Keyed(db) && (name, version) in db
    ensures exists d :: IsLatest(db, name, d)
  {
    var versions := set k | k in db && k.0 == name :: k.1;
    assert version in versions by { assert (name, version) in db; }
    HighestKey(versions);
    var v :| v in versions && forall w :: w in versions ==> w <= v;
    assert forall w: int :: (name, w) in db ==> w in versions;
    assert IsLatest(db, name, db[(name, v)]);
  }

  ghost function Latest(db: Catalog, name: Str, version: int): (d: Desc)
    requires Keyed(db) && (name, version) in db
    ensures IsLatest(db, name, d)
  {
    LatestExists(db, name, version);
    var d :| IsLatest(db, name, d);
    d
  }

  lemma LatestTyped(db: Catalog, name: Str, version: int)
    requires Linked(db) && (name, version) in db
    ensures Keyed(db) && WellTypedDesc(Latest(db, name, version))
  {
    var d := Latest(db, name, version);
    assert db[(name, d.key)] == d;
  }

  // ---- the migrated state ----

  /** m_varmap: the last variable of that name; -1 when there is none. */
  function LastNamed(vars: seq<VarDesc>, name: Str): (i: int)
    ensures -1 <= i < |vars|
    ensures i >= 0 ==> vars[i].name == name
    ensures forall k :: i < k < |vars| ==> vars[k].name != name
  {
    if vars == [] then -1
    else if vars[|vars| - 1].name == name then |vars| - 1 else LastNamed(vars[..|vars| - 1], name)
  }

  /** The length of the migrated array. */
  function NewLen(vd: VarDesc, old_len: nat): nat {
    if vd.VariableLength() then old_len else vd.FixedLen()
  }

  ghost function Updated(db: Catalog, st: State): (r: Option<State>)
    requires Linked(db) && Tracked(db, st) && Shaped(st)
    decreases st, 1
  {
    if st.Null? then Some(st)
    else
      var d := Latest(db, st.desc.name, st.desc.key);
      if d == st.desc then Some(st)
      else if forall i :: 0 <= i < |d.vars| ==> Migrated(db, d.vars[i], st).Some? then
        Some(State(d, seq(|d.vars|, i requires 0 <= i < |d.vars| => Migrated(db, d.vars[i], st).value), NULL_UOID, 0))
      else None
  }

  ghost function Migrated(db: Catalog, vd: VarDesc, st: State): (r: Option<Cell>)
    requires Linked(db) && Tracked(db, st) && Shaped(st) && st.State? && WellTyped(vd)
    decreases st, 0
  {
    var j := LastNamed(st.desc.vars, vd.name);
    if j < 0 then Some(FreshCell(vd)) else Copied(db, vd, st.desc.vars[j], st.vars[j])
  }

  predicate TrackedCell(db: Catalog, c: Cell) {
    c.payload.Nested? ==> forall k :: 0 <= k < |c.payload.children| ==> Tracked(db, c.payload.children[k])
  }

  /** Variable::copy into a fresh variable; None when the types differ. */
  ghost function Copied(db: Catalog, vd: VarDesc, from: VarDesc, c: Cell): (r: Option<Cell>)
    requires Linked(db) && WellTyped(vd) && CellShaped(from, c) && TrackedCell(db, c)
    decreases c, 0
  {
    if vd.ty != from.ty then None
    else match c.payload
      case Flat(elems) =>
        Some(FreshCell(vd).(payload := Flat(KeptElems(vd, elems))))
      case Nested(children) =>
        var n := NewLen(vd, |children|);
        var kept := Min(n, |children|);
        if forall k :: 0 <= k < kept ==> Updated(db, children[k]).Some? then
          var migrated := seq(n, k requires 0 <= k < n =>
            if k < kept then Updated(db, children[k]).value else FreshChild(vd));
          Some(FreshCell(vd).(payload := Nested(migrated)))
        else None
  }

  function KeptElems(vd: VarDesc, elems: seq<Elem>): (r: seq<Elem>)
    requires WellTyped(vd)
    ensures |r| == NewLen(vd, |elems|)
    ensures forall k :: 0 <= k < |r| ==> r[k] == if k < |elems| then elems[k] else DefaultElem(vd)
  {
    var n := NewLen(vd, |elems|);
    seq(n, k requires 0 <= k < n => if k < |elems| then elems[k] else DefaultElem(vd))
  }

  // ---- when it succeeds ----

  /** Every variable that is kept has kept its type, to any depth. */
  ghost predicate Compatible(db: Catalog, st: State)
    requires Linked(db) && Tracked(db, st) && Shaped(st)
    decreases st, 1
  {
    st.State? ==>
      var d := Latest(db, st.desc.name, st.desc.key);
      d != st.desc ==>
        forall i :: 0 <= i < |d.vars| && LastNamed(st.desc.vars, d.vars[i].name) >= 0 ==>
          var j := LastNamed(st.desc.vars, d.vars[i].name);
          CompatibleCell(db, d.vars[i], st.desc.vars[j], st.vars[j])
  }

  ghost predicate CompatibleCell(db: Catalog, vd: VarDesc, from: VarDesc, c: Cell)
    requires Linked(db) && CellShaped(from, c) && TrackedCell(db, c)
    decreases c, 0
  {
    && vd.ty == from.ty
    && (c.payload.Nested? ==>
          forall k :: 0 <= k < Min(NewLen(vd, |c.payload.children|), |c.payload.children|) ==>
            Compatible(db, c.payload.children[k]))
  }

  /** MalformedData is thrown if and only if a kept variable changes its type. */
  lemma {:induction false} UpdatedIffCompatible(db: Catalog, st: State)
    requires Linked(db) && Tracked(db, st) && Shaped(st)
    ensures Updated(db, st).Some? <==> Compatible(db, st)
    decreases st, 1
  {
    hide Copied, CompatibleCell, CellShaped, FreshCell, WellTyped, Linked, LastNamed;
    if st.State? {
      LatestTyped(db, st.desc.name, st.desc.key);
      var d := Latest(db, st.desc.name, st.desc.key);
      forall i | 0 <= i < |d.vars| && LastNamed(st.desc.vars, d.vars[i].name) >= 0
        ensures WellTyped(d.vars[i])
        ensures var j := LastNamed(st.desc.vars, d.vars[i].name);
                Migrated(db, d.vars[i], st).Some? <==> CompatibleCell(db, d.vars[i], st.desc.vars[j], st.vars[j])
      {
        var j := LastNamed(st.desc.vars, d.vars[i].name);
        CopiedIffCompatible(db, d.vars[i], st.desc.vars[j], st.vars[j]);
      }
    }
  }

  lemma {:induction false} CopiedIffCompatible(db: Catalog, vd: VarDesc, from: VarDesc, c: Cell)
    requires Linked(db) && WellTyped(vd) && CellShaped(from, c) && TrackedCell(db, c)
    ensures Copied(db, vd, from, c).Some? <==> CompatibleCell(db, vd, from, c)
    decreases c, 0
  {
    hide Updated, Compatible, Shaped, Tracked, Linked, WellTyped;
    if c.payload.Nested? {
      var children := c.payload.children;
      forall k | 0 <= k < |children| ensures Updated(db, children[k]).Some? <==> Compatible(db, children[k]) {
        UpdatedIffCompatible(db, children[k]);
      }
    }
  }

  // ---- where it lands ----

  /** The result is a state of the newest descriptor, built on the catalog. */
  lemma {:induction false} UpdateLands(db: Catalog, st: State)
    requires Linked(db) && Tracked(db, st) && Shaped(st) && Updated(db, st).Some?
    ensures var r := Updated(db, st).value;
            && Shaped(r) && Tracked(db, r) && (r.Null? <==> st.Null?)
            && (r.State? ==> r.desc.name == st.desc.name && IsLatest(db, r.desc.name, r.desc))
    decreases st, 1
  {
    hide Copied, CellShaped, FreshCell, WellTyped, LastNamed, Linked;
    if st.State? {
      LatestTyped(db, st.desc.name, st.desc.key);
      var d := Latest(db, st.desc.name, st.desc.key);
      if d != st.desc {
        LinkedAt(db, (d.name, d.key));
        var r := Updated(db, st).value;
        forall i | 0 <= i < |d.vars| ensures CellShaped(d.vars[i], r.vars[i]) && TrackedCell(db, r.vars[i]) {
          var j := LastNamed(st.desc.vars, d.vars[i].name);
          if j < 0 {
            FreshLands(db, d.vars[i]);
          } else {
            assert Migrated(db, d.vars[i], st).Some?;
            CopyLands(db, d.vars[i], st.desc.vars[j], st.vars[j]);
          }
        }
        assert Tracked(db, r);
      }
    }
  }

  lemma LinkedAt(db: Catalog, k: (Str, int))
    requires Linked(db) && k in db
    ensures forall i :: 0 <= i < |db[k].vars| ==> ChildLinked(db, db[k].vars[i])
  {
  }

  lemma ChildInCatalog(db: Catalog, vd: VarDesc)
    requires Linked(db) && ChildLinked(db, vd) && vd.child.Some?
    ensures var d := vd.child.value; (d.name, d.key) in db && db[(d.name, d.key)] == d && WellTypedDesc(d)
  {
    assert (vd.typeName, CACHED) in db;
  }

  lemma {:induction false} FreshChildLands(db: Catalog, vd: VarDesc)
    requires Linked(db) && ChildLinked(db, vd) && WellTyped(vd)
    ensures Shaped(FreshChild(vd)) && Tracked(db, FreshChild(vd))
    decreases vd, 0
  {
    hide Linked, Fresh, Matches, WellTypedDesc, WellTyped;
    if vd.child.Some? {
      ChildInCatalog(db, vd);
      FreshStateLands(db, vd.child.value);
      MatchesShaped(vd.child.value, Fresh(vd.child.value));
    }
  }

  lemma {:induction false} FreshLands(db: Catalog, vd: VarDesc)
    requires Linked(db) && ChildLinked(db, vd) && WellTyped(vd)
    ensures CellShaped(vd, FreshCell(vd)) && TrackedCell(db, FreshCell(vd))
    decreases vd, 1
  {
    hide Tracked, Linked, FreshChild, Shaped, WellTyped, CellMatches;
    CellMatchesShaped(vd, FreshCell(vd));
    FreshChildLands(db, vd);
  }

  lemma {:induction false} FreshStateLands(db: Catalog, d: Desc)
    requires Linked(db) && (d.name, d.key) in db && db[(d.name, d.key)] == d && WellTypedDesc(d)
    ensures Tracked(db, Fresh(d))
    decreases d
  {
    hide Linked, FreshCell, WellTyped, CellMatches, Matches;
    LinkedAt(db, (d.name, d.key));
    forall i | 0 <= i < |d.vars| ensures TrackedCell(db, FreshVars(d)[i]) {
      FreshLands(db, d.vars[i]);
    }
  }

  lemma {:induction false} CopyLands(db: Catalog, vd: VarDesc, from: VarDesc, c: Cell)
    requires Linked(db) && ChildLinked(db, vd) && WellTyped(vd) && CellShaped(from, c) && TrackedCell(db, c)
    requires Copied(db, vd, from, c).Some?
    ensures CellShaped(vd, Copied(db, vd, from, c).value) && TrackedCell(db, Copied(db, vd, from, c).value)
    decreases c, 0
  {
    hide Updated, Tracked, Linked, Shaped, WellTyped, FreshChild, FreshChildren, ElemOf;
    match c.payload
    case Flat(elems) =>
    case Nested(children) =>
      FreshChildLands(db, vd);
      var copied := Copied(db, vd, from, c);
      forall k | 0 <= k < Min(NewLen(vd, |children|), |children|)
        ensures Shaped(Updated(db, children[k]).value) && Tracked(db, Updated(db, children[k]).value)
      {
        UpdateLands(db, children[k]);
      }
  }

  /** A second update changes nothing. */
  lemma UpdateTwice(db: Catalog, st: State)
    requires Linked(db) && Tracked(db, st) && Shaped(st) && Updated(db, st).Some?
    ensures var r := Updated(db, st).value;
            Shaped(r) && Tracked(db, r) && Updated(db, r) == Some(r)
  {
    hide Shaped, Tracked, Linked, Migrated;
    UpdateLands(db, st);
    var r := Updated(db, st).value;
    if r.State? {
      LinkedKeyed(db, r);
      LatestUnique(db, r.desc.name, r.desc, Latest(db, r.desc.name, r.desc.key));
    }
  }

  lemma LinkedKeyed(db: Catalog, st: State)
    requires Linked(db) && Tracked(db, st) && st.State?
    ensures Keyed(db) && (st.desc.name, st.desc.key) in db
  {
  }

  // ---- what is kept ----

  /** The elements of a flat variable, or the number of its children. */
  function Size(c: Cell): nat {
    match c.payload
    case Flat(elems) => |elems|
    case Nested(children) => |children|
  }

  /** Element k of b is that of a; a child is its update. */
  ghost predicate SameElement(db: Catalog, a: Cell, b: Cell, k: nat)
    requires Linked(db) && k < Size(a) && k < Size(b)
  {
    if a.payload.Flat? then b.payload.Flat? && b.payload.elems[k] == a.payload.elems[k]
    else
      var ch := a.payload.children[k];
      b.payload.Nested? && Tracked(db, ch) && Shaped(ch) && Updated(db, ch) == Some(b.payload.children[k])
  }

  /** Variables present in both, by name: the elements that fit are kept in their places and the rest
      are those of a fresh variable; nothing else of the old variable is. */
  lemma UpdateKeeps(db: Catalog, st: State, i: nat, j: nat)
    requires Linked(db) && Tracked(db, st) && Shaped(st) && st.State? && Updated(db, st).Some?
    requires var r := Updated(db, st).value;
             r != st && i < |r.vars| && j < |st.vars| && i < |r.desc.vars| && j < |st.desc.vars|
             && r.desc.vars[i].name == st.desc.vars[j].name
             && forall k :: j < k < |st.desc.vars| ==> st.desc.vars[k].name != st.desc.vars[j].name
    ensures var r := Updated(db, st).value;
            var vd, a, b := r.desc.vars[i], st.vars[j], r.vars[i];
            && WellTyped(vd)
            && Size(b) == (if vd.VariableLength() then Size(a) else vd.FixedLen())
            && (forall k :: 0 <= k < Size(a) && k < Size(b) ==> SameElement(db, a, b, k))
            && (forall k :: Size(a) <= k < Size(b) ==>
                  if b.payload.Flat? then b.payload.elems[k] == DefaultElem(vd) else b.payload.children[k] == FreshChild(vd))
            && b.(payload := Flat([])) == FreshCell(vd).(payload := Flat([]))
  {
    hide Shaped, Tracked, FreshChild, FreshChildren, WellTyped, Linked, CellShaped;
    LinkedKeyed(db, st);
    LatestTyped(db, st.desc.name, st.desc.key);
    var r := Updated(db, st).value;
    assert Migrated(db, r.desc.vars[i], st).Some?;
    assert LastNamed(st.desc.vars, r.desc.vars[i].name) == j;
    TypedAt(r.desc, i);
    CellKeeps(db, r.desc.vars[i], st, j);
  }

  lemma TypedAt(d: Desc, i: nat)
    requires WellTypedDesc(d) && i < |d.vars|
    ensures WellTyped(d.vars[i])
  {
  }

  lemma CellKeeps(db: Catalog, vd: VarDesc, st: State, j: nat)
    requires Linked(db) && Tracked(db, st) && Shaped(st) && st.State? && j < |st.vars| && WellTyped(vd)
    requires j == LastNamed(st.desc.vars, vd.name) && Migrated(db, vd, st).Some?
    ensures var a, b := st.vars[j], Migrated(db, vd, st).value;
            && Size(b) == (if vd.VariableLength() then Size(a) else vd.FixedLen())
            && (forall k :: 0 <= k < Size(a) && k < Size(b) ==> SameElement(db, a, b, k))
            && (forall k :: Size(a) <= k < Size(b) ==>
                  if b.payload.Flat? then b.payload.elems[k] == DefaultElem(vd) else b.payload.children[k] == FreshChild(vd))
            && b.(payload := Flat([])) == FreshCell(vd).(payload := Flat([]))
  {
    hide Updated, FreshChild, FreshChildren, Linked, WellTyped, ElemOf, DefaultElem;
    assert CellShaped(st.desc.vars[j], st.vars[j]);
  }

  /** A variable whose name is new is at its default. */
  lemma UpdateDefaults(db: Catalog, st: State, i: nat)
    requires Linked(db) && Tracked(db, st) && Shaped(st) && st.State? && Updated(db, st).Some?
    requires var r := Updated(db, st).value;
             && r != st && i < |r.vars| && i < |r.desc.vars|
             && forall k :: 0 <= k < |st.desc.vars| ==> st.desc.vars[k].name != r.desc.vars[i].name
    ensures var r := Updated(db, st).value;
            WellTyped(r.desc.vars[i]) && r.vars[i] == FreshCell(r.desc.vars[i])
  {
    hide Shaped, Tracked, FreshCell, WellTyped, Linked, Copied;
    LinkedKeyed(db, st);
    LatestTyped(db, st.desc.name, st.desc.key);
    var r := Updated(db, st).value;
    TypedAt(r.desc, i);
    assert Migrated(db, r.desc.vars[i], st).Some?;
  }

  // ---- what a following toBlob loses ----

  /** No migrated variable is dirty. */
  lemma UpdateClean(db: Catalog, st: State)
    requires Linked(db) && Tracked(db, st) && Shaped(st) && st.State? && Updated(db, st).Some?
    requires Updated(db, st).value != st
    ensures var r := Updated(db, st).value;
            forall i :: 0 <= i < |r.vars| ==> !r.vars[i].dirty
  {
    hide Shaped, Tracked, Linked, WellTyped, Updated, FreshChildren;
    var r := Updated(db, st).value;
    UpdateLands(db, st);
    ShapedVars(r);
    LinkedKeyed(db, r);
    forall i | 0 <= i < |r.vars| ensures !r.vars[i].dirty {
      var j := LastNamed(st.desc.vars, r.desc.vars[i].name);
      if j < 0 {
        UpdateDefaults(db, st, i);
      } else {
        ShapedVars(st);
        UpdateKeeps(db, st, i, j);
      }
    }
  }

  lemma ShapedVars(st: State)
    requires st.State? && Shaped(st)
    ensures |st.vars| == |st.desc.vars|
  {
  }

  lemma {:induction false} CleanItems(st: State, st': State, idxs: seq<nat>, i: nat, n: nat, useIndices: bool)
    requires st.State? && Shaped(st) && st'.State? && Shaped(st') && st'.desc == st.desc
    requires Indices(st.desc.vars, idxs) && n <= |idxs|
    requires forall k :: 0 <= k < |st.vars| ==> !st.vars[k].dirty
    requires forall k :: 0 <= k < |st'.vars| ==> !st'.vars[k].dirty
    ensures |st.vars| == |st'.vars| == |st.desc.vars|
    ensures ItemsBytes(st, idxs, i, n, useIndices) == ItemsBytes(st', idxs, i, n, useIndices) == []
    ensures DirtyCount(st.vars, idxs, i, n) == DirtyCount(st'.vars, idxs, i, n) == 0
    decreases n - i
  {
    hide CellShaped, VarBytes;
    if i < n {
      CleanItems(st, st', idxs, i + 1, n, useIndices);
    }
  }

  /** States of one descriptor without dirty variables are written alike. */
  lemma CleanBytes(st: State, st': State)
    requires st.State? && Shaped(st) && st'.State? && Shaped(st') && st'.desc == st.desc && st'.flags == st.flags
    requires forall k :: 0 <= k < |st.vars| ==> !st.vars[k].dirty
    requires forall k :: 0 <= k < |st'.vars| ==> !st'.vars[k].dirty
    ensures StateBytes(st) == StateBytes(st')
  {
    hide Positions, CellShaped, ItemsBytes, DirtyCount;
    var simple, nested := SimpleVars(st.desc), NestedVars(st.desc);
    CleanItems(st, st', simple, 0, |simple|, 0 != |simple|);
    CleanItems(st, st', nested, 0, |nested|, 0 != |nested|);
    CleanItems(st, st', nested, 0, 0, 0 != |nested|);
  }

  lemma LinkedValid(db: Catalog, d: Desc)
    requires Linked(db) && (d.name, d.key) in db && db[(d.name, d.key)] == d
    ensures ValidCatalog(db) && WellTypedDesc(d)
  {
  }

  lemma UpdatedHeader(db: Catalog, st: State)
    requires Linked(db) && Tracked(db, st) && Shaped(st) && st.State? && Updated(db, st).Some?
    requires Updated(db, st).value != st
    ensures var r := Updated(db, st).value; r.objectKey == NULL_UOID && r.flags == 0
  {
    hide Migrated, Shaped, Tracked, Linked;
    LinkedKeyed(db, st);
  }

  lemma FreshClean(d: Desc, now: UnifiedTime)
    requires WellTypedDesc(d) && |d.vars| < 0x1_0000_0000
    ensures Shaped(Fresh(d)) && WellFormed(d, Fresh(d)) && Restored(d, Fresh(d), now) == Fresh(d)
    ensures forall i :: 0 <= i < |Fresh(d).vars| ==> !Fresh(d).vars[i].dirty
  {
    hide WellTyped, CellMatches, CellShaped, FreshChildren, Positions, WellFormedCell;
    MatchesShaped(d, Fresh(d));
    assert Restored(d, Fresh(d), now).vars == Fresh(d).vars;
  }

  /** The blob of a migrated state parses to a fresh state. */
  lemma UpdateThenBlob(db: Catalog, st: State, now: UnifiedTime)
    requires Linked(db) && Tracked(db, st) && Shaped(st) && st.State? && Updated(db, st).Some?
    requires var r := Updated(db, st).value;
             r.State? && r != st && Found(db, r) && db[(r.desc.name, r.desc.version)] == r.desc && |r.desc.vars| < 0x1_0000_0000
    ensures var r := Updated(db, st).value;
            && Shaped(r) && WellTypedDesc(r.desc) && ValidCatalog(db)
            && FromBlob(db, now, ToBlob(r)) == Parsed(Fresh(r.desc), |ToBlob(r)|)
  {
    hide Shaped, Tracked, Linked, WellTypedDesc, Updated, StateBytes, ValidCatalog, FromBlob, FreshVars, Restored, Matches,
         WellFormed, SafeBytes;
    var r := Updated(db, st).value;
    UpdateLands(db, st);
    UpdateClean(db, st);
    LinkedKeyed(db, r);
    LinkedValid(db, r.desc);
    UpdatedHeader(db, st);
    FreshClean(r.desc, now);
    var f := Fresh(r.desc);
    CleanBytes(r, f);
    assert ToBlob(r) == ToBlob(f);
    BlobRestored(db, f, now);
  }
}
