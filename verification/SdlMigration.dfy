/** What start_game_host saves of a migrated age state (GameServ/GameHost.cpp:920-924, with
    SDL/StateInfo.cpp:466-546, 988-1009): the exact condition on the state before the migration. */
module SdlMigration {
  import opened Bytes
  import opened SdlTypes
  import opened DescriptorDb
  import opened SdlRoundTrip
  import opened SdlUpdate

  /** A state whose migration ends with the values of a fresh state: every element that is kept is the
      new default, variable-length arrays are empty, and kept nested states likewise. */
  ghost predicate BecomesFresh(db: Catalog, st: State)
    requires Linked(db) && Tracked(db, st) && Shaped(st)
    decreases st, 1
  {
    st.State? ==>
      var d := Latest(db, st.desc.name, st.desc.key);
      if d == st.desc then SameValues(Fresh(d), st)
      else
        forall i :: 0 <= i < |d.vars| && LastNamed(st.desc.vars, d.vars[i].name) >= 0 ==>
          var j := LastNamed(st.desc.vars, d.vars[i].name);
          CellBecomesFresh(db, d.vars[i], st.desc.vars[j], st.vars[j])
  }

  ghost predicate CellBecomesFresh(db: Catalog, vd: VarDesc, from: VarDesc, c: Cell)
    requires Linked(db) && WellTyped(vd) && CellShaped(from, c) && TrackedCell(db, c)
    decreases c, 0
  {
    match c.payload
    case Flat(elems) =>
      if vd.VariableLength() then elems == []
      else forall k :: 0 <= k < Min(vd.FixedLen(), |elems|) ==> elems[k] == DefaultElem(vd)
    case Nested(children) =>
      if vd.VariableLength() then children == []
      else forall k :: 0 <= k < Min(vd.FixedLen(), |children|) ==> ChildBecomesFresh(db, vd, children[k])
  }

  /** A kept nested state ends like a fresh one of the type that the new descriptor names. */
  ghost predicate ChildBecomesFresh(db: Catalog, vd: VarDesc, ch: State)
    requires Linked(db) && Tracked(db, ch) && Shaped(ch)
    decreases ch, 2
  {
    if ch.Null? then vd.child.None?
    else
      && vd.child.Some? && Latest(db, ch.desc.name, ch.desc.key).vars == vd.child.value.vars
      && BecomesFresh(db, ch)
  }

  /** A fresh state depends on the variables of its descriptor only. */
  lemma FreshSame(d: Desc, d': Desc, st: State)
    requires WellTypedDesc(d) && WellTypedDesc(d') && d.vars == d'.vars
    ensures SameValues(Fresh(d), st) <==> SameValues(Fresh(d'), st)
  {
    hide FreshCell, SamePayload, WellTyped;
    assert FreshVars(d) == FreshVars(d');
  }

  lemma {:induction false} MigratedFreshIff(db: Catalog, st: State)
    requires Linked(db) && Tracked(db, st) && Shaped(st) && st.State? && Updated(db, st).Some?
    ensures var r := Updated(db, st).value;
            && r.State? && WellTypedDesc(r.desc) && r.desc == Latest(db, st.desc.name, st.desc.key)
            && (SameValues(Fresh(r.desc), r) <==> BecomesFresh(db, st))
    decreases st, 1
  {
    hide Copied, CellShaped, FreshCell, WellTyped, LastNamed, Linked, SamePayload, CellBecomesFresh;
    LinkedKeyed(db, st);
    LatestTyped(db, st.desc.name, st.desc.key);
    var d := Latest(db, st.desc.name, st.desc.key);
    var r := Updated(db, st).value;
    if d != st.desc {
      forall i | 0 <= i < |d.vars|
        ensures WellTyped(d.vars[i]) && Migrated(db, d.vars[i], st).Some? && r.vars[i] == Migrated(db, d.vars[i], st).value
      {
        TypedAt(d, i);
      }
      forall i | 0 <= i < |d.vars| && LastNamed(st.desc.vars, d.vars[i].name) < 0
        ensures SamePayload(FreshCell(d.vars[i]).payload, r.vars[i].payload)
      {
        SamePayloadSelf(r.vars[i].payload);
      }
      forall i | 0 <= i < |d.vars| && LastNamed(st.desc.vars, d.vars[i].name) >= 0
        ensures var j := LastNamed(st.desc.vars, d.vars[i].name);
                && CellShaped(st.desc.vars[j], st.vars[j]) && TrackedCell(db, st.vars[j])
                && (SamePayload(FreshCell(d.vars[i]).payload, r.vars[i].payload)
                    <==> CellBecomesFresh(db, d.vars[i], st.desc.vars[j], st.vars[j]))
      {
        var j := LastNamed(st.desc.vars, d.vars[i].name);
        CopiedFreshIff(db, d.vars[i], st.desc.vars[j], st.vars[j]);
      }
    }
  }

  lemma {:induction false} CopiedFreshIff(db: Catalog, vd: VarDesc, from: VarDesc, c: Cell)
    requires Linked(db) && WellTyped(vd) && CellShaped(from, c) && TrackedCell(db, c)
    requires Copied(db, vd, from, c).Some?
    ensures SamePayload(FreshCell(vd).payload, Copied(db, vd, from, c).value.payload)
       <==> CellBecomesFresh(db, vd, from, c)
    decreases c, 0
  {
    hide Updated, Tracked, Linked, Shaped, WellTyped, ElemOf, DefaultElem, SameValues, ChildBecomesFresh, FreshChild;
    var copied := Copied(db, vd, from, c).value;
    match c.payload
    case Flat(elems) =>
      FlatFreshIff(vd, elems);
    case Nested(children) =>
      if !vd.VariableLength() {
        var migrated := copied.payload.children;
        forall k | 0 <= k < |migrated|
          ensures SameValues(FreshChild(vd), migrated[k])
             <==> k < |children| ==> ChildBecomesFresh(db, vd, children[k])
        {
          if k < |children| {
            ChildFreshIff(db, vd, children[k]);
          } else {
            SameSelf(FreshChild(vd));
          }
        }
      }
  }

  lemma FlatFreshIff(vd: VarDesc, elems: seq<Elem>)
    requires WellTyped(vd)
    ensures FreshElems(vd) == KeptElems(vd, elems)
       <==> if vd.VariableLength() then elems == []
            else forall k :: 0 <= k < Min(vd.FixedLen(), |elems|) ==> elems[k] == DefaultElem(vd)
  {
    hide DefaultElem, WellTyped;
    var f, e := FreshElems(vd), KeptElems(vd, elems);
    if f == e {
      assert forall k :: 0 <= k < |e| ==> e[k] == f[k];
    }
  }

  lemma {:induction false} ChildFreshIff(db: Catalog, vd: VarDesc, ch: State)
    requires Linked(db) && WellTyped(vd) && Tracked(db, ch) && Shaped(ch) && Updated(db, ch).Some?
    ensures SameValues(FreshChild(vd), Updated(db, ch).value) <==> ChildBecomesFresh(db, vd, ch)
    decreases ch, 2
  {
    hide Linked, Shaped, Tracked, BecomesFresh, FreshVars, SamePayload;
    if ch.State? {
      LinkedKeyed(db, ch);
      MigratedFreshIff(db, ch);
      var r := Updated(db, ch).value;
      if vd.child.Some? && r.desc.vars == vd.child.value.vars {
        FreshSame(r.desc, vd.child.value, r);
      }
    }
  }

  /** r is st after a migration, and its descriptor is found again under its name and version. */
  ghost predicate MigratesTo(db: Catalog, st: State, r: State) {
    && Linked(db) && Tracked(db, st) && Shaped(st) && st.State? && Updated(db, st) == Some(r)
    && r.State? && r != st && Found(db, r)
    && db[(r.desc.name, r.desc.version)] == r.desc && |r.desc.vars| < 0x1_0000_0000
  }

  /** What a migration writes to the vault is parsed with the values of the migrated state if and only
      if the state before it is one that becomes fresh: all that it keeps is the new default. */
  lemma MigrationSavedIffDefault(db: Catalog, st: State, r: State, now: UnifiedTime)
    requires MigratesTo(db, st, r)
    ensures Shaped(r) && ValidCatalog(db)
    ensures var back := FromBlob(db, now, ToBlob(r));
            && back.Parsed? && back.next == |ToBlob(r)| && back.value.State? && back.value.desc == r.desc
            && (SameValues(back.value, r) <==> BecomesFresh(db, st))
  {
    hide Shaped, Tracked, Linked, Updated, ToBlob, ValidCatalog, FromBlob, FreshVars, SameValues, BecomesFresh;
    UpdateThenBlob(db, st, now);
    MigratedFreshIff(db, st);
  }

  // ---- a value that is lost ----

  function OneInt(key: int, version: int): Desc {
    Desc([65], key, version, [VarDesc([120], Int, [], 1, None, None)])
  }

  function TwoVersions(): Catalog {
    map[([65], 1) := OneInt(1, 1), ([65], 2) := OneInt(2, 2), ([65], CACHED) := OneInt(CACHED, 2)]
  }

  function Holding(d: Desc, n: int, flags: Flags, dirty: bool): State {
    State(d, [Cell(Flat([IntElem(n)]), flags, dirty, NULL_TIME, [])], NULL_UOID, 0)
  }

  /** The state as parsed, where the variable is dirty, and as migrated, where it is not. */
  function OldState(n: int): State { Holding(OneInt(1, 1), n, NO_FLAGS, true) }

  function NewState(n: int): State { Holding(OneInt(2, 2), n, NO_FLAGS.(sameAsDefault := true), false) }

  lemma TwoVersionsLinked()
    ensures Linked(TwoVersions())
  {
    var db := TwoVersions();
    forall k | k in db ensures WellTypedDesc(db[k]) && db[k].name == k.0 && db[k].key == k.1 {
      assert db[k].vars == OneInt(k.1, 1).vars;
    }
  }

  lemma OldUpdates(n: int)
    requires -0x8000_0000 <= n < 0x8000_0000
    ensures MigratesTo(TwoVersions(), OldState(n), NewState(n))
  {
    hide Linked;
    var db := TwoVersions();
    TwoVersionsLinked();
    var st, r := OldState(n), NewState(n);
    var d := OneInt(2, 2);
    assert IsLatest(db, [65], d) by {
      assert forall v: int :: ([65], v) in db ==> v <= 2;
    }
    LinkedKeyed(db, st);
    LatestUnique(db, [65], d, Latest(db, [65], 1));
    LatestTyped(db, [65], 1);
    var vd := d.vars[0];
    assert LastNamed(st.desc.vars, vd.name) == 0;
    assert KeptElems(vd, [IntElem(n)]) == [IntElem(n)];
    assert Migrated(db, vd, st) == Some(Cell(Flat([IntElem(n)]), NO_FLAGS.(sameAsDefault := true), false, NULL_TIME, []));
    assert Updated(db, st).value.vars == r.vars;
    assert r != st by {
      assert r.desc != st.desc;
    }
    assert Updated(db, st) == Some(r) && Found(db, r);
    assert Tracked(db, st) && Shaped(st);
  }

  /** Witness: a variable holding 5, whose default is 0, is 5 after the migration and 0 in what is read
      back from the vault. */
  lemma MigrationLosesFive(now: UnifiedTime)
    ensures var db, r := TwoVersions(), NewState(5);
            && MigratesTo(db, OldState(5), r)
            && Shaped(r) && ValidCatalog(db) && FromBlob(db, now, ToBlob(r)).Parsed?
            && !SameValues(FromBlob(db, now, ToBlob(r)).value, r)
  {
    hide Linked, FromBlob, ToBlob, Updated, Found, ValidCatalog, SameValues, BecomesFresh, Tracked, Shaped, OldState, NewState;
    OldUpdates(5);
    MigrationSavedIffDefault(TwoVersions(), OldState(5), NewState(5), now);
    FiveStays();
  }

  lemma FiveStays()
    ensures Linked(TwoVersions()) && Tracked(TwoVersions(), OldState(5)) && Shaped(OldState(5))
    ensures !BecomesFresh(TwoVersions(), OldState(5))
  {
    hide Linked, Updated, Found, TwoVersions, Tracked, Shaped, CellBecomesFresh, BecomesFresh;
    var db, st := TwoVersions(), OldState(5);
    OldUpdates(5);
    LinkedKeyed(db, st);
    MigratedFreshIff(db, st);
    FiveIsKept(db, OneInt(2, 2).vars[0], st);
    OneKept(db, st, 0);
  }

  /** One variable that does not become fresh is enough. */
  lemma OneKept(db: Catalog, st: State, i: nat)
    requires Linked(db) && Tracked(db, st) && Shaped(st) && st.State?
    requires Keyed(db) && (st.desc.name, st.desc.key) in db
    requires var d := Latest(db, st.desc.name, st.desc.key);
             && d != st.desc && WellTypedDesc(d) && i < |d.vars|
             && var j := LastNamed(st.desc.vars, d.vars[i].name);
                && j >= 0 && CellShaped(st.desc.vars[j], st.vars[j]) && TrackedCell(db, st.vars[j])
                && !CellBecomesFresh(db, d.vars[i], st.desc.vars[j], st.vars[j])
    ensures !BecomesFresh(db, st)
  {
    hide Linked, Tracked, Shaped, CellBecomesFresh, LastNamed, WellTyped, CellShaped, TrackedCell;
  }

  lemma FiveIsKept(db: Catalog, vd: VarDesc, st: State)
    requires vd == OneInt(2, 2).vars[0] && st == OldState(5) && Linked(db) && Tracked(db, st) && Shaped(st)
    ensures WellTyped(vd) && CellShaped(st.desc.vars[0], st.vars[0]) && TrackedCell(db, st.vars[0])
    ensures !CellBecomesFresh(db, vd, st.desc.vars[0], st.vars[0])
  {
    hide Linked;
    assert DefaultElem(vd) == IntElem(0) && st.vars[0].payload.elems[0] == IntElem(5);
  }
}
