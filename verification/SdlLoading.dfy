/** From loaded descriptors to the catalog that states are built on: the nested descriptors are the
    cached copies (SDL/DescriptorDb.cpp:36-53, SDL/StateInfo.cpp:110-114). */
module SdlLoading {
  import opened Bytes
  import opened SdlTypes
  import opened DescriptorDb
  import opened SdlUpdate

  /** Nested descriptor references do not run in circles: they go to names of a lower rank. */
  predicate AcyclicVars(rank: map<Str, nat>, name: Str, vars: seq<VarDesc>) {
    name in rank
    && forall k :: 0 <= k < |vars| && vars[k].ty.StateDesc? && vars[k].typeName in rank ==> rank[vars[k].typeName] < rank[name]
  }

  /** Descriptors as the parser returns them: defaults fit, and nothing is looked up yet. */
  predicate Raw(rank: map<Str, nat>, loaded: seq<Desc>) {
    forall i :: 0 <= i < |loaded| ==>
      && AcyclicVars(rank, loaded[i].name, loaded[i].vars)
      && forall k :: 0 <= k < |loaded[i].vars| ==>
           loaded[i].vars[k].child.None? && WellTyped(loaded[i].vars[k])
  }

  /** The descriptor with its nested descriptors looked up, to any depth. */
  function Resolved(rank: map<Str, nat>, loaded: seq<Desc>, d: Desc): (r: Desc)
    requires Raw(rank, loaded) && AcyclicVars(rank, d.name, d.vars)
    ensures r == d.(vars := r.vars) && |r.vars| == |d.vars|
    ensures forall k :: 0 <= k < |d.vars| ==> r.vars[k] == ResolvedVar(rank, loaded, d.name, d.vars[k])
    decreases rank[d.name], 1
  {
    d.(vars := seq(|d.vars|, k requires 0 <= k < |d.vars| => ResolvedVar(rank, loaded, d.name, d.vars[k])))
  }

  function ResolvedVar(rank: map<Str, nat>, loaded: seq<Desc>, name: Str, vd: VarDesc): VarDesc
    requires Raw(rank, loaded) && name in rank
    requires vd.ty.StateDesc? && vd.typeName in rank ==> rank[vd.typeName] < rank[name]
    decreases rank[name], 0
  {
    var i := FirstNewest(loaded, vd.typeName);
    if vd.ty.StateDesc? && i >= 0 then vd.(child := Some(Resolved(rank, loaded, loaded[i]).(key := CACHED)))
    else vd.(child := None)
  }

  function ResolvedAll(rank: map<Str, nat>, loaded: seq<Desc>): (r: seq<Desc>)
    requires Raw(rank, loaded)
    ensures |r| == |loaded| && forall i :: 0 <= i < |r| ==> r[i] == Resolved(rank, loaded, loaded[i])
  {
    seq(|loaded|, i requires 0 <= i < |loaded| => Resolved(rank, loaded, loaded[i]))
  }

  lemma {:induction false} SameNewest(a: seq<Desc>, b: seq<Desc>, name: Str)
    requires |a| == |b| && forall i :: 0 <= i < |a| ==> a[i].name == b[i].name && a[i].version == b[i].version
    ensures FirstNewest(a, name) == FirstNewest(b, name)
    decreases |a|
  {
    if a != [] {
      SameNewest(a[..|a| - 1], b[..|b| - 1], name);
    }
  }

  lemma {:induction false} ResolvedTyped(rank: map<Str, nat>, loaded: seq<Desc>, d: Desc)
    requires Raw(rank, loaded) && AcyclicVars(rank, d.name, d.vars) && forall k :: 0 <= k < |d.vars| ==> WellTyped(d.vars[k])
    ensures WellTypedDesc(Resolved(rank, loaded, d))
    decreases rank[d.name]
  {
    hide DefaultOf;
    var r := Resolved(rank, loaded, d);
    forall k | 0 <= k < |d.vars| ensures WellTyped(r.vars[k]) {
      var vd := d.vars[k];
      var i := FirstNewest(loaded, vd.typeName);
      if vd.ty.StateDesc? && i >= 0 {
        ResolvedTyped(rank, loaded, loaded[i]);
        assert Resolved(rank, loaded, loaded[i]).(key := CACHED).vars == Resolved(rank, loaded, loaded[i]).vars;
      }
    }
  }

  /** A catalog that holds loaded descriptors, their nested descriptors looked up in it, is the kind that
      states are built on. */
  lemma LoadedIsLinked(rank: map<Str, nat>, loaded: seq<Desc>, db: Catalog)
    requires Raw(rank, loaded) && Holds(db, ResolvedAll(rank, loaded))
    ensures Linked(db)
  {
    hide WellTypedDesc, WellTyped, Resolved, HeldAt;
    var all := ResolvedAll(rank, loaded);
    HoldsKeyed(db, all);
    forall k | k in db
      ensures WellTypedDesc(db[k]) && forall m :: 0 <= m < |db[k].vars| ==> ChildLinked(db, db[k].vars[m])
    {
      var i := HeldIndex(db, all, k);
      ResolvedTyped(rank, loaded, loaded[i]);
      SameTyping(all[i], db[k]);
      forall m | 0 <= m < |db[k].vars| ensures ChildLinked(db, db[k].vars[m]) {
        ChildIsLinked(rank, loaded, db, loaded[i].name, loaded[i].vars[m]);
      }
    }
  }

  lemma HeldIndex(db: Catalog, all: seq<Desc>, k: (Str, int)) returns (i: nat)
    requires Holds(db, all) && k in db
    ensures i < |all| && db[k] == all[i].(key := k.1)
  {
    assert HeldAt(db, all, k);
    i := if k.1 == CACHED then FirstNewest(all, k.0) else LastOf(all, k.0, k.1);
  }

  lemma SameTyping(d: Desc, d': Desc)
    requires WellTypedDesc(d) && d'.vars == d.vars
    ensures WellTypedDesc(d')
  {
  }

  lemma ChildIsLinked(rank: map<Str, nat>, loaded: seq<Desc>, db: Catalog, name: Str, vd: VarDesc)
    requires Raw(rank, loaded) && Holds(db, ResolvedAll(rank, loaded)) && name in rank
    requires vd.ty.StateDesc? && vd.typeName in rank ==> rank[vd.typeName] < rank[name]
    ensures ChildLinked(db, ResolvedVar(rank, loaded, name, vd))
  {
    hide Resolved, Raw;
    var all := ResolvedAll(rank, loaded);
    SameNewest(all, loaded, vd.typeName);
    assert HeldAt(db, all, (vd.typeName, CACHED));
  }

  /** Any descriptors without circular references can be loaded into such a catalog. */
  lemma LoadedCatalogExists(rank: map<Str, nat>, loaded: seq<Desc>)
    requires Raw(rank, loaded) && forall i :: 0 <= i < |loaded| ==> loaded[i].version >= 0
    ensures exists db :: Holds(db, ResolvedAll(rank, loaded)) && Linked(db)
  {
    hide Raw, Linked, Holds;
    var db := LoadedCatalog(ResolvedAll(rank, loaded));
    LoadedIsLinked(rank, loaded, db);
  }

  lemma {:induction false} LoadedCatalog(all: seq<Desc>) returns (db: Catalog)
    requires forall i :: 0 <= i < |all| ==> all[i].version >= 0
    ensures Holds(db, all)
    decreases |all|
  {
    if all == [] {
      db := map[];
    } else {
      var n := |all| - 1;
      var before := LoadedCatalog(all[..n]);
      LoadedOne(before, all[..n], all[n]);
      db := Inserted(before, all[n]);
      assert all[..n] + [all[n]] == all;
    }
  }

  /** A successful update lands on the highest version that has been loaded of its name. */
  lemma UpdateLandsOnHighest(db: Catalog, loaded: seq<Desc>, st: State)
    requires Linked(db) && Holds(db, loaded) && forall i :: 0 <= i < |loaded| ==> loaded[i].version >= 0
    requires Tracked(db, st) && Shaped(st) && st.State? && Updated(db, st).Some?
    ensures var r := Updated(db, st).value;
            && r.State? && r.desc.version == r.desc.key
            && forall i :: 0 <= i < |loaded| && loaded[i].name == st.desc.name ==> loaded[i].version <= r.desc.version
  {
    hide Linked, Tracked, Shaped, Updated, Holds;
    UpdateLands(db, st);
    LatestIsLastNewest(db, loaded, st.desc.name, Updated(db, st).value.desc);
  }
}
