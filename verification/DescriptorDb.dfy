/** The descriptor database (SDL/DescriptorDb.cpp:32-103): every loaded descriptor under its name and
    version, and a second copy of the newest one under version -1. */
module DescriptorDb {
  import opened Bytes
  import opened SdlTypes

  /** The loaded descriptors by name and version. */
  type Catalog = map<(Str, int), Desc>

  predicate ValidCatalog(db: Catalog) {
    forall k :: k in db ==> WellTypedDesc(db[k])
  }

  /** Every descriptor is stored under its own name and key. */
  predicate Keyed(db: Catalog) {
    forall k :: k in db ==> db[k].name == k.0 && db[k].key == k.1
  }

  const CACHED := -1

  // ---- the declarative meaning of the database ----

  /** The position of the last descriptor so named and numbered; -1 when there is none. */
  function LastOf(loaded: seq<Desc>, name: Str, version: int): (i: int)
    ensures -1 <= i < |loaded|
    ensures i >= 0 ==> loaded[i].name == name && loaded[i].version == version
    ensures forall k :: i < k < |loaded| ==> !(loaded[k].name == name && loaded[k].version == version)
  {
    if loaded == [] then -1
    else
      var n := |loaded| - 1;
      if loaded[n].name == name && loaded[n].version == version then n else LastOf(loaded[..n], name, version)
  }

  /** The position of the first descriptor of the highest version so named; -1 when there is none. */
  function FirstNewest(loaded: seq<Desc>, name: Str): (i: int)
    ensures -1 <= i < |loaded|
    ensures i >= 0 ==> loaded[i].name == name
    ensures i >= 0 ==> forall k :: 0 <= k < |loaded| && loaded[k].name == name ==>
                         loaded[k].version < loaded[i].version || (loaded[k].version == loaded[i].version && i <= k)
    ensures i < 0 ==> forall k :: 0 <= k < |loaded| ==> loaded[k].name != name
  {
    if loaded == [] then -1
    else
      var n := |loaded| - 1;
      var i := FirstNewest(loaded[..n], name);
      if loaded[n].name == name && (i < 0 || loaded[n].version > loaded[i].version) then n else i
  }

  predicate HeldAt(db: Catalog, loaded: seq<Desc>, k: (Str, int)) {
    var i := if k.1 == CACHED then FirstNewest(loaded, k.0) else LastOf(loaded, k.0, k.1);
    (k in db <==> i >= 0) && (k in db ==> db[k] == loaded[i].(key := k.1))
  }

  /** What the database holds after loading: under each version the last descriptor so numbered, and
      under -1 the first one of the highest version. */
  ghost predicate Holds(db: Catalog, loaded: seq<Desc>) {
    forall k: (Str, int) :: HeldAt(db, loaded, k)
  }

  /** d is the descriptor with the highest key of that name. */
  ghost predicate IsLatest(db: Catalog, name: Str, d: Desc) {
    && (name, d.key) in db && db[(name, d.key)] == d
    && forall v: int :: (name, v) in db ==> v <= d.key
  }

  lemma LatestUnique(db: Catalog, name: Str, d: Desc, d': Desc)
    requires IsLatest(db, name, d) && IsLatest(db, name, d')
    ensures d == d'
  {
  }

  class DescriptorDb {
    var catalog: Catalog
    /** Everything loaded so far, in order. */
    ghost var loaded: seq<Desc>

    ghost predicate Valid()
      reads this
    {
      && Holds(catalog, loaded)
      && forall i :: 0 <= i < |loaded| ==> loaded[i].version >= 0
    }

    constructor ()
      ensures Valid() && loaded == []
    {
      catalog, loaded := map[], [];
    }

    /** LoadDescriptorsFromFile, on the descriptors that the parser returned. */
    method Load(descriptors: seq<Desc>)
      requires Valid() && forall i :: 0 <= i < |descriptors| ==> descriptors[i].version >= 0
      modifies this
      ensures Valid() && loaded == old(loaded) + descriptors
    {
      hide Holds;
      for i := 0 to |descriptors|
        invariant Valid() && loaded == old(loaded) + descriptors[..i]
      {
        var it := descriptors[i];
        ghost var before := catalog;
        catalog := catalog[(it.name, it.version) := it.(key := it.version)];
        if (it.name, CACHED) !in catalog || catalog[(it.name, CACHED)].version < it.version {
          catalog := catalog[(it.name, CACHED) := it.(key := CACHED)];
        }
        LoadedOne(before, loaded, it);
        assert catalog == Inserted(before, it);
        loaded := loaded + [it];
      }
    }

    /** FindLatestDescriptor; None stands for the null pointer. */
    method FindLatest(name: Str) returns (r: Option<Desc>)
      requires Valid()
      ensures r.None? ==> forall v: int :: (name, v) !in catalog
      ensures r.Some? ==> IsLatest(catalog, name, r.value)
    {
      HoldsKeyed(catalog, loaded);
      hide Holds;
      r := None;
      var rest := catalog.Keys;
      while rest != {}
        invariant rest <= catalog.Keys
        invariant r.None? ==> forall v: int :: (name, v) in catalog ==> (name, v) in rest
        invariant r.Some? ==> (name, r.value.key) in catalog && catalog[(name, r.value.key)] == r.value
        invariant r.Some? ==> forall v: int :: (name, v) in catalog && (name, v) !in rest ==> v <= r.value.key
        decreases |rest|
      {
        var k :| k in rest;
        rest := rest - {k};
        if k.0 == name && (r.None? || k.1 > r.value.key) {
          r := Some(catalog[k]);
        }
      }
    }
  }

  /** One round of the loading loop. */
  function Inserted(db: Catalog, it: Desc): Catalog {
    var stored := db[(it.name, it.version) := it.(key := it.version)];
    if (it.name, CACHED) !in stored || stored[(it.name, CACHED)].version < it.version then
      stored[(it.name, CACHED) := it.(key := CACHED)]
    else stored
  }

  lemma LastOfStep(loaded: seq<Desc>, it: Desc, name: Str, v: int)
    ensures LastOf(loaded + [it], name, v) == if it.name == name && it.version == v then |loaded| else LastOf(loaded, name, v)
  {
    assert (loaded + [it])[..|loaded|] == loaded;
  }

  lemma FirstNewestStep(loaded: seq<Desc>, it: Desc, name: Str)
    ensures var i := FirstNewest(loaded, name);
            FirstNewest(loaded + [it], name)
            == if it.name == name && (i < 0 || it.version > loaded[i].version) then |loaded| else i
  {
    assert (loaded + [it])[..|loaded|] == loaded;
  }

  lemma LoadedOne(db: Catalog, loaded: seq<Desc>, it: Desc)
    requires Holds(db, loaded) && it.version >= 0
    ensures Holds(Inserted(db, it), loaded + [it])
  {
    hide LastOf, FirstNewest;
    forall k: (Str, int) ensures HeldAt(Inserted(db, it), loaded + [it], k) {
      assert HeldAt(db, loaded, k);
      if k.1 == CACHED {
        FirstNewestStep(loaded, it, k.0);
        assert HeldAt(db, loaded, (it.name, CACHED));
      } else {
        LastOfStep(loaded, it, k.0, k.1);
      }
    }
  }

  /** What has been loaded is stored under its own names and keys. */
  lemma HoldsKeyed(db: Catalog, loaded: seq<Desc>)
    requires Holds(db, loaded)
    ensures Keyed(db)
  {
    forall k | k in db ensures db[k].name == k.0 && db[k].key == k.1 {
      assert HeldAt(db, loaded, k);
    }
  }

  /** The scan lands on the last descriptor loaded of the highest version. */
  lemma LatestIsLastNewest(db: Catalog, loaded: seq<Desc>, name: Str, d: Desc)
    requires Holds(db, loaded) && IsLatest(db, name, d)
    requires forall i :: 0 <= i < |loaded| ==> loaded[i].version >= 0
    ensures FirstNewest(loaded, name) >= 0 && d.key == loaded[FirstNewest(loaded, name)].version
    ensures d == loaded[LastOf(loaded, name, d.key)].(key := d.key)
  {
    var f := FirstNewest(loaded, name);
    assert HeldAt(db, loaded, (name, d.key));
    var v := loaded[f].version;
    assert LastOf(loaded, name, v) >= f;
    assert HeldAt(db, loaded, (name, v));
  }

  /** The exact condition: the copy cached under -1 is the descriptor found by scanning if and only if
      the first and the last descriptor loaded of the highest version are the same. */
  lemma CachedIsLatestIff(db: Catalog, loaded: seq<Desc>, name: Str, d: Desc)
    requires Holds(db, loaded) && IsLatest(db, name, d)
    requires forall i :: 0 <= i < |loaded| ==> loaded[i].version >= 0
    ensures (name, CACHED) in db
    ensures var first := FirstNewest(loaded, name);
            first >= 0 && LastOf(loaded, name, loaded[first].version) >= 0 &&
            (db[(name, CACHED)].(key := d.key) == d
             <==> loaded[first].(key := 0) == loaded[LastOf(loaded, name, loaded[first].version)].(key := 0))
  {
    LatestIsLastNewest(db, loaded, name, d);
    assert HeldAt(db, loaded, (name, CACHED));
  }

  /** With no version loaded twice, the cached copy is always the newest. */
  lemma CachedIsLatest(db: Catalog, loaded: seq<Desc>, name: Str, d: Desc)
    requires Holds(db, loaded) && IsLatest(db, name, d)
    requires forall i :: 0 <= i < |loaded| ==> loaded[i].version >= 0
    requires forall i, j :: 0 <= i < j < |loaded| && loaded[i].name == loaded[j].name ==>
               loaded[i].version != loaded[j].version
    ensures (name, CACHED) in db && db[(name, CACHED)] == d.(key := CACHED)
  {
    LatestIsLastNewest(db, loaded, name, d);
    assert HeldAt(db, loaded, (name, CACHED));
  }

  /** Witness: one name and version loaded twice, the second time with a variable. */
  lemma LoadedTwice() returns (db: Catalog, d: Desc)
    ensures Holds(db, [Desc([65], 0, 1, []), Desc([65], 0, 1, [VarDesc([120], Int, [], 1, None, None)])])
    ensures IsLatest(db, [65], d) && ([65], CACHED) in db && db[([65], CACHED)].(key := d.key) != d
  {
    var a, b := Desc([65], 0, 1, []), Desc([65], 0, 1, [VarDesc([120], Int, [], 1, None, None)]);
    assert Holds(map[], []);
    LoadedOne(map[], [], a);
    LoadedOne(Inserted(map[], a), [a], b);
    db, d := Inserted(Inserted(map[], a), b), b.(key := 1);
    assert [] + [a] == [a] && [a] + [b] == [a, b];
  }
}
