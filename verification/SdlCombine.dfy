/** How states are combined: `add` overlays the dirty variables, `merge` keeps the later of two
    timestamps (SDL/StateInfo.cpp:954-986). */
module SdlCombine {
  import opened SdlTypes
  import opened SdlCodec
  import opened SdlRoundTrip
  import opened DescriptorDb

  // ---- add ----

  function Overlay(a: seq<Cell>, b: seq<Cell>): (r: seq<Cell>)
    requires |a| == |b|
    ensures |r| == |a|
  {
    seq(|a|, i requires 0 <= i < |a| => if b[i].dirty then b[i] else a[i])
  }

  /** All updates applied in order. */
  function Applied(base: seq<Cell>, updates: seq<seq<Cell>>): (r: seq<Cell>)
    requires forall k :: 0 <= k < |updates| ==> |updates[k]| == |base|
    ensures |r| == |base|
    decreases |updates|
  {
    if updates == [] then base else Overlay(Applied(base, updates[..|updates| - 1]), updates[|updates| - 1])
  }

  /** The number of updates up to and including the last one in which variable i is dirty; 0 when
      there is none. */
  function LastWriter(updates: seq<seq<Cell>>, i: nat): (n: nat)
    requires forall k :: 0 <= k < |updates| ==> i < |updates[k]|
    ensures n <= |updates|
    ensures n > 0 ==> updates[n - 1][i].dirty
    ensures forall k :: n <= k < |updates| ==> !updates[k][i].dirty
    decreases |updates|
  {
    if updates == [] then 0
    else if updates[|updates| - 1][i].dirty then |updates|
    else LastWriter(updates[..|updates| - 1], i)
  }

  /** After any sequence of updates each variable is that of the last update in which it was dirty. */
  lemma {:induction false} AppliedIsLastDirty(base: seq<Cell>, updates: seq<seq<Cell>>, i: nat)
    requires (forall k :: 0 <= k < |updates| ==> |updates[k]| == |base|) && i < |base|
    ensures var n := LastWriter(updates, i);
            Applied(base, updates)[i] == if n > 0 then updates[n - 1][i] else base[i]
    decreases |updates|
  {
    if updates != [] {
      AppliedIsLastDirty(base, updates[..|updates| - 1], i);
    }
  }

  // ---- the snapshot for a late joiner ----

  predicate Fits(d: Desc, u: State) {
    u.State? && u.desc == d && |u.vars| == |d.vars|
  }

  /** An update that a host accepts for a descriptor: parsed states of well-formed senders. */
  predicate Accepted(d: Desc, u: State) {
    WellFormed(d, u) && u.desc == d
  }

  /** What the host stores: the first update, overlaid with every later one. */
  function Stored(d: Desc, updates: seq<State>): (r: State)
    requires updates != [] && forall k :: 0 <= k < |updates| ==> Fits(d, updates[k])
    ensures r.State? && r.desc == d && |r.vars| == |d.vars|
    decreases |updates|
  {
    var last := updates[|updates| - 1];
    assert Fits(d, last);
    if |updates| == 1 then last
    else
      var before := Stored(d, updates[..|updates| - 1]);
      before.(vars := Overlay(before.vars, last.vars))
  }

  /** The dirty variables of two accepted updates come first in their union as well. */
  lemma OverlayPrefix(a: seq<Cell>, b: seq<Cell>, idxs: seq<nat>)
    requires |a| == |b| && forall k :: 0 <= k < |idxs| ==> idxs[k] < |a|
    requires PrefixDirty(a, idxs) && PrefixDirty(b, idxs)
    ensures PrefixDirty(Overlay(a, b), idxs)
  {
  }

  /** Overlaying keeps a state well-formed. */
  lemma OverlayWellFormed(d: Desc, a: State, b: State)
    requires WellFormed(d, a) && WellFormed(d, b)
    ensures WellFormed(d, a.(vars := Overlay(a.vars, b.vars)))
  {
    hide CellMatches, CellShaped, WellFormedCell, Positions, WellTypedDesc;
    var r := a.(vars := Overlay(a.vars, b.vars));
    OverlayPrefix(a.vars, b.vars, NestedVars(d));
    assert Matches(d, r);
    assert Shaped(r);
  }

  lemma {:induction false} StoredWellFormed(d: Desc, updates: seq<State>)
    requires updates != [] && forall k :: 0 <= k < |updates| ==> Accepted(d, updates[k]) && Fits(d, updates[k])
    ensures WellFormed(d, Stored(d, updates))
    decreases |updates|
  {
    hide WellFormed;
    if |updates| > 1 {
      var before := updates[..|updates| - 1];
      StoredWellFormed(d, before);
      assert Accepted(d, updates[|updates| - 1]);
      OverlayWellFormed(d, Stored(d, before), updates[|updates| - 1]);
    }
  }

  /** What each client sees of the updates, one after the other. */
  function Seen(d: Desc, updates: seq<State>, now: UnifiedTime): (r: seq<seq<Cell>>)
    requires WellTypedDesc(d) && forall k :: 0 <= k < |updates| ==> Matches(d, updates[k])
    ensures |r| == |updates| && forall k :: 0 <= k < |r| ==> |r[k]| == |d.vars|
  {
    seq(|updates|, k requires 0 <= k < |updates| => Restored(d, updates[k], now).vars)
  }

  lemma RestoredDirty(vd: VarDesc, c: Cell, now: UnifiedTime)
    requires WellTyped(vd) && CellMatches(vd, c)
    ensures RestoredCell(vd, c, now).dirty == c.dirty
  {
    hide CellMatches, WellTyped, Marked;
  }

  /** Restoring distributes over overlaying: what is not dirty on either side is the default. */
  lemma RestoredOverlay(d: Desc, a: State, b: State, now: UnifiedTime)
    requires WellTypedDesc(d) && Matches(d, a) && Matches(d, b)
    ensures var r := a.(vars := Overlay(a.vars, b.vars));
            Matches(d, r) && Restored(d, r, now).vars == Overlay(Restored(d, a, now).vars, Restored(d, b, now).vars)
    ensures Overlay(FreshVars(d), Restored(d, b, now).vars) == Restored(d, b, now).vars
  {
    hide CellMatches, WellTyped, FreshCell, Saved;
    var r := a.(vars := Overlay(a.vars, b.vars));
    assert Matches(d, r);
    forall i | 0 <= i < |d.vars|
      ensures Restored(d, a, now).vars[i].dirty == a.vars[i].dirty && Restored(d, b, now).vars[i].dirty == b.vars[i].dirty
    {
      RestoredDirty(d.vars[i], a.vars[i], now);
      RestoredDirty(d.vars[i], b.vars[i], now);
    }
    assert Restored(d, r, now).vars == Overlay(Restored(d, a, now).vars, Restored(d, b, now).vars);
    assert Overlay(FreshVars(d), Restored(d, b, now).vars) == Restored(d, b, now).vars;
  }

  lemma {:induction false} StoredIsHistory(d: Desc, updates: seq<State>, now: UnifiedTime)
    requires WellTypedDesc(d) && updates != []
    requires forall k :: 0 <= k < |updates| ==> Fits(d, updates[k]) && Matches(d, updates[k])
    ensures Matches(d, Stored(d, updates))
    ensures Restored(d, Stored(d, updates), now).vars == Applied(FreshVars(d), Seen(d, updates, now))
    decreases |updates|
  {
    hide Matches, Restored, WellTypedDesc, FreshVars, Overlay, WellFormed;
    var n := |updates| - 1;
    var last := updates[n];
    var seen := Seen(d, updates, now);
    RestoredOverlay(d, last, last, now);
    if n == 0 {
      assert Applied(FreshVars(d), seen[..0]) == FreshVars(d);
    } else {
      var before := updates[..n];
      StoredIsHistory(d, before, now);
      assert Seen(d, before, now) == seen[..n];
      RestoredOverlay(d, Stored(d, before), last, now);
    }
  }

  /** The variables of the state that a receiver of u parses. */
  function ParsedVars(db: Catalog, now: UnifiedTime, u: State): seq<Cell>
    requires ValidCatalog(db) && Shaped(u)
  {
    var r := FromBlob(db, now, ToBlob(u));
    if r.Parsed? && r.value.State? then r.value.vars else []
  }

  lemma ParsedIsRestored(db: Catalog, d: Desc, now: UnifiedTime, u: State)
    requires ValidCatalog(db) && (d.name, d.version) in db && db[(d.name, d.version)] == d
    requires Accepted(d, u) && Shaped(u) && Found(db, u)
    ensures WellTypedDesc(d) && Matches(d, u) && ParsedVars(db, now, u) == Restored(d, u, now).vars
  {
    hide WellFormed, Matches, FromBlob, ToBlob, Shaped, WellTypedDesc;
    WellFormedReadable(d, u);
    BlobRestored(db, u, now);
  }

  /** The single snapshot that a late joiner parses gives the same variables as the blobs of all
      updates, parsed and applied in order to a fresh state by a client that was there throughout. */
  lemma SnapshotEqualsHistory(db: Catalog, d: Desc, updates: seq<State>, now: UnifiedTime)
    requires ValidCatalog(db) && updates != [] && WellTypedDesc(d)
    requires forall k :: 0 <= k < |updates| ==>
               Accepted(d, updates[k]) && Fits(d, updates[k]) && Found(db, updates[k]) && Shaped(updates[k])
    requires (d.name, d.version) in db && db[(d.name, d.version)] == d
    ensures Shaped(Stored(d, updates))
    ensures forall k :: 0 <= k < |updates| ==> |ParsedVars(db, now, updates[k])| == |d.vars|
    ensures ParsedVars(db, now, Stored(d, updates))
         == Applied(FreshVars(d), seq(|updates|, k requires 0 <= k < |updates| => ParsedVars(db, now, updates[k])))
  {
    hide WellFormed, Matches, Restored, ParsedVars, Shaped, FreshVars, WellTypedDesc, Applied, Found;
    forall k | 0 <= k < |updates|
      ensures Matches(d, updates[k]) && ParsedVars(db, now, updates[k]) == Restored(d, updates[k], now).vars
    {
      ParsedIsRestored(db, d, now, updates[k]);
    }
    StoredWellFormed(d, updates);
    StoredKeeps(db, d, updates);
    WellFormedReadable(d, Stored(d, updates));
    ParsedIsRestored(db, d, now, Stored(d, updates));
    StoredIsHistory(d, updates, now);
    assert Seen(d, updates, now) == seq(|updates|, k requires 0 <= k < |updates| => ParsedVars(db, now, updates[k]));
  }

  /** The stored state keeps the object of the first update. */
  lemma {:induction false} StoredKeeps(db: Catalog, d: Desc, updates: seq<State>)
    requires updates != [] && forall k :: 0 <= k < |updates| ==> Fits(d, updates[k]) && Found(db, updates[k])
    ensures Found(db, Stored(d, updates))
    decreases |updates|
  {
    hide WellFormed;
    if |updates| > 1 {
      StoredKeeps(db, d, updates[..|updates| - 1]);
    }
  }

  // ---- merge ----

  function MergeCell(a: Cell, b: Cell): Cell {
    if Later(b.timestamp, a.timestamp) then b else a
  }

  function MergeVars(a: seq<Cell>, b: seq<Cell>): (r: seq<Cell>)
    requires |a| == |b|
    ensures |r| == |a|
    ensures forall i :: 0 <= i < |a| ==> !Later(a[i].timestamp, r[i].timestamp) && !Later(b[i].timestamp, r[i].timestamp)
  {
    seq(|a|, i requires 0 <= i < |a| => MergeCell(a[i], b[i]))
  }

  /** State::merge: nothing happens to a null state, or when the descriptors differ. */
  function Merge(a: State, b: State): State
    requires a.State? ==> b.State?
    requires a.State? && a.desc == b.desc ==> |a.vars| == |b.vars|
  {
    if a.Null? || a.desc != b.desc then a else a.(vars := MergeVars(a.vars, b.vars))
  }

  /** Two states can be merged in either order if and only if equal timestamps mean equal cells. */
  lemma MergeCommutesIff(a: seq<Cell>, b: seq<Cell>)
    requires |a| == |b|
    ensures MergeVars(a, b) == MergeVars(b, a)
       <==> forall i :: 0 <= i < |a| && a[i].timestamp == b[i].timestamp ==> a[i] == b[i]
  {
    if MergeVars(a, b) == MergeVars(b, a) {
      forall i | 0 <= i < |a| && a[i].timestamp == b[i].timestamp ensures a[i] == b[i] {
        assert MergeVars(a, b)[i] == a[i] && MergeVars(b, a)[i] == b[i];
      }
    } else {
      var i :| 0 <= i < |a| && MergeVars(a, b)[i] != MergeVars(b, a)[i];
    }
  }

  /** Any way of merging a collection of states. */
  datatype Merging = One(vars: seq<Cell>) | Both(into: Merging, from: Merging)

  predicate Sized(m: Merging, n: nat) {
    match m
    case One(vars) => |vars| == n
    case Both(l, r) => Sized(l, n) && Sized(r, n)
  }

  function Outcome(m: Merging, n: nat): (r: seq<Cell>)
    requires Sized(m, n)
    ensures |r| == n
  {
    match m
    case One(vars) => vars
    case Both(l, r) => MergeVars(Outcome(l, n), Outcome(r, n))
  }

  function Sources(m: Merging): set<seq<Cell>> {
    match m
    case One(vars) => {vars}
    case Both(l, r) => Sources(l) + Sources(r)
  }

  /** c is variable i of one of the sources, and none of them has a later timestamp for it. */
  predicate Latest(sources: set<seq<Cell>>, i: nat, c: Cell) {
    && (exists s: seq<Cell> :: s in sources && i < |s| && s[i] == c)
    && (forall s: seq<Cell> :: s in sources && i < |s| ==> !Later(s[i].timestamp, c.timestamp))
  }

  /** merge is last-writer-wins: every variable of the outcome is a latest one. */
  lemma {:induction false} OutcomeIsLatest(m: Merging, n: nat, i: nat)
    requires Sized(m, n) && i < n
    ensures Latest(Sources(m), i, Outcome(m, n)[i])
  {
    match m
    case One(vars) => assert vars in Sources(m);
    case Both(l, r) =>
      OutcomeIsLatest(l, n, i);
      OutcomeIsLatest(r, n, i);
      var c := Outcome(m, n)[i];
      var from := if Later(Outcome(r, n)[i].timestamp, Outcome(l, n)[i].timestamp) then r else l;
      var s :| s in Sources(from) && i < |s| && s[i] == Outcome(from, n)[i];
      assert s in Sources(m) && s[i] == c;
  }

  /** Equal timestamps mean equal cells. */
  predicate Consistent(sources: set<seq<Cell>>) {
    forall s: seq<Cell>, t: seq<Cell>, i: int ::
      s in sources && t in sources && 0 <= i < |s| && i < |t| && s[i].timestamp == t[i].timestamp ==>
      s[i] == t[i]
  }

  /** When equal timestamps mean equal cells, the outcome depends only on which states are merged:
      not on order, grouping or repetition. */
  lemma MergeConverges(m: Merging, m': Merging, n: nat)
    requires Sized(m, n) && Sized(m', n)
    requires Sources(m) == Sources(m') && Consistent(Sources(m))
    ensures Outcome(m, n) == Outcome(m', n)
  {
    forall i | 0 <= i < n ensures Outcome(m, n)[i] == Outcome(m', n)[i] {
      OutcomeIsLatest(m, n, i);
      OutcomeIsLatest(m', n, i);
    }
  }
}
