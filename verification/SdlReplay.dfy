/** What a host makes of its players' blobs, and what a late joiner makes of the host's
    (GameServ/GameHost.cpp:344-355, 433-488). */
module SdlReplay {
  import opened Bytes
  import opened SdlTypes
  import opened SdlElements
  import opened SdlCodec
  import opened SdlRoundTrip
  import opened SdlCombine
  import opened DescriptorDb

  // ---- a parsed state is well-formed ----

  lemma LandedOf(ty: VarType, slot: Elem, e: Elem)
    requires ElemOf(ty, slot) && ElemOf(ty, e) && (ty.Creatable? ==> slot == ObjectElem(None))
    ensures ElemOf(ty, Landed(ty, slot, e)) && (Writable(e) ==> Writable(Landed(ty, slot, e)))
    ensures Landed(ty, slot, Landed(ty, slot, e)) == Landed(ty, slot, e)
    ensures !ty.Rgb? && !ty.Rgb8? ==> Landed(ty, slot, e) == e
  {
    if !ty.Rgb? && !ty.Rgb8? {
      LandedSame(ty, slot, e);
    }
  }

  lemma SlotHoldsNothing(vd: VarDesc)
    requires WellTyped(vd) && vd.ty.Creatable?
    ensures Slot(vd) == ObjectElem(None)
  {
  }

  /** The elements that a flat variable has after it has been read. */
  lemma LandedElems(vd: VarDesc, c: Cell)
    requires WellTyped(vd) && CellMatches(vd, c) && c.payload.Flat?
    ensures var landed := LandedAll(vd, c.payload.elems);
            && |landed| == |c.payload.elems|
            && (forall k :: 0 <= k < |landed| ==>
                  && ElemOf(vd.ty, landed[k]) && (Writable(c.payload.elems[k]) ==> Writable(landed[k]))
                  && (!vd.ty.Rgb? && !vd.ty.Rgb8? ==> landed[k] == c.payload.elems[k]))
            && LandedAll(vd, landed) == landed
  {
    hide Landed, ElemOf, Writable, Slot;
    var elems := c.payload.elems;
    var landed := LandedAll(vd, elems);
    forall k | 0 <= k < |landed|
      ensures ElemOf(vd.ty, landed[k]) && (Writable(elems[k]) ==> Writable(landed[k]))
      ensures Landed(vd.ty, Slot(vd), landed[k]) == landed[k]
      ensures !vd.ty.Rgb? && !vd.ty.Rgb8? ==> landed[k] == elems[k]
    {
      if vd.ty.Creatable? {
        SlotHoldsNothing(vd);
      }
      LandedOf(vd.ty, Slot(vd), elems[k]);
    }
    assert LandedAll(vd, landed) == landed;
  }

  lemma SavedFlatMatches(vd: VarDesc, c: Cell, now: UnifiedTime)
    requires WellTyped(vd) && CellMatches(vd, c) && c.payload.Flat?
    ensures CellMatches(vd, Saved(vd, c, now))
  {
    hide LandedAll, ElemOf, Marked, DefaultElem;
    LandedElems(vd, c);
  }

  lemma {:induction false} RestoredMatches(d: Desc, st: State, now: UnifiedTime)
    requires WellTypedDesc(d) && Matches(d, st)
    ensures Matches(d, Restored(d, st, now))
    decreases d, 0
  {
    hide CellMatches, FreshCell, Saved;
    forall i | 0 <= i < |d.vars| && st.vars[i].dirty ensures CellMatches(d.vars[i], Saved(d.vars[i], st.vars[i], now)) {
      SavedMatches(d.vars[i], st.vars[i], now);
    }
  }

  lemma {:induction false} SavedMatches(vd: VarDesc, c: Cell, now: UnifiedTime)
    requires WellTyped(vd) && CellMatches(vd, c)
    ensures CellMatches(vd, Saved(vd, c, now))
    decreases vd, 1
  {
    hide Matches, Restored, Marked, FreshElems, LandedAll;
    match c.payload
    case Flat(_) => SavedFlatMatches(vd, c, now);
    case Nested(children) =>
      forall k | 0 <= k < |children| && vd.child.Some?
        ensures Matches(vd.child.value, Restored(vd.child.value, children[k], now))
      {
        RestoredMatches(vd.child.value, children[k], now);
      }
  }

  /** What is parsed of a well-formed state is well-formed. */
  lemma {:induction false} RestoredWellFormed(d: Desc, st: State, now: UnifiedTime)
    requires WellFormed(d, st)
    ensures Matches(d, st) && WellFormed(d, Restored(d, st, now))
    decreases d, 0
  {
    hide WellFormedCell, CellMatches, FreshCell, Saved, Positions, WellTyped;
    var r := Restored(d, st, now);
    RestoredMatches(d, st, now);
    MatchesShaped(d, r);
    forall i | 0 <= i < |d.vars|
      ensures r.vars[i].dirty == st.vars[i].dirty && (st.vars[i].dirty ==> WellFormedCell(d.vars[i], r.vars[i]))
    {
      RestoredDirty(d.vars[i], st.vars[i], now);
      if st.vars[i].dirty {
        SavedWellFormed(d.vars[i], st.vars[i], now);
      }
    }
  }

  lemma {:induction false} SavedWellFormed(vd: VarDesc, c: Cell, now: UnifiedTime)
    requires WellFormedCell(vd, c)
    ensures WellFormedCell(vd, Saved(vd, c, now))
    decreases vd, 1
  {
    hide WellFormed, Matches, Restored, ChildMatches, ElemOf, Writable, LandedAll, IsDefaultCell, WellFormedChild, RestoredChild;
    SavedMatches(vd, c, now);
    CellMatchesShaped(vd, Saved(vd, c, now));
    match c.payload
    case Flat(_) => LandedElems(vd, c);
    case Nested(children) =>
      forall k | 0 <= k < |children| ensures WellFormedChild(vd, RestoredChild(vd, children[k], now)) {
        ChildWellFormed(vd, children[k], now);
      }
  }

  lemma {:induction false} ChildWellFormed(vd: VarDesc, ch: State, now: UnifiedTime)
    requires WellTyped(vd) && WellFormedChild(vd, ch)
    ensures ChildMatches(vd, ch) && WellFormedChild(vd, RestoredChild(vd, ch, now))
    decreases vd, 0
  {
    hide CellMatches, FreshCell, Saved, WellFormedCell, WellTyped;
    var d := vd.child.value;
    RestoredWellFormed(d, ch, now);
    var i :| 0 <= i < |ch.vars| && ch.vars[i].dirty;
    RestoredDirty(d.vars[i], ch.vars[i], now);
    assert Restored(d, ch, now).vars[i].dirty;
  }

  // ---- parsing what has been parsed ----

  /** The same but for the flags, to any depth. */
  predicate SameCell(a: Cell, b: Cell) {
    a.dirty == b.dirty && a.timestamp == b.timestamp && a.hint == b.hint && SamePayload(a.payload, b.payload)
  }

  /** For the types with alpha in memory only, to be the default is to compare equal to it. */
  lemma DefaultColor(vd: VarDesc, e: Elem)
    requires WellTyped(vd) && (vd.ty.Rgb? || vd.ty.Rgb8?) && vd.dflt.Some? && IsDefaultElem(vd, e)
    ensures e == DefaultElem(vd)
  {
  }

  /** A flat variable that has been restored is restored with the same value. */
  lemma SavedFlatTwice(vd: VarDesc, c: Cell, now: UnifiedTime, later: UnifiedTime)
    requires WellTyped(vd) && CellMatches(vd, c) && c.payload.Flat?
    ensures var s := Saved(vd, c, now); CellMatches(vd, s) && SameCell(Saved(vd, s, later), s)
  {
    hide LandedAll, ElemOf, DefaultElem, IsDefaultElem, CellMatches;
    SavedFlatMatches(vd, c, now);
    CellMatchesShaped(vd, c);
    LandedElems(vd, c);
    var s := Saved(vd, c, now);
    CellMatchesShaped(vd, s);
    var before, elems := c.payload.elems, s.payload.elems;
    if !Marked(vd, c).sameAsDefault && Marked(vd, s).sameAsDefault {
      assert vd.dflt.Some? && forall k :: 0 <= k < |elems| ==> IsDefaultElem(vd, elems[k]);
      assert !vd.ty.Rgb? && !vd.ty.Rgb8? ==> elems == before;
      forall k | 0 <= k < |elems| ensures elems[k] == DefaultElem(vd) {
        DefaultColor(vd, elems[k]);
      }
      ShapedLength(vd, s);
      assert elems == FreshElems(vd);
    }
  }

  lemma ShapedLength(vd: VarDesc, c: Cell)
    requires CellMatches(vd, c) && c.payload.Flat? && !vd.VariableLength()
    ensures |c.payload.elems| == vd.FixedLen()
  {
  }

  lemma {:induction false} SavedTwice(vd: VarDesc, c: Cell, now: UnifiedTime, later: UnifiedTime)
    requires WellTyped(vd) && CellMatches(vd, c)
    ensures var s := Saved(vd, c, now); CellMatches(vd, s) && SameCell(Saved(vd, s, later), s)
    decreases vd, 1
  {
    hide Matches, Restored, Marked, FreshElems, LandedAll, SameValues;
    SavedMatches(vd, c, now);
    match c.payload
    case Flat(_) => SavedFlatTwice(vd, c, now, later);
    case Nested(children) =>
      var s := Saved(vd, c, now);
      forall k | 0 <= k < |children|
        ensures ChildMatches(vd, RestoredChild(vd, children[k], now))
        ensures SameValues(RestoredChild(vd, RestoredChild(vd, children[k], now), later), RestoredChild(vd, children[k], now))
      {
        ChildTwice(vd, children[k], now, later);
      }
  }

  lemma {:induction false} ChildTwice(vd: VarDesc, ch: State, now: UnifiedTime, later: UnifiedTime)
    requires WellTyped(vd) && ChildMatches(vd, ch)
    ensures ChildMatches(vd, RestoredChild(vd, ch, now))
    ensures SameValues(RestoredChild(vd, RestoredChild(vd, ch, now), later), RestoredChild(vd, ch, now))
    decreases vd, 0
  {
    hide Matches, Restored, WellTypedDesc, SamePayload;
    if vd.child.Some? {
      var d := vd.child.value;
      RestoredMatches(d, ch, now);
      RestoredTwice(d, ch, now, later);
    }
  }

  /** Restoring twice is restoring once, but for the default flag of colours whose alpha is not saved. */
  lemma {:induction false} RestoredTwice(d: Desc, st: State, now: UnifiedTime, later: UnifiedTime)
    requires WellTypedDesc(d) && Matches(d, st)
    ensures var r := Restored(d, st, now);
            && Matches(d, r) && SameValues(Restored(d, r, later), r)
            && forall i :: 0 <= i < |d.vars| ==> SameCell(Restored(d, r, later).vars[i], r.vars[i])
    decreases d, 0
  {
    hide CellMatches, FreshCell, Saved, WellTyped, SamePayload;
    RestoredMatches(d, st, now);
    var r := Restored(d, st, now);
    forall i | 0 <= i < |d.vars| ensures SameCell(Restored(d, r, later).vars[i], r.vars[i]) {
      var vd, c := d.vars[i], st.vars[i];
      RestoredDirty(vd, c, now);
      if c.dirty {
        SavedTwice(vd, c, now, later);
      } else {
        SamePayloadSelf(r.vars[i].payload);
      }
    }
  }

  // ---- a late joiner ----

  /** The state that a host parses of the blob that a player sends. */
  function HostState(db: Catalog, now: UnifiedTime, u: State): State
    requires ValidCatalog(db) && Shaped(u)
  {
    var r := FromBlob(db, now, ToBlob(u));
    if r.Parsed? then r.value else Null
  }

  /** A state that a player can send: well-formed, of descriptor d, which the host has. */
  predicate Sendable(db: Catalog, d: Desc, u: State) {
    && Accepted(d, u) && u.State? && Found(db, u) && Shaped(u)
  }

  predicate Known(db: Catalog, d: Desc) {
    ValidCatalog(db) && WellTypedDesc(d) && (d.name, d.version) in db && db[(d.name, d.version)] == d
  }

  /** What the host makes of it can be sent as well. */
  lemma HostStateSendable(db: Catalog, d: Desc, now: UnifiedTime, u: State)
    requires Known(db, d) && Sendable(db, d, u)
    ensures var h := HostState(db, now, u);
            && Sendable(db, d, h) && Fits(d, h)
            && Matches(d, u) && h.vars == Restored(d, u, now).vars
  {
    hide WellFormed, Matches, FromBlob, ToBlob, Shaped, WellTypedDesc, Restored, SafeStr;
    WellFormedReadable(d, u);
    BlobRestored(db, u, now);
    RestoredWellFormed(d, u, now);
    OtherObject(d, Restored(d, u, now), SavedObject(u));
    SafeNull();
  }

  lemma SafeNull()
    ensures SafeStr(NULL_UOID.name)
  {
  }

  lemma OtherObject(d: Desc, st: State, objectKey: Uoid)
    requires WellFormed(d, st)
    ensures st.State? && WellFormed(d, st.(objectKey := objectKey)) && Shaped(st.(objectKey := objectKey))
  {
    hide CellMatches, CellShaped, WellFormedCell, WellTypedDesc, Positions;
  }

  predicate SameCells(a: seq<Cell>, b: seq<Cell>) {
    |a| == |b| && forall i :: 0 <= i < |a| ==> SameCell(a[i], b[i])
  }

  /** Updates that are the same make the same states. */
  lemma {:induction false} AppliedSame(base: seq<Cell>, us: seq<seq<Cell>>, vs: seq<seq<Cell>>)
    requires |us| == |vs| && forall k :: 0 <= k < |us| ==> |us[k]| == |base| && SameCells(us[k], vs[k])
    ensures forall k :: 0 <= k < |vs| ==> |vs[k]| == |base|
    ensures SameCells(Applied(base, us), Applied(base, vs))
    decreases |us|
  {
    hide SamePayload;
    if us == [] {
      forall i | 0 <= i < |base| ensures SameCell(base[i], base[i]) {
        SamePayloadSelf(base[i].payload);
      }
    } else {
      AppliedSame(base, us[..|us| - 1], vs[..|vs| - 1]);
    }
  }

  function HostStates(db: Catalog, times: seq<UnifiedTime>, sent: seq<State>): (r: seq<State>)
    requires ValidCatalog(db) && |times| == |sent| && forall k :: 0 <= k < |sent| ==> Shaped(sent[k])
    ensures |r| == |sent| && forall k :: 0 <= k < |r| ==> r[k] == HostState(db, times[k], sent[k])
  {
    seq(|sent|, k requires 0 <= k < |sent| => HostState(db, times[k], sent[k]))
  }

  /** What is parsed of blobs, one after the other, each at its time. */
  function AllParsed(db: Catalog, times: seq<UnifiedTime>, us: seq<State>): (r: seq<seq<Cell>>)
    requires ValidCatalog(db) && |times| == |us| && forall k :: 0 <= k < |us| ==> Shaped(us[k])
    ensures |r| == |us| && forall k :: 0 <= k < |r| ==> r[k] == ParsedVars(db, times[k], us[k])
  {
    seq(|us|, k requires 0 <= k < |us| => ParsedVars(db, times[k], us[k]))
  }

  /** The end-to-end property: players send the blobs of well-formed states, the host parses and adds them
      up, and a late joiner parses the blob of what the host stores. It sees, but for flags, what all the
      players' blobs make, parsed when the host parses them and applied in order to a fresh state; a variable
      that asks for a timestamp has, at any later time, that of the host's clock. */
  lemma LateJoinerCatchesUp(db: Catalog, d: Desc, times: seq<UnifiedTime>, sent: seq<State>, now: UnifiedTime)
    requires Known(db, d) && sent != [] && |times| == |sent|
    requires forall k :: 0 <= k < |sent| ==> Sendable(db, d, sent[k]) && Shaped(sent[k])
    ensures var hosts := HostStates(db, times, sent);
            && (forall k :: 0 <= k < |sent| ==> Sendable(db, d, hosts[k]) && Fits(d, hosts[k]))
            && Shaped(Stored(d, hosts))
            && (forall k :: 0 <= k < |sent| ==> |AllParsed(db, times, sent)[k]| == |d.vars|)
            && SameCells(ParsedVars(db, now, Stored(d, hosts)), Applied(FreshVars(d), AllParsed(db, times, sent)))
  {
    hide WellFormed, Matches, Restored, ParsedVars, Shaped, FreshVars, WellTypedDesc, Applied, Found, HostState, ToBlob,
         FromBlob, SameCell, ValidCatalog;
    var hosts := HostStates(db, times, sent);
    forall k | 0 <= k < |sent|
      ensures Sendable(db, d, hosts[k]) && Fits(d, hosts[k])
      ensures |ParsedVars(db, times[k], sent[k])| == |d.vars|
      ensures SameCells(ParsedVars(db, now, hosts[k]), ParsedVars(db, times[k], sent[k]))
    {
      HostStateSendable(db, d, times[k], sent[k]);
      ParsedIsRestored(db, d, times[k], sent[k]);
      ParsedIsRestored(db, d, now, hosts[k]);
      RestoredTwice(d, sent[k], times[k], now);
      RestoredVarsOnly(d, hosts[k], Restored(d, sent[k], times[k]), now);
    }
    SnapshotEqualsHistory(db, d, hosts, now);
    var seen := AllParsed(db, seq(|hosts|, _ => now), hosts);
    assert seen == seq(|hosts|, k requires 0 <= k < |hosts| => ParsedVars(db, now, hosts[k]));
    AppliedSame(FreshVars(d), seen, AllParsed(db, times, sent));
  }

  lemma RestoredVarsOnly(d: Desc, a: State, b: State, now: UnifiedTime)
    requires WellTypedDesc(d) && Matches(d, a) && Matches(d, b) && a.vars == b.vars
    ensures Restored(d, a, now).vars == Restored(d, b, now).vars
  {
    hide RestoredCell, CellMatches;
  }
}
