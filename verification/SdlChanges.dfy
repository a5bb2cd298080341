/** In-place changes of a global variable, and which of them a saved blob keeps
    (AuthServ/AuthDaemon.cpp:943-1005). */
module SdlChanges {
  import opened Bytes
  import opened SdlTypes
  import opened SdlElements
  import opened SdlCodec
  import opened SdlRoundTrip
  import opened SdlSurvival

  datatype Reply = Success | StateObjectNotFound | NotSupported | InvalidParameter

  /** The text of a new value with its conversions: to_bool, to_int and to_uint. */
  datatype Text = Text(s: Str, asBool: bool, asInt: int, asUint: nat) {
    predicate Valid() { -0x8000_0000 <= asInt < 0x8000_0000 && asUint < 0x1_0000_0000 }
  }

  predicate Settable(ty: VarType) {
    ty.Bool? || ty.Byte? || ty.Int? || ty.Short? || ty.String?
  }

  /** The types that the daemon can set; any other is answered as not supported. */
  lemma SettableIff(ty: VarType)
    ensures Settable(ty) <==> ty in {Bool, Byte, Int, Short, String}
  {
  }

  function TextElem(ty: VarType, t: Text): (e: Elem)
    requires Settable(ty) && t.Valid()
    ensures ElemOf(ty, e)
  {
    match ty
    case Bool => BoolElem(t.asBool)
    case Byte => IntElem(ToInt8(t.asUint))
    case Int => IntElem(t.asInt)
    case Short => IntElem(ToInt16(t.asInt))
    case String => StringElem(t.s)
  }

  /** The changed cell: stamped and dirty, with the default when value is None; a type that cannot be
      set keeps its value. */
  function Changed(vd: VarDesc, c: Cell, now: UnifiedTime, value: Option<Text>): (r: Cell)
    requires WellTyped(vd) && !vd.ty.StateDesc? && CellMatches(vd, c)
    requires value.Some? ==> value.value.Valid() && (Settable(vd.ty) ==> c.payload.elems != [])
    ensures CellMatches(vd, r) && |r.payload.elems| == |c.payload.elems|
  {
    var elems := c.payload.elems;
    var payload :=
      if value.None? then Flat(seq(|elems|, _ => DefaultElem(vd)))
      else if Settable(vd.ty) then Flat(elems[0 := TextElem(vd.ty, value.value)])
      else Flat(elems);
    Cell(payload, c.flags.(hasTimeStamp := true, sameAsDefault := value.None?), true, now, c.hint)
  }

  /** A change that takes effect: back to the default, or a new value of a type that can be set. */
  predicate Effective(vd: VarDesc, value: Option<Text>) {
    !vd.ty.StateDesc? && (value.Some? ==> Settable(vd.ty))
  }

  /** e is the text as a value of the type: bytes and shorts are cut to their width, with a sign. */
  predicate IsValueOf(ty: VarType, t: Text, e: Elem) {
    match ty
    case Bool => e == BoolElem(t.asBool)
    case Int => e == IntElem(t.asInt)
    case Byte => e.IntElem? && -0x80 <= e.n < 0x80 && (t.asUint - e.n) % 0x100 == 0
    case Short => e.IntElem? && -0x8000 <= e.n < 0x8000 && (t.asInt - e.n) % 0x1_0000 == 0
    case String => e == StringElem(t.s)
    case _ => false
  }

  /** After a change, element 0 is the value of the text and the rest is kept, or all is the default; the
      variable is dirty, stamped with the clock, and flagged as default exactly in the latter case. */
  lemma ChangedValue(vd: VarDesc, c: Cell, now: UnifiedTime, value: Option<Text>)
    requires WellTyped(vd) && CellMatches(vd, c) && Effective(vd, value)
    requires value.Some? ==> value.value.Valid() && c.payload.elems != []
    ensures var r, before := Changed(vd, c, now, value), c.payload.elems;
            var after := r.payload.elems;
            && |after| == |before|
            && (value.Some? ==> IsValueOf(vd.ty, value.value, after[0]))
            && (value.Some? ==> forall k :: 0 < k < |before| ==> after[k] == before[k])
            && (value.None? ==> forall k :: 0 <= k < |before| ==> after[k] == DefaultElem(vd))
            && r.dirty && r.timestamp == now && r.hint == c.hint
            && r.flags == c.flags.(hasTimeStamp := true, sameAsDefault := value.None?)
  {
    hide DefaultElem;
    if value.Some? {
      TextIs(vd.ty, value.value);
    }
  }

  lemma TextIs(ty: VarType, t: Text)
    requires Settable(ty) && t.Valid()
    ensures IsValueOf(ty, t, TextElem(ty, t))
  {
    Cut(t.asUint, 0x80);
    Cut(t.asInt, 0x8000);
  }

  lemma Cut(n: int, half: nat)
    requires half == 0x80 || half == 0x8000
    ensures (n - ((n + half) % (2 * half) - half)) % (2 * half) == 0
  {
    if half == 0x80 {
      assert n + 0x80 == 0x100 * ((n + 0x80) / 0x100) + (n + 0x80) % 0x100;
    } else {
      assert n + 0x8000 == 0x1_0000 * ((n + 0x8000) / 0x1_0000) + (n + 0x8000) % 0x1_0000;
    }
  }

  /** Every element of a fixed array is the valid default. */
  predicate AllDefault(vd: VarDesc, elems: seq<Elem>) {
    !vd.VariableLength() && vd.dflt.Some? && forall k :: 0 <= k < |elems| ==> elems[k] == vd.dflt.value
  }

  /** What a change must be for the saved blob to keep it. The length of a variable-length array is only
      written together with a value, and strings in it have their limits. */
  predicate KeepsChange(vd: VarDesc, c: Cell, value: Option<Text>)
    requires Effective(vd, value) && c.payload.Flat?
    requires value.Some? ==> value.value.Valid() && c.payload.elems != []
  {
    if value.None? then !(vd.VariableLength() && c.payload.elems != [])
    else
      var elems := c.payload.elems[0 := TextElem(vd.ty, value.value)];
      AllDefault(vd, elems)
      || ((vd.VariableLength() ==> |elems| < MAX_ELEMENTS) && forall k :: 0 <= k < |elems| ==> Writable(elems[k]))
  }

  /** A changed variable is dirty and stamped, so it is in the next blob of the global state; and reading
      that back gives its value if and only if the change is one that the blob keeps. */
  lemma ChangeSurvivesIff(vd: VarDesc, c: Cell, now: UnifiedTime, value: Option<Text>, later: UnifiedTime,
                          data: seq<byte>, pos: nat)
    requires WellTyped(vd) && CellMatches(vd, c) && Effective(vd, value)
    requires value.Some? ==> value.value.Valid() && c.payload.elems != []
    requires CellShaped(vd, Changed(vd, c, now, value)) && At(data, pos, VarBytes(vd, Changed(vd, c, now, value)))
    ensures var changed := Changed(vd, c, now, value);
            var r := ReadVar(vd, FreshCell(vd), later, data, pos);
            && changed.dirty && changed.flags.hasTimeStamp && changed.timestamp == now
            && (r.Parsed? && r.value.payload == changed.payload <==> KeepsChange(vd, c, value))
            && (KeepsChange(vd, c, value) ==>
                  && r.next == pos + |VarBytes(vd, changed)|
                  && r.value.timestamp == if c.flags.hasDirtyFlag && c.flags.wantTimeStamp then later else now)
  {
    hide FreshChildren, TextElem, ElemOf, DefaultElem, VarBytes, ReadVar, At, Writable, IsDefaultElem, IsDefault, Shaped;
    var changed := Changed(vd, c, now, value);
    ValueRestoredIffDetermined(vd, changed, later, data, pos);
    ChangeDeterminedIff(vd, c, now, value);
  }

  lemma ChangeDeterminedIff(vd: VarDesc, c: Cell, now: UnifiedTime, value: Option<Text>)
    requires WellTyped(vd) && CellMatches(vd, c) && Effective(vd, value)
    requires value.Some? ==> value.value.Valid() && c.payload.elems != []
    requires CellShaped(vd, Changed(vd, c, now, value))
    ensures Determined(vd, Changed(vd, c, now, value)) <==> KeepsChange(vd, c, value)
  {
    hide FreshChildren, TextElem, ElemOf, DefaultElem, Determined, CellShaped, Writable, AllDefault, WellTyped;
    var r := Changed(vd, c, now, value);
    if value.None? {
      DefaultDeterminedIff(vd, r);
    } else {
      SetDeterminedIff(vd, r);
    }
  }

  lemma DefaultDeterminedIff(vd: VarDesc, r: Cell)
    requires WellTyped(vd) && CellMatches(vd, r) && CellShaped(vd, r) && r.payload.Flat? && r.flags.sameAsDefault
    requires forall k :: 0 <= k < |r.payload.elems| ==> r.payload.elems[k] == DefaultElem(vd)
    ensures Determined(vd, r) <==> !(vd.VariableLength() && r.payload.elems != [])
  {
    hide ElemOf, DefaultElem, Survives, IsDefaultElem, IsDefault, Shaped;
    assert Marked(vd, r).sameAsDefault;
    if !vd.VariableLength() {
      assert r.payload.elems == FreshElems(vd);
    }
  }

  lemma SetDeterminedIff(vd: VarDesc, r: Cell)
    requires WellTyped(vd) && CellMatches(vd, r) && CellShaped(vd, r) && Settable(vd.ty) && !r.flags.sameAsDefault
    ensures var elems := r.payload.elems;
            Determined(vd, r)
            <==> AllDefault(vd, elems)
                 || ((vd.VariableLength() ==> |elems| < MAX_ELEMENTS) && forall k :: 0 <= k < |elems| ==> Writable(elems[k]))
  {
    hide ElemOf, DefaultElem, Writable, IsDefaultElem, IsDefault, Shaped;
    var elems := r.payload.elems;
    ComparedIff(vd, elems);
    assert Marked(vd, r).sameAsDefault <==> AllDefault(vd, elems);
    if AllDefault(vd, elems) {
      forall k | 0 <= k < |elems| ensures elems[k] == FreshElems(vd)[k] {
        DefaultIs(vd, elems[k]);
      }
      assert elems == FreshElems(vd);
    }
  }

  /** For a settable type, to compare equal to the default is to be the default. */
  lemma ComparedIff(vd: VarDesc, elems: seq<Elem>)
    requires Settable(vd.ty)
    ensures vd.dflt.Some? ==> forall k :: 0 <= k < |elems| ==> (IsDefaultElem(vd, elems[k]) <==> elems[k] == vd.dflt.value)
  {
  }

  /** An element of a settable type that compares equal to the default is the default. */
  lemma DefaultIs(vd: VarDesc, e: Elem)
    requires WellTyped(vd) && Settable(vd.ty) && ElemOf(vd.ty, e) && vd.dflt.Some? && IsDefaultElem(vd, e)
    ensures DefaultElem(vd) == e
  {
  }

  /** Witness: the default put into a variable-length array that is not empty. */
  lemma DefaultArrayIsLost(now: UnifiedTime, later: UnifiedTime)
    ensures var vd := VarDesc([], Int, [], -1, None, None);
            var c := Changed(vd, Cell(Flat([IntElem(5)]), NO_FLAGS, true, NULL_TIME, []), now, None);
            var r := ReadVar(vd, FreshCell(vd), later, VarBytes(vd, c), 0);
            !(r.Parsed? && r.value.payload == c.payload)
  {
    hide VarBytes, ReadVar, At;
    var vd := VarDesc([], Int, [], -1, None, None);
    var before := Cell(Flat([IntElem(5)]), NO_FLAGS, true, NULL_TIME, []);
    WholeAt(VarBytes(vd, Changed(vd, before, now, None)));
    ChangeSurvivesIff(vd, before, now, None, later, VarBytes(vd, Changed(vd, before, now, None)), 0);
  }

  /** Witness: a text of forty letters. */
  lemma LongTextIsLost(now: UnifiedTime, later: UnifiedTime)
    ensures var vd := VarDesc([], String, [], 1, None, None);
            var text := Text(seq(40, _ => 65), false, 0, 0);
            var c := Changed(vd, Cell(Flat([StringElem([])]), NO_FLAGS, true, NULL_TIME, []), now, Some(text));
            var r := ReadVar(vd, FreshCell(vd), later, VarBytes(vd, c), 0);
            !(r.Parsed? && r.value.payload == c.payload)
  {
    hide VarBytes, ReadVar, At;
    var vd := VarDesc([], String, [], 1, None, None);
    var text := Text(seq(40, _ => 65), false, 0, 0);
    var before := Cell(Flat([StringElem([])]), NO_FLAGS, true, NULL_TIME, []);
    var c := Changed(vd, before, now, Some(text));
    assert !Writable(c.payload.elems[0]);
    WholeAt(VarBytes(vd, c));
    ChangeSurvivesIff(vd, before, now, Some(text), later, VarBytes(vd, c), 0);
  }

  lemma WholeAt(data: seq<byte>)
    ensures At(data, 0, data)
  {
    assert data[0..|data|] == data;
  }
}
