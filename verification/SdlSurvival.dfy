/** Which values survive being written and read back: the exact conditions, for everything that can be
    in memory (SDL/StateInfo.cpp:182-371, 373-464). */
module SdlSurvival {
  import opened Bytes
  import opened SdlTypes
  import opened SdlElements
  import opened SdlCodec
  import opened SdlRoundTrip
  import SafeString

  // ---- elements ----

  /** A name that is not safe is read to its end, but is another name. */
  lemma UnsafeName(data: seq<byte>, pos: nat, s: Str)
    requires At(data, pos, SafeBytes(s)) && !SafeStr(s)
    ensures var r := ReadSafe(data, pos); r.Parsed? && r.next == pos + |SafeBytes(s)| && r.value != s
  {
    SafeString.ReadWritten(SafeString.Raw8, data, pos, s);
    SafeString.SurvivesIffSafe(SafeString.Raw8, data, pos, s);
  }

  lemma UnsafeKey(data: seq<byte>, pos: nat, k: Uoid)
    requires At(data, pos, UoidBytes(k)) && !SafeStr(k.name)
    ensures var r := ReadUoid(data, pos); r.Parsed? ==> r.value != k
  {
    hide ReadUoidHead, UoidHead, UoidClone, ReadUoidClone, ReadSafe, SafeBytes, SafeStr;
    UoidParts(data, pos, UoidHead(k), SafeBytes(k.name), UoidClone(k));
    UoidHeadRoundTrip(data, pos, k);
    UnsafeName(data, pos + |UoidHead(k)|, k.name);
  }

  lemma LongObject(o: Option<Object>, data: seq<byte>, pos: nat)
    requires ElemOf(Creatable, ObjectElem(o)) && !Writable(ObjectElem(o)) && At(data, pos, ObjectBytes(o))
    ensures var r := ReadObject(data, pos); r.Parsed? ==> r.value != o
  {
    hide At, Le16, Le32, ReadU16, ReadU32;
    var body := o.value.body;
    var size := |body| % 0x1_0000_0000;
    AtSplit(data, pos, Le16(o.value.classId) + Le32(size), body);
    AtSplit(data, pos, Le16(o.value.classId), Le32(size));
    ReadU16At(data, pos, o.value.classId);
    ReadU32At(data, pos + 2, size);
  }

  lemma UnwritableChanges(ty: VarType, slot: Elem, e: Elem, data: seq<byte>, pos: nat)
    requires ElemOf(ty, slot) && ElemOf(ty, e) && !Writable(e) && At(data, pos, ElemBytes(ty, e))
    requires ty.Creatable? ==> slot == ObjectElem(None)
    ensures var r := ReadElem(ty, slot, data, pos); r.Parsed? ==> r.value != e
  {
    hide UoidBytes, ReadUoid, ObjectBytes, ReadObject, FixedString, UntilNul;
    match e
    case StringElem(s) =>
      FixedStringSurvives(s);
      ReadBytesAt(data, pos, FixedString(s));
    case KeyElem(k) => UnsafeKey(data, pos, k);
    case ObjectElem(o) => LongObject(o, data, pos);
  }

  /** An element comes back if and only if it can be written and its alpha is the slot's. */
  lemma ElemSurvivesIff(ty: VarType, slot: Elem, e: Elem, data: seq<byte>, pos: nat)
    requires ElemOf(ty, slot) && ElemOf(ty, e) && At(data, pos, ElemBytes(ty, e))
    requires ty.Creatable? ==> slot == ObjectElem(None)
    ensures var r := ReadElem(ty, slot, data, pos);
            && (r.Parsed? && r.value == e <==> Survives(ty, slot, e))
            && (Survives(ty, slot, e) ==> r.next == pos + |ElemBytes(ty, e)|)
  {
    hide ElemBytes, ReadElem, Landed, AlphaOf, ElemOf, Writable;
    if Writable(e) {
      ElemRoundTrip(ty, slot, e, data, pos);
      LandedIff(ty, slot, e);
    } else {
      UnwritableChanges(ty, slot, e, data, pos);
    }
  }

  lemma {:induction false} ElemsSurviveIff(ty: VarType, slots: seq<Elem>, elems: seq<Elem>, data: seq<byte>, pos: nat)
    requires |slots| == |elems|
    requires forall k :: 0 <= k < |elems| ==>
               ElemOf(ty, elems[k]) && ElemOf(ty, slots[k]) && (ty.Creatable? ==> slots[k] == ObjectElem(None))
    requires At(data, pos, ElemsBytes(ty, elems))
    ensures var r := ReadElems(ty, slots, data, pos);
            && (r.Parsed? && r.value == elems <==> forall k :: 0 <= k < |elems| ==> Survives(ty, slots[k], elems[k]))
            && (r.Parsed? && r.value == elems ==> r.next == pos + |ElemsBytes(ty, elems)|)
    decreases |elems|
  {
    hide ElemBytes, ReadElem, Survives, ElemOf, At;
    if elems != [] {
      var e, rest := elems[0], elems[1..];
      AtSplit(data, pos, ElemBytes(ty, e), ElemsBytes(ty, rest));
      ElemSurvivesIff(ty, slots[0], e, data, pos);
      if Survives(ty, slots[0], e) {
        ElemsSurviveIff(ty, slots[1..], rest, data, pos + |ElemBytes(ty, e)|);
        assert elems == [e] + rest;
        assert (forall k :: 0 <= k < |rest| ==> Survives(ty, slots[1..][k], rest[k]))
            ==> forall k :: 0 < k < |elems| ==> Survives(ty, slots[k], elems[k]) by {
          assert forall k :: 0 < k < |elems| ==> elems[k] == rest[k - 1] && slots[k] == slots[1..][k - 1];
        }
      }
    }
  }

  // ---- flat variables ----

  /** The length and the elements of a variable that is not flagged as default. */
  lemma ValueSurvivesIff(vd: VarDesc, elems: seq<Elem>, flags: Flags, data: seq<byte>, pos: nat)
    requires WellTyped(vd) && CellMatches(vd, Cell(Flat(elems), flags, false, NULL_TIME, [])) && !flags.sameAsDefault
    requires At(data, pos, SizeBytes(vd, |elems|) + ElemsBytes(vd.ty, elems))
    ensures var r := ReadFlat(vd, FreshElems(vd), flags, data, pos);
            && (r.Parsed? && r.value == elems
                <==> (vd.VariableLength() ==> |elems| < MAX_ELEMENTS)
                     && forall k :: 0 <= k < |elems| ==> Survives(vd.ty, Slot(vd), elems[k]))
            && (r.Parsed? && r.value == elems ==>
                  r.next == pos + |SizeBytes(vd, |elems|) + ElemsBytes(vd.ty, elems)|)
  {
    hide ElemsBytes, ReadElems, Survives, ElemOf;
    var n := |elems|;
    AtSplit(data, pos, SizeBytes(vd, n), ElemsBytes(vd.ty, elems));
    if vd.VariableLength() && n >= MAX_ELEMENTS {
      ReadU32At(data, pos, n % 0x1_0000_0000);
    } else {
      SizeRoundTrip(vd, n, |FreshElems(vd)|, data, pos);
      var slots := if vd.VariableLength() then ZeroElems(vd.ty, n) else FreshElems(vd);
      SlotsAre(vd, n);
      ElemsSurviveIff(vd.ty, slots, elems, data, pos + |SizeBytes(vd, n)|);
    }
  }

  lemma SlotsAre(vd: VarDesc, n: nat)
    requires WellTyped(vd) && !vd.ty.StateDesc? && (!vd.VariableLength() ==> n == vd.FixedLen())
    ensures var slots := if vd.VariableLength() then ZeroElems(vd.ty, n) else FreshElems(vd);
            && |slots| == n
            && forall k :: 0 <= k < n ==>
                 slots[k] == Slot(vd) && ElemOf(vd.ty, slots[k]) && (vd.ty.Creatable? ==> slots[k] == ObjectElem(None))
  {
  }

  /** A hint is read to its end, whatever is in it. */
  lemma HintRead(hint: Str, data: seq<byte>, pos: nat)
    requires At(data, pos, HintBytes(hint))
    ensures var r := ReadHint([], data, pos); r.Parsed? && r.next == pos + |HintBytes(hint)|
  {
    if hint == [] {
      ReadU8At(data, pos, 0);
    } else {
      AtSplit(data, pos, [2, 0], SafeBytes(hint));
      AtSplit(data, pos, [2], [0]);
      assert [2, 0] == [2 as byte] + [0];
      ReadU8At(data, pos, 2);
      ReadU8At(data, pos + 1, 0);
      SafeString.ReadWritten(SafeString.Raw8, data, pos + 2, hint);
    }
  }

  lemma StampRead(flags: Flags, timestamp: UnifiedTime, now: UnifiedTime, data: seq<byte>, pos: nat)
    requires flags.hasTimeStamp ==> At(data, pos, TimeBytes(timestamp))
    ensures var r := ReadStamp(flags, NULL_TIME, now, data, pos);
            && r.Parsed? && r.value.0.sameAsDefault == flags.sameAsDefault && r.value.1 == SeenTime(flags, timestamp, now)
            && r.next == pos + if flags.hasTimeStamp then 8 else 0
  {
    if flags.hasTimeStamp {
      TimeRoundTrip(timestamp, data, pos);
    }
  }

  /** Variable::read of a flat variable, whether or not its value can be read. */
  lemma FlatVarReads(vd: VarDesc, now: UnifiedTime, data: seq<byte>, pos: nat,
                     hint: Str, p: nat, b: byte, stamp: (Flags, UnifiedTime), q: nat)
    requires WellTyped(vd) && !vd.ty.StateDesc?
    requires ReadHint([], data, pos) == Parsed(hint, p) && ReadU8(data, p) == Parsed(b, p + 1)
    requires ReadStamp(FlagsOf(b), NULL_TIME, now, data, p + 1) == Parsed(stamp, q)
    ensures CellMatches(vd, Cell(Flat(FreshElems(vd)), stamp.0, false, NULL_TIME, []))
    ensures var value := ReadFlat(vd, FreshElems(vd), stamp.0, data, q);
            ReadVar(vd, FreshCell(vd), now, data, pos)
            == if value.Parsed? then Parsed(Cell(Flat(value.value), stamp.0, true, stamp.1, hint), value.next)
               else Failed(value.error)
  {
    hide ReadHint, ReadU8, ReadStamp, FlagsOf, ReadFlat, ReadNested, WellTyped, DefaultElem, ElemOf;
    FreshFlat(vd);
  }

  /** The bytes of the value of a flat variable. */
  function ValueBytes(vd: VarDesc, c: Cell): seq<byte>
    requires CellShaped(vd, c) && c.payload.Flat?
  {
    if Marked(vd, c).sameAsDefault then [] else SizeBytes(vd, |c.payload.elems|) + ElemsBytes(vd.ty, c.payload.elems)
  }

  /** Where the parts of a flat variable are: hint, flags, timestamp, value. */
  lemma FlatVarAt(vd: VarDesc, c: Cell, data: seq<byte>, pos: nat)
    requires CellShaped(vd, c) && c.payload.Flat? && At(data, pos, VarBytes(vd, c))
    ensures var flags, p := Marked(vd, c), pos + |HintBytes(c.hint)|;
            var q := p + 1 + if flags.hasTimeStamp then 8 else 0;
            && At(data, pos, HintBytes(c.hint)) && ReadU8(data, p) == Parsed(FlagByte(flags), p + 1)
            && (flags.hasTimeStamp ==> At(data, p + 1, TimeBytes(c.timestamp)))
            && At(data, q, ValueBytes(vd, c)) && pos + |VarBytes(vd, c)| == q + |ValueBytes(vd, c)|
  {
    hide HintBytes, FlagByte, ElemsBytes, ReadU8, At, Marked, SizeBytes, ElemOf;
    var flags := Marked(vd, c);
    var p := pos + |HintBytes(c.hint)|;
    VarParts(HintBytes(c.hint), FlagByte(flags), FlatBytes(vd, c.payload.elems, flags, c.timestamp), data, pos);
    AtSplit(data, p + 1, if flags.hasTimeStamp then TimeBytes(c.timestamp) else [], ValueBytes(vd, c));
  }

  /** The bytes of a flat variable in their parts, up to its value. */
  lemma FlatVarParts(vd: VarDesc, c: Cell, now: UnifiedTime, data: seq<byte>, pos: nat) returns (flags: Flags, q: nat)
    requires WellTyped(vd) && CellMatches(vd, c) && CellShaped(vd, c) && c.payload.Flat? && At(data, pos, VarBytes(vd, c))
    ensures flags.sameAsDefault == Marked(vd, c).sameAsDefault
    ensures CellMatches(vd, Cell(Flat(FreshElems(vd)), flags, false, NULL_TIME, []))
    ensures At(data, q, ValueBytes(vd, c)) && pos + |VarBytes(vd, c)| == q + |ValueBytes(vd, c)|
    ensures var value := ReadFlat(vd, FreshElems(vd), flags, data, q);
            var r := ReadVar(vd, FreshCell(vd), now, data, pos);
            && (r.Parsed? <==> value.Parsed?)
            && (r.Parsed? ==> r.value.payload == Flat(value.value) && r.next == value.next
                              && r.value.timestamp == SeenTime(Marked(vd, c), c.timestamp, now))
  {
    hide ReadHint, HintBytes, FlagByte, FlagsOf, ReadStamp, ReadFlat, ReadVar, FreshCell, FreshElems, ReadU8, At, Marked,
         WellTyped, VarBytes, ValueBytes, TimeBytes, ElemOf;
    var marked := Marked(vd, c);
    var p := pos + |HintBytes(c.hint)|;
    FlatVarAt(vd, c, data, pos);
    HintRead(c.hint, data, pos);
    FlagsRoundTrip(marked);
    StampRead(marked, c.timestamp, now, data, p + 1);
    var read := ReadStamp(marked, NULL_TIME, now, data, p + 1);
    flags, q := read.value.0, read.next;
    FlatVarReads(vd, now, data, pos, ReadHint([], data, pos).value, p, FlagByte(marked), read.value, q);
  }

  /** The exact condition: a flat variable that has been written, whatever is in it, is read back with
      its value if and only if its encoding determines the value; the reader is then at its end. */
  lemma ValueRestoredIffDetermined(vd: VarDesc, c: Cell, now: UnifiedTime, data: seq<byte>, pos: nat)
    requires WellTyped(vd) && CellMatches(vd, c) && CellShaped(vd, c) && c.payload.Flat? && At(data, pos, VarBytes(vd, c))
    ensures var r := ReadVar(vd, FreshCell(vd), now, data, pos);
            && (r.Parsed? && r.value.payload == c.payload <==> Determined(vd, c))
            && (Determined(vd, c) ==>
                  r.next == pos + |VarBytes(vd, c)| && r.value.timestamp == SeenTime(Marked(vd, c), c.timestamp, now))
  {
    hide ElemsBytes, ReadVar, VarBytes, FreshCell, Marked, WellTyped, SizeBytes, ElemOf, Survives, At, ReadElems, ReadSize;
    var flags, q := FlatVarParts(vd, c, now, data, pos);
    if !flags.sameAsDefault {
      ValueSurvivesIff(vd, c.payload.elems, flags, data, q);
    }
  }

  // ---- timestamps from the clock ----

  /** The clock-stamped case, for every flat variable and all bytes: when the flag byte says that there is a
      dirty flag and a timestamp wanted, the variable that is read has the time of the clock, is stamped and
      asks no more; with any other byte its flags are those of the byte. */
  lemma ClockStamps(vd: VarDesc, slot: Cell, now: UnifiedTime, data: seq<byte>, pos: nat)
    requires WellTyped(vd) && CellMatches(vd, slot) && slot.payload.Flat?
    ensures var hint, r := ReadHint(slot.hint, data, pos), ReadVar(vd, slot, now, data, pos);
            r.Parsed? ==>
              && hint.Parsed? && hint.next < |data| && r.value.dirty && r.value.hint == hint.value
              && var b := data[hint.next];
                 if b / 16 % 2 == 1 && b / 32 % 2 == 1 then
                   && r.value.flags.hasTimeStamp && !r.value.flags.wantTimeStamp && r.value.timestamp == now
                   && r.value.flags.hasDirtyFlag && r.value.flags.sameAsDefault == (b / 8 % 2 == 1)
                 else
                   r.value.flags == FlagsOf(b) && (b / 4 % 2 == 0 ==> r.value.timestamp == slot.timestamp)
  {
    hide ReadHint, ReadFlat, CellMatches, WellTyped, ReadNested, FlagsOf, ReadTime;
    var hint := ReadHint(slot.hint, data, pos);
    if hint.Parsed? && hint.next < |data| {
      FlagsAre(data[hint.next]);
    }
  }

  /** The weight of every flag. */
  lemma FlagsAre(b: byte)
    ensures var f := FlagsOf(b);
            && f.hasUoid == (b % 2 == 1) && f.hasNotification == (b / 2 % 2 == 1)
            && f.hasTimeStamp == (b / 4 % 2 == 1) && f.sameAsDefault == (b / 8 % 2 == 1)
            && f.hasDirtyFlag == (b / 16 % 2 == 1) && f.wantTimeStamp == (b / 32 % 2 == 1)
            && f.bit6 == (b / 64 % 2 == 1) && f.bit7 == (b / 128 == 1)
  {
    hide ToBits, Halved;
    Quotients(b);
    Halves(b);
    var bs := ToBits(b, 8);
    forall k | 0 <= k < 8 ensures bs[k] == (Halved(b, k) % 2 == 1) {
      ToBitsAt(b, 8, k);
    }
  }

  /** v halved k times. */
  function Halved(v: nat, k: nat): nat
    decreases k
  {
    if k == 0 then v else Halved(v / 2, k - 1)
  }

  lemma {:induction false} ToBitsAt(v: nat, n: nat, k: nat)
    requires k < n
    ensures ToBits(v, n)[k] == (Halved(v, k) % 2 == 1)
    decreases n
  {
    if k > 0 {
      ToBitsAt(v / 2, n - 1, k - 1);
    }
  }

  lemma Halves(b: byte)
    ensures Halved(b, 0) == b && Halved(b, 1) == b / 2 && Halved(b, 2) == b / 4 && Halved(b, 3) == b / 8
    ensures Halved(b, 4) == b / 16 && Halved(b, 5) == b / 32 && Halved(b, 6) == b / 64 && Halved(b, 7) == b / 128
  {
    Quotients(b);
    HalvedOnce(b, 0);
    HalvedOnce(b, 1);
    HalvedOnce(b, 2);
    HalvedOnce(b, 3);
    HalvedOnce(b, 4);
    HalvedOnce(b, 5);
    HalvedOnce(b, 6);
    assert Halved(b, 0) == b;
    hide Halved;
  }

  lemma {:induction false} HalvedOnce(v: nat, k: nat)
    ensures Halved(v, k + 1) == Halved(v, k) / 2
    decreases k
  {
    if k > 0 {
      HalvedOnce(v / 2, k - 1);
    }
  }

  lemma Quotients(b: byte)
    ensures b / 2 / 2 == b / 4 && b / 4 / 2 == b / 8 && b / 8 / 2 == b / 16 && b / 16 / 2 == b / 32
    ensures b / 32 / 2 == b / 64 && b / 64 / 2 == b / 128 && b / 128 / 2 == b / 256 && b / 128 % 2 == b / 128
  {
  }

  /** A variable stamped by the clock keeps its timestamp: whoever reads what is written of it sees it, at
      any later time. */
  lemma StampKept(vd: VarDesc, slot: Cell, now: UnifiedTime, data: seq<byte>, pos: nat,
                  later: UnifiedTime, out: seq<byte>, at: nat)
    requires WellTyped(vd) && CellMatches(vd, slot) && slot.payload.Flat?
    requires var hint, r := ReadHint(slot.hint, data, pos), ReadVar(vd, slot, now, data, pos);
             && r.Parsed? && hint.Parsed? && hint.next < |data|
             && data[hint.next] / 16 % 2 == 1 && data[hint.next] / 32 % 2 == 1
    ensures var c := ReadVar(vd, slot, now, data, pos).value;
            && CellMatches(vd, c) && CellShaped(vd, c)
            && var again := ReadVar(vd, FreshCell(vd), later, out, at);
               At(out, at, VarBytes(vd, c)) && again.Parsed? ==> again.value.timestamp == now
  {
    hide ReadVar, ReadHint, VarBytes, At, FreshCell, CellMatches, ReadFlat, SizeBytes, ElemsBytes;
    ClockStamps(vd, slot, now, data, pos);
    var c := ReadVar(vd, slot, now, data, pos).value;
    CellMatchesShaped(vd, c);
    if At(out, at, VarBytes(vd, c)) {
      StaysFlat(vd, slot, now, data, pos);
      var flags, q := FlatVarParts(vd, c, later, out, at);
      MarkedKeeps(vd, c);
    }
  }

  lemma StaysFlat(vd: VarDesc, slot: Cell, now: UnifiedTime, data: seq<byte>, pos: nat)
    requires WellTyped(vd) && CellMatches(vd, slot) && slot.payload.Flat? && ReadVar(vd, slot, now, data, pos).Parsed?
    ensures ReadVar(vd, slot, now, data, pos).value.payload.Flat?
  {
    hide ReadHint, ReadStamp, ReadFlat, FlagsOf;
  }
}
