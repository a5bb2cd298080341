/** One blob, byte by byte (SDL/StateInfo.cpp:420-464, 901-936, 1044-1055; streams.cpp:104-131). */
module SdlExample {
  import opened Bytes
  import opened SdlTypes
  import opened SdlElements
  import opened SdlCodec
  import opened SdlRoundTrip
  import opened DescriptorDb

  /** Version 1 of a descriptor A with two integers, X and Y. */
  const EXAMPLE_DESC := Desc([65], 1, 1, [VarDesc([88], Int, [], 1, None, None), VarDesc([89], Int, [], 1, None, None)])

  const STAMPED := NO_FLAGS.(hasTimeStamp := true)

  /** X has not been set; Y is 5, stamped with 1 second and 2 microseconds. */
  const EXAMPLE := State(EXAMPLE_DESC, [Cell(Flat([IntElem(0)]), NO_FLAGS, false, NULL_TIME, []),
                                        Cell(Flat([IntElem(5)]), STAMPED, true, UnifiedTime(1, 2), [])], NULL_UOID, 0)

  lemma ExampleShaped()
    ensures Shaped(EXAMPLE)
  {
  }

  lemma ExampleName()
    ensures SafeBytes([65]) == [0x01, 0xF0, 0xBE]
  {
  }

  lemma ExampleFlags()
    ensures FlagByte(STAMPED) == 4
  {
    assert FlagBits(STAMPED) == [false, false, true, false, false, false, false, false];
  }

  lemma ExampleVars()
    ensures SimpleVars(EXAMPLE_DESC) == [0, 1] && NestedVars(EXAMPLE_DESC) == []
  {
    assert Positions(EXAMPLE_DESC.vars, false, 2) == [];
    assert Positions(EXAMPLE_DESC.vars, false, 1) == [1];
    assert Positions(EXAMPLE_DESC.vars, true, 2) == [];
    assert Positions(EXAMPLE_DESC.vars, true, 1) == [];
  }

  /** A variable-length array of 9999 elements is read; of one more it is refused. */
  lemma LongestArray(vd: VarDesc)
    requires vd.VariableLength()
    ensures ReadSize(vd, 0, [0x0F, 0x27, 0, 0], 0) == Parsed(9999, 4)
    ensures ReadSize(vd, 0, [0x10, 0x27, 0, 0], 0) == Failed(Malformed)
  {
  }

  /** The count of a variable-length nested array takes one byte, that of a fixed one as many as its size needs. */
  lemma NestedCount(vd: VarDesc, n: nat)
    ensures vd.VariableLength() ==> LengthBytes(CountLimit(vd, n), n) == [n % 0x100]
    ensures !vd.VariableLength() ==>
              |LengthBytes(CountLimit(vd, n), n)| == if n < 0x100 then 1 else if n < 0x1_0000 then 2 else 4
  {
  }

  // ---- what is refused ----

  /** A blob without the header bit is malformed. */
  lemma HeaderRefused(db: Catalog, now: UnifiedTime, data: seq<byte>)
    requires ValidCatalog(db) && |data| >= 2 && data[1] < 0x80
    ensures FromBlob(db, now, data) == Failed(Malformed)
  {
  }

  /** A blob of a descriptor that is not loaded is read as the null state, and so is one without bytes. */
  lemma UnknownIsNull(db: Catalog, now: UnifiedTime, data: seq<byte>, name: Str, p: nat, version: half)
    requires ValidCatalog(db) && |data| >= 2 && data[1] >= 0x80
    requires ReadSafe(data, 2) == Parsed(name, p) && ReadU16(data, p) == Parsed(version, p + 2)
    requires (name, if version >= 0x8000 then version - 0x1_0000 else version) !in db
    ensures FromBlob(db, now, data) == Parsed(Null, p + 2)
    ensures FromBlob(db, now, []) == Parsed(Null, 0)
  {
    hide ReadSafe;
  }

  /** A state of another version of the format is malformed. */
  lemma VersionRefused(d: Desc, st: State, now: UnifiedTime, data: seq<byte>, pos: nat)
    requires WellTypedDesc(d) && Matches(d, st) && pos + 3 <= |data| && data[pos + 2] != 6
    ensures ReadState(d, st, now, data, pos) == Failed(Malformed)
  {
    hide Matches, ReadSection;
  }

  // ---- the example ----

  /** Y: no hint, the flags, the timestamp, the value. */
  lemma ExampleVar()
    ensures Shaped(EXAMPLE)
    ensures VarBytes(EXAMPLE_DESC.vars[1], EXAMPLE.vars[1]) == [0, 4, 1, 0, 0, 0, 2, 0, 0, 0, 5, 0, 0, 0]
  {
    hide FlagByte;
    ExampleFlags();
    assert Le32(1) == [1, 0, 0, 0] && Le32(2) == [2, 0, 0, 0] && Le32(5) == [5, 0, 0, 0];
    assert ElemsBytes(Int, [IntElem(5)]) == Le32(5) + [];
  }

  /** The state: its flags, the version of the format, then how many of the simple variables are written,
      the number of Y and Y, and no nested variables. */
  lemma ExampleState()
    ensures Shaped(EXAMPLE)
    ensures StateBytes(EXAMPLE) == [0, 0, 6, 1, 1, 0, 4, 1, 0, 0, 0, 2, 0, 0, 0, 5, 0, 0, 0, 0]
  {
    hide Positions, VarBytes;
    ExampleVars();
    ExampleVar();
    var simple: seq<nat> := [0, 1];
    assert DirtyCount(EXAMPLE.vars, simple, 1, 2) == 1;
    assert ItemBytes(EXAMPLE, simple, 0, true) == [];
    assert ItemBytes(EXAMPLE, simple, 1, true) == [1] + VarBytes(EXAMPLE_DESC.vars[1], EXAMPLE.vars[1]);
    assert ItemsBytes(EXAMPLE, simple, 2, 2, true) == [];
    assert ItemsBytes(EXAMPLE, simple, 1, 2, true) == ItemBytes(EXAMPLE, simple, 1, true) + [];
    assert DirtyCount(EXAMPLE.vars, simple, 0, 2) == 1;
    assert ItemsBytes(EXAMPLE, simple, 0, 2, true)
        == ItemBytes(EXAMPLE, simple, 0, true) + ItemsBytes(EXAMPLE, simple, 1, 2, true);
    assert LengthBytes(2, 1) == [1] && LengthBytes(2, 0) == [0];
    assert SectionBytes(EXAMPLE, simple, 1, 2) == [1] + ItemsBytes(EXAMPLE, simple, 0, 2, true);
    var none: seq<nat> := [];
    assert DirtyCount(EXAMPLE.vars, none, 0, 0) == 0 && ItemsBytes(EXAMPLE, none, 0, 0, false) == [];
    assert SectionBytes(EXAMPLE, none, 0, 0) == [0];
    assert Le16(0) == [0, 0];
  }

  /** The blob: the header, the name of the descriptor with its length marked and its letters complemented,
      the version, the state. */
  lemma ExampleBlob()
    ensures Shaped(EXAMPLE)
    ensures ToBlob(EXAMPLE)
         == [0x00, 0x80, 0x01, 0xF0, 0xBE, 1, 0, 0, 0, 6, 1, 1, 0, 4, 1, 0, 0, 0, 2, 0, 0, 0, 5, 0, 0, 0, 0]
  {
    hide StateBytes, SafeBytes;
    ExampleName();
    ExampleState();
    assert Le16(0x8000) == [0x00, 0x80] && Le16(1) == [1, 0];
  }
}
