/** SDL descriptors, variables and states as values (SDL/StateInfo.h, SDL/DescriptorDb.h).
    A descriptor carries the descriptors of its nested variables, already looked up. */
module SdlTypes {
  import opened Bytes

  type Str = seq<byte>

  datatype UnifiedTime = UnifiedTime(secs: word, micros: word)

  const NULL_TIME := UnifiedTime(0, 0)

  /** UnifiedTime::operator> */
  predicate Later(a: UnifiedTime, b: UnifiedTime) {
    if a.secs > b.secs then true
    else if a.secs == b.secs then a.micros > b.micros
    else false
  }

  /** It is the order of the two numbers as one number. */
  lemma LaterIff(a: UnifiedTime, b: UnifiedTime)
    ensures Later(a, b) <==> a.secs * 0x1_0000_0000 + a.micros > b.secs * 0x1_0000_0000 + b.micros
  {
  }

  datatype Uoid = Uoid(sequence: word, locationFlags: half, loadMask: byte, ty: half, name: Str,
                       id: word, cloneId: word, clonePlayerId: word)
  {
    predicate IsNull() { ty == 0x8000 }
  }

  /** Uoid::operator==: the load mask and the location flags do not count. */
  predicate SameObject(a: Uoid, b: Uoid) {
    && a.sequence == b.sequence && a.ty == b.ty && a.name == b.name && a.id == b.id
    && a.cloneId == b.cloneId && a.clonePlayerId == b.clonePlayerId
  }

  /** What a map from objects keeps of a key. */
  function ObjectKey(k: Uoid): (r: Uoid)
    ensures SameObject(r, k)
    ensures forall other: Uoid :: SameObject(other, k) ==> other.(loadMask := 0xFF, locationFlags := 0) == r
  {
    k.(loadMask := 0xFF, locationFlags := 0)
  }

  /** Two keys are the same to a map if and only if they are the same object. */
  lemma ObjectKeyIff(a: Uoid, b: Uoid)
    ensures ObjectKey(a) == ObjectKey(b) <==> SameObject(a, b)
  {
  }

  const NULL_UOID := Uoid(0xFFFF_FFFF, 0, 0xFF, 0x8000, [], 0, 0, 0)

  datatype VarType =
    | Int | Float | Bool | String | Key | StateDesc | Creatable | Double | Time | Byte | Short
    | AgeTimeOfDay | Vector3 | Point3 | Rgb | Rgba | Quaternion | Rgb8 | Rgba8

  /** A creatable object: its class and the bytes its own codec produces. */
  datatype Object = Object(classId: half, body: seq<byte>)

  /** One array element of a flat variable. Floating-point numbers are bit patterns. */
  datatype Elem =
    | IntElem(n: int)
    | BoolElem(b: bool)
    | StringElem(s: Str)
    | KeyElem(key: Uoid)
    | ObjectElem(creatable: Option<Object>)
    | TimeElem(t: UnifiedTime)
    | FloatsElem(ws: seq<word>)
    | ColorElem(bs: seq<byte>)
    | NoElem

  /** A variable descriptor; size -1 marks a variable-length array. dflt is m_default when valid. */
  datatype VarDesc = VarDesc(name: Str, ty: VarType, typeName: Str, size: int, dflt: Option<Elem>, child: Option<Desc>)
  {
    predicate VariableLength() { size == -1 }

    /** The number of elements of a freshly constructed variable. */
    function FixedLen(): nat { if size > 0 then size else 0 }
  }

  /** A state descriptor. key tells the cached copy (-1) from the entry of its own version. */
  datatype Desc = Desc(name: Str, key: int, version: int, vars: seq<VarDesc>)

  /** The low byte of m_flags. */
  datatype Flags = Flags(hasUoid: bool, hasNotification: bool, hasTimeStamp: bool, sameAsDefault: bool,
                         hasDirtyFlag: bool, wantTimeStamp: bool, bit6: bool, bit7: bool)

  const NO_FLAGS := Flags(false, false, false, false, false, false, false, false)

  datatype Payload = Flat(elems: seq<Elem>) | Nested(children: seq<State>)

  /** A variable cell: dirty is e_XIsDirty, the one flag that is never saved. */
  datatype Cell = Cell(payload: Payload, flags: Flags, dirty: bool, timestamp: UnifiedTime, hint: Str)

  datatype State = Null | State(desc: Desc, vars: seq<Cell>, objectKey: Uoid, flags: half)

  // ---- element types ----

  predicate FloatsOf(e: Elem, n: nat) {
    e.FloatsElem? && |e.ws| == n
  }

  /** e is a value of one element of type ty. */
  predicate ElemOf(ty: VarType, e: Elem) {
    match ty
    case Int => e.IntElem? && -0x8000_0000 <= e.n < 0x8000_0000
    case Short => e.IntElem? && -0x8000 <= e.n < 0x8000
    case Byte => e.IntElem? && -0x80 <= e.n < 0x80
    case Bool => e.BoolElem?
    case String => e.StringElem?
    case Key => e.KeyElem?
    case Creatable => e.ObjectElem? && (e.creatable.Some? ==> e.creatable.value.classId != 0x8000)
    case Time => e.TimeElem?
    case Float => FloatsOf(e, 1)
    case Double => FloatsOf(e, 2)
    case Vector3 => FloatsOf(e, 3)
    case Point3 => FloatsOf(e, 3)
    case Quaternion => FloatsOf(e, 4)
    case Rgb => FloatsOf(e, 4)
    case Rgba => FloatsOf(e, 4)
    case Rgb8 => e.ColorElem? && |e.bs| == 4
    case Rgba8 => e.ColorElem? && |e.bs| == 4
    case AgeTimeOfDay => e == NoElem
    case StateDesc => false
  }

  /** What a valid default may hold: bytes and shorts share the 32-bit m_int. */
  predicate DefaultOf(ty: VarType, e: Elem) {
    match ty
    case Short => ElemOf(Int, e)
    case Byte => ElemOf(Int, e)
    case Key => true
    case Creatable => true
    case StateDesc => true
    case AgeTimeOfDay => true
    case _ => ElemOf(ty, e)
  }

  /** Truncation of an int32 to int8 and to int16. */
  function ToInt8(n: int): (r: int)
    ensures -0x80 <= r < 0x80
    ensures -0x80 <= n < 0x80 ==> r == n
  {
    (n + 0x80) % 0x100 - 0x80
  }

  function ToInt16(n: int): (r: int)
    ensures -0x8000 <= r < 0x8000
    ensures -0x8000 <= n < 0x8000 ==> r == n
  {
    (n + 0x8000) % 0x1_0000 - 0x8000
  }

  const FLOAT_ONE: word := 0x3F80_0000

  /** The element that `resize` leaves: zero bytes, or the element's own constructor. */
  function ZeroElem(ty: VarType): (e: Elem)
    ensures !ty.StateDesc? ==> ElemOf(ty, e)
  {
    match ty
    case Int => IntElem(0)
    case Short => IntElem(0)
    case Byte => IntElem(0)
    case Bool => BoolElem(false)
    case String => StringElem([])
    case Key => KeyElem(NULL_UOID)
    case Creatable => ObjectElem(None)
    case Time => TimeElem(NULL_TIME)
    case Float => FloatsElem([0])
    case Double => FloatsElem([0, 0])
    case Vector3 => FloatsElem([0, 0, 0])
    case Point3 => FloatsElem([0, 0, 0])
    case Quaternion => FloatsElem([0, 0, 0, 0])
    case Rgb => FloatsElem([0, 0, 0, 0])
    case Rgba => FloatsElem([0, 0, 0, 0])
    case Rgb8 => ColorElem([0, 0, 0, 0])
    case Rgba8 => ColorElem([0, 0, 0, 0])
    case AgeTimeOfDay => NoElem
    case StateDesc => NoElem
  }

  /** The element that `setDefault` stores. */
  function DefaultElem(vd: VarDesc): (e: Elem)
    requires WellTyped(vd)
    ensures !vd.ty.StateDesc? ==> ElemOf(vd.ty, e)
  {
    match vd.ty
    case Key => KeyElem(NULL_UOID)
    case Creatable => ObjectElem(None)
    case AgeTimeOfDay => NoElem
    case StateDesc => NoElem
    case Byte => if vd.dflt.Some? then IntElem(ToInt8(vd.dflt.value.n)) else IntElem(0)
    case Short => if vd.dflt.Some? then IntElem(ToInt16(vd.dflt.value.n)) else IntElem(0)
    case Quaternion => if vd.dflt.Some? then vd.dflt.value else FloatsElem([0, 0, 0, FLOAT_ONE])
    case Rgb => if vd.dflt.Some? then vd.dflt.value else FloatsElem([0, 0, 0, FLOAT_ONE])
    case Rgba => if vd.dflt.Some? then vd.dflt.value else FloatsElem([0, 0, 0, FLOAT_ONE])
    case Rgb8 => if vd.dflt.Some? then vd.dflt.value else ColorElem([0, 0, 0, 255])
    case Rgba8 => if vd.dflt.Some? then vd.dflt.value else ColorElem([0, 0, 0, 255])
    case _ => if vd.dflt.Some? then vd.dflt.value else ZeroElem(vd.ty)
  }

  /** The comparison that `isDefault` makes for one element of a variable with a valid default. */
  predicate IsDefaultElem(vd: VarDesc, e: Elem)
    requires vd.dflt.Some?
  {
    match vd.ty
    case Key => e.KeyElem? && e.key.IsNull()
    case Creatable => e == ObjectElem(None)
    case AgeTimeOfDay => true
    case _ => e == vd.dflt.value
  }

  /** What counts as the default: an object key without a type whatever else is in it, no object, and for the
      other types the default itself. */
  lemma DefaultTest(vd: VarDesc, e: Elem)
    requires vd.dflt.Some? && ElemOf(vd.ty, e)
    ensures vd.ty.Key? ==> (IsDefaultElem(vd, e) <==> e.key.ty == 0x8000)
    ensures vd.ty.Creatable? ==> (IsDefaultElem(vd, e) <==> e.creatable.None?)
    ensures !vd.ty.Key? && !vd.ty.Creatable? && !vd.ty.AgeTimeOfDay? ==> (IsDefaultElem(vd, e) <==> e == vd.dflt.value)
  {
  }

  /** Without a valid default, colours are opaque black, a quaternion is the identity, and all else is zero. */
  lemma PlainDefault(vd: VarDesc)
    requires WellTyped(vd) && vd.dflt.None? && !vd.ty.StateDesc?
    ensures vd.ty.Quaternion? || vd.ty.Rgb? || vd.ty.Rgba? ==> DefaultElem(vd) == FloatsElem([0, 0, 0, 0x3F80_0000])
    ensures vd.ty.Rgb8? || vd.ty.Rgba8? ==> DefaultElem(vd) == ColorElem([0, 0, 0, 255])
    ensures !vd.ty.Quaternion? && !vd.ty.Rgb? && !vd.ty.Rgba? && !vd.ty.Rgb8? && !vd.ty.Rgba8? ==>
              DefaultElem(vd) == ZeroElem(vd.ty)
  {
  }

  // ---- well-typed descriptors and states ----

  predicate WellTyped(vd: VarDesc) {
    && (vd.dflt.Some? ==> DefaultOf(vd.ty, vd.dflt.value))
    && (vd.child.Some? ==> WellTypedDesc(vd.child.value))
  }

  predicate WellTypedDesc(d: Desc) {
    forall i :: 0 <= i < |d.vars| ==> WellTyped(d.vars[i])
  }

  /** Every variable of st has a cell of the right kind and size, to any depth. */
  predicate Shaped(st: State)
    decreases st
  {
    st.State? ==>
    && |st.vars| == |st.desc.vars|
    && forall i :: 0 <= i < |st.vars| ==> CellShaped(st.desc.vars[i], st.vars[i])
  }

  predicate CellShaped(vd: VarDesc, c: Cell)
    decreases c
  {
    && (c.payload.Nested? <==> vd.ty.StateDesc?)
    && match c.payload {
      case Flat(elems) =>
        && (!vd.VariableLength() ==> |elems| == vd.FixedLen())
        && forall k :: 0 <= k < |elems| ==> ElemOf(vd.ty, elems[k])
      case Nested(children) =>
        && (!vd.VariableLength() ==> |children| == vd.FixedLen())
        && forall k :: 0 <= k < |children| ==> Shaped(children[k])
    }
  }

  /** st is a state of d, and its nested states are states of the descriptors d names for them. */
  predicate Matches(d: Desc, st: State)
    decreases d
  {
    && st.State?
    && st.desc.vars == d.vars
    && |st.vars| == |d.vars|
    && forall i :: 0 <= i < |d.vars| ==> CellMatches(d.vars[i], st.vars[i])
  }

  predicate CellMatches(vd: VarDesc, c: Cell)
    decreases vd, 1
  {
    && (c.payload.Nested? <==> vd.ty.StateDesc?)
    && match c.payload {
      case Flat(elems) =>
        && (!vd.VariableLength() ==> |elems| == vd.FixedLen())
        && forall k :: 0 <= k < |elems| ==> ElemOf(vd.ty, elems[k])
      case Nested(children) =>
        && (!vd.VariableLength() ==> |children| == vd.FixedLen())
        && forall k :: 0 <= k < |children| ==> ChildMatches(vd, children[k])
    }
  }

  predicate ChildMatches(vd: VarDesc, ch: State)
    decreases vd, 0
  {
    if vd.child.Some? then Matches(vd.child.value, ch) else ch == Null
  }

  lemma {:induction false} MatchesShaped(d: Desc, st: State)
    requires Matches(d, st)
    ensures Shaped(st)
    decreases d
  {
    forall i | 0 <= i < |d.vars| ensures CellShaped(d.vars[i], st.vars[i]) {
      CellMatchesShaped(d.vars[i], st.vars[i]);
    }
  }

  lemma {:induction false} CellMatchesShaped(vd: VarDesc, c: Cell)
    requires CellMatches(vd, c)
    ensures CellShaped(vd, c)
    decreases vd
  {
    if c.payload.Nested? {
      var children := c.payload.children;
      forall k | 0 <= k < |children| ensures Shaped(children[k]) {
        assert ChildMatches(vd, children[k]);
        if vd.child.Some? {
          MatchesShaped(vd.child.value, children[k]);
        }
      }
    }
  }

  // ---- construction ----

  /** State(desc): every cell built from its descriptor and set to its default. */
  function Fresh(d: Desc): (st: State)
    requires WellTypedDesc(d)
    ensures st.State? && Matches(d, st)
    decreases d, 1
  {
    State(d, FreshVars(d), NULL_UOID, 0)
  }

  function FreshVars(d: Desc): (vars: seq<Cell>)
    requires WellTypedDesc(d)
    ensures |vars| == |d.vars|
    ensures forall i :: 0 <= i < |d.vars| ==> vars[i] == FreshCell(d.vars[i]) && CellMatches(d.vars[i], vars[i])
    decreases d, 0
  {
    seq(|d.vars|, i requires 0 <= i < |d.vars| => FreshCell(d.vars[i]))
  }

  function FreshCell(vd: VarDesc): (c: Cell)
    requires WellTyped(vd)
    ensures CellMatches(vd, c)
    decreases vd, 2
  {
    var payload := if vd.ty.StateDesc? then Nested(FreshChildren(vd, vd.FixedLen()))
                   else Flat(seq(vd.FixedLen(), _ => DefaultElem(vd)));
    Cell(payload, NO_FLAGS.(sameAsDefault := true), false, NULL_TIME, [])
  }

  /** `resize` of a nested variable: the newest descriptor of its type, or null states. */
  function FreshChildren(vd: VarDesc, n: nat): (r: seq<State>)
    requires WellTyped(vd)
    ensures |r| == n
    ensures forall k :: 0 <= k < n ==> r[k] == FreshChild(vd) && ChildMatches(vd, r[k])
    decreases vd, 1
  {
    seq(n, _ => FreshChild(vd))
  }

  function FreshChild(vd: VarDesc): (ch: State)
    requires WellTyped(vd)
    ensures ChildMatches(vd, ch)
    decreases vd, 0
  {
    if vd.child.Some? then Fresh(vd.child.value) else Null
  }

  // ---- values ----

  /** The same variables with the same values, to any depth; which copy of a descriptor a nested state
      points to, flags and timestamps do not matter. */
  predicate SameValues(a: State, b: State)
    decreases b
  {
    if a.Null? || b.Null? then a.Null? && b.Null?
    else
      && a.desc.vars == b.desc.vars && |a.vars| == |b.vars|
      && forall i :: 0 <= i < |b.vars| ==> SamePayload(a.vars[i].payload, b.vars[i].payload)
  }

  predicate SamePayload(a: Payload, b: Payload)
    decreases b
  {
    match b
    case Flat(_) => a == b
    case Nested(children) =>
      a.Nested? && |a.children| == |children| && forall k :: 0 <= k < |children| ==> SameValues(a.children[k], children[k])
  }

  lemma {:induction false} SameSelf(st: State)
    ensures SameValues(st, st)
    decreases st
  {
    if st.State? {
      forall i | 0 <= i < |st.vars| ensures SamePayload(st.vars[i].payload, st.vars[i].payload) {
        SamePayloadSelf(st.vars[i].payload);
      }
    }
  }

  lemma {:induction false} SamePayloadSelf(p: Payload)
    ensures SamePayload(p, p)
    decreases p
  {
    if p.Nested? {
      forall k | 0 <= k < |p.children| ensures SameValues(p.children[k], p.children[k]) {
        SameSelf(p.children[k]);
      }
    }
  }

  // ---- default and dirty tests ----

  /** State::isDirty */
  predicate IsDirty(st: State) {
    st.State? && exists i :: 0 <= i < |st.vars| && st.vars[i].dirty
  }

  /** State::isDefault */
  predicate IsDefault(st: State)
    requires Shaped(st)
    decreases st
  {
    st.State? ==> forall i :: 0 <= i < |st.vars| ==> IsDefaultCell(st.desc.vars[i], st.vars[i])
  }

  /** Variable::isDefault */
  predicate IsDefaultCell(vd: VarDesc, c: Cell)
    requires CellShaped(vd, c)
    decreases c
  {
    && !vd.VariableLength()
    && vd.dflt.Some?
    && match c.payload {
      case Flat(elems) => forall k :: 0 <= k < |elems| ==> IsDefaultElem(vd, elems[k])
      case Nested(children) => forall k :: 0 <= k < |children| ==> IsDefault(children[k])
    }
  }

  /** The flags after `write` has looked at the value. */
  function Marked(vd: VarDesc, c: Cell): Flags
    requires CellShaped(vd, c)
  {
    if IsDefaultCell(vd, c) then c.flags.(sameAsDefault := true) else c.flags
  }
}
