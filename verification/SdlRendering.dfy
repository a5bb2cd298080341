/** Descriptors as source text: every well-formed descriptor has one that parses to exactly it. */
module SdlRendering {
  import opened Bytes
  import opened SdlTypes
  import opened SdlParser
  import opened SdlGrammar

  /** A single-precision number that is not infinite and not a NaN: only those can be written in digits. */
  predicate Finite(w: word) { w / 0x80_0000 % 0x100 != 0xFF }

  /** The same in double precision; the high word comes second. */
  predicate FiniteDouble(p: (word, word)) { p.1 / 0x10_0000 % 0x800 != 0x7FF }

  predicate AllFinite(ws: seq<word>) { forall i :: 0 <= i < |ws| ==> Finite(ws[i]) }

  /** How values are spelled: a text for every number under each of the conversions; a boolean is a name,
      unless it is spelled as a number. */
  datatype Spelling = Spelling(ofInt: int -> Number, ofUint: word -> Number, ofFloat: word -> Number,
                               ofDouble: ((word, word)) -> Number, ofBool: bool -> Option<Number>)

  ghost predicate Faithful(sp: Spelling) {
    && (forall n: int :: -0x8000_0000 <= n < 0x8000_0000 ==> sp.ofInt(n).asInt == n)
    && (forall n: word :: sp.ofUint(n).asUint == n)
    && (forall w: word :: Finite(w) ==> sp.ofFloat(w).asFloat == w)
    && (forall b: bool :: sp.ofBool(b).Some? ==> (sp.ofBool(b).value.asInt != 0 <==> b))
    && (forall p: (word, word) :: FiniteDouble(p) ==> sp.ofDouble(p).asDouble == p)
  }

  // ---- defaults ----

  /** A default that a source can give. Numbers are finite, colours without alpha are opaque, times are
      whole seconds. */
  predicate Givable(ty: VarType, e: Elem) {
    match ty
    case Float => ElemOf(ty, e) && AllFinite(e.ws)
    case Double => ElemOf(ty, e) && FiniteDouble((e.ws[0], e.ws[1]))
    case Vector3 => ElemOf(ty, e) && AllFinite(e.ws)
    case Point3 => ElemOf(ty, e) && AllFinite(e.ws)
    case Quaternion => ElemOf(ty, e) && AllFinite(e.ws)
    case Rgba => ElemOf(ty, e) && AllFinite(e.ws)
    case Rgb => ElemOf(ty, e) && AllFinite(e.ws[..3]) && e.ws[3] == FLOAT_ONE
    case Rgb8 => ElemOf(ty, e) && e.bs[3] == 255
    case Time => ElemOf(ty, e) && e.t.micros == 0
    case Byte => ElemOf(Int, e)
    case Short => ElemOf(Int, e)
    case Key => e == NoElem
    case Creatable => e == NoElem
    case AgeTimeOfDay => e == NoElem
    case StateDesc => e == NoElem
    case _ => ElemOf(ty, e)
  }

  function FloatTokens(sp: Spelling, ws: seq<word>): (r: seq<Token>)
    ensures |r| == |ws| && forall i :: 0 <= i < |r| ==> r[i] == Numeric(sp.ofFloat(ws[i]))
  {
    seq(|ws|, i requires 0 <= i < |ws| => Numeric(sp.ofFloat(ws[i])))
  }

  function ByteTokens(sp: Spelling, bs: seq<byte>): (r: seq<Token>)
    ensures |r| == |bs| && forall i :: 0 <= i < |r| ==> r[i] == Numeric(sp.ofUint(bs[i]))
  {
    seq(|bs|, i requires 0 <= i < |bs| => Numeric(sp.ofUint(bs[i])))
  }

  function ListOf(values: seq<Token>): Literal
    requires values != []
  {
    List(values[0], values[1..])
  }

  function LiteralOf(sp: Spelling, ty: VarType, e: Elem): Literal
    requires Givable(ty, e)
  {
    match ty
    case Int => One(Numeric(sp.ofInt(e.n)))
    case Byte => One(Numeric(sp.ofInt(e.n)))
    case Short => One(Numeric(sp.ofInt(e.n)))
    case Bool =>
      if sp.ofBool(e.b).Some? then One(Numeric(sp.ofBool(e.b).value))
      else One(Ident(if e.b then Spelled("true") else Spelled("false")))
    case String => One(Quoted(e.s))
    case Time => One(Numeric(sp.ofUint(e.t.secs)))
    case Float => One(Numeric(sp.ofFloat(e.ws[0])))
    case Double => One(Numeric(sp.ofDouble((e.ws[0], e.ws[1]))))
    case Vector3 => ListOf(FloatTokens(sp, e.ws))
    case Point3 => ListOf(FloatTokens(sp, e.ws))
    case Quaternion => ListOf(FloatTokens(sp, e.ws))
    case Rgba => ListOf(FloatTokens(sp, e.ws))
    case Rgb => ListOf(FloatTokens(sp, e.ws[..3]))
    case Rgb8 => ListOf(ByteTokens(sp, e.bs[..3]))
    case Rgba8 => ListOf(ByteTokens(sp, e.bs))
    case Key => One(Ident(Spelled("nil")))
    case Creatable => One(Ident(Spelled("nil")))
    case AgeTimeOfDay => One(Ident(Spelled("nil")))
    case StateDesc => One(Ident(Spelled("nil")))
  }

  lemma FloatsBack(sp: Spelling, ws: seq<word>)
    requires Faithful(sp) && AllFinite(ws)
    ensures Numbers(FloatTokens(sp, ws), |ws|) && Floats(FloatTokens(sp, ws)) == ws
  {
  }

  lemma BytesBack(sp: Spelling, bs: seq<byte>)
    requires Faithful(sp)
    ensures Numbers(ByteTokens(sp, bs), |bs|) && Components(ByteTokens(sp, bs)) == bs
  {
    forall i | 0 <= i < |bs| ensures Components(ByteTokens(sp, bs))[i] == bs[i] {
      assert sp.ofUint(bs[i]).asUint == bs[i];
    }
  }

  lemma ListValues(values: seq<Token>)
    requires values != []
    ensures LiteralValues(ListOf(values)) == values
  {
  }

  /** Every default that a source can give is the value of its literal. */
  lemma LiteralBack(sp: Spelling, ty: VarType, e: Elem)
    requires Faithful(sp) && Givable(ty, e)
    ensures GoodLiteral(ty, LiteralOf(sp, ty, e)) && Meaning(ty, LiteralOf(sp, ty, e)) == Some(e)
    ensures DefaultValue(Some(ty), LiteralValues(LiteralOf(sp, ty, e))) == Some(e)
  {
    hide Meaning, DefaultValue;
    LiteralValued(sp, ty, e);
    DefaultIsMeaning(ty, LiteralOf(sp, ty, e));
  }

  lemma LiteralValued(sp: Spelling, ty: VarType, e: Elem)
    requires Faithful(sp) && Givable(ty, e)
    ensures Spoken(LiteralOf(sp, ty, e)) && DefaultValue(Some(ty), LiteralValues(LiteralOf(sp, ty, e))) == Some(e)
  {
    hide Spelled;
    KeywordsSpelled();
    match ty
    case Vector3 => ListBack(sp, e.ws);
    case Point3 => ListBack(sp, e.ws);
    case Quaternion => ListBack(sp, e.ws);
    case Rgba => ListBack(sp, e.ws);
    case Rgb =>
      ListBack(sp, e.ws[..3]);
      assert e.ws == e.ws[..3] + [FLOAT_ONE];
    case Rgb8 =>
      BytesBack(sp, e.bs[..3]);
      ListValues(ByteTokens(sp, e.bs[..3]));
      assert e.bs == e.bs[..3] + [255];
    case Rgba8 =>
      BytesBack(sp, e.bs);
      ListValues(ByteTokens(sp, e.bs));
    case Float =>
      var v := [Numeric(sp.ofFloat(e.ws[0]))];
      assert Finite(e.ws[0]);
      assert Floats(v) == e.ws;
    case Double => assert e.ws == [e.ws[0], e.ws[1]];
    case _ =>
  }

  lemma ListBack(sp: Spelling, ws: seq<word>)
    requires Faithful(sp) && ws != [] && AllFinite(ws)
    ensures var v := FloatTokens(sp, ws);
            v != [] && LiteralValues(ListOf(v)) == v && Numbers(v, |ws|) && Floats(v) == ws
  {
    FloatsBack(sp, ws);
    ListValues(FloatTokens(sp, ws));
  }

  // ---- descriptors ----

  /** A variable that a source can declare. */
  predicate RenderableVar(v: ParsedVar) {
    && v.ty.Some? && (v.ty.value.StateDesc? || v.typeName == []) && Int32(v.size)
    && (v.dflt.Some? ==> Givable(v.ty.value, v.dflt.value))
  }

  predicate Renderable(d: ParsedDesc) {
    && 0 <= d.version < 0x8000_0000 && d.varmap == VarMap(d.vars)
    && forall i :: 0 <= i < |d.vars| ==> RenderableVar(d.vars[i])
  }

  /** A variable without a default or an option has no such attribute. */
  function DefaultAttrs(sp: Spelling, v: ParsedVar): seq<Attr>
    requires RenderableVar(v)
  {
    if v.dflt.Some? then [DefaultAttr(LiteralOf(sp, v.ty.value, v.dflt.value))] else []
  }

  function OptionAttrs(v: ParsedVar): seq<Attr> {
    (if v.defaultOption != [] then [DefaultOptionAttr(v.defaultOption)] else [])
    + (if v.displayOption != [] then [DisplayOptionAttr(v.displayOption)] else [])
  }

  function AttrsOf(sp: Spelling, v: ParsedVar): seq<Attr>
    requires RenderableVar(v)
  {
    DefaultAttrs(sp, v) + OptionAttrs(v)
  }

  function DeclOf(sp: Spelling, v: ParsedVar): Decl
    requires RenderableVar(v)
  {
    Decl(if v.ty.value.StateDesc? then DescRef(v.typeName) else FlatRef(v.ty.value), v.name,
         if v.size == -1 then None else Some(sp.ofInt(v.size)), AttrsOf(sp, v))
  }

  function ItemsOf(sp: Spelling, vars: seq<ParsedVar>): seq<Item>
    requires forall i :: 0 <= i < |vars| ==> RenderableVar(vars[i])
  {
    if vars == [] then [] else [VarItem(DeclOf(sp, vars[0]), 0)] + ItemsOf(sp, vars[1..])
  }

  function SourceOf(sp: Spelling, d: ParsedDesc): Source
    requires Renderable(d)
  {
    Source(d.name, [VersionItem(sp.ofInt(d.version), 0)] + ItemsOf(sp, d.vars))
  }

  lemma DeclBack(sp: Spelling, v: ParsedVar)
    requires Faithful(sp) && RenderableVar(v)
    ensures GoodItem(VarItem(DeclOf(sp, v), 0))
    ensures WithAttrs(Declared(DeclOf(sp, v)), AttrsOf(sp, v)) == v
  {
    hide LiteralOf, GoodLiteral, Meaning, LiteralValues, Givable, WithAttrs;
    var d := Declared(DeclOf(sp, v));
    assert d.(dflt := v.dflt, defaultOption := v.defaultOption, displayOption := v.displayOption) == v;
    AttrsAppend(d, DefaultAttrs(sp, v), OptionAttrs(v));
    if v.dflt.Some? {
      LiteralBack(sp, v.ty.value, v.dflt.value);
      AttrAlone(d, DefaultAttrs(sp, v)[0]);
    } else {
      NoAttrs(d);
    }
    OptionsBack(d.(dflt := v.dflt), v);
  }

  lemma NoAttrs(v: ParsedVar)
    ensures WithAttrs(v, []) == v
  {
  }

  lemma OptionsBack(d: ParsedVar, v: ParsedVar)
    requires d.defaultOption == [] && d.displayOption == []
    ensures WithAttrs(d, OptionAttrs(v)) == d.(defaultOption := v.defaultOption, displayOption := v.displayOption)
  {
    hide WithAttrs;
    var one := if v.defaultOption != [] then [DefaultOptionAttr(v.defaultOption)] else [];
    var two := if v.displayOption != [] then [DisplayOptionAttr(v.displayOption)] else [];
    AttrsAppend(d, one, two);
    NoAttrs(d);
    AttrAlone(d, DefaultOptionAttr(v.defaultOption));
    NoAttrs(d.(defaultOption := v.defaultOption));
    AttrAlone(d.(defaultOption := v.defaultOption), DisplayOptionAttr(v.displayOption));
  }

  lemma {:induction false} AttrsAppend(v: ParsedVar, a: seq<Attr>, b: seq<Attr>)
    ensures WithAttrs(v, a + b) == WithAttrs(WithAttrs(v, a), b)
    decreases |a|
  {
    hide WithAttr;
    if a == [] {
      assert [] + b == b;
    } else {
      assert (a + b)[0] == a[0] && (a + b)[1..] == a[1..] + b;
      AttrsAppend(WithAttr(v, a[0]), a[1..], b);
    }
  }

  lemma AttrAlone(v: ParsedVar, a: Attr)
    ensures WithAttrs(v, [a]) == WithAttr(v, a)
  {
    hide WithAttr;
    assert [a][1..] == [];
  }

  lemma {:induction false} ItemsBack(sp: Spelling, d: ParsedDesc, vars: seq<ParsedVar>)
    requires Faithful(sp) && forall i :: 0 <= i < |vars| ==> RenderableVar(vars[i])
    ensures forall i :: 0 <= i < |ItemsOf(sp, vars)| ==> GoodItem(ItemsOf(sp, vars)[i])
    ensures WithItems(d, ItemsOf(sp, vars)) == d.(vars := d.vars + vars)
    decreases |vars|
  {
    hide DeclOf, RenderableVar, GoodItem, WithAttrs, Declared;
    if vars == [] {
      assert d.vars + [] == d.vars;
    } else {
      var decl := DeclOf(sp, vars[0]);
      DeclBack(sp, vars[0]);
      AttrsAre(sp, vars[0]);
      ItemsBack(sp, WithVar(d, vars[0]), vars[1..]);
      assert ItemsOf(sp, vars)[1..] == ItemsOf(sp, vars[1..]);
      assert d.vars + [vars[0]] + vars[1..] == d.vars + vars;
    }
  }

  lemma AttrsAre(sp: Spelling, v: ParsedVar)
    requires RenderableVar(v)
    ensures DeclOf(sp, v).attrs == AttrsOf(sp, v)
  {
  }

  lemma SourceBack(sp: Spelling, d: ParsedDesc)
    requires Faithful(sp) && Renderable(d)
    ensures GoodSource(SourceOf(sp, d)) && DescOf(SourceOf(sp, d)) == d
  {
    hide ItemsOf, VarMap, GoodItem, RenderableVar;
    var version := VersionItem(sp.ofInt(d.version), 0);
    var items := ItemsOf(sp, d.vars);
    var head := NO_DESC.(name := d.name, version := d.version);
    ItemsBack(sp, head, d.vars);
    VersionGood(version);
    assert ([version] + items)[1..] == items;
    assert [] + d.vars == d.vars;
  }

  lemma VersionGood(item: Item)
    requires item.VersionItem?
    ensures GoodItem(item)
  {
  }

  function SourcesOf(sp: Spelling, ds: seq<ParsedDesc>): seq<Source>
    requires forall i :: 0 <= i < |ds| ==> Renderable(ds[i])
  {
    if ds == [] then [] else [SourceOf(sp, ds[0])] + SourcesOf(sp, ds[1..])
  }

  lemma {:induction false} SourcesBack(sp: Spelling, ds: seq<ParsedDesc>)
    requires Faithful(sp) && forall i :: 0 <= i < |ds| ==> Renderable(ds[i])
    ensures var ss := SourcesOf(sp, ds);
            (forall i :: 0 <= i < |ss| ==> GoodSource(ss[i]) && Versioned(ss[i])) && DescsOf(ss) == ds
    decreases |ds|
  {
    hide SourceOf, DescOf, GoodSource;
    if ds != [] {
      SourceBack(sp, ds[0]);
      SourcesBack(sp, ds[1..]);
      var ss := SourcesOf(sp, ds);
      assert ss[0] == SourceOf(sp, ds[0]) && ss[1..] == SourcesOf(sp, ds[1..]);
      assert [ds[0]] + ds[1..] == ds;
    }
  }

  /** For every list of well-formed descriptors, the parser returns exactly those descriptors from
      their rendering. */
  lemma ParseOfRendering(sp: Spelling, ds: seq<ParsedDesc>)
    requires Faithful(sp) && forall i :: 0 <= i < |ds| ==> Renderable(ds[i])
    ensures ParseTokens(SourcesTokens(SourcesOf(sp, ds))) == ds
  {
    hide SourcesTokens, DescsOf, Renderable, GoodSource, Versioned, ParseTokens, SourcesOf;
    var ss := SourcesOf(sp, ds);
    SourcesBack(sp, ds);
    ParseRendered(ss, []);
    AllReturned(ss);
    assert SourcesTokens(ss) + [] == SourcesTokens(ss);
  }
}
