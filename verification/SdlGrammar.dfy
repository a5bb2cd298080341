/** The grammar that the descriptor parser accepts, and what a source text in it stands for. */
module SdlGrammar {
  import opened Bytes
  import opened SdlTypes
  import opened SdlParser

  // ---- sources ----

  /** The value of a DEFAULT: a number, name or quoted text, or a list of numbers. */
  datatype Literal = One(tok: Token) | List(first: Token, more: seq<Token>)

  datatype Attr = DefaultAttr(value: Literal) | DefaultOptionAttr(s: Str) | DisplayOptionAttr(s: Str)

  datatype TypeRef = FlatRef(ty: FlatType) | DescRef(name: Str)

  /** A variable; no size stands for empty brackets. */
  datatype Decl = Decl(ty: TypeRef, name: Str, size: Option<Number>, attrs: seq<Attr>)

  /** What stands between the braces, and the semicolons behind it. */
  datatype Item = VersionItem(n: Number, semicolons: nat) | VarItem(decl: Decl, semicolons: nat)

  datatype Source = Source(name: Str, items: seq<Item>)

  // ---- their tokens ----

  function Listed(more: seq<Token>): Tokens {
    if more == [] then [RParen] else [Comma, more[0]] + Listed(more[1..])
  }

  function LiteralTokens(l: Literal): Tokens {
    match l
    case One(tok) => [tok]
    case List(first, more) => [LParen, first] + Listed(more)
  }

  function AttrTokens(a: Attr): Tokens {
    match a
    case DefaultAttr(l) => [DefaultTok, Equals] + LiteralTokens(l)
    case DefaultOptionAttr(s) => [DefaultOptionTok, Equals, Ident(s)]
    case DisplayOptionAttr(s) => [DisplayOptionTok, Equals, Ident(s)]
  }

  function AttrsTokens(attrs: seq<Attr>): Tokens {
    if attrs == [] then [] else AttrTokens(attrs[0]) + AttrsTokens(attrs[1..])
  }

  function TypeToken(ty: TypeRef): Token {
    match ty
    case FlatRef(t) => TypeTok(t)
    case DescRef(name) => Typename(name)
  }

  function SizeTokens(size: Option<Number>): Tokens {
    if size.None? then [LBracket, RBracket] else [LBracket, Numeric(size.value), RBracket]
  }

  function DeclTokens(d: Decl): Tokens {
    [VarTok, TypeToken(d.ty), Ident(d.name)] + (SizeTokens(d.size) + AttrsTokens(d.attrs))
  }

  function Semicolons(n: nat): Tokens {
    if n == 0 then [] else [Semicolon] + Semicolons(n - 1)
  }

  function ItemTokens(item: Item): Tokens {
    match item
    case VersionItem(n, k) => [VersionTok, Numeric(n)] + Semicolons(k)
    case VarItem(d, k) => DeclTokens(d) + Semicolons(k)
  }

  function ItemsTokens(items: seq<Item>): Tokens {
    if items == [] then [] else ItemTokens(items[0]) + ItemsTokens(items[1..])
  }

  function SourceTokens(s: Source): Tokens {
    [StatedescTok, Ident(s.name), LBrace] + (ItemsTokens(s.items) + [RBrace])
  }

  function SourcesTokens(ss: seq<Source>): Tokens {
    if ss == [] then [] else SourceTokens(ss[0]) + SourcesTokens(ss[1..])
  }

  // ---- what they stand for ----

  function LiteralValues(l: Literal): seq<Token> {
    match l
    case One(tok) => [tok]
    case List(first, more) => [first] + more
  }

  function Spelled(s: string): (r: Str)
    requires forall i :: 0 <= i < |s| ==> s[i] as int < 0x80
    ensures |r| == |s| && forall i :: 0 <= i < |r| ==> r[i] == s[i] as int
  {
    seq<half>(|s|, i requires 0 <= i < |s| => s[i] as int)
  }

  /** Types whose defaults are of no interest: whatever is given is accepted. */
  predicate Indifferent(ty: VarType) {
    ty.Creatable? || ty.AgeTimeOfDay? || ty.StateDesc?
  }

  /** What a number stands for as a default: a boolean is true if and only if it is not 0. */
  function NumberMeaning(ty: VarType, n: Number): Option<Elem> {
    if Indifferent(ty) then Some(NoElem)
    else if ty.Bool? then Some(BoolElem(n.asInt != 0))
    else if ty.Int? || ty.Byte? || ty.Short? then Some(IntElem(n.asInt))
    else if ty.Float? then Some(FloatsElem([n.asFloat]))
    else if ty.Double? then Some(FloatsElem([n.asDouble.0, n.asDouble.1]))
    else if ty.Time? then Some(TimeElem(UnifiedTime(n.asUint % 0x1_0000_0000, 0)))
    else None
  }

  /** What a name stands for: two of them are booleans, one is no key, and any is itself as a text. */
  function NameMeaning(ty: VarType, s: Str): Option<Elem> {
    if Indifferent(ty) then Some(NoElem)
    else if ty.Bool? && s == Spelled("true") then Some(BoolElem(true))
    else if ty.Bool? && s == Spelled("false") then Some(BoolElem(false))
    else if ty.Key? && s == Spelled("nil") then Some(NoElem)
    else if ty.String? then Some(StringElem(s))
    else None
  }

  function TextMeaning(ty: VarType, s: Str): Option<Elem> {
    if Indifferent(ty) then Some(NoElem)
    else if ty.String? then Some(StringElem(s))
    else None
  }

  /** What a list of numbers stands for: vectors and colours, those without alpha being opaque. */
  function ListMeaning(ty: VarType, ns: seq<Number>): Option<Elem> {
    if Indifferent(ty) then Some(NoElem)
    else if |ns| == 1 then NumberMeaning(ty, ns[0])
    else if |ns| == 3 && (ty.Vector3? || ty.Point3?) then
      Some(FloatsElem([ns[0].asFloat, ns[1].asFloat, ns[2].asFloat]))
    else if |ns| == 4 && (ty.Quaternion? || ty.Rgba?) then
      Some(FloatsElem([ns[0].asFloat, ns[1].asFloat, ns[2].asFloat, ns[3].asFloat]))
    else if |ns| == 3 && ty.Rgb? then
      Some(FloatsElem([ns[0].asFloat, ns[1].asFloat, ns[2].asFloat, 0x3F80_0000]))
    else if |ns| == 3 && ty.Rgb8? then
      Some(ColorElem([ns[0].asUint % 0x100, ns[1].asUint % 0x100, ns[2].asUint % 0x100, 255]))
    else if |ns| == 4 && ty.Rgba8? then
      Some(ColorElem([ns[0].asUint % 0x100, ns[1].asUint % 0x100, ns[2].asUint % 0x100, ns[3].asUint % 0x100]))
    else None
  }

  function NumbersOf(toks: seq<Token>): (ns: seq<Number>)
    requires forall i :: 0 <= i < |toks| ==> toks[i].Numeric?
    ensures |ns| == |toks| && forall i :: 0 <= i < |ns| ==> ns[i] == toks[i].n
  {
    seq(|toks|, i requires 0 <= i < |toks| => toks[i].n)
  }

  /** What a literal stands for as a default of type ty; None when it does not fit. */
  function Meaning(ty: VarType, l: Literal): Option<Elem> {
    match l
    case One(tok) =>
      if tok.Numeric? then NumberMeaning(ty, tok.n)
      else if tok.Ident? then NameMeaning(ty, tok.s)
      else if tok.Quoted? then TextMeaning(ty, tok.s)
      else None
    case List(first, more) =>
      if Spoken(l) then ListMeaning(ty, NumbersOf([first] + more)) else None
  }

  lemma KeywordsSpelled()
    ensures TRUE == Spelled("true") && FALSE == Spelled("false") && NIL == Spelled("nil")
  {
  }

  /** The parser's default is the meaning of the literal, for every type and literal. */
  lemma DefaultIsMeaning(ty: VarType, l: Literal)
    requires Spoken(l)
    ensures DefaultValue(Some(ty), LiteralValues(l)) == Meaning(ty, l)
  {
    hide Meaning, DefaultValue, LiteralValues;
    match l
    case One(tok) => OneIsMeaning(ty, tok);
    case List(first, more) =>
      ListIsMeaning(ty, [first] + more);
      MeaningOfList(ty, first, more);
  }

  lemma MeaningOfList(ty: VarType, first: Token, more: seq<Token>)
    requires Spoken(List(first, more))
    ensures LiteralValues(List(first, more)) == [first] + more
    ensures Meaning(ty, List(first, more)) == ListMeaning(ty, NumbersOf([first] + more))
  {
    hide ListMeaning;
  }

  lemma OneIsMeaning(ty: VarType, tok: Token)
    requires Spoken(One(tok))
    ensures DefaultValue(Some(ty), LiteralValues(One(tok))) == Meaning(ty, One(tok))
  {
    hide DefaultValue, NumberMeaning, NameMeaning, TextMeaning;
    assert LiteralValues(One(tok)) == [tok];
    if tok.Numeric? {
      NumberIsMeaning(ty, tok.n);
    } else if tok.Ident? {
      NameIsMeaning(ty, tok.s);
    } else {
      TextIsMeaning(ty, tok.s);
    }
  }

  lemma NumberIsMeaning(ty: VarType, n: Number)
    ensures DefaultValue(Some(ty), [Numeric(n)]) == NumberMeaning(ty, n)
  {
    var values := [Numeric(n)];
    assert values[0] == Numeric(n) && Numbers(values, 1);
    assert Floats(values) == [n.asFloat];
    hide Floats, Components;
  }

  lemma TextIsMeaning(ty: VarType, s: Str)
    ensures DefaultValue(Some(ty), [Quoted(s)]) == TextMeaning(ty, s)
  {
    var values := [Quoted(s)];
    assert values[0] == Quoted(s) && !Numbers(values, 1);
    hide Floats, Components;
  }

  lemma NameIsMeaning(ty: VarType, s: Str)
    ensures DefaultValue(Some(ty), [Ident(s)]) == NameMeaning(ty, s)
  {
    KeywordsSpelled();
    hide Spelled;
    var values := [Ident(s)];
    assert values[0] == Ident(s) && !Numbers(values, 1);
  }

  lemma ListIsMeaning(ty: VarType, toks: seq<Token>)
    requires toks != [] && forall i :: 0 <= i < |toks| ==> toks[i].Numeric?
    ensures DefaultValue(Some(ty), toks) == ListMeaning(ty, NumbersOf(toks))
  {
    if |toks| == 1 {
      assert Floats(toks) == [toks[0].n.asFloat];
    } else if |toks| == 3 {
      ThreeAreMeaning(ty, toks);
    } else if |toks| == 4 {
      FourAreMeaning(ty, toks);
    }
  }

  lemma ThreeAreMeaning(ty: VarType, toks: seq<Token>)
    requires |toks| == 3 && forall i :: 0 <= i < |toks| ==> toks[i].Numeric?
    ensures DefaultValue(Some(ty), toks) == ListMeaning(ty, NumbersOf(toks))
  {
    assert Floats(toks) == [toks[0].n.asFloat, toks[1].n.asFloat, toks[2].n.asFloat];
    assert Components(toks) == [toks[0].n.asUint % 0x100, toks[1].n.asUint % 0x100, toks[2].n.asUint % 0x100];
    assert Components(toks) + [255]
        == [toks[0].n.asUint % 0x100, toks[1].n.asUint % 0x100, toks[2].n.asUint % 0x100, 255];
    assert Floats(toks) + [FLOAT_ONE] == [toks[0].n.asFloat, toks[1].n.asFloat, toks[2].n.asFloat, 0x3F80_0000];
    hide Floats, Components;
  }

  lemma FourAreMeaning(ty: VarType, toks: seq<Token>)
    requires |toks| == 4 && forall i :: 0 <= i < |toks| ==> toks[i].Numeric?
    ensures DefaultValue(Some(ty), toks) == ListMeaning(ty, NumbersOf(toks))
  {
    assert Floats(toks) == [toks[0].n.asFloat, toks[1].n.asFloat, toks[2].n.asFloat, toks[3].n.asFloat];
    assert Components(toks)
        == [toks[0].n.asUint % 0x100, toks[1].n.asUint % 0x100, toks[2].n.asUint % 0x100, toks[3].n.asUint % 0x100];
    hide Floats, Components;
  }

  function TypeOf(ty: TypeRef): VarType {
    match ty
    case FlatRef(t) => t
    case DescRef(_) => StateDesc
  }

  function Declared(d: Decl): ParsedVar {
    ParsedVar(d.name, Some(TypeOf(d.ty)), if d.ty.DescRef? then d.ty.name else [],
              if d.size.Some? then d.size.value.asInt else -1, None, [], [])
  }

  function WithAttr(v: ParsedVar, a: Attr): ParsedVar {
    match a
    case DefaultAttr(l) => v.(dflt := if v.ty.Some? then Meaning(v.ty.value, l) else Some(NoElem))
    case DefaultOptionAttr(s) => v.(defaultOption := s)
    case DisplayOptionAttr(s) => v.(displayOption := s)
  }

  function WithAttrs(v: ParsedVar, attrs: seq<Attr>): ParsedVar
    decreases |attrs|
  {
    if attrs == [] then v else WithAttrs(WithAttr(v, attrs[0]), attrs[1..])
  }

  /** A later VERSION replaces an earlier one; variables are in order. */
  function WithItem(d: ParsedDesc, item: Item): ParsedDesc {
    match item
    case VersionItem(n, _) => d.(version := n.asInt)
    case VarItem(decl, _) => WithVar(d, WithAttrs(Declared(decl), decl.attrs))
  }

  function WithItems(d: ParsedDesc, items: seq<Item>): ParsedDesc
    decreases |items|
  {
    if items == [] then d else WithItems(WithItem(d, items[0]), items[1..])
  }

  function DescOf(s: Source): ParsedDesc {
    var d := WithItems(NO_DESC.(name := s.name), s.items);
    d.(varmap := VarMap(d.vars))
  }

  function DescsOf(ss: seq<Source>): seq<ParsedDesc> {
    if ss == [] then [] else [DescOf(ss[0])] + DescsOf(ss[1..])
  }

  // ---- well-formed sources ----

  predicate GoodLiteral(ty: VarType, l: Literal) {
    Spoken(l) && Meaning(ty, l).Some?
  }

  /** A number, name or text, or numbers in parentheses. */
  predicate Spoken(l: Literal) {
    match l
    case One(tok) => tok.Numeric? || tok.Ident? || tok.Quoted?
    case List(first, more) => first.Numeric? && forall i :: 0 <= i < |more| ==> more[i].Numeric?
  }

  /** Every default fits the type of its variable. */
  predicate GoodItem(item: Item) {
    item.VarItem? ==>
      forall k :: 0 <= k < |item.decl.attrs| && item.decl.attrs[k].DefaultAttr? ==>
        GoodLiteral(TypeOf(item.decl.ty), item.decl.attrs[k].value)
  }

  predicate GoodSource(s: Source) {
    forall i :: 0 <= i < |s.items| ==> GoodItem(s.items[i])
  }

  // ---- the parser on a default ----

  /** One token of a default. */
  lemma ValueStep(state: S, values: seq<Token>, tok: Token, rest: Tokens)
    requires state != Var && !tok.ErrorTok? && NextValue(state, tok).Some?
    ensures Values(state, values, [tok] + rest)
         == Values(NextValue(state, tok).value,
                   if tok.Numeric? || tok.Ident? || tok.Quoted? then values + [tok] else values, rest)
  {
    hide NextValue;
    assert ([tok] + rest)[1..] == rest;
  }

  lemma ValuesEnd(values: seq<Token>, rest: Tokens)
    ensures Values(Var, values, rest) == (Var, values, rest)
  {
  }

  lemma {:induction false} ListValues(values: seq<Token>, more: seq<Token>, rest: Tokens)
    requires forall i :: 0 <= i < |more| ==> more[i].Numeric?
    ensures Values(LsX, values, Listed(more) + rest) == (Var, values + more, rest)
    decreases |more|
  {
    hide Values;
    if more == [] {
      ValueStep(LsX, values, RParen, rest);
      ValuesEnd(values, rest);
      assert values + [] == values;
    } else {
      var tail := Listed(more[1..]) + rest;
      assert Listed(more) + rest == [Comma] + ([more[0]] + tail);
      ValueStep(LsX, values, Comma, [more[0]] + tail);
      ValueStep(LsI, values, more[0], tail);
      ListValues(values + [more[0]], more[1..], rest);
      assert values + [more[0]] + more[1..] == values + more;
    }
  }

  lemma LiteralParses(ty: VarType, v: ParsedVar, l: Literal, rest: Tokens)
    requires GoodLiteral(ty, l) && v.ty == Some(ty)
    ensures ParseDefault(v, LiteralTokens(l) + rest) == (Var, WithAttr(v, DefaultAttr(l)), rest)
  {
    hide DefaultValue, Values, Listed, Meaning;
    DefaultIsMeaning(ty, l);
    match l
    case One(tok) =>
      assert [] + [tok] == [tok];
      ValueStep(Default, [], tok, rest);
      ValuesEnd([tok], rest);
    case List(first, more) =>
      var tail := Listed(more) + rest;
      assert LiteralTokens(l) + rest == [LParen] + ([first] + tail);
      assert [] + [first] == [first];
      ValueStep(Default, [], LParen, [first] + tail);
      ValueStep(LsI, [], first, tail);
      ListValues([first], more, rest);
  }

  // ---- the parser on a source ----

  /** One token. */
  lemma Feed(m: Machine, tok: Token, rest: Tokens)
    requires m.tokens == [tok] + rest && !tok.ErrorTok?
    ensures Run(m) == Run(Consume(m.(tokens := rest), tok))
  {
    hide Consume;
    assert m.tokens[1..] == rest;
  }

  /** The descriptor that is being read, with the variable that is still in the buffer. */
  function Reading(m: Machine): ParsedDesc {
    if m.state == Var then WithVar(m.desc, m.v) else m.desc
  }

  predicate InBody(m: Machine) {
    m.state == Var || m.state == Statedesc
  }

  lemma {:induction false} SemicolonsRun(m: Machine, n: nat, rest: Tokens)
    requires m.tokens == Semicolons(n) + rest
    ensures Run(m) == Run(m.(tokens := rest))
    decreases n
  {
    hide Run;
    if n == 0 {
      assert m.tokens == rest;
    } else {
      var tail := Semicolons(n - 1) + rest;
      assert m.tokens == [Semicolon] + tail;
      Feed(m, Semicolon, tail);
      SemicolonsRun(m.(tokens := tail), n - 1, rest);
    }
  }

  lemma DefaultRun(m: Machine, ty: VarType, l: Literal, rest: Tokens)
    requires m.state == Var && m.v.ty == Some(ty) && GoodLiteral(ty, l)
    requires m.tokens == [DefaultTok] + ([Equals] + (LiteralTokens(l) + rest))
    ensures Run(m) == Run(m.(v := WithAttr(m.v, DefaultAttr(l)), tokens := rest))
  {
    hide Run, Meaning, ParseDefault, WithAttr;
    var value := LiteralTokens(l) + rest;
    Feed(m, DefaultTok, [Equals] + value);
    Feed(m.(state := DefaultEq, tokens := [Equals] + value), Equals, value);
    LiteralRun(m.(state := Default, tokens := value), ty, l, rest);
  }

  lemma LiteralRun(m: Machine, ty: VarType, l: Literal, rest: Tokens)
    requires m.state == Default && m.v.ty == Some(ty) && GoodLiteral(ty, l) && m.tokens == LiteralTokens(l) + rest
    ensures Run(m) == Run(m.(state := Var, v := WithAttr(m.v, DefaultAttr(l)), tokens := rest))
  {
    hide Run, Meaning, ParseDefault, WithAttr;
    var value := LiteralTokens(l) + rest;
    assert value == [value[0]] + value[1..];
    LiteralParses(ty, m.v, l, rest);
    Feed(m, value[0], value[1..]);
  }

  lemma DefaultOptionRun(m: Machine, s: Str, rest: Tokens)
    requires m.state == Var && m.tokens == [DefaultOptionTok] + ([Equals] + ([Ident(s)] + rest))
    ensures Run(m) == Run(m.(v := WithAttr(m.v, DefaultOptionAttr(s)), tokens := rest))
  {
    hide Run, Meaning, ParseDefault;
    Feed(m, DefaultOptionTok, [Equals] + ([Ident(s)] + rest));
    Feed(m.(state := DefaultOptionEq, tokens := [Equals] + ([Ident(s)] + rest)), Equals, [Ident(s)] + rest);
    Feed(m.(state := DefaultOption, tokens := [Ident(s)] + rest), Ident(s), rest);
  }

  lemma DisplayOptionRun(m: Machine, s: Str, rest: Tokens)
    requires m.state == Var && m.tokens == [DisplayOptionTok] + ([Equals] + ([Ident(s)] + rest))
    ensures Run(m) == Run(m.(v := WithAttr(m.v, DisplayOptionAttr(s)), tokens := rest))
  {
    hide Run, Meaning, ParseDefault;
    Feed(m, DisplayOptionTok, [Equals] + ([Ident(s)] + rest));
    Feed(m.(state := DisplayOptionEq, tokens := [Equals] + ([Ident(s)] + rest)), Equals, [Ident(s)] + rest);
    Feed(m.(state := DisplayOption, tokens := [Ident(s)] + rest), Ident(s), rest);
  }

  lemma AttrRun(m: Machine, ty: VarType, a: Attr, rest: Tokens)
    requires m.state == Var && m.v.ty == Some(ty) && m.tokens == AttrTokens(a) + rest
    requires a.DefaultAttr? ==> GoodLiteral(ty, a.value)
    ensures Run(m) == Run(m.(v := WithAttr(m.v, a), tokens := rest))
    ensures WithAttr(m.v, a).ty == Some(ty)
  {
    hide Run, Meaning, LiteralTokens, GoodLiteral;
    match a
    case DefaultAttr(l) =>
      assert m.tokens == [DefaultTok] + ([Equals] + (LiteralTokens(l) + rest));
      DefaultRun(m, ty, l, rest);
    case DefaultOptionAttr(s) =>
      assert m.tokens == [DefaultOptionTok] + ([Equals] + ([Ident(s)] + rest));
      DefaultOptionRun(m, s, rest);
    case DisplayOptionAttr(s) =>
      assert m.tokens == [DisplayOptionTok] + ([Equals] + ([Ident(s)] + rest));
      DisplayOptionRun(m, s, rest);
  }

  lemma {:induction false} AttrsRun(m: Machine, ty: VarType, attrs: seq<Attr>, rest: Tokens)
    requires m.state == Var && m.v.ty == Some(ty) && m.tokens == AttrsTokens(attrs) + rest
    requires forall k :: 0 <= k < |attrs| && attrs[k].DefaultAttr? ==> GoodLiteral(ty, attrs[k].value)
    ensures Run(m) == Run(m.(v := WithAttrs(m.v, attrs), tokens := rest))
    decreases |attrs|
  {
    hide Run, AttrTokens, WithAttr, GoodLiteral;
    if attrs == [] {
      assert m.tokens == rest;
    } else {
      var tail := AttrsTokens(attrs[1..]) + rest;
      assert m.tokens == AttrTokens(attrs[0]) + tail;
      AttrRun(m, ty, attrs[0], tail);
      AttrsRun(m.(v := WithAttr(m.v, attrs[0]), tokens := tail), ty, attrs[1..], rest);
    }
  }

  /** The size in brackets. */
  lemma SizeRun(m: Machine, size: Option<Number>, rest: Tokens)
    requires m.state == VarSz && m.tokens == SizeTokens(size) + rest
    ensures Run(m) == Run(m.(state := Var, v := m.v.(size := if size.Some? then size.value.asInt else -1), tokens := rest))
  {
    hide Run;
    if size.None? {
      assert m.tokens == [LBracket] + ([RBracket] + rest);
      Feed(m, LBracket, [RBracket] + rest);
      Feed(m.(state := SzN, tokens := [RBracket] + rest), RBracket, rest);
    } else {
      var n := Numeric(size.value);
      assert m.tokens == [LBracket] + ([n] + ([RBracket] + rest));
      Feed(m, LBracket, [n] + ([RBracket] + rest));
      Feed(m.(state := SzN, tokens := [n] + ([RBracket] + rest)), n, [RBracket] + rest);
      Feed(m.(state := SzX, v := m.v.(size := size.value.asInt), tokens := [RBracket] + rest), RBracket, rest);
    }
  }

  /** VAR, the type and the name. */
  lemma DeclHeadRun(m: Machine, ty: TypeRef, name: Str, rest: Tokens)
    requires InBody(m) && m.tokens == [VarTok] + ([TypeToken(ty)] + ([Ident(name)] + rest))
    ensures Run(m) == Run(m.(state := VarSz, desc := Reading(m), tokens := rest,
                             v := NO_VAR.(name := name, ty := Some(TypeOf(ty)), typeName := if ty.DescRef? then ty.name else [])))
  {
    hide Run, TakeDefault;
    var t := TypeToken(ty);
    Feed(m, VarTok, [t] + ([Ident(name)] + rest));
    var m1 := m.(state := VarTp, desc := Reading(m), v := NO_VAR, tokens := [t] + ([Ident(name)] + rest));
    Feed(m1, t, [Ident(name)] + rest);
    var m2 := Consume(m1.(tokens := [Ident(name)] + rest), t);
    Feed(m2, Ident(name), rest);
  }

  lemma DeclRun(m: Machine, d: Decl, rest: Tokens)
    requires InBody(m) && m.tokens == DeclTokens(d) + rest && GoodItem(VarItem(d, 0))
    ensures Run(m) == Run(m.(state := Var, desc := Reading(m), v := WithAttrs(Declared(d), d.attrs), tokens := rest))
  {
    hide Run, WithAttrs, AttrsTokens, SizeTokens, GoodLiteral, Reading, TypeToken;
    var attrs := AttrsTokens(d.attrs) + rest;
    var size := SizeTokens(d.size) + attrs;
    assert m.tokens == [VarTok] + ([TypeToken(d.ty)] + ([Ident(d.name)] + size));
    DeclHeadRun(m, d.ty, d.name, size);
    var m3 := m.(state := VarSz, desc := Reading(m), tokens := size,
                 v := NO_VAR.(name := d.name, ty := Some(TypeOf(d.ty)), typeName := if d.ty.DescRef? then d.ty.name else []));
    SizeRun(m3, d.size, attrs);
    AttrsRun(m3.(state := Var, v := Declared(d), tokens := attrs), TypeOf(d.ty), d.attrs, rest);
  }

  /** What is read so far grows by the item. */
  lemma ItemRun(m: Machine, item: Item, rest: Tokens) returns (m': Machine)
    requires InBody(m) && m.tokens == ItemTokens(item) + rest && GoodItem(item)
    ensures Run(m) == Run(m') && InBody(m') && m'.tokens == rest && m'.done == m.done
    ensures Reading(m') == WithItem(Reading(m), item)
  {
    hide Run, DeclTokens, WithAttrs;
    match item
    case VersionItem(n, k) =>
      var tail := Semicolons(k) + rest;
      assert m.tokens == [VersionTok] + ([Numeric(n)] + tail);
      Feed(m, VersionTok, [Numeric(n)] + tail);
      var m1 := m.(state := VersionN, desc := Reading(m), tokens := [Numeric(n)] + tail);
      Feed(m1, Numeric(n), tail);
      var m2 := m1.(state := Statedesc, desc := m1.desc.(version := n.asInt), tokens := tail);
      SemicolonsRun(m2, k, rest);
      m' := m2.(tokens := rest);
    case VarItem(d, k) =>
      var tail := Semicolons(k) + rest;
      assert m.tokens == DeclTokens(d) + tail;
      DeclRun(m, d, tail);
      var m2 := m.(state := Var, desc := Reading(m), v := WithAttrs(Declared(d), d.attrs), tokens := tail);
      SemicolonsRun(m2, k, rest);
      m' := m2.(tokens := rest);
  }

  lemma {:induction false} ItemsRun(m: Machine, items: seq<Item>, rest: Tokens) returns (m': Machine)
    requires InBody(m) && m.tokens == ItemsTokens(items) + rest && forall i :: 0 <= i < |items| ==> GoodItem(items[i])
    ensures Run(m) == Run(m') && InBody(m') && m'.tokens == rest && m'.done == m.done
    ensures Reading(m') == WithItems(Reading(m), items)
    decreases |items|
  {
    hide Run, ItemTokens, WithItem, Reading, InBody, GoodItem;
    if items == [] {
      assert m.tokens == rest;
      m' := m;
    } else {
      var tail := ItemsTokens(items[1..]) + rest;
      assert m.tokens == ItemTokens(items[0]) + tail;
      var m1 := ItemRun(m, items[0], tail);
      m' := ItemsRun(m1, items[1..], rest);
    }
  }

  /** STATEDESC, the name and the brace. */
  lemma SourceHeadRun(m: Machine, name: Str, rest: Tokens)
    requires m.state == File && m.tokens == [StatedescTok] + ([Ident(name)] + ([LBrace] + rest))
    ensures Run(m) == Run(m.(state := Statedesc, desc := NO_DESC.(name := name), tokens := rest))
  {
    hide Run, TakeDefault;
    Feed(m, StatedescTok, [Ident(name)] + ([LBrace] + rest));
    var m1 := m.(state := StatedescId, desc := NO_DESC, tokens := [Ident(name)] + ([LBrace] + rest));
    Feed(m1, Ident(name), [LBrace] + rest);
    Feed(m1.(state := StatedescBr, desc := NO_DESC.(name := name), tokens := [LBrace] + rest), LBrace, rest);
  }

  /** A whole STATEDESC, whatever the buffers held before. */
  lemma SourceRun(m: Machine, s: Source, rest: Tokens) returns (m': Machine)
    requires m.state == File && m.tokens == SourceTokens(s) + rest && GoodSource(s)
    ensures Run(m) == Run(m') && m'.state == File && m'.tokens == rest && m'.done == m.done + [DescOf(s)]
  {
    hide Run, ItemsTokens, WithItems, VarMap, GoodItem, TakeDefault;
    var body := ItemsTokens(s.items) + ([RBrace] + rest);
    assert m.tokens == [StatedescTok] + ([Ident(s.name)] + ([LBrace] + body));
    SourceHeadRun(m, s.name, body);
    var m3 := ItemsRun(m.(state := Statedesc, desc := NO_DESC.(name := s.name), tokens := body), s.items, [RBrace] + rest);
    Feed(m3, RBrace, rest);
    m' := Consume(m3.(tokens := rest), RBrace);
  }

  lemma {:induction false} SourcesRun(m: Machine, ss: seq<Source>, rest: Tokens) returns (m': Machine)
    requires m.state == File && m.tokens == SourcesTokens(ss) + rest && forall i :: 0 <= i < |ss| ==> GoodSource(ss[i])
    ensures Run(m) == Run(m') && m'.state == File && m'.tokens == rest && m'.done == m.done + DescsOf(ss)
    decreases |ss|
  {
    hide Run, SourceTokens, DescOf, GoodSource;
    if ss == [] {
      assert m.tokens == rest && m.done + [] == m.done;
      m' := m;
    } else {
      var tail := SourcesTokens(ss[1..]) + rest;
      assert m.tokens == SourceTokens(ss[0]) + tail;
      var m1 := SourceRun(m, ss[0], tail);
      m' := SourcesRun(m1, ss[1..], rest);
      assert m.done + [DescOf(ss[0])] + DescsOf(ss[1..]) == m.done + DescsOf(ss);
    }
  }

  /** The parser returns what the sources stand for, but for descriptors without a version; and what
      comes before an error is kept. */
  lemma ParseRendered(ss: seq<Source>, rest: Tokens)
    requires (forall i :: 0 <= i < |ss| ==> GoodSource(ss[i])) && Stopped(rest)
    ensures ParseTokens(SourcesTokens(ss) + rest) == Checked(DescsOf(ss))
  {
    hide SourcesTokens, DescsOf, GoodSource, Checked;
    var m := SdlParser.START.(tokens := SourcesTokens(ss) + rest);
    var m' := SourcesRun(m, ss, rest);
    assert [] + DescsOf(ss) == DescsOf(ss);
  }

  predicate Versioned(s: Source) {
    DescOf(s).version >= 0
  }

  /** When every source has a version, they all come back, in order. */
  lemma {:induction false} AllReturned(ss: seq<Source>)
    requires forall i :: 0 <= i < |ss| ==> Versioned(ss[i])
    ensures Checked(DescsOf(ss)) == DescsOf(ss)
    decreases |ss|
  {
    hide DescOf;
    if ss != [] {
      assert Versioned(ss[0]);
      AllReturned(ss[1..]);
      assert DescsOf(ss)[0] == DescOf(ss[0]) && DescsOf(ss)[1..] == DescsOf(ss[1..]);
    }
  }
}
