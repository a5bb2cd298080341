/** The descriptor parser (SDL/SdlParser.cpp:247-752): a state machine over tokens with push-back. */
module SdlParser {
  import opened Bytes
  import opened SdlTypes

  // ---- tokens ----

  type FlatType = ty: VarType | !ty.StateDesc? witness Int

  /** A numeric token under the conversions that the parser applies to its text: strtol to int, strtoul,
      strtof and strtod. */
  datatype Number = Number(asInt: int, asUint: nat, asFloat: word, asDouble: (word, word)) {
    predicate Valid() { -0x8000_0000 <= asInt < 0x8000_0000 }
  }

  datatype Token =
    | ErrorTok
    | LParen | RParen | Comma | Semicolon | Equals | LBracket | RBracket | LBrace | RBrace
    | StatedescTok | VersionTok | VarTok | TypeTok(ty: FlatType) | DefaultTok | DefaultOptionTok | DisplayOptionTok
    | Ident(s: Str) | Numeric(n: Number) | Quoted(s: Str) | Typename(s: Str)

  const TRUE: Str := [116, 114, 117, 101]
  const FALSE: Str := [102, 97, 108, 115, 101]
  const NIL: Str := [110, 105, 108]

  /** What is read from the file, with what has been pushed back in front; the file ends in Eof tokens. */
  type Tokens = seq<Token>

  predicate ValidTokens(tokens: Tokens) {
    forall i :: 0 <= i < |tokens| && tokens[i].Numeric? ==> tokens[i].n.Valid()
  }

  /** At the end of the file, or in front of an error. */
  predicate Stopped(tokens: Tokens) {
    tokens == [] || tokens[0].ErrorTok?
  }

  /** Every round makes this smaller, in spite of push-back: a token that is consumed goes, and one that
      is rejected comes back as an error, which stops the parser. */
  function Measure(tokens: Tokens): nat {
    if Stopped(tokens) then 2 * |tokens| else 2 * |tokens| + 1
  }

  // ---- what is parsed ----

  datatype ParsedVar = ParsedVar(name: Str, ty: Option<VarType>, typeName: Str, size: int, dflt: Option<Elem>,
                                 defaultOption: Str, displayOption: Str)

  datatype ParsedDesc = ParsedDesc(name: Str, version: int, vars: seq<ParsedVar>, varmap: map<Str, nat>)

  const NO_VAR := ParsedVar([], None, [], 0, None, [], [])
  const NO_DESC := ParsedDesc([], -1, [], map[])

  datatype S =
    | File | StatedescId | StatedescBr | Statedesc | VersionN | VarTp | VarId | VarSz | Var
    | DefaultEq | Default | DefaultOptionEq | DefaultOption | DisplayOptionEq | DisplayOption
    | SzN | SzX | LsI | LsX

  // ---- defaults ----

  /** The loop of parse_default: the state in which it ends, the values, and the tokens left. */
  function Values(state: S, values: seq<Token>, tokens: Tokens): (r: (S, seq<Token>, Tokens))
    decreases Measure(tokens)
  {
    if state == Var || Stopped(tokens) then (state, values, tokens)
    else
      var tok, rest := tokens[0], tokens[1..];
      var next := NextValue(state, tok);
      if next.None? then Values(state, values, [ErrorTok] + rest)
      else if tok.Numeric? || tok.Ident? || tok.Quoted? then Values(next.value, values + [tok], rest)
      else Values(next.value, values, rest)
  }

  /** The state after a token of a default; None when the token is unexpected. */
  function NextValue(state: S, tok: Token): (r: Option<S>)
    ensures r.Some? ==> r.value == Var || r.value == LsI || r.value == LsX
  {
    match tok
    case LParen => if state == Default then Some(LsI) else None
    case RParen => if state == LsX then Some(Var) else None
    case Comma => if state == LsX then Some(LsI) else None
    case Numeric(_) => if state == LsI then Some(LsX) else if state == Default then Some(Var) else None
    case Ident(_) => if state == Default then Some(Var) else None
    case Quoted(_) => if state == Default then Some(Var) else None
    case _ => None
  }

  predicate Numbers(values: seq<Token>, n: nat) {
    |values| == n && forall i :: 0 <= i < n ==> values[i].Numeric?
  }

  function Floats(values: seq<Token>): (ws: seq<word>)
    requires Numbers(values, |values|)
    ensures |ws| == |values| && forall i :: 0 <= i < |ws| ==> ws[i] == values[i].n.asFloat
  {
    seq(|values|, i requires 0 <= i < |values| => values[i].n.asFloat)
  }

  function Components(values: seq<Token>): (bs: seq<byte>)
    requires Numbers(values, |values|)
    ensures |bs| == |values| && forall i :: 0 <= i < |bs| ==> bs[i] == values[i].n.asUint % 0x100
  {
    seq(|values|, i requires 0 <= i < |values| => values[i].n.asUint % 0x100)
  }

  /** The default that the values stand for; None when they do not fit the type. */
  function DefaultValue(ty: Option<VarType>, values: seq<Token>): Option<Elem> {
    if ty.None? then Some(NoElem)
    else match ty.value
      case Bool =>
        if |values| != 1 then None
        else if values[0].Numeric? then Some(BoolElem(values[0].n.asInt != 0))
        else if values[0].Ident? && values[0].s == TRUE then Some(BoolElem(true))
        else if values[0].Ident? && values[0].s == FALSE then Some(BoolElem(false))
        else None
      case Int => if Numbers(values, 1) then Some(IntElem(values[0].n.asInt)) else None
      case Byte => if Numbers(values, 1) then Some(IntElem(values[0].n.asInt)) else None
      case Short => if Numbers(values, 1) then Some(IntElem(values[0].n.asInt)) else None
      case Float => if Numbers(values, 1) then Some(FloatsElem(Floats(values))) else None
      case Double =>
        if Numbers(values, 1) then Some(FloatsElem([values[0].n.asDouble.0, values[0].n.asDouble.1])) else None
      case String => if |values| == 1 && (values[0].Ident? || values[0].Quoted?) then Some(StringElem(values[0].s)) else None
      case Time => if Numbers(values, 1) then Some(TimeElem(UnifiedTime(values[0].n.asUint % 0x1_0000_0000, 0))) else None
      case Vector3 => if Numbers(values, 3) then Some(FloatsElem(Floats(values))) else None
      case Point3 => if Numbers(values, 3) then Some(FloatsElem(Floats(values))) else None
      case Quaternion => if Numbers(values, 4) then Some(FloatsElem(Floats(values))) else None
      case Rgb => if Numbers(values, 3) then Some(FloatsElem(Floats(values) + [FLOAT_ONE])) else None
      case Rgba => if Numbers(values, 4) then Some(FloatsElem(Floats(values))) else None
      case Rgb8 => if Numbers(values, 3) then Some(ColorElem(Components(values) + [255])) else None
      case Rgba8 => if Numbers(values, 4) then Some(ColorElem(Components(values))) else None
      case Key => if |values| == 1 && values[0] == Ident(NIL) then Some(NoElem) else None
      case Creatable => Some(NoElem)
      case AgeTimeOfDay => Some(NoElem)
      case StateDesc => Some(NoElem)
  }

  /** parse_default: the new state, the variable, and the tokens left. */
  function ParseDefault(v: ParsedVar, tokens: Tokens): (S, ParsedVar, Tokens) {
    var (state, values, rest) := Values(Default, [], tokens);
    if state != Var then (state, v, rest)
    else
      var d := DefaultValue(v.ty, values);
      if d.None? then (Var, v, [ErrorTok] + rest) else (Var, v.(dflt := d), rest)
  }

  lemma {:induction false} ValuesShrink(state: S, values: seq<Token>, tokens: Tokens)
    ensures var (state', _, rest) := Values(state, values, tokens);
            && |rest| <= |tokens| && Measure(rest) <= Measure(tokens)
            && (state != Var ==> state' == Var ==> |rest| < |tokens|)
            && (state' != Var ==> Stopped(rest))
    decreases Measure(tokens)
  {
    if state != Var && !Stopped(tokens) {
      var tok, rest := tokens[0], tokens[1..];
      var next := NextValue(state, tok);
      if next.None? {
        ValuesShrink(state, values, [ErrorTok] + rest);
      } else if tok.Numeric? || tok.Ident? || tok.Quoted? {
        ValuesShrink(next.value, values + [tok], rest);
      } else {
        ValuesShrink(next.value, values, rest);
      }
    }
  }

  // ---- the state machine ----

  datatype Machine = Machine(state: S, desc: ParsedDesc, v: ParsedVar, done: seq<ParsedDesc>, tokens: Tokens)

  const START := Machine(File, NO_DESC, NO_VAR, [], [])

  /** m_varmap: every name with the position of the last variable so named. */
  function VarMap(vars: seq<ParsedVar>): (r: map<Str, nat>)
    ensures forall name :: name in r <==> exists i :: 0 <= i < |vars| && vars[i].name == name
    ensures forall name :: name in r ==>
              r[name] < |vars| && vars[r[name]].name == name && forall i :: r[name] < i < |vars| ==> vars[i].name != name
  {
    if vars == [] then map[]
    else
      var n := |vars| - 1;
      assert vars == vars[..n] + [vars[n]];
      VarMap(vars[..n])[vars[n].name := n]
  }

  /** BAD_TOK: the token comes back as an error. */
  function Bad(m: Machine): Machine {
    m.(tokens := [ErrorTok] + m.tokens)
  }

  function WithVar(d: ParsedDesc, v: ParsedVar): ParsedDesc {
    d.(vars := d.vars + [v])
  }

  /** '}' ends a descriptor. */
  function Finish(m: Machine, d: ParsedDesc): Machine {
    var done := d.(varmap := VarMap(d.vars));
    m.(desc := done, done := m.done + [done], state := File)
  }

  /** The token is put back and the default parsed from there. */
  function TakeDefault(m: Machine, tok: Token): Machine {
    var (state, v, rest) := ParseDefault(m.v, [tok] + m.tokens);
    m.(state := state, v := v, tokens := rest)
  }

  /** One round of the loop, on a token that has been taken from m.tokens. */
  function Consume(m: Machine, tok: Token): Machine
    requires !tok.ErrorTok?
  {
    match tok
    case LParen => if m.state == Default then TakeDefault(m, tok) else Bad(m)
    case RParen => Bad(m)
    case Comma => Bad(m)
    case Semicolon => m
    case Equals =>
      if m.state == DefaultEq then m.(state := Default)
      else if m.state == DefaultOptionEq then m.(state := DefaultOption)
      else if m.state == DisplayOptionEq then m.(state := DisplayOption)
      else Bad(m)
    case LBracket => if m.state == VarSz then m.(state := SzN) else Bad(m)
    case RBracket =>
      if m.state == SzN then m.(v := m.v.(size := -1), state := Var)
      else if m.state == SzX then m.(state := Var)
      else Bad(m)
    case LBrace => if m.state == StatedescBr then m.(state := Statedesc) else Bad(m)
    case RBrace =>
      if m.state == Var then Finish(m, WithVar(m.desc, m.v))
      else if m.state == Statedesc then Finish(m, m.desc)
      else Bad(m)
    case StatedescTok =>
      (if m.state == File then m.(state := StatedescId) else Bad(m)).(desc := NO_DESC)
    case VersionTok =>
      if m.state == Var then m.(desc := WithVar(m.desc, m.v), state := VersionN)
      else if m.state == Statedesc then m.(state := VersionN)
      else Bad(m)
    case VarTok =>
      (if m.state == Var then m.(desc := WithVar(m.desc, m.v), state := VarTp)
       else if m.state == Statedesc then m.(state := VarTp)
       else Bad(m)).(v := NO_VAR)
    case TypeTok(ty) => if m.state == VarTp then m.(v := m.v.(ty := Some(ty)), state := VarId) else Bad(m)
    case DefaultTok => if m.state == Var then m.(state := DefaultEq) else Bad(m)
    case DefaultOptionTok => if m.state == Var then m.(state := DefaultOptionEq) else Bad(m)
    case DisplayOptionTok => if m.state == Var then m.(state := DisplayOptionEq) else Bad(m)
    case Ident(s) =>
      if m.state == StatedescId then m.(desc := m.desc.(name := s), state := StatedescBr)
      else if m.state == VarId then m.(v := m.v.(name := s), state := VarSz)
      else if m.state == Default then TakeDefault(m, tok)
      else if m.state == DefaultOption then m.(v := m.v.(defaultOption := s), state := Var)
      else if m.state == DisplayOption then m.(v := m.v.(displayOption := s), state := Var)
      else Bad(m)
    case Numeric(n) =>
      if m.state == VersionN then m.(desc := m.desc.(version := n.asInt), state := Statedesc)
      else if m.state == SzN then m.(v := m.v.(size := n.asInt), state := SzX)
      else if m.state == Default then TakeDefault(m, tok)
      else Bad(m)
    case Quoted(_) => if m.state == Default then TakeDefault(m, tok) else Bad(m)
    case Typename(s) =>
      if m.state == VarTp then m.(v := m.v.(ty := Some(StateDesc), typeName := s), state := VarId) else Bad(m)
  }

  function Step(m: Machine): Machine
    requires !Stopped(m.tokens)
  {
    Consume(m.(tokens := m.tokens[1..]), m.tokens[0])
  }

  /** Every round gets closer to the end, whatever the tokens. */
  lemma StepShrinks(m: Machine)
    requires !Stopped(m.tokens)
    ensures Measure(Step(m).tokens) < Measure(m.tokens)
  {
    hide Values, DefaultValue, VarMap;
    var tok, rest := m.tokens[0], m.tokens[1..];
    assert [tok] + rest == m.tokens;
    ValuesShrink(Default, [], m.tokens);
  }

  /** The descriptors read until the parser stops. */
  function Run(m: Machine): seq<ParsedDesc>
    decreases Measure(m.tokens)
  {
    if Stopped(m.tokens) then m.done
    else
      StepShrinks(m);
      Run(Step(m))
  }

  /** Descriptors without a version are ignored. */
  function Checked(descs: seq<ParsedDesc>): (r: seq<ParsedDesc>)
    ensures forall i :: 0 <= i < |r| ==> r[i] in descs && r[i].version >= 0
  {
    if descs == [] then []
    else (if descs[0].version < 0 then [] else [descs[0]]) + Checked(descs[1..])
  }

  /** Parser::parse */
  function ParseTokens(tokens: Tokens): seq<ParsedDesc> {
    Checked(Run(START.(tokens := tokens)))
  }

  // ---- what every result satisfies ----

  predicate SoundVar(v: ParsedVar) {
    v.ty.Some? && (v.dflt.Some? ==> DefaultOf(v.ty.value, v.dflt.value))
  }

  predicate SoundVars(vars: seq<ParsedVar>) {
    forall i :: 0 <= i < |vars| ==> SoundVar(vars[i])
  }

  /** A returned descriptor: every variable has a type that its default fits, and m_varmap sends every
      name to the last variable so named. */
  predicate SoundDesc(d: ParsedDesc) {
    SoundVars(d.vars) && d.varmap == VarMap(d.vars)
  }

  /** The states in which the variable buffer holds a variable with its type. */
  predicate HasType(state: S) {
    !(state == File || state == StatedescId || state == StatedescBr || state == Statedesc || state == VersionN || state == VarTp)
  }

  predicate SoundMachine(m: Machine) {
    && ValidTokens(m.tokens)
    && (forall i :: 0 <= i < |m.done| ==> SoundDesc(m.done[i]))
    && SoundVars(m.desc.vars)
    && (Stopped(m.tokens) || BufferSound(m))
  }

  predicate BufferSound(m: Machine) {
    (HasType(m.state) ==> SoundVar(m.v)) && (m.state == VarTp ==> m.v == NO_VAR)
  }

  lemma DefaultSound(ty: VarType, values: seq<Token>)
    requires ValidTokens(values) && DefaultValue(Some(ty), values).Some?
    ensures DefaultOf(ty, DefaultValue(Some(ty), values).value)
  {
  }

  lemma {:induction false} ValuesSound(state: S, values: seq<Token>, tokens: Tokens)
    requires ValidTokens(values) && ValidTokens(tokens) && HasType(state)
    ensures var (state', values', rest) := Values(state, values, tokens);
            ValidTokens(values') && ValidTokens(rest) && HasType(state')
    decreases Measure(tokens)
  {
    if state != Var && !Stopped(tokens) {
      var tok, rest := tokens[0], tokens[1..];
      var next := NextValue(state, tok);
      if next.None? {
        ValuesSound(state, values, [ErrorTok] + rest);
      } else if tok.Numeric? || tok.Ident? || tok.Quoted? {
        ValuesSound(next.value, values + [tok], rest);
      } else {
        ValuesSound(next.value, values, rest);
      }
    }
  }

  lemma TakeDefaultSound(m: Machine, tok: Token)
    requires SoundMachine(m) && BufferSound(m) && m.state == Default && (tok.Numeric? ==> tok.n.Valid())
    ensures SoundMachine(TakeDefault(m, tok))
  {
    hide Values, DefaultValue, SoundDesc;
    ValuesSound(Default, [], [tok] + m.tokens);
    var (state, values, rest) := Values(Default, [], [tok] + m.tokens);
    if DefaultValue(m.v.ty, values).Some? {
      DefaultSound(m.v.ty.value, values);
    }
  }

  predicate TakesDefault(m: Machine, tok: Token) {
    m.state == Default && (tok.LParen? || tok.Ident? || tok.Numeric? || tok.Quoted?)
  }

  /** What is expected in each state, and where it leads; a semicolon is welcome everywhere. */
  function NextState(state: S, tok: Token): Option<S> {
    if tok.Semicolon? then Some(state)
    else match state
      case File => if tok.StatedescTok? then Some(StatedescId) else None
      case StatedescId => if tok.Ident? then Some(StatedescBr) else None
      case StatedescBr => if tok.LBrace? then Some(Statedesc) else None
      case Statedesc => NextItem(tok)
      case VersionN => if tok.Numeric? then Some(Statedesc) else None
      case VarTp => if tok.TypeTok? || tok.Typename? then Some(VarId) else None
      case VarId => if tok.Ident? then Some(VarSz) else None
      case VarSz => if tok.LBracket? then Some(SzN) else None
      case SzN => if tok.Numeric? then Some(SzX) else if tok.RBracket? then Some(Var) else None
      case SzX => if tok.RBracket? then Some(Var) else None
      case Var =>
        if tok.DefaultTok? then Some(DefaultEq)
        else if tok.DefaultOptionTok? then Some(DefaultOptionEq)
        else if tok.DisplayOptionTok? then Some(DisplayOptionEq)
        else NextItem(tok)
      case DefaultEq => if tok.Equals? then Some(Default) else None
      case DefaultOptionEq => if tok.Equals? then Some(DefaultOption) else None
      case DisplayOptionEq => if tok.Equals? then Some(DisplayOption) else None
      case DefaultOption => if tok.Ident? then Some(Var) else None
      case DisplayOption => if tok.Ident? then Some(Var) else None
      case _ => None
  }

  /** Between items. */
  function NextItem(tok: Token): Option<S> {
    if tok.VersionTok? then Some(VersionN)
    else if tok.VarTok? then Some(VarTp)
    else if tok.RBrace? then Some(File)
    else None
  }

  /** A token that is expected leads on; any other comes back as an error, which ends the parse. */
  lemma ConsumesExpected(m: Machine, tok: Token)
    requires !tok.ErrorTok? && !TakesDefault(m, tok)
    ensures var n, next := Consume(m, tok), NextState(m.state, tok);
            if next.Some? then n.state == next.value && n.tokens == m.tokens
            else n.tokens == [ErrorTok] + m.tokens && Stopped(n.tokens)
  {
    hide VarMap, TakeDefault;
  }

  /** The same inside a default: a value, or numbers with commas between parentheses. */
  lemma ExpectedValue(state: S, tok: Token)
    requires state == Default || state == LsI || state == LsX
    ensures NextValue(state, tok)
         == if state == Default && (tok.Numeric? || tok.Ident? || tok.Quoted?) then Some(Var)
            else if state == Default && tok.LParen? then Some(LsI)
            else if state == LsI && tok.Numeric? then Some(LsX)
            else if state == LsX && tok.Comma? then Some(LsI)
            else if state == LsX && tok.RParen? then Some(Var)
            else None
  {
  }

  /** Most tokens leave the variables and the finished descriptors alone. */
  lemma ConsumeKeeps(m: Machine, tok: Token)
    requires !tok.ErrorTok? && !TakesDefault(m, tok)
    requires !tok.RBrace? && !tok.VersionTok? && !tok.VarTok? && !tok.StatedescTok?
    ensures Consume(m, tok).done == m.done && Consume(m, tok).desc.vars == m.desc.vars
  {
    hide VarMap, TakeDefault;
  }

  /** The others can add the variable of the buffer, begin a descriptor, or finish one. */
  lemma ConsumeAdds(m: Machine, tok: Token)
    requires tok.RBrace? || tok.VersionTok? || tok.VarTok? || tok.StatedescTok?
    ensures var n := Consume(m, tok);
            && (n.desc.vars == m.desc.vars || n.desc.vars == [] || (m.state == Var && n.desc.vars == m.desc.vars + [m.v]))
            && (n.done == m.done || (n.done == m.done + [n.desc] && n.desc.varmap == VarMap(n.desc.vars)))
  {
    hide VarMap, TakeDefault;
  }

  lemma ConsumeDone(m: Machine, tok: Token)
    requires SoundMachine(m) && BufferSound(m) && !tok.ErrorTok? && !TakesDefault(m, tok)
    ensures var n := Consume(m, tok);
            && (forall i :: 0 <= i < |n.done| ==> SoundDesc(n.done[i]))
            && SoundVars(n.desc.vars)
  {
    hide VarMap, Consume, SoundVar;
    if tok.RBrace? || tok.VersionTok? || tok.VarTok? || tok.StatedescTok? {
      ConsumeAdds(m, tok);
    } else {
      ConsumeKeeps(m, tok);
    }
  }

  /** The tokens that change the variable of the buffer. */
  predicate SetsBuffer(tok: Token) {
    tok.RBracket? || tok.VarTok? || tok.TypeTok? || tok.Ident? || tok.Numeric? || tok.Typename?
  }

  lemma BufferKept(m: Machine, tok: Token)
    requires !tok.ErrorTok? && !TakesDefault(m, tok) && !SetsBuffer(tok)
    ensures var n := Consume(m, tok);
            n.tokens == [ErrorTok] + m.tokens
            || (n.tokens == m.tokens && n.v == m.v && (HasType(n.state) ==> HasType(m.state)) && (n.state == VarTp ==> m.state == VarTp))
  {
    hide VarMap, TakeDefault;
  }

  lemma BufferSet(m: Machine, tok: Token)
    requires BufferSound(m) && !TakesDefault(m, tok) && SetsBuffer(tok)
    ensures var n := Consume(m, tok); n.tokens == [ErrorTok] + m.tokens || (n.tokens == m.tokens && BufferSound(n))
  {
    hide VarMap, TakeDefault, DefaultOf;
  }

  lemma ConsumeBuffer(m: Machine, tok: Token)
    requires BufferSound(m) && !tok.ErrorTok? && !TakesDefault(m, tok)
    ensures var n := Consume(m, tok);
            (n.tokens == m.tokens && BufferSound(n)) || (Stopped(n.tokens) && n.tokens == [ErrorTok] + m.tokens)
  {
    hide Consume, SoundVar;
    if SetsBuffer(tok) {
      BufferSet(m, tok);
    } else {
      BufferKept(m, tok);
    }
  }

  lemma StepSound(m: Machine)
    requires SoundMachine(m) && !Stopped(m.tokens)
    ensures SoundMachine(Step(m))
  {
    hide TakeDefault, Consume, SoundDesc, SoundVar;
    var rest := m.(tokens := m.tokens[1..]);
    var tok := m.tokens[0];
    assert BufferSound(rest) && SoundMachine(rest);
    if TakesDefault(rest, tok) {
      ConsumesDefault(rest, tok);
      TakeDefaultSound(rest, tok);
    } else {
      ConsumeDone(rest, tok);
      ConsumeBuffer(rest, tok);
    }
  }

  lemma ConsumesDefault(m: Machine, tok: Token)
    requires TakesDefault(m, tok)
    ensures Consume(m, tok) == TakeDefault(m, tok)
  {
    hide TakeDefault;
  }

  lemma {:induction false} RunSound(m: Machine)
    requires SoundMachine(m)
    ensures forall i :: 0 <= i < |Run(m)| ==> SoundDesc(Run(m)[i])
    decreases Measure(m.tokens)
  {
    hide Step;
    if !Stopped(m.tokens) {
      StepShrinks(m);
      StepSound(m);
      RunSound(Step(m));
    }
  }

  /** On every token sequence, every descriptor returned has a version, a type and a fitting default for
      every variable, and a map that sends each name to the last variable so named. */
  lemma ParseSound(tokens: Tokens)
    requires ValidTokens(tokens)
    ensures forall i :: 0 <= i < |ParseTokens(tokens)| ==>
              ParseTokens(tokens)[i].version >= 0 && SoundDesc(ParseTokens(tokens)[i])
  {
    hide Run, SoundDesc;
    RunSound(START.(tokens := tokens));
    var all := Run(START.(tokens := tokens));
    forall i | 0 <= i < |ParseTokens(tokens)| ensures SoundDesc(ParseTokens(tokens)[i]) {
      assert ParseTokens(tokens)[i] in all;
    }
  }
}
