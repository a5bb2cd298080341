/** The loops of Parser::parse and parse_default over the push-back list (SDL/SdlParser.cpp:247-305,
    501-752), proved to compute the state machine. */
module SdlParserLoop {
  import opened Bytes
  import opened SdlTypes
  import opened SdlParser

  class Parser {
    /** m_buffer, and behind it what is still in the file. */
    var buffer: Tokens

    constructor (tokens: Tokens)
      ensures buffer == tokens
    {
      buffer := tokens;
    }

    /** next; None is the end of the file. */
    method Next() returns (tok: Option<Token>)
      modifies this
      ensures if old(buffer) == [] then tok.None? && buffer == []
              else tok == Some(old(buffer)[0]) && buffer == old(buffer)[1..]
    {
      if buffer == [] {
        return None;
      }
      tok := Some(buffer[0]);
      buffer := buffer[1..];
    }

    method Push(tok: Token)
      modifies this
      ensures buffer == [tok] + old(buffer)
    {
      buffer := [tok] + buffer;
    }

    /** The first loop of parse_default. */
    method ReadValues() returns (state: S, values: seq<Token>)
      modifies this
      ensures (state, values, buffer) == Values(Default, [], old(buffer))
    {
      state, values := Default, [];
      while state != Var
        invariant Values(state, values, buffer) == Values(Default, [], old(buffer))
        decreases Measure(buffer), state != Var
      {
        ghost var before := buffer;
        var tok := Next();
        if tok.None? {
          return;
        }
        if tok.value.ErrorTok? {
          Push(tok.value);
          assert buffer == before;
          return;
        }
        var next := NextValue(state, tok.value);
        if next.None? {
          Push(ErrorTok);
        } else {
          if tok.value.Numeric? || tok.value.Ident? || tok.value.Quoted? {
            values := values + [tok.value];
          }
          state := next.value;
        }
      }
    }

    /** parse_default */
    method ParseDefaultLoop(v: ParsedVar) returns (state: S, v': ParsedVar)
      modifies this
      ensures (state, v', buffer) == ParseDefault(v, old(buffer))
    {
      var values;
      state, values := ReadValues();
      v' := v;
      if state != Var {
        return;
      }
      var d := DefaultValue(v.ty, values);
      if d.None? {
        Push(ErrorTok);
      } else {
        v' := v.(dflt := d);
      }
    }

    /** The loop of '}' that fills m_varmap. */
    method FillVarMap(vars: seq<ParsedVar>) returns (varmap: map<Str, nat>)
      ensures varmap == VarMap(vars)
    {
      varmap := map[];
      for i := 0 to |vars|
        invariant varmap == VarMap(vars[..i])
      {
        assert vars[..i + 1][..i] == vars[..i];
        varmap := varmap[vars[i].name := i];
      }
      assert vars[..|vars|] == vars;
    }

    /** The descriptors without a version are erased. */
    method EraseUnversioned(descs: seq<ParsedDesc>) returns (r: seq<ParsedDesc>)
      ensures r == Checked(descs)
    {
      hide Checked;
      r := [];
      assert descs[0..] == descs;
      for i := 0 to |descs|
        invariant r + Checked(descs[i..]) == Checked(descs)
      {
        CheckedFrom(descs, i);
        if descs[i].version >= 0 {
          assert r + [descs[i]] + Checked(descs[i + 1..]) == r + ([descs[i]] + Checked(descs[i + 1..]));
          r := r + [descs[i]];
        }
      }
      CheckedFrom(descs, |descs|);
    }

    /** One round of the loop of parse, on a token that has just been taken. */
    method Round(m: Machine, tok: Token) returns (m': Machine)
      requires m.tokens == buffer && !tok.ErrorTok?
      modifies this
      ensures m' == Consume(m, tok) && buffer == m'.tokens
    {
      hide ParseDefault, VarMap;
      if TakesDefault(m, tok) {
        Push(tok);
        var state, v := ParseDefaultLoop(m.v);
        m' := m.(state := state, v := v, tokens := buffer);
        ConsumesDefault(m, tok);
      } else if tok.RBrace? && InDescriptor(m.state) {
        var d := if m.state == Var then WithVar(m.desc, m.v) else m.desc;
        var varmap := FillVarMap(d.vars);
        d := d.(varmap := varmap);
        m' := m.(desc := d, done := m.done + [d], state := File);
      } else {
        m' := Consume(m, tok);
        buffer := m'.tokens;
      }
    }

    /** Parser::parse */
    method Parse() returns (descs: seq<ParsedDesc>)
      modifies this
      ensures descs == ParseTokens(old(buffer))
    {
      hide Consume, Run;
      var m := START.(tokens := buffer);
      RunStopped(m);
      while true
        invariant m.tokens == buffer && Run(m) == Run(START.(tokens := old(buffer)))
        decreases Measure(buffer)
      {
        RunStopped(m);
        var tok := Next();
        if tok.None? || tok.value.ErrorTok? {
          break;
        }
        StepShrinks(m);
        m := Round(m.(tokens := buffer), tok.value);
      }
      descs := EraseUnversioned(m.done);
    }
  }

  lemma CheckedFrom(descs: seq<ParsedDesc>, i: nat)
    requires i <= |descs|
    ensures i == |descs| ==> Checked(descs[i..]) == []
    ensures i < |descs| ==>
              Checked(descs[i..])
              == if descs[i].version < 0 then Checked(descs[i + 1..]) else [descs[i]] + Checked(descs[i + 1..])
  {
    if i < |descs| {
      assert descs[i..][0] == descs[i] && descs[i..][1..] == descs[i + 1..];
    }
  }

  predicate InDescriptor(state: S) {
    state == Var || state == Statedesc
  }

  lemma RunStopped(m: Machine)
    ensures Stopped(m.tokens) ==> Run(m) == m.done
    ensures !Stopped(m.tokens) ==> Run(m) == Run(Consume(m.(tokens := m.tokens[1..]), m.tokens[0]))
  {
    hide Consume;
  }
}
