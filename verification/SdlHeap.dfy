/** SDL states on the heap: a state holds references to variable cells, and combining states
    shares cells instead of copying them (SDL/StateInfo.h:81-100, SDL/StateInfo.cpp:843-861, 954-986). */
module SdlHeap {
  import opened Bytes
  import opened SdlTypes
  import opened SdlCombine

  /** Variable::_ref */
  class Variable {
    var cell: Cell

    constructor (c: Cell)
      ensures cell == c
    {
      cell := c;
    }
  }

  /** State::_ref. Nested states are part of the cell: nothing changes them in place. */
  class StateRef {
    const desc: Desc
    var vars: seq<Variable>
    const objectKey: Uoid
    const flags: half

    predicate Valid()
      reads this
    {
      |vars| == |desc.vars|
    }

    ghost function Cells(): (r: seq<Cell>)
      reads this, vars
      ensures |r| == |vars| && forall i :: 0 <= i < |r| ==> r[i] == vars[i].cell
    {
      seq(|vars|, i requires 0 <= i < |vars| reads this, vars => vars[i].cell)
    }

    ghost function View(): (r: State)
      reads this, vars
      ensures r.State? && r.desc == desc && r.vars == Cells()
    {
      State(desc, Cells(), objectKey, flags)
    }

    /** A state with cells of its own. */
    constructor (st: State)
      requires st.State? && |st.vars| == |st.desc.vars|
      ensures Valid() && View() == st
      ensures forall i :: 0 <= i < |vars| ==> fresh(vars[i])
      ensures forall i, j :: 0 <= i < j < |vars| ==> vars[i] != vars[j]
    {
      desc, objectKey, flags := st.desc, st.objectKey, st.flags;
      vars := [];
      new;
      for i := 0 to |st.vars|
        invariant |vars| == i
        invariant forall k :: 0 <= k < i ==> fresh(vars[k]) && vars[k].cell == st.vars[k]
        invariant forall j, k :: 0 <= j < k < i ==> vars[j] != vars[k]
      {
        var v := new Variable(st.vars[i]);
        vars := vars + [v];
      }
      assert Cells() == st.vars;
    }

    /** State::add: share every dirty variable of other; false stands for MalformedData. */
    method Add(other: StateRef) returns (ok: bool)
      requires Valid() && other.Valid()
      modifies this
      ensures Valid()
      ensures ok <==> other.desc == desc
      ensures !ok ==> vars == old(vars)
      ensures ok ==> forall i :: 0 <= i < |vars| ==>
                vars[i] == if old(other.vars[i].cell.dirty) then old(other.vars[i]) else old(vars[i])
      ensures Cells() == if ok then Overlay(old(Cells()), old(other.Cells())) else old(Cells())
    {
      if other.desc != desc {
        return false;
      }
      for i := 0 to |vars|
        invariant Valid()
        invariant forall k :: i <= k < |vars| ==> vars[k] == old(vars[k])
        invariant other != this ==> other.vars == old(other.vars)
        invariant forall k :: 0 <= k < i ==>
                    vars[k] == if old(other.vars[k].cell.dirty) then old(other.vars[k]) else old(vars[k])
      {
        if other.vars[i].cell.dirty {
          vars := vars[i := other.vars[i]];
        }
      }
      return true;
    }

    /** State::merge: share every variable of other with a later timestamp. */
    method Merge(other: StateRef)
      requires Valid() && other.Valid()
      modifies this
      ensures Valid()
      ensures other.desc != desc ==> vars == old(vars)
      ensures other.desc == desc ==> forall i :: 0 <= i < |vars| ==>
                vars[i] == if Later(old(other.vars[i].cell.timestamp), old(vars[i].cell.timestamp)) then old(other.vars[i])
                           else old(vars[i])
      ensures Cells() == if other.desc == desc then MergeVars(old(Cells()), old(other.Cells())) else old(Cells())
    {
      if other.desc != desc {
        return;
      }
      for i := 0 to |vars|
        invariant Valid()
        invariant forall k :: i <= k < |vars| ==> vars[k] == old(vars[k])
        invariant other != this ==> other.vars == old(other.vars)
        invariant forall k :: 0 <= k < i ==>
                    vars[k] == if Later(old(other.vars[k].cell.timestamp), old(vars[k].cell.timestamp))
                               then old(other.vars[k]) else old(vars[k])
      {
        if Later(other.vars[i].cell.timestamp, vars[i].cell.timestamp) {
          vars := vars[i := other.vars[i]];
        }
      }
    }
  }
}
