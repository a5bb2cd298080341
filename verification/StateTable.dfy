/** The states of the objects of an age (GameServ/GameHost.cpp:344-355, 433-488). */
module StateTable {
  import opened Bytes
  import opened SdlTypes
  import opened SdlRoundTrip
  import opened DescriptorDb
  import opened SdlCombine
  import opened SdlHeap
  import SdlReplay

  /** The object, and the name of the descriptor. */
  type Key = (Uoid, Str)

  function KeyOf(target: Uoid, name: Str): Key {
    (ObjectKey(target), name)
  }

  /** States are kept apart exactly when the objects or the names of their descriptors differ. */
  lemma KeyOfIff(a: Uoid, n: Str, b: Uoid, m: Str)
    ensures KeyOf(a, n) == KeyOf(b, m) <==> SameObject(a, b) && n == m
  {
    ObjectKeyIff(a, b);
  }

  class StateTable {
    var states: map<Key, StateRef>
    /** The accepted updates of every state, in order. */
    ghost var history: map<Key, seq<State>>

    ghost predicate Valid()
      reads this, states.Values, set k, i | k in states && 0 <= i < |states[k].vars| :: states[k].vars[i]
    {
      && states.Keys == history.Keys
      && (forall k :: k in states ==> MadeOf(states[k], history[k]))
      && (forall k, l :: k in states && l in states && k != l ==> states[k] != states[l])
    }

    constructor ()
      ensures Valid() && history == map[]
    {
      states, history := map[], map[];
    }

    /** dm_read_sdl, for any object but the age's own: the first update of a descriptor name is stored,
        every later one added to it; one of another version is refused. */
    method Read(target: Uoid, u: State) returns (accepted: bool)
      requires Valid() && (u.State? ==> |u.vars| == |u.desc.vars|)
      modifies this, states.Values
      ensures Valid()
      ensures u.Null? ==> !accepted
      ensures u.State? ==> var k := KeyOf(target, u.desc.name);
                           accepted <==> k !in old(history) || old(history)[k][0].desc == u.desc
      ensures history == if !accepted then old(history)
                         else var k := KeyOf(target, u.desc.name);
                              old(history)[k := (if k in old(history) then old(history)[k] else []) + [u]]
      ensures forall k :: k in states ==> states[k] in old(states.Values) || fresh(states[k])
    {
      hide MadeOf;
      if u.Null? {
        return false;
      }
      var k := KeyOf(target, u.desc.name);
      var update := new StateRef(u);
      if k !in states {
        Store(k, update, u);
        assert [] + [u] == [u];
        return true;
      }
      accepted := AddTo(k, update, u);
    }

    /** The first update of an object. */
    method Store(k: Key, update: StateRef, u: State)
      requires Valid() && k !in states && update !in states.Values && update.Valid() && u.State? && update.View() == u
      modifies this
      ensures Valid() && states == old(states)[k := update] && history == old(history)[k := [u]]
    {
      hide MadeOf;
      states := states[k := update];
      history := history[k := [u]];
      HeldFirst(update, u);
    }

    /** A later update of a stored state. */
    method AddTo(k: Key, update: StateRef, u: State) returns (accepted: bool)
      requires Valid() && k in states && update !in states.Values && update.Valid() && u.State? && update.View() == u
      modifies this, states[k]
      ensures states == old(states)
      ensures Valid() && k in old(history) && old(history)[k] != [] && old(history)[k][0].State?
      ensures accepted <==> old(history)[k][0].desc == u.desc
      ensures history == if accepted then old(history)[k := old(history)[k] + [u]] else old(history)
    {
      hide MadeOf;
      assert MadeOf(states[k], history[k]);
      accepted := Extend(states[k], history[k], update, u);
      if accepted {
        history := history[k := history[k] + [u]];
      }
      assert MadeOf(states[k], history[k]);
    }

    /** dm_read_sdl, from the blob on: one that cannot be parsed, or names no descriptor, is dropped. */
    method Receive(db: Catalog, now: UnifiedTime, target: Uoid, blob: seq<byte>) returns (accepted: bool)
      requires Valid() && ValidCatalog(db)
      modifies this, states.Values
      ensures Valid()
      ensures var r := FromBlob(db, now, blob);
              if r.Failed? || r.value.Null? then !accepted && history == old(history)
              else
                var u, k := r.value, KeyOf(target, r.value.desc.name);
                && (accepted <==> k !in old(history) || old(history)[k][0].desc == u.desc)
                && history == if !accepted then old(history)
                              else old(history)[k := (if k in old(history) then old(history)[k] else []) + [u]]
      ensures forall k :: k in states ==> states[k] in old(states.Values) || fresh(states[k])
    {
      hide Valid, FromBlob, ValidCatalog;
      var r := FromBlob(db, now, blob);
      if r.Failed? || r.value.Null? {
        return false;
      }
      ParsedHasCells(db, now, blob);
      accepted := Read(target, r.value);
    }

    /** The end-to-end property, for an object that the host knows nothing of: players send blobs of
        well-formed states one after the other, and a late joiner is sent st, of which it parses the same
        variables as one that has parsed and applied all the players' blobs. */
    method Replay(db: Catalog, d: Desc, times: seq<UnifiedTime>, target: Uoid, ghost sent: seq<State>, blobs: seq<seq<byte>>,
                  ghost now: UnifiedTime) returns (st: State)
      requires Valid() && KeyOf(target, d.name) !in history && SdlReplay.Known(db, d)
      requires sent != [] && |times| == |sent| == |blobs|
      requires forall i :: 0 <= i < |sent| ==> SdlReplay.Sendable(db, d, sent[i]) && Shaped(sent[i]) && blobs[i] == ToBlob(sent[i])
      modifies this, states.Values
      ensures Valid() && Shaped(st)
      ensures history == old(history)[KeyOf(target, d.name) := SdlReplay.HostStates(db, times, sent)]
      ensures forall i :: 0 <= i < |sent| ==> |SdlReplay.AllParsed(db, times, sent)[i]| == |d.vars|
      ensures SdlReplay.SameCells(ParsedVars(db, now, st), Applied(FreshVars(d), SdlReplay.AllParsed(db, times, sent)))
    {
      hide Valid, FromBlob, ToBlob, Shaped, ValidCatalog, WellTypedDesc, SdlReplay.Sendable, SdlReplay.HostState, Applied,
           SdlReplay.SameCells, FreshVars, ParsedVars;
      var k := KeyOf(target, d.name);
      ghost var hosts := SdlReplay.HostStates(db, times, sent);
      SentIsParsed(db, d, times[0], sent[0]);
      for i := 0 to |blobs|
        invariant Valid() && forall j :: j in states ==> states[j] in old(states.Values) || fresh(states[j])
        invariant history == if i == 0 then old(history) else old(history)[k := hosts[..i]]
      {
        SentIsParsed(db, d, times[i], sent[i]);
        var accepted := Receive(db, times[i], target, blobs[i]);
        assert hosts[..i + 1] == hosts[..i] + [hosts[i]];
      }
      assert hosts[..|blobs|] == hosts;
      SdlReplay.LateJoinerCatchesUp(db, d, times, sent, now);
      HistoryHeld(k);
      st := Snapshot(k);
    }

    lemma HistoryHeld(k: Key)
      requires Valid() && k in history
      ensures k in states
    {
    }

    /** dm_game_disconnect: the states of an avatar that leaves are forgotten, and no others. */
    method Erase(target: Uoid)
      requires Valid()
      modifies this
      ensures Valid()
      ensures history == map k | k in old(history) && k.0 != ObjectKey(target) :: old(history)[k]
    {
      hide MadeOf;
      states := map k | k in states && k.0 != ObjectKey(target) :: states[k];
      history := map k | k in history && k.0 != ObjectKey(target) :: history[k];
    }

    /** dm_send_state: a late joiner is sent every stored state. */
    method Snapshot(k: Key) returns (st: State)
      requires Valid() && k in states
      ensures history[k] != [] && (forall i :: 0 <= i < |history[k]| ==> Fits(history[k][0].desc, history[k][i]))
      ensures st == Stored(history[k][0].desc, history[k])
    {
      var s := states[k];
      var cells: seq<Cell> := [];
      for i := 0 to |s.vars|
        invariant |cells| == i && forall j :: 0 <= j < i ==> cells[j] == s.vars[j].cell
      {
        cells := cells + [s.vars[i].cell];
      }
      assert cells == s.Cells();
      st := State(s.desc, cells, s.objectKey, s.flags);
    }
  }

  /** s is what the updates make together. */
  ghost predicate MadeOf(s: StateRef, updates: seq<State>)
    reads s, s.vars
  {
    && s.Valid() && updates != [] && updates[0].State?
    && (forall i :: 0 <= i < |updates| ==> Fits(updates[0].desc, updates[i]))
    && s.View() == Stored(updates[0].desc, updates)
  }

  /** A parsed state has a cell for every variable. */
  lemma ParsedHasCells(db: Catalog, now: UnifiedTime, blob: seq<byte>)
    requires ValidCatalog(db)
    ensures var r := FromBlob(db, now, blob); r.Parsed? && r.value.State? ==> |r.value.vars| == |r.value.desc.vars|
  {
  }

  lemma SentIsParsed(db: Catalog, d: Desc, now: UnifiedTime, u: State)
    requires SdlReplay.Known(db, d) && SdlReplay.Sendable(db, d, u)
    ensures var r := FromBlob(db, now, ToBlob(u));
            r.Parsed? && r.value.State? && r.value.desc == d && r.value == SdlReplay.HostState(db, now, u)
  {
    hide FromBlob, ToBlob, SdlReplay.Sendable, Shaped;
    SdlReplay.HostStateSendable(db, d, now, u);
  }

  lemma HeldFirst(s: StateRef, u: State)
    requires u.State? && |u.vars| == |u.desc.vars| && s.Valid() && s.View() == u
    ensures MadeOf(s, [u])
  {
  }

  method Extend(s: StateRef, ghost updates: seq<State>, other: StateRef, u: State) returns (ok: bool)
    requires MadeOf(s, updates) && other.Valid() && other != s && u.State? && other.View() == u
    modifies s
    ensures updates != [] && updates[0].State?
    ensures ok <==> updates[0].desc == u.desc
    ensures MadeOf(s, if ok then updates + [u] else updates)
  {
    ok := s.Add(other);
    if ok {
      assert (updates + [u])[..|updates|] == updates;
    }
  }
}
