/** The auth daemon's global states and the game hosts that share their cells
    (AuthServ/AuthDaemon.cpp:925-1005, GameServ/GameHost.cpp:459-464, 746-790, 898-929). */
module SdlHosts {
  import opened Bytes
  import opened SdlTypes
  import opened SdlCodec
  import opened SdlCombine
  import opened SdlHeap
  import opened SdlChanges
  import opened SdlHostModel

  // ---- hosts ----

  /** The SDL part of GameHost_Private. written is what has been sent to the vault. */
  class Host {
    var localState: StateRef?
    var ageSdlHook: StateRef?
    var globalState: StateRef?
    ghost var written: seq<State>
    ghost const age: Str

    constructor (l: StateRef?, h: StateRef?, g: StateRef?, ghost age: Str)
      ensures localState == l && ageSdlHook == h && globalState == g && this.age == age && written == []
    {
      localState, ageSdlHook, globalState, written := l, h, g, [];
      this.age := age;
    }
  }

  ghost predicate CreatedAt(g: StateRef, cells: map<Variable, (Str, nat)>, n: Str, st: State)
    reads g, g.vars
  {
    && g.View() == st && g.Valid()
    && forall i :: 0 <= i < |g.vars| ==> g.vars[i] in cells && cells[g.vars[i]] == (n, i)
  }

  /** The place that cells gives v is where it is. */
  ghost predicate Placed(gs: map<Str, StateRef>, cells: map<Variable, (Str, nat)>, v: Variable)
    requires v in cells
    reads gs.Values
  {
    var (n, i) := cells[v];
    n in gs && i < |gs[n].vars| && gs[n].vars[i] == v
  }

  method CreateGlobal(n: Str, st: State) returns (g: StateRef, ghost cells: map<Variable, (Str, nat)>)
    requires st.State? && |st.vars| == |st.desc.vars|
    ensures fresh(g) && CreatedAt(g, cells, n, st) && forall v :: v in cells ==> fresh(v)
    ensures forall v :: v in cells ==> cells[v].0 == n && cells[v].1 < |g.vars| && g.vars[cells[v].1] == v
  {
    g := new StateRef(st);
    cells := map[];
    for i := 0 to |g.vars|
      invariant forall v :: v in cells ==> fresh(v) && exists k :: 0 <= k < i && g.vars[k] == v
      invariant forall k :: 0 <= k < i ==> g.vars[k] in cells && cells[g.vars[k]] == (n, k)
      invariant forall v :: v in cells ==> cells[v].0 == n && cells[v].1 < i && g.vars[cells[v].1] == v
    {
      cells := cells[g.vars[i] := (n, i)];
    }
  }

  lemma CreatedMore(g: StateRef, cells: map<Variable, (Str, nat)>, more: map<Variable, (Str, nat)>, n: Str, st: State)
    requires CreatedAt(g, cells, n, st) && cells.Keys !! more.Keys
    ensures CreatedAt(g, cells + more, n, st)
  {
  }

  lemma CreatedLast(g: StateRef, cells: map<Variable, (Str, nat)>, more: map<Variable, (Str, nat)>, n: Str, st: State)
    requires CreatedAt(g, more, n, st)
    ensures CreatedAt(g, cells + more, n, st) && g.View() == st
  {
  }

  method CreateGlobals(names: seq<Str>, states: seq<State>)
    returns (gs: map<Str, StateRef>, ghost cells: map<Variable, (Str, nat)>)
    requires |names| == |states| && forall i, j :: 0 <= i < j < |names| ==> names[i] != names[j]
    requires forall i :: 0 <= i < |states| ==> states[i].State? && |states[i].vars| == |states[i].desc.vars|
    ensures forall n :: n in gs <==> n in names
    ensures forall k :: 0 <= k < |names| ==> names[k] in gs && CreatedAt(gs[names[k]], cells, names[k], states[k])
    ensures forall v :: v in cells ==> fresh(v) && Placed(gs, cells, v)
  {
    hide CreatedAt;
    gs, cells := map[], map[];
    for i := 0 to |names|
      invariant forall n :: n in gs <==> n in names[..i]
      invariant forall k :: 0 <= k < i ==> fresh(gs[names[k]]) && CreatedAt(gs[names[k]], cells, names[k], states[k])
      invariant forall v :: v in cells ==> fresh(v) && Placed(gs, cells, v)
    {
      var g, m := CreateGlobal(names[i], states[i]);
      forall k | 0 <= k < i ensures CreatedAt(gs[names[k]], cells + m, names[k], states[k]) {
        CreatedMore(gs[names[k]], cells, m, names[k], states[k]);
      }
      CreatedLast(g, cells, m, names[i], states[i]);
      gs, cells := gs[names[i] := g], cells + m;
    }
  }

  lemma MergedIs(gs: Globals, before: seq<Slot>, from: seq<Slot>, after: seq<Slot>)
    requires |before| == |from| == |after|
    requires forall i :: 0 <= i < |before| ==> SlotAt(gs, before[i]) && SlotAt(gs, from[i])
    requires forall i :: 0 <= i < |before| ==>
               after[i] == if Later(CellOf(gs, from[i]).timestamp, CellOf(gs, before[i]).timestamp) then from[i] else before[i]
    ensures after == Merged(gs, before, from)
  {
    hide Later, CellOf, SlotAt;
  }

  /** The auth daemon and every game host. */
  class Server {
    const globals: map<Str, StateRef>
    var hosts: seq<Host>
    /** Everything that changes. */
    ghost var repr: set<object>
    /** Every cell of a global state, with the state and the variable it belongs to. */
    ghost const owner: map<Variable, (Str, nat)>

    ghost predicate ValidGlobals()
      reads globals.Values, owner.Keys
    {
      (forall n :: n in globals ==> GlobalAt(n)) && (forall v :: v in owner ==> Placed(globals, owner, v))
    }

    ghost predicate GlobalAt(n: Str)
      requires n in globals
      reads globals[n], owner.Keys
    {
      var g := globals[n];
      && g.Valid() && WellTypedDesc(g.desc)
      && (forall i :: 0 <= i < |g.vars| ==> g.vars[i] in owner && owner[g.vars[i]] == (n, i))
      && (forall i :: 0 <= i < |g.vars| ==> CellMatches(g.desc.vars[i], g.vars[i].cell))
    }

    /** The host's own states are objects of its own, and no cell of its local state is shared with a
        global state. */
    ghost predicate HostAt(h: Host)
      reads h, h.localState, h.ageSdlHook
    {
      && (h.localState == null <==> h.ageSdlHook == null)
      && (h.localState != null ==>
            && h.localState.Valid() && h.ageSdlHook.Valid()
            && h.localState != h.ageSdlHook && h.localState.desc == h.ageSdlHook.desc
            && h.localState !in globals.Values && h.ageSdlHook !in globals.Values
            && h.age in globals && h.globalState == globals[h.age]
            && forall i :: 0 <= i < |h.localState.vars| ==> h.localState.vars[i] !in owner)
    }

    ghost predicate Apart(a: Host, b: Host)
      reads a, b
    {
      && a != b
      && (a.localState != null ==> a.localState != b.localState && a.localState != b.ageSdlHook)
      && (a.ageSdlHook != null ==> a.ageSdlHook != b.localState && a.ageSdlHook != b.ageSdlHook)
    }

    ghost predicate Owned(h: Host)
      reads this, h
    {
      && h in repr
      && (h.localState != null ==> h.localState in repr)
      && (h.ageSdlHook != null ==> h.ageSdlHook in repr)
    }

    ghost predicate Valid()
      reads *
    {
      && ValidGlobals()
      && this in repr && (forall v :: v in owner ==> v in repr)
      && (forall i :: 0 <= i < |hosts| ==> HostAt(hosts[i]) && Owned(hosts[i]))
      && (forall i, j :: 0 <= i < |hosts| && 0 <= j < |hosts| && i != j ==> Apart(hosts[i], hosts[j]))
    }

    /** The local state of a host, and what it has written to the vault. */
    ghost function View(h: Host): (r: HostView)
      reads h, h.localState, if h.localState == null then [] else h.localState.vars
    {
      HostView(if h.localState == null then Null else h.localState.View(), h.written)
    }

    lemma HostSound(h: Host)
      requires HostAt(h)
      ensures Sound(View(h).localState)
      ensures h.localState !in globals.Values && h.ageSdlHook !in globals.Values
      ensures h.ageSdlHook != null ==> h.globalState != null && h.globalState != h.ageSdlHook
      ensures h.ageSdlHook != null ==> h.age in globals && h.globalState == globals[h.age]
      ensures h.ageSdlHook != null && ValidGlobals() ==> h.globalState.Valid()
      ensures h.localState != null ==> forall i :: 0 <= i < |h.localState.vars| ==> h.localState.vars[i] !in owner
    {
    }

    lemma GlobalValid(age: Str)
      requires ValidGlobals() && age in globals
      ensures GlobalAt(age) && globals[age].Valid()
    {
    }

    ghost function Locals(): (r: seq<HostView>)
      reads *
      ensures |r| == |hosts| && forall i :: 0 <= i < |r| ==> r[i] == View(hosts[i])
    {
      seq(|hosts|, i requires 0 <= i < |hosts| reads * => View(hosts[i]))
    }

    // ---- what is shown ----

    ghost function GlobalStates(): (r: Globals)
      requires ValidGlobals()
      reads globals.Values, owner.Keys
      ensures SoundGlobals(r) && r.Keys == globals.Keys && forall n :: n in globals ==> r[n] == globals[n].View()
    {
      assert forall n :: n in globals ==> GlobalAt(n);
      map n | n in globals :: globals[n].View()
    }

    ghost function SlotOf(v: Variable): Slot
      reads v
    {
      if v in owner then Of(owner[v].0, owner[v].1) else Own(v.cell)
    }

    ghost function SlotsOf(vars: seq<Variable>): (r: seq<Slot>)
      reads vars
      ensures |r| == |vars| && forall i :: 0 <= i < |r| ==> r[i] == SlotOf(vars[i])
    {
      seq(|vars|, i requires 0 <= i < |vars| reads vars => SlotOf(vars[i]))
    }

    /** The hook of a host, with the variables that it shares. */
    ghost function HookOf(h: Host): Hook
      reads h, h.ageSdlHook, if h.ageSdlHook == null then [] else h.ageSdlHook.vars
    {
      if h.ageSdlHook == null then NoHook else Hook(h.age, h.ageSdlHook.desc, SlotsOf(h.ageSdlHook.vars))
    }

    lemma SlotCell(v: Variable)
      requires ValidGlobals()
      ensures SlotAt(GlobalStates(), SlotOf(v)) && CellOf(GlobalStates(), SlotOf(v)) == v.cell
    {
      if v in owner {
        assert Placed(globals, owner, v);
        assert GlobalStates()[owner[v].0] == globals[owner[v].0].View();
      }
    }

    /** The hook is what the model of it says, and the players are sent the cells that it holds. */
    lemma HookShows(h: Host)
      requires ValidGlobals() && HostAt(h)
      ensures HookAt(GlobalStates(), HookOf(h))
      ensures h.ageSdlHook != null ==> Shown(GlobalStates(), HookOf(h)) == h.ageSdlHook.Cells()
    {
      hide GlobalStates, SlotOf, CellOf, SlotAt, ValidGlobals;
      if h.ageSdlHook != null {
        forall i | 0 <= i < |h.ageSdlHook.vars|
          ensures SlotAt(GlobalStates(), HookOf(h).slots[i])
          ensures CellOf(GlobalStates(), HookOf(h).slots[i]) == h.ageSdlHook.vars[i].cell
        {
          SlotCell(h.ageSdlHook.vars[i]);
        }
        GlobalNamed(h.age);
        assert Shown(GlobalStates(), HookOf(h)) == h.ageSdlHook.Cells();
      }
    }

    lemma GlobalNamed(age: Str)
      requires ValidGlobals()
      ensures age in GlobalStates() <==> age in globals
    {
    }

    ghost function Hooks(): (r: seq<Hook>)
      reads *
      ensures |r| == |hosts| && forall i :: 0 <= i < |r| ==> r[i] == HookOf(hosts[i])
    {
      seq(|hosts|, i requires 0 <= i < |hosts| reads * => HookOf(hosts[i]))
    }

    ghost function TheWorld(): World
      requires ValidGlobals()
      reads *
    {
      World(GlobalStates(), Hooks())
    }

    lemma WorldSound()
      requires Valid()
      ensures SoundWorld(TheWorld())
    {
      hide ValidGlobals, HostAt, GlobalStates, HookOf, Owned, Apart;
      forall i | 0 <= i < |hosts| ensures HookAt(GlobalStates(), HookOf(hosts[i])) {
        HookShows(hosts[i]);
      }
      GlobalsSound();
    }

    lemma GlobalsSound()
      requires ValidGlobals()
      ensures SoundGlobals(GlobalStates())
    {
    }

    ghost predicate Possible(e: Event)
      reads this
    {
      PossibleAt(|hosts|, e) && (e.Start? && e.localState.State? ==> e.age in globals)
    }

    lemma CreatedGlobal(n: Str, st: State)
      requires n in globals && CreatedAt(globals[n], owner, n, st)
      requires st.State? && WellTypedDesc(st.desc) && Matches(st.desc, st)
      ensures GlobalAt(n) && globals[n].View() == st
    {
    }

    lemma CreatedAll(names: seq<Str>, states: seq<State>)
      requires |names| == |states| && forall n :: n in globals ==> n in names
      requires forall i :: 0 <= i < |states| ==>
                 states[i].State? && WellTypedDesc(states[i].desc) && Matches(states[i].desc, states[i])
      requires forall i :: 0 <= i < |names| ==> names[i] in globals && CreatedAt(globals[names[i]], owner, names[i], states[i])
      requires forall v :: v in owner ==> Placed(globals, owner, v)
      ensures ValidGlobals() && forall i :: 0 <= i < |names| ==> globals[names[i]].View() == states[i]
    {
      hide Matches, WellTypedDesc, CreatedAt, GlobalAt, Placed;
      forall n | n in globals ensures GlobalAt(n) {
        var i :| 0 <= i < |names| && names[i] == n;
        CreatedGlobal(n, states[i]);
      }
      forall i | 0 <= i < |names| ensures globals[names[i]].View() == states[i] {
        CreatedGlobal(names[i], states[i]);
      }
    }

    /** dm_global_sdl_init: a global state for each of the names, with cells of its own. */
    constructor (names: seq<Str>, states: seq<State>)
      requires |names| == |states| && forall i, j :: 0 <= i < j < |names| ==> names[i] != names[j]
      requires forall i :: 0 <= i < |states| ==>
                 states[i].State? && WellTypedDesc(states[i].desc) && Matches(states[i].desc, states[i])
                 && |states[i].vars| == |states[i].desc.vars|
      ensures Valid() && Locals() == []
      ensures forall n :: n in globals <==> n in names
      ensures forall i :: 0 <= i < |names| ==> names[i] in globals && globals[names[i]].View() == states[i]
      ensures fresh(repr)
    {
      hide Matches, WellTypedDesc, CreatedAt, GlobalAt, Placed, ValidGlobals, HostAt, Owned, Apart;
      var gs, cells := CreateGlobals(names, states);
      globals, owner, hosts := gs, cells, [];
      new;
      repr := (set v: Variable | v in owner :: v as object) + {this};
      CreatedAll(names, states);
    }

    /** start_game_host, on the two parses of the fetched blob. */
    method StartHost(age: Str, l: State, k: State, save: bool)
      requires Valid() && Possible(Start(age, l, k, save))
      modifies this
      ensures Valid()
      ensures Locals() == old(Locals()) + [HostView(l, if save then [l] else [])]
      ensures GlobalStates() == old(GlobalStates()) && SoundGlobals(old(GlobalStates()))
      ensures k.State? ==> age in old(GlobalStates())
      ensures Hooks() == old(Hooks()) + [NewHook(old(GlobalStates()), age, k)]
      ensures fresh(repr - old(repr))
    {
      hide Valid, ValidGlobals, HostAt, View, GlobalStates, HookOf, NewHook, Locals, Hooks, SoundGlobals, Apart, Owned;
      var h := PrepareHost(age, l, k, save);
      Append(h);
    }

    /** A host that the server does not have yet: nothing else changes. */
    method PrepareHost(age: Str, l: State, k: State, save: bool) returns (h: Host)
      requires Valid() && Possible(Start(age, l, k, save))
      ensures Valid() && HostAt(h) && Foreign(h) && View(h) == HostView(l, if save then [l] else [])
      ensures fresh(h) && (h.localState != null ==> fresh(h.localState)) && (h.ageSdlHook != null ==> fresh(h.ageSdlHook))
      ensures ValidGlobals() && GlobalStates() == old(GlobalStates()) && SoundGlobals(GlobalStates())
      ensures k.State? ==> age in GlobalStates()
      ensures HookOf(h) == NewHook(GlobalStates(), age, k)
      ensures Locals() == old(Locals()) && Hooks() == old(Hooks())
    {
      hide ValidGlobals, HostAt, View, GlobalStates, HookOf, NewHook, Apart;
      h := NewHost(age, l, k, save);
    }

    /** Objects that the server does not have yet. */
    ghost predicate Foreign(h: Host)
      reads this, h
    {
      && h !in repr && (h.localState != null ==> h.localState !in repr) && (h.ageSdlHook != null ==> h.ageSdlHook !in repr)
    }

    method Append(h: Host)
      requires Valid() && HostAt(h) && Foreign(h)
      modifies this
      ensures Valid() && Locals() == old(Locals()) + [View(h)] && Hooks() == old(Hooks()) + [HookOf(h)]
      ensures GlobalStates() == old(GlobalStates())
      ensures repr == old(repr) + {h, if h.localState == null then h else h.localState, if h.ageSdlHook == null then h else h.ageSdlHook}
    {
      hide ValidGlobals, HostAt, View, GlobalStates, HookOf, HookAt;
      hosts := hosts + [h];
      repr := repr + {h, if h.localState == null then h else h.localState, if h.ageSdlHook == null then h else h.ageSdlHook};
      forall i | 0 <= i < |hosts| - 1
        ensures HostAt(hosts[i]) && Owned(hosts[i]) && Apart(hosts[i], h) && Apart(h, hosts[i])
      {
        assert hosts[i] == old(hosts)[i];
      }
    }

    method NewHost(age: Str, l: State, k: State, save: bool) returns (h: Host)
      requires ValidGlobals() && Possible(Start(age, l, k, save))
      ensures fresh(h) && HostAt(h) && View(h) == HostView(l, if save then [l] else [])
      ensures ValidGlobals() && GlobalStates() == old(GlobalStates()) && SoundGlobals(GlobalStates())
      ensures k.State? ==> age in GlobalStates()
      ensures HookOf(h) == NewHook(GlobalStates(), age, k)
      ensures (h.localState != null ==> fresh(h.localState)) && (h.ageSdlHook != null ==> fresh(h.ageSdlHook))
    {
      hide ValidGlobals, GlobalStates, MergedGlobal, View, HostAt, HookOf, SoundGlobals, HookAt, Merged;
      GlobalsSound();
      GlobalNamed(age);
      h := MakeHost(age, l, k);
      if l.State? {
        MergeGlobal(h);
      }
      if save {
        FirstSave(h);
      }
    }

    method FirstSave(h: Host)
      requires ValidGlobals() && HostAt(h)
      modifies h
      ensures HostAt(h) && View(h) == old(View(h)).(written := [old(View(h)).localState]) && HookOf(h) == old(HookOf(h))
      ensures ValidGlobals() && GlobalStates() == old(GlobalStates())
      ensures h.localState == old(h.localState) && h.ageSdlHook == old(h.ageSdlHook)
    {
      hide ValidGlobals, GlobalStates;
      h.written := [View(h).localState];
    }

    method MakeHost(age: Str, l: State, k: State) returns (h: Host)
      requires ValidGlobals() && Possible(Start(age, l, k, false))
      ensures fresh(h) && HostAt(h) && View(h) == HostView(l, [])
      ensures HookOf(h) == if k.Null? then NoHook else Hook(age, k.desc, OwnSlots(k.vars))
      ensures (h.localState != null ==> fresh(h.localState)) && (h.ageSdlHook != null ==> fresh(h.ageSdlHook))
    {
      hide ValidGlobals;
      var localState: StateRef?, hook: StateRef?, g: StateRef? := null, null, null;
      if age in globals {
        GlobalValid(age);
        g := globals[age];
      }
      if l.State? {
        localState := new StateRef(l);
        hook := new StateRef(k);
      }
      h := new Host(localState, hook, g, age);
      if l.State? {
        assert SlotsOf(hook.vars) == OwnSlots(k.vars);
      }
    }

    /** The host's message loop. */
    method Handle(i: nat, e: HostEvent)
      requires Valid() && Possible(Message(i, e))
      modifies hosts[i], hosts[i].localState, hosts[i].ageSdlHook
      ensures Valid() && Sound(old(Locals()[i]).localState)
      ensures Locals() == old(Locals())[i := HostStep(old(Locals()[i]), e)]
      ensures GlobalStates() == old(GlobalStates()) && SoundGlobals(old(GlobalStates()))
      ensures HookAt(old(GlobalStates()), old(Hooks()[i]))
      ensures Hooks() == old(Hooks())[i := HookStep(old(GlobalStates()), old(Hooks()[i]), e)]
    {
      hide ValidGlobals, HostAt, View, HostStep, GlobalStates, HookOf, HookStep, SoundGlobals, HookAt;
      HostSound(hosts[i]);
      DispatchAmong(i, e);
    }

    /** The other hosts stay as they are. */
    method DispatchAmong(i: nat, e: HostEvent)
      requires Valid() && i < |hosts| && SoundEvent(e) && Sound(View(hosts[i]).localState)
      modifies hosts[i], hosts[i].localState, hosts[i].ageSdlHook
      ensures Valid() && View(hosts[i]) == HostStep(old(View(hosts[i])), e)
      ensures GlobalStates() == old(GlobalStates()) && SoundGlobals(old(GlobalStates()))
      ensures HookAt(old(GlobalStates()), old(HookOf(hosts[i])))
      ensures HookOf(hosts[i]) == HookStep(old(GlobalStates()), old(HookOf(hosts[i])), e)
      ensures forall j :: 0 <= j < |hosts| && j != i ==>
                View(hosts[j]) == old(View(hosts[j])) && HookOf(hosts[j]) == old(HookOf(hosts[j]))
    {
      hide ValidGlobals, HostAt, View, HostStep, GlobalStates, HookOf, HookStep, SoundGlobals, HookAt;
      assert forall j :: 0 <= j < |hosts| && j != i ==> Apart(hosts[j], hosts[i]);
      Dispatch(hosts[i], e);
    }

    method Dispatch(h: Host, e: HostEvent)
      requires ValidGlobals() && HostAt(h) && SoundEvent(e) && Sound(View(h).localState)
      modifies h, h.localState, h.ageSdlHook
      ensures HostAt(h) && View(h) == HostStep(old(View(h)), e)
      ensures h.localState == old(h.localState) && h.ageSdlHook == old(h.ageSdlHook)
      ensures ValidGlobals() && GlobalStates() == old(GlobalStates()) && SoundGlobals(old(GlobalStates()))
      ensures HookAt(old(GlobalStates()), old(HookOf(h)))
      ensures HookOf(h) == HookStep(old(GlobalStates()), old(HookOf(h)), e)
    {
      HookShows(h);
      GlobalsSound();
      hide ValidGlobals, HostAt, View, HostStep, GlobalStates, HookOf;
      match e {
        case AgeUpdate(u) => ReadAgeSdl(h, u);
        case VaultUpdate(v) => UpdateFromVault(h, v);
        case Disconnect => WriteBack(h);
        case GlobalHandled => UpdateFromGlobal(h);
      }
    }

    /** dm_read_sdl for the age's own object: the update's cells are shared by both states. */
    method ReadAgeSdl(h: Host, u: State)
      requires ValidGlobals() && HostAt(h) && Sound(u) && Sound(View(h).localState)
      modifies h, h.localState, h.ageSdlHook
      ensures HostAt(h) && View(h) == HostStep(old(View(h)), AgeUpdate(u))
      ensures h.localState == old(h.localState) && h.ageSdlHook == old(h.ageSdlHook)
      ensures ValidGlobals() && GlobalStates() == old(GlobalStates()) && SoundGlobals(old(GlobalStates()))
      ensures HookAt(old(GlobalStates()), old(HookOf(h)))
      ensures HookOf(h) == HookStep(old(GlobalStates()), old(HookOf(h)), AgeUpdate(u))
    {
      hide ValidGlobals, View, HostAt, HookOf, GlobalStates, HostStep, HookStep, Shown;
      HookShows(h);
      GlobalsSound();
      if u.Null? {
        NoneParsed(GlobalStates(), View(h), HookOf(h));
        return;
      }
      var update := new StateRef(u);
      AddAll(h, update, u);
    }

    method AddAll(h: Host, update: StateRef, ghost u: State)
      requires ValidGlobals() && HostAt(h) && Sound(View(h).localState) && Sound(u) && u.State?
      requires update.Valid() && update != h.localState && update != h.ageSdlHook && update.View() == u
      requires forall i :: 0 <= i < |update.vars| ==> update.vars[i] !in owner
      modifies h, h.localState, h.ageSdlHook
      ensures HostAt(h) && View(h) == HostStep(old(View(h)), AgeUpdate(u))
      ensures h.localState == old(h.localState) && h.ageSdlHook == old(h.ageSdlHook)
      ensures ValidGlobals() && GlobalStates() == old(GlobalStates()) && SoundGlobals(old(GlobalStates()))
      ensures HookAt(old(GlobalStates()), old(HookOf(h)))
      ensures HookOf(h) == HookStep(old(GlobalStates()), old(HookOf(h)), AgeUpdate(u))
    {
      hide ValidGlobals, GlobalStates, View, HookOf, HostAt, Overlay, Shown, SoundGlobals, HookAt;
      HookIsNot(h);
      HookShows(h);
      GlobalsSound();
      if h.localState != null {
        var ok := AddUpdate(h, update, u);
        if !ok {
          return;
        }
      }
      WriteBack(h);
    }

    /** An update of the age's object is added to the local state and to the hook: the players are then sent
        what they were sent before, overlaid with the update. */
    method AddUpdate(h: Host, update: StateRef, ghost u: State) returns (ok: bool)
      requires ValidGlobals() && HostAt(h) && h.localState != null && Sound(View(h).localState)
      requires update.Valid() && update != h.localState && update != h.ageSdlHook && update.View() == u
      requires forall i :: 0 <= i < |update.vars| ==> update.vars[i] !in owner
      modifies h.localState, h.ageSdlHook
      ensures HostAt(h) && View(h).written == old(View(h)).written
      ensures ValidGlobals() && GlobalStates() == old(GlobalStates())
      ensures ok <==> u.desc == old(h.localState).desc
      ensures var st := old(View(h).localState);
              View(h).localState == if ok then st.(vars := Overlay(st.vars, u.vars)) else st
      ensures !ok ==> HookOf(h) == old(HookOf(h))
      ensures ok ==> var k := old(HookOf(h)); |k.slots| == |u.vars| && HookOf(h) == k.(slots := Added(k.slots, u.vars))
      ensures ok ==> |u.vars| == |old(h.ageSdlHook.Cells())|
      ensures ok ==> h.ageSdlHook.Cells() == Overlay(old(h.ageSdlHook.Cells()), u.vars)
    {
      HookIsNot(h);
      hide ValidGlobals, GlobalStates, View, HookOf, HostAt, Overlay, SoundGlobals, HookAt, Added;
      ok := AddLocal(h, update, u);
      if ok {
        var added := AddToHook(h, update, u);
      }
    }

    /** The local state is written back to the vault: also the end of dm_game_disconnect. */
    method WriteBack(h: Host)
      requires ValidGlobals() && HostAt(h) && Sound(View(h).localState)
      modifies h
      ensures ValidGlobals() && GlobalStates() == old(GlobalStates())
      ensures HostAt(h) && View(h) == HostStep(old(View(h)), Disconnect)
      ensures h.localState == old(h.localState) && h.ageSdlHook == old(h.ageSdlHook) && HookOf(h) == old(HookOf(h))
    {
      hide ValidGlobals, GlobalStates;
      h.written := h.written + [View(h).localState];
    }

    /** dm_local_sdl_update */
    method UpdateFromVault(h: Host, v: State)
      requires ValidGlobals() && HostAt(h) && Sound(v) && Sound(View(h).localState)
      modifies h, h.localState, h.ageSdlHook
      ensures HostAt(h) && View(h) == HostStep(old(View(h)), VaultUpdate(v))
      ensures h.localState == old(h.localState) && h.ageSdlHook == old(h.ageSdlHook)
      ensures ValidGlobals() && GlobalStates() == old(GlobalStates()) && SoundGlobals(old(GlobalStates()))
      ensures HookAt(old(GlobalStates()), old(HookOf(h)))
      ensures HookOf(h) == HookStep(old(GlobalStates()), old(HookOf(h)), VaultUpdate(v))
    {
      hide ValidGlobals, View, HostAt, HookOf, GlobalStates, HostStep, HookStep, Shown;
      HookShows(h);
      GlobalsSound();
      if v.Null? {
        NoneParsed(GlobalStates(), View(h), HookOf(h));
        return;
      }
      var vaultState := new StateRef(v);
      MergeAll(h, vaultState, v);
    }

    /** The merges of a vault update, and the answer. */
    method MergeAll(h: Host, other: StateRef, ghost v: State)
      requires ValidGlobals() && HostAt(h) && Sound(View(h).localState)
      requires other.Valid() && other != h.ageSdlHook && other != h.localState && other.View() == v
      requires forall i :: 0 <= i < |other.vars| ==> other.vars[i] !in owner
      modifies h, h.localState, h.ageSdlHook
      ensures HostAt(h) && Sound(v) && View(h) == HostStep(old(View(h)), VaultUpdate(v))
      ensures h.localState == old(h.localState) && h.ageSdlHook == old(h.ageSdlHook)
      ensures ValidGlobals() && GlobalStates() == old(GlobalStates()) && SoundGlobals(old(GlobalStates()))
      ensures HookAt(old(GlobalStates()), old(HookOf(h)))
      ensures HookOf(h) == HookStep(old(GlobalStates()), old(HookOf(h)), VaultUpdate(v))
    {
      hide ValidGlobals, Later, Overlay, View, HostAt, MergeVars, HookOf, HookStep, GlobalStates, SoundGlobals, HookAt;
      MergeVault(h, other, v);
      MergeLocal(h, other);
      WriteBack(h);
    }

    /** State::add on the hook: the update's cells are shared. */
    method AddToHook(h: Host, other: StateRef, ghost u: State) returns (ok: bool)
      requires ValidGlobals() && HostAt(h) && h.ageSdlHook != null
      requires other.Valid() && other != h.ageSdlHook && other.View() == u
      requires forall i :: 0 <= i < |other.vars| ==> other.vars[i] !in owner
      modifies h.ageSdlHook
      ensures HostAt(h) && View(h) == old(View(h)) && ValidGlobals() && GlobalStates() == old(GlobalStates())
      ensures ok <==> u.desc == old(h.ageSdlHook).desc
      ensures !ok ==> HookOf(h) == old(HookOf(h))
      ensures ok ==> |u.vars| == |old(h.ageSdlHook.Cells())| && h.ageSdlHook.Cells() == Overlay(old(h.ageSdlHook.Cells()), u.vars)
      ensures ok ==> var k := old(HookOf(h)); |k.slots| == |u.vars| && HookOf(h) == k.(slots := Added(k.slots, u.vars))
    {
      hide ValidGlobals, GlobalStates, Overlay;
      ghost var before := SlotsOf(h.ageSdlHook.vars);
      ok := h.ageSdlHook.Add(other);
      if ok {
        assert SlotsOf(h.ageSdlHook.vars) == Added(before, u.vars);
      } else {
        assert SlotsOf(h.ageSdlHook.vars) == before;
      }
    }

    /** State::merge on the hook of a state whose cells nobody else has. */
    method MergeOwn(h: Host, other: StateRef, ghost u: State)
      requires ValidGlobals() && HostAt(h) && other.Valid() && other != h.ageSdlHook && other.View() == u
      requires forall i :: 0 <= i < |other.vars| ==> other.vars[i] !in owner
      modifies h.ageSdlHook
      ensures HostAt(h) && View(h) == old(View(h)) && ValidGlobals() && GlobalStates() == old(GlobalStates())
      ensures HookAt(old(GlobalStates()), old(HookOf(h))) && Sound(u)
      ensures HookOf(h) == if old(HookOf(h)).NoHook? then NoHook else MergedOwn(old(GlobalStates()), old(HookOf(h)), u)
    {
      hide ValidGlobals, GlobalStates, Later, MergeVars, Merged;
      HookShows(h);
      if h.ageSdlHook != null {
        ghost var gs, before := GlobalStates(), HookOf(h);
        h.ageSdlHook.Merge(other);
        if u.desc == h.ageSdlHook.desc {
          MergedIs(gs, before.slots, OwnSlots(u.vars), SlotsOf(h.ageSdlHook.vars));
        } else {
          assert SlotsOf(h.ageSdlHook.vars) == before.slots;
        }
      }
    }

    /** State::merge on the hook of the global state of the age, whose cells are then shared. */
    method MergeGlobal(h: Host)
      requires ValidGlobals() && HostAt(h)
      modifies h.ageSdlHook
      ensures HostAt(h) && View(h) == old(View(h)) && ValidGlobals() && GlobalStates() == old(GlobalStates())
      ensures SoundGlobals(old(GlobalStates())) && HookAt(old(GlobalStates()), old(HookOf(h)))
      ensures HookOf(h) == if old(HookOf(h)).NoHook? then NoHook else MergedGlobal(old(GlobalStates()), old(HookOf(h)))
      ensures h.ageSdlHook != null && h.ageSdlHook.desc == h.globalState.desc ==>
                var g, k := h.globalState, h.ageSdlHook;
                |g.vars| == |k.vars| == |old(k.vars)| &&
                forall i :: 0 <= i < |k.vars| ==>
                  k.vars[i] == if Later(g.vars[i].cell.timestamp, old(k.vars)[i].cell.timestamp) then g.vars[i]
                               else old(k.vars)[i]
    {
      hide ValidGlobals, GlobalStates, Later, MergeVars, Merged;
      HookShows(h);
      GlobalsSound();
      if h.ageSdlHook != null {
        ghost var gs, before := GlobalStates(), HookOf(h);
        GlobalCells(h.age);
        h.ageSdlHook.Merge(h.globalState);
        if h.globalState.desc == h.ageSdlHook.desc {
          MergedIs(gs, before.slots, GlobalSlots(h.age, |h.globalState.vars|), SlotsOf(h.ageSdlHook.vars));
        } else {
          assert SlotsOf(h.ageSdlHook.vars) == before.slots;
        }
      }
    }

    lemma GlobalCells(age: Str)
      requires ValidGlobals() && age in globals
      ensures globals[age].Valid() && age in GlobalStates() && GlobalStates()[age] == globals[age].View()
      ensures forall i :: 0 <= i < |globals[age].vars| ==>
                SlotOf(globals[age].vars[i]) == Of(age, i) && SlotAt(GlobalStates(), Of(age, i))
                && CellOf(GlobalStates(), Of(age, i)) == globals[age].vars[i].cell
    {
      assert GlobalAt(age);
    }

    /** The two merges of a vault update into the hook. */
    method MergeVault(h: Host, other: StateRef, ghost v: State)
      requires ValidGlobals() && HostAt(h) && other.Valid() && other != h.ageSdlHook && other.View() == v
      requires forall i :: 0 <= i < |other.vars| ==> other.vars[i] !in owner
      modifies h.ageSdlHook
      ensures HostAt(h) && View(h) == old(View(h)) && ValidGlobals() && GlobalStates() == old(GlobalStates())
      ensures SoundGlobals(old(GlobalStates())) && HookAt(old(GlobalStates()), old(HookOf(h))) && Sound(v)
      ensures HookOf(h) == HookStep(old(GlobalStates()), old(HookOf(h)), VaultUpdate(v))
    {
      hide ValidGlobals, GlobalStates, View, HostAt, HookOf, MergedOwn, MergedGlobal;
      MergeOwn(h, other, v);
      MergeGlobal(h);
    }

    /** Merge into the local state cells that no global state has. */
    method MergeLocal(h: Host, other: StateRef)
      requires ValidGlobals() && HostAt(h) && other.Valid() && other != h.localState && Sound(View(h).localState)
      requires forall i :: 0 <= i < |other.vars| ==> other.vars[i] !in owner
      modifies h.localState
      ensures HostAt(h) && View(h).written == old(View(h)).written && HookOf(h) == old(HookOf(h))
      ensures ValidGlobals() && GlobalStates() == old(GlobalStates())
      ensures var st, u := old(View(h).localState), old(other.View());
              View(h).localState
              == if st.Null? || st.desc != u.desc then st else st.(vars := MergeVars(st.vars, u.vars))
    {
      hide Later, Overlay, MergeVars, ValidGlobals, GlobalStates;
      if h.localState != null {
        h.localState.Merge(other);
      }
    }

    /** Add to the local state cells that no global state has. */
    method AddLocal(h: Host, other: StateRef, ghost u: State) returns (ok: bool)
      requires ValidGlobals() && HostAt(h) && h.localState != null && Sound(View(h).localState)
      requires other.Valid() && other != h.localState && other.View() == u
      requires forall i :: 0 <= i < |other.vars| ==> other.vars[i] !in owner
      modifies h.localState
      ensures HostAt(h) && View(h).written == old(View(h)).written && HookOf(h) == old(HookOf(h))
      ensures ValidGlobals() && GlobalStates() == old(GlobalStates())
      ensures ok <==> u.desc == old(h.localState).desc
      ensures var st := old(View(h).localState);
              View(h).localState == if ok then st.(vars := Overlay(st.vars, u.vars)) else st
    {
      hide Overlay, ValidGlobals, GlobalStates;
      ok := h.localState.Add(other);
    }

    lemma HookIsNot(h: Host)
      requires HostAt(h)
      ensures h.localState == null <==> HookOf(h) == NoHook
      ensures h.localState == null <==> h.ageSdlHook == null
      ensures h.localState == null <==> View(h).localState == Null
      ensures h.localState != null ==> h.localState.desc == h.ageSdlHook.desc == HookOf(h).desc == View(h).localState.desc
      ensures h.localState != null ==> HookOf(h).Hook?
    {
    }

    /** dm_global_sdl_update: afterwards no global variable is later than the one shown, and a strictly
        later one is itself shown. */
    method UpdateFromGlobal(h: Host)
      requires ValidGlobals() && HostAt(h) && Sound(View(h).localState)
      modifies h, h.localState, h.ageSdlHook
      ensures HostAt(h) && View(h) == HostStep(old(View(h)), GlobalHandled)
      ensures h.localState == old(h.localState) && h.ageSdlHook == old(h.ageSdlHook) && h.globalState == old(h.globalState)
      ensures ValidGlobals() && GlobalStates() == old(GlobalStates()) && SoundGlobals(old(GlobalStates()))
      ensures HookAt(old(GlobalStates()), old(HookOf(h)))
      ensures HookOf(h) == HookStep(old(GlobalStates()), old(HookOf(h)), GlobalHandled)
      ensures h.ageSdlHook != null && h.ageSdlHook.desc == h.globalState.desc ==>
                var g, k := h.globalState, h.ageSdlHook;
                |g.vars| == |k.vars| == |old(k.vars)| &&
                forall i :: 0 <= i < |k.vars| ==>
                  && !Later(g.vars[i].cell.timestamp, k.vars[i].cell.timestamp)
                  && k.vars[i] == if Later(g.vars[i].cell.timestamp, old(k.vars)[i].cell.timestamp) then g.vars[i]
                                  else old(k.vars)[i]
    {
      hide ValidGlobals, GlobalStates, MergedGlobal;
      MergeGlobal(h);
    }

    // ---- global changes ----

    /** The source writes element 0 of the variable without looking at its size. */
    ghost predicate HasElement(age: Str, variable: Str)
      reads globals.Values, owner.Keys
    {
      age in globals && GlobalAt(age) ==>
        var g := globals[age];
        forall i :: 0 <= i < |g.vars| && g.desc.vars[i].name == variable && Settable(g.desc.vars[i].ty) ==>
          g.vars[i].cell.payload.elems != []
    }

    /** dm_auth_update_globalSDL: the first simple variable of that name is changed in place. Nothing
        else changes, and whoever shares the cell sees the change at once. */
    method ChangeGlobal(age: Str, variable: Str, now: UnifiedTime, value: Option<Text>) returns (reply: Reply, ghost t: int)
      requires Valid() && Possible(GlobalChange(age, variable, now, value)) && HasElement(age, variable)
      modifies owner.Keys
      ensures Valid() && Locals() == old(Locals())
      ensures reply == StateObjectNotFound <==> age !in globals
      ensures age in globals ==> IsTarget(globals[age].desc, variable, t) && (reply == InvalidParameter <==> t < 0)
      ensures age in globals && t >= 0 ==>
                var g, vd := globals[age], globals[age].desc.vars[t];
                && t < |g.vars| && WellTyped(vd) && CellMatches(vd, old(g.vars[t].cell))
                && (value.Some? && Settable(vd.ty) ==> old(g.vars[t].cell).payload.elems != [])
                && g.vars[t].cell == Changed(vd, old(g.vars[t].cell), now, value)
                && (reply == NotSupported <==> value.Some? && !Settable(vd.ty))
      ensures forall v :: v in owner && !(age in globals && t >= 0 && v == globals[age].vars[t]) ==> v.cell == old(v.cell)
      ensures Hooks() == old(Hooks()) && SoundGlobals(old(GlobalStates()))
      ensures GlobalStates() == ChangedGlobals(old(GlobalStates()), age, variable, now, value)
      ensures forall a, n :: old(HasElement(a, n)) ==> HasElement(a, n)
    {
      hide ValidGlobals, GlobalStates, Hooks, View, HostAt, CellMatches, WellTyped, ChangedGlobals, Changed, HookOf, HasElement, SoundGlobals, HookAt, Positions, Apart, Owned, Settable;
      GlobalsSound();
      GlobalNamed(age);
      if age !in globals {
        UnknownAge(GlobalStates(), age, variable, now, value);
        return StateObjectNotFound, -1;
      }
      var g := globals[age];
      CanSet(age, variable, value);
      GlobalValid(age);
      GlobalOwner(age);
      var j := FindTarget(g.desc, variable);
      t := j;
      ChangedIs(GlobalStates(), age, variable, now, value, t);
      if j < 0 {
        return InvalidParameter, -1;
      }
      SetCell(age, j, now, value);
      reply := if value.Some? && !Settable(g.desc.vars[j].ty) then NotSupported else Success;
    }

    /** What the change finds. */
    lemma CanSet(age: Str, variable: Str, value: Option<Text>)
      requires ValidGlobals() && age in globals && HasElement(age, variable) && (value.Some? ==> value.value.Valid())
      ensures GlobalAt(age) && age in GlobalStates() && GlobalStates()[age] == globals[age].View()
      ensures forall t :: 0 <= t < |globals[age].vars| && globals[age].desc.vars[t].name == variable
                          && !globals[age].desc.vars[t].ty.StateDesc? ==>
                Changeable(globals[age].desc.vars[t], globals[age].vars[t].cell, value)
    {
      hide CellMatches, WellTyped;
      assert GlobalAt(age);
    }

    /** The loop over the simple variables. */
    method FindTarget(d: Desc, variable: Str) returns (t: int)
      ensures IsTarget(d, variable, t)
    {
      hide Positions;
      var simple := SimpleVars(d);
      for i := 0 to |simple|
        invariant forall k :: 0 <= k < i ==> d.vars[simple[k]].name != variable
      {
        var j := simple[i];
        if d.vars[j].name == variable {
          return j;
        }
      }
      return -1;
    }

    /** A change that is later than what a host shows, once the host has handled the message about it: the
        host shows the global variable itself, so that it will see further changes at once. */
    method Publish(i: nat, age: Str, variable: Str, now: UnifiedTime, value: Option<Text>) returns (reply: Reply, ghost t: int)
      requires Valid() && Possible(GlobalChange(age, variable, now, value)) && HasElement(age, variable)
      requires i < |hosts| && age in globals && hosts[i].globalState == globals[age] && hosts[i].ageSdlHook != null
      requires hosts[i].ageSdlHook.desc == globals[age].desc && hosts[i].ageSdlHook.Valid() && globals[age].Valid()
      requires forall k :: 0 <= k < |globals[age].vars| ==>
                 hosts[i].ageSdlHook.vars[k] == globals[age].vars[k]
                 || Later(now, hosts[i].ageSdlHook.vars[k].cell.timestamp)
      modifies owner.Keys, hosts[i], hosts[i].localState, hosts[i].ageSdlHook
      ensures hosts[i].ageSdlHook != null && t < |globals[age].vars| && |hosts[i].ageSdlHook.vars| == |globals[age].vars|
      ensures t >= 0 ==> hosts[i].ageSdlHook.vars[t] == globals[age].vars[t] && globals[age].vars[t].cell.timestamp == now
      ensures View(hosts[i]) == old(View(hosts[i]))
    {
      hide ValidGlobals, HostAt, View, HasElement, CellMatches, GlobalStates, HookOf, HookStep, Hooks, ChangedGlobals;
      var h := hosts[i];
      HostSound(h);
      ghost var shown := h.ageSdlHook.vars;
      reply, t := ChangeShown(age, variable, now, value);
      assert Locals()[i] == old(Locals()[i]);
      HostSound(h);
      UpdateShown(h);
    }

    method SetCell(age: Str, j: nat, now: UnifiedTime, value: Option<Text>)
      requires Valid() && age in globals && j < |globals[age].vars| && j < |globals[age].desc.vars|
      requires WellTyped(globals[age].desc.vars[j]) && !globals[age].desc.vars[j].ty.StateDesc?
      requires CellMatches(globals[age].desc.vars[j], globals[age].vars[j].cell)
      requires value.Some? ==> value.value.Valid()
      requires value.Some? && Settable(globals[age].desc.vars[j].ty) ==> globals[age].vars[j].cell.payload.elems != []
      modifies globals[age].vars[j]
      ensures Valid() && Locals() == old(Locals())
      ensures forall a, n :: old(HasElement(a, n)) ==> HasElement(a, n)
      ensures globals[age].vars[j].cell == Changed(globals[age].desc.vars[j], old(globals[age].vars[j].cell), now, value)
      ensures Hooks() == old(Hooks())
      ensures age in old(GlobalStates()) && old(GlobalStates())[age].State? && j < |old(GlobalStates())[age].vars|
      ensures var gs := old(GlobalStates());
              GlobalStates() == gs[age := gs[age].(vars := gs[age].vars[j := globals[age].vars[j].cell])]
    {
      hide Valid, ValidGlobals, Locals, View, HostAt, CellMatches, WellTypedDesc, WellTyped, Changed, GlobalStates, Hooks, GlobalAt, HasElement, HookOf, Settable;
      var v := globals[age].vars[j];
      FlatOnly(globals[age].desc.vars[j], v.cell);
      FlatOnly(globals[age].desc.vars[j], Changed(globals[age].desc.vars[j], v.cell, now, value));
      PutCell(age, j, Changed(globals[age].desc.vars[j], v.cell, now, value));
    }

    /** No host sees the change in its local state. */
    method PutCell(age: Str, j: nat, c: Cell)
      requires Valid() && age in globals && j < |globals[age].vars|
      requires CellMatches(globals[age].desc.vars[j], c)
      requires c.payload.Flat? && globals[age].vars[j].cell.payload.Flat?
      requires |c.payload.elems| == |globals[age].vars[j].cell.payload.elems|
      modifies globals[age].vars[j]
      ensures Valid() && Locals() == old(Locals()) && Hooks() == old(Hooks())
      ensures forall a, n :: old(HasElement(a, n)) ==> HasElement(a, n)
      ensures globals[age].vars[j].cell == c
      ensures age in old(GlobalStates()) && old(GlobalStates())[age].State? && j < |old(GlobalStates())[age].vars|
      ensures var gs := old(GlobalStates()); GlobalStates() == gs[age := gs[age].(vars := gs[age].vars[j := c])]
    {
      hide ValidGlobals, HostAt, CellMatches, GlobalStates, Hooks, HookOf, GlobalAt, HasElement, Apart, Owned;
      NotLocal(age, j);
      GlobalValid(age);
      ChangeShared(age, j, c);
    }

    /** A variable that has elements goes on having some. */
    method ChangeKept(age: Str, j: nat, c: Cell)
      requires ValidGlobals() && age in globals && GlobalAt(age) && j < |globals[age].vars|
      requires CellMatches(globals[age].desc.vars[j], c)
      requires c.payload.Flat? && globals[age].vars[j].cell.payload.Flat?
      requires |c.payload.elems| == |globals[age].vars[j].cell.payload.elems|
      modifies globals[age].vars[j]
      ensures ValidGlobals() && globals[age].vars[j].cell == c
      ensures forall a, n :: old(HasElement(a, n)) ==> HasElement(a, n)
      ensures age in old(GlobalStates()) && old(GlobalStates())[age].State? && j < |old(GlobalStates())[age].vars|
      ensures var gs := old(GlobalStates()); GlobalStates() == gs[age := gs[age].(vars := gs[age].vars[j := c])]
    {
      AllAt();
      hide CellMatches, WellTypedDesc, GlobalStates, ValidGlobals, GlobalAt;
      ChangeCell(age, j, c);
      AllAt();
    }

    lemma FlatOnly(vd: VarDesc, c: Cell)
      requires CellMatches(vd, c) && !vd.ty.StateDesc?
      ensures c.payload.Flat?
    {
    }

    lemma AllAt()
      requires ValidGlobals()
      ensures forall n :: n in globals ==> GlobalAt(n)
    {
    }

    lemma NotLocal(age: Str, j: nat)
      requires Valid() && age in globals && j < |globals[age].vars|
      ensures globals[age].vars[j] in owner && globals[age].vars[j] in repr
      ensures forall i :: 0 <= i < |hosts| && hosts[i].localState != null ==> globals[age].vars[j] !in hosts[i].localState.vars
    {
      hide HostAt, ValidGlobals, GlobalAt;
      GlobalOwner(age);
      forall i | 0 <= i < |hosts|
        ensures hosts[i].localState != null ==> globals[age].vars[j] !in hosts[i].localState.vars
      {
        HostSound(hosts[i]);
      }
    }

    lemma GlobalOwner(age: Str)
      requires ValidGlobals() && age in globals
      ensures forall i :: 0 <= i < |globals[age].vars| ==> globals[age].vars[i] in owner
    {
      assert GlobalAt(age);
    }

    /** Every hook that shares a cell goes on sharing it. */
    method ChangeShared(age: Str, j: nat, c: Cell)
      requires ValidGlobals() && age in globals && GlobalAt(age) && j < |globals[age].vars|
      requires CellMatches(globals[age].desc.vars[j], c)
      requires c.payload.Flat? && globals[age].vars[j].cell.payload.Flat?
      requires |c.payload.elems| == |globals[age].vars[j].cell.payload.elems|
      ensures forall a, n :: old(HasElement(a, n)) ==> HasElement(a, n)
      modifies globals[age].vars[j]
      ensures ValidGlobals() && globals[age].vars[j].cell == c && Hooks() == old(Hooks())
      ensures age in old(GlobalStates()) && old(GlobalStates())[age].State? && j < |old(GlobalStates())[age].vars|
      ensures var gs := old(GlobalStates()); GlobalStates() == gs[age := gs[age].(vars := gs[age].vars[j := c])]
    {
      hide ValidGlobals, CellMatches, WellTypedDesc, GlobalStates, HasElement;
      ChangeKept(age, j, c);
      forall i | 0 <= i < |hosts| ensures HookOf(hosts[i]) == old(HookOf(hosts[i])) {
        var h := hosts[i];
        if h.ageSdlHook != null {
          assert SlotsOf(h.ageSdlHook.vars) == old(SlotsOf(h.ageSdlHook.vars));
        }
      }
    }

    ghost predicate HeldAt(gs: Globals, n: Str)
      requires n in globals
      reads globals[n], globals[n].vars
    {
      n in gs && gs[n] == globals[n].View()
    }

    lemma StatesHeld()
      requires ValidGlobals()
      ensures forall n :: n in globals ==> HeldAt(GlobalStates(), n)
    {
    }

    /** The global states are told by what each of them holds. */
    lemma StatesAre(gs: Globals)
      requires ValidGlobals() && gs.Keys == globals.Keys && forall n :: n in globals ==> HeldAt(gs, n)
      ensures gs == GlobalStates()
    {
      forall n | n in globals ensures gs[n] == GlobalStates()[n] {
        assert HeldAt(gs, n);
      }
    }

    lemma OnlyPlace(age: Str, j: nat)
      requires ValidGlobals() && age in globals && j < |globals[age].vars|
      ensures forall n, i :: n in globals && 0 <= i < |globals[n].vars| && globals[n].vars[i] == globals[age].vars[j] ==>
                n == age && i == j
    {
      hide GlobalStates, ValidGlobals;
      CellsOf(age);
      forall n | n in globals
        ensures forall i :: 0 <= i < |globals[n].vars| && globals[n].vars[i] == globals[age].vars[j] ==> n == age && i == j
      {
        CellsOf(n);
      }
    }

    method StoreCell(age: Str, j: nat, c: Cell)
      requires ValidGlobals() && age in globals && GlobalAt(age) && j < |globals[age].vars|
      requires CellMatches(globals[age].desc.vars[j], c)
      modifies globals[age].vars[j]
      ensures ValidGlobals() && globals[age].vars[j].cell == c
    {
      hide CellMatches, WellTypedDesc;
      globals[age].vars[j].cell := c;
      forall n | n in globals ensures GlobalAt(n) {
        assert old(GlobalAt(n));
      }
    }

    /** A change of one cell changes nothing else of any global state. */
    method ChangeCell(age: Str, j: nat, c: Cell)
      requires ValidGlobals() && age in globals && GlobalAt(age) && j < |globals[age].vars|
      requires CellMatches(globals[age].desc.vars[j], c)
      modifies globals[age].vars[j]
      ensures ValidGlobals() && globals[age].vars[j].cell == c
      ensures age in old(GlobalStates()) && old(GlobalStates())[age].State? && j < |old(GlobalStates())[age].vars|
      ensures var gs := old(GlobalStates()); GlobalStates() == gs[age := gs[age].(vars := gs[age].vars[j := c])]
    {
      hide ValidGlobals, CellMatches, GlobalAt, GlobalStates;
      StatesHeld();
      OnlyPlace(age, j);
      ghost var gs := GlobalStates();
      assert HeldAt(gs, age);
      ghost var after := gs[age := gs[age].(vars := gs[age].vars[j := c])];
      StoreCell(age, j, c);
      forall n | n in globals ensures HeldAt(after, n) {
        assert old(HeldAt(gs, n));
        var g := globals[n];
        if n == age {
          assert g.Cells() == gs[n].vars[j := c];
        } else {
          assert globals[age].vars[j] !in g.vars;
          assert g.View() == old(g.View());
        }
      }
      StatesAre(after);
    }

    lemma CellsOf(n: Str)
      requires ValidGlobals() && n in globals
      ensures GlobalAt(n)
      ensures GlobalStates()[n].State? && |GlobalStates()[n].vars| == |globals[n].vars|
      ensures forall i :: 0 <= i < |globals[n].vars| ==>
                GlobalStates()[n].vars[i] == globals[n].vars[i].cell && owner[globals[n].vars[i]] == (n, i)
    {
    }

    // ---- whole runs ----

    method Step(e: Event)
      requires Valid() && Possible(e) && (e.GlobalChange? ==> HasElement(e.age, e.variable))
      modifies repr
      ensures Valid() && SoundLocals(old(Locals())) && PossibleAt(|old(Locals())|, e)
      ensures Locals() == LocalStep(old(Locals()), e)
      ensures SoundWorld(old(TheWorld())) && PossibleIn(old(TheWorld()), e)
      ensures TheWorld() == WorldStep(old(TheWorld()), e)
      ensures forall age, variable :: old(HasElement(age, variable)) ==> HasElement(age, variable)
      ensures fresh(repr - old(repr))
    {
      hide HostAt, ValidGlobals, View, GlobalAt, HostStep, HookStep, HookOf, GlobalStates, NewHook, ChangedGlobals, HasElement, SoundGlobals, HookAt, Apart;
      ValidSound();
      WorldSound();
      PossibleEvent(e);
      if e.Message? {
        HostSound(hosts[e.host]);
      }
      match e {
        case Start(age, l, k, save) => StartHost(age, l, k, save);
        case Message(h, m) => Handle(h, m);
        case GlobalChange(age, variable, now, value) => StepChange(age, variable, now, value);
      }
    }

    method StepChange(age: Str, variable: Str, now: UnifiedTime, value: Option<Text>)
      requires Valid() && Possible(GlobalChange(age, variable, now, value)) && HasElement(age, variable)
      modifies owner.Keys
      ensures Valid() && Locals() == old(Locals()) && Hooks() == old(Hooks()) && SoundGlobals(old(GlobalStates()))
      ensures GlobalStates() == ChangedGlobals(old(GlobalStates()), age, variable, now, value)
      ensures forall a, n :: old(HasElement(a, n)) ==> HasElement(a, n)
    {
      hide HostAt, ValidGlobals, View, GlobalAt, HookOf, GlobalStates, ChangedGlobals, HasElement, Changed, CellMatches;
      var reply, t := ChangeGlobal(age, variable, now, value);
    }

    /** The cells after a change. */
    method ChangeShown(age: Str, variable: Str, now: UnifiedTime, value: Option<Text>) returns (reply: Reply, ghost t: int)
      requires Valid() && Possible(GlobalChange(age, variable, now, value)) && HasElement(age, variable) && age in globals
      modifies owner.Keys
      ensures Valid() && Locals() == old(Locals())
      ensures IsTarget(globals[age].desc, variable, t)
      ensures t >= 0 ==> t < |globals[age].vars| && globals[age].vars[t].cell.timestamp == now
      ensures forall v :: v in owner && !(t >= 0 && v == globals[age].vars[t]) ==> v.cell == old(v.cell)
    {
      hide HostAt, ValidGlobals, View, GlobalAt, HookOf, GlobalStates, ChangedGlobals, HasElement, CellMatches;
      reply, t := ChangeGlobal(age, variable, now, value);
    }

    method UpdateShown(h: Host)
      requires ValidGlobals() && HostAt(h) && Sound(View(h).localState)
      modifies h, h.localState, h.ageSdlHook
      ensures HostAt(h) && View(h) == old(View(h))
      ensures h.localState == old(h.localState) && h.ageSdlHook == old(h.ageSdlHook) && h.globalState == old(h.globalState)
      ensures h.ageSdlHook != null && h.ageSdlHook.desc == h.globalState.desc ==>
                var g, k := h.globalState, h.ageSdlHook;
                |g.vars| == |k.vars| == |old(k.vars)| &&
                forall i :: 0 <= i < |k.vars| ==>
                  k.vars[i] == if Later(g.vars[i].cell.timestamp, old(k.vars)[i].cell.timestamp) then g.vars[i]
                               else old(k.vars)[i]
    {
      hide ValidGlobals, View, HostAt, HookOf, GlobalStates, HookStep;
      UpdateFromGlobal(h);
    }

    lemma WorldKeys()
      requires ValidGlobals()
      ensures TheWorld().globals.Keys == globals.Keys && |TheWorld().hooks| == |hosts|
    {
    }

    lemma PossibleEvent(e: Event)
      requires ValidGlobals() && Possible(e)
      ensures PossibleIn(TheWorld(), e)
    {
    }

    /** Any run of starts, updates, merges, disconnects and in-place global changes: no cell of a local
        state is ever a cell of a global state, and the local states and all that is written to the
        vault are a function of the local events. */
    method Run(events: seq<Event>)
      requires Valid() && PossibleFrom(|hosts|, events)
      requires forall k :: 0 <= k < |events| && events[k].Start? && events[k].localState.State? ==> events[k].age in globals
      requires forall k :: 0 <= k < |events| && events[k].GlobalChange? ==> HasElement(events[k].age, events[k].variable)
      modifies repr
      ensures Valid() && SoundLocals(old(Locals()))
      ensures Locals() == LocalRun(old(Locals()), events)
      ensures SoundWorld(old(TheWorld())) && PossibleRun(old(TheWorld()), events)
      ensures TheWorld() == WorldRun(old(TheWorld()), events)
    {
      hide HostAt, ValidGlobals, LocalStep, HasElement, WorldStep, TheWorld, SoundWorld, PossibleIn, PossibleFrom, PossibleRun;
      ValidSound();
      WorldSound();
      WorldKeys();
      ghost var first := TheWorld();
      ghost var w := first;
      RunPossible(first, events);
      assert events[0..] == events;
      for k := 0 to |events|
        invariant Valid() && SoundLocals(Locals()) && PossibleFrom(|hosts|, events[k..])
        invariant LocalRun(old(Locals()), events) == LocalRun(Locals(), events[k..])
        invariant w == TheWorld() && SoundWorld(w) && PossibleRun(w, events[k..])
        invariant WorldRun(first, events) == WorldRun(w, events[k..])
        invariant forall age, variable :: old(HasElement(age, variable)) ==> HasElement(age, variable)
        invariant fresh(repr - old(repr))
      {
        assert events[k..][0] == events[k] && events[k..][1..] == events[k + 1..];
        PossibleNext(|hosts|, events[k..]);
        RunNext(w, events[k..]);
        Step(events[k]);
        w := WorldStep(w, events[k]);
        ValidSound();
      }
    }

    lemma ValidSound()
      requires Valid()
      ensures SoundLocals(Locals())
    {
      forall i | 0 <= i < |hosts| ensures Sound(Locals()[i].localState) {
        HostSound(hosts[i]);
      }
    }
  }
}
