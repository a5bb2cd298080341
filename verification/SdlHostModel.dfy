/** The auth daemon's global states and the game hosts that share their variables, on values: what a host
    has for itself and has sent to the vault, and what it shows to its players
    (AuthServ/AuthDaemon.cpp:925-1005, GameServ/GameHost.cpp:459-464, 746-790, 898-929). */
module SdlHostModel {
  import opened Bytes
  import opened SdlTypes
  import opened SdlCombine
  import opened SdlChanges

  datatype HostView = HostView(localState: State, written: seq<State>)

  /** The messages of one host that concern the age's SDL state; an update that did not parse is null. */
  datatype HostEvent =
    | AgeUpdate(update: State)
    | VaultUpdate(vaultState: State)
    | Disconnect
    | GlobalHandled

  datatype Event =
    | Start(age: Str, localState: State, hook: State, save: bool)
    | Message(host: nat, event: HostEvent)
    | GlobalChange(age: Str, variable: Str, now: UnifiedTime, value: Option<Text>)

  predicate Sound(st: State) {
    st.State? ==> |st.vars| == |st.desc.vars|
  }

  predicate SoundEvent(e: HostEvent) {
    (e.AgeUpdate? ==> Sound(e.update)) && (e.VaultUpdate? ==> Sound(e.vaultState))
  }

  function Save(v: HostView): HostView {
    v.(written := v.written + [v.localState])
  }

  /** What a host's message does to its local state and to the vault: a global change, nothing. */
  function HostStep(v: HostView, e: HostEvent): (r: HostView)
    requires Sound(v.localState) && SoundEvent(e)
    ensures Sound(r.localState)
  {
    var st := v.localState;
    match e
    case AgeUpdate(u) =>
      if u.Null? || (st.State? && st.desc != u.desc) then v
      else if st.Null? then Save(v)
      else Save(v.(localState := st.(vars := Overlay(st.vars, u.vars))))
    case VaultUpdate(u) =>
      if u.Null? then v
      else if st.Null? || st.desc != u.desc then Save(v)
      else Save(v.(localState := st.(vars := MergeVars(st.vars, u.vars))))
    case Disconnect => Save(v)
    case GlobalHandled => v
  }

  /** One event of the whole server, as far as local states and the vault are concerned. */
  function LocalStep(locals: seq<HostView>, e: Event): (r: seq<HostView>)
    requires SoundLocals(locals) && PossibleAt(|locals|, e)
    ensures SoundLocals(r) && |r| == NextCount(|locals|, e)
  {
    match e
    case Start(_, st, _, save) => locals + [HostView(st, if save then [st] else [])]
    case Message(h, m) => locals[h := HostStep(locals[h], m)]
    case GlobalChange(_, _, _, _) => locals
  }

  predicate SoundLocals(locals: seq<HostView>) {
    forall i :: 0 <= i < |locals| ==> Sound(locals[i].localState)
  }

  function NextCount(n: nat, e: Event): nat {
    if e.Start? then n + 1 else n
  }

  /** e can happen while there are n hosts. */
  predicate PossibleAt(n: nat, e: Event) {
    match e
    case Start(_, l, k, _) => Sound(l) && Sound(k) && (l.Null? <==> k.Null?) && (l.State? ==> l.desc == k.desc)
    case Message(h, m) => h < n && SoundEvent(m)
    case GlobalChange(_, _, _, value) => value.Some? ==> value.value.Valid()
  }

  predicate PossibleFrom(n: nat, events: seq<Event>)
    decreases |events|
  {
    events == [] || (PossibleAt(n, events[0]) && PossibleFrom(NextCount(n, events[0]), events[1..]))
  }

  function LocalRun(locals: seq<HostView>, events: seq<Event>): (r: seq<HostView>)
    requires SoundLocals(locals) && PossibleFrom(|locals|, events)
    decreases |events|
  {
    if events == [] then locals else LocalRun(LocalStep(locals, events[0]), events[1..])
  }

  predicate Global(e: Event) {
    e.GlobalChange? || (e.Message? && e.event.GlobalHandled?)
  }

  /** The run without its global events. */
  function LocalEvents(events: seq<Event>): seq<Event> {
    if events == [] then []
    else (if Global(events[0]) then [] else [events[0]]) + LocalEvents(events[1..])
  }

  /** What every host has in its local state, and all it has written to the vault, is the same as in
      the run without the global events. */
  lemma {:induction false} GlobalEventsNeverReachTheVault(locals: seq<HostView>, events: seq<Event>)
    requires SoundLocals(locals) && PossibleFrom(|locals|, events)
    ensures PossibleFrom(|locals|, LocalEvents(events))
    ensures LocalRun(locals, events) == LocalRun(locals, LocalEvents(events))
    decreases |events|
  {
    if events != [] {
      var next := LocalStep(locals, events[0]);
      GlobalEventsNeverReachTheVault(next, events[1..]);
      if Global(events[0]) {
        assert next == locals;
        assert LocalEvents(events) == LocalEvents(events[1..]);
      } else {
        assert LocalEvents(events)[0] == events[0] && LocalEvents(events)[1..] == LocalEvents(events[1..]);
      }
    }
  }

  // ---- what a host shows ----

  type Globals = map<Str, State>

  /** A variable of a hook: a cell of its own, or variable i of a global state, which is shared. */
  datatype Slot = Own(cell: Cell) | Of(age: Str, i: nat)

  /** The hook of a host whose age has that name. */
  datatype Hook = NoHook | Hook(age: Str, desc: Desc, slots: seq<Slot>)

  predicate SlotAt(gs: Globals, s: Slot) {
    s.Of? ==> s.age in gs && gs[s.age].State? && s.i < |gs[s.age].vars|
  }

  function CellOf(gs: Globals, s: Slot): Cell
    requires SlotAt(gs, s)
  {
    match s
    case Own(cell) => cell
    case Of(age, i) => gs[age].vars[i]
  }

  predicate SoundGlobals(gs: Globals) {
    forall age :: age in gs ==> gs[age].State? && |gs[age].vars| == |gs[age].desc.vars|
  }

  predicate HookAt(gs: Globals, k: Hook) {
    k.Hook? ==> k.age in gs && |k.slots| == |k.desc.vars| && forall i :: 0 <= i < |k.slots| ==> SlotAt(gs, k.slots[i])
  }

  /** What the players are sent of it. */
  function Shown(gs: Globals, k: Hook): (r: seq<Cell>)
    requires k.Hook? && HookAt(gs, k)
    ensures |r| == |k.slots| && forall i :: 0 <= i < |r| ==> r[i] == CellOf(gs, k.slots[i])
  {
    seq(|k.slots|, i requires 0 <= i < |k.slots| => CellOf(gs, k.slots[i]))
  }

  function OwnSlots(vars: seq<Cell>): (r: seq<Slot>)
    ensures |r| == |vars| && forall i :: 0 <= i < |r| ==> r[i] == Own(vars[i])
  {
    seq(|vars|, i requires 0 <= i < |vars| => Own(vars[i]))
  }

  function GlobalSlots(age: Str, n: nat): (r: seq<Slot>)
    ensures |r| == n && forall i :: 0 <= i < |r| ==> r[i] == Of(age, i)
  {
    seq(n, i requires 0 <= i < n => Of(age, i))
  }

  /** State::add: the dirty variables of an update are shared. */
  function Added(slots: seq<Slot>, u: seq<Cell>): (r: seq<Slot>)
    requires |slots| == |u|
    ensures |r| == |slots|
    ensures forall i :: 0 <= i < |r| ==> r[i] == if u[i].dirty then Own(u[i]) else slots[i]
  {
    seq(|slots|, i requires 0 <= i < |slots| => if u[i].dirty then Own(u[i]) else slots[i])
  }

  /** State::merge: the variables with a later timestamp are shared. */
  function Merged(gs: Globals, slots: seq<Slot>, from: seq<Slot>): (r: seq<Slot>)
    requires |slots| == |from|
    requires forall i :: 0 <= i < |slots| ==> SlotAt(gs, slots[i]) && SlotAt(gs, from[i])
    ensures |r| == |slots| && forall i :: 0 <= i < |r| ==> SlotAt(gs, r[i])
    ensures forall i :: 0 <= i < |r| ==>
              r[i] == if Later(CellOf(gs, from[i]).timestamp, CellOf(gs, slots[i]).timestamp) then from[i] else slots[i]
  {
    seq(|slots|, i requires 0 <= i < |slots| =>
      if Later(CellOf(gs, from[i]).timestamp, CellOf(gs, slots[i]).timestamp) then from[i] else slots[i])
  }

  /** Merging a state that nobody else holds; nothing when the descriptors differ. */
  function MergedOwn(gs: Globals, k: Hook, u: State): (r: Hook)
    requires k.Hook? && HookAt(gs, k) && u.State? && Sound(u)
    ensures r.Hook? && HookAt(gs, r) && r == k.(slots := r.slots)
  {
    if u.desc != k.desc then k else k.(slots := Merged(gs, k.slots, OwnSlots(u.vars)))
  }

  /** Merging the global state of the age. */
  function MergedGlobal(gs: Globals, k: Hook): (r: Hook)
    requires SoundGlobals(gs) && k.Hook? && HookAt(gs, k)
    ensures r.Hook? && HookAt(gs, r) && r == k.(slots := r.slots)
  {
    if gs[k.age].desc != k.desc then k
    else k.(slots := Merged(gs, k.slots, GlobalSlots(k.age, |gs[k.age].vars|)))
  }

  /** What a host's message does to its hook. */
  function HookStep(gs: Globals, k: Hook, e: HostEvent): (r: Hook)
    requires SoundGlobals(gs) && HookAt(gs, k) && SoundEvent(e)
    ensures HookAt(gs, r)
  {
    if k.NoHook? then k
    else match e
      case AgeUpdate(u) => if u.Null? || u.desc != k.desc then k else k.(slots := Added(k.slots, u.vars))
      case VaultUpdate(u) => if u.Null? then k else MergedGlobal(gs, MergedOwn(gs, k, u))
      case Disconnect => k
      case GlobalHandled => MergedGlobal(gs, k)
  }

  /** A message of which nothing is parsed changes nothing. */
  lemma NoneParsed(gs: Globals, v: HostView, k: Hook)
    requires SoundGlobals(gs) && HookAt(gs, k) && Sound(v.localState)
    ensures HostStep(v, AgeUpdate(Null)) == v == HostStep(v, VaultUpdate(Null))
    ensures HookStep(gs, k, AgeUpdate(Null)) == k == HookStep(gs, k, VaultUpdate(Null))
  {
  }

  /** The hook of a new host. */
  function NewHook(gs: Globals, age: Str, k: State): (r: Hook)
    requires SoundGlobals(gs) && Sound(k) && (k.State? ==> age in gs)
    ensures HookAt(gs, r)
  {
    if k.Null? then NoHook else MergedGlobal(gs, Hook(age, k.desc, OwnSlots(k.vars)))
  }

  // ---- the whole server ----

  /** The global states, and the hooks of the hosts. */
  datatype World = World(globals: Globals, hooks: seq<Hook>)

  predicate SoundWorld(w: World) {
    SoundGlobals(w.globals) && forall i :: 0 <= i < |w.hooks| ==> HookAt(w.globals, w.hooks[i])
  }

  /** The first simple variable of that name; -1 when there is none. */
  function FirstNamed(vars: seq<VarDesc>, name: Str): (t: int)
    ensures -1 <= t < |vars|
    ensures t >= 0 ==> vars[t].name == name && !vars[t].ty.StateDesc?
    ensures forall i :: 0 <= i < (if t >= 0 then t else |vars|) ==> !(vars[i].name == name && !vars[i].ty.StateDesc?)
  {
    if vars == [] then -1
    else
      var n := |vars| - 1;
      var t := FirstNamed(vars[..n], name);
      assert forall i :: 0 <= i < n ==> vars[..n][i] == vars[i];
      if t >= 0 then t else if vars[n].name == name && !vars[n].ty.StateDesc? then n else -1
  }

  /** t is the position of the first simple variable of that name, or -1. */
  predicate IsTarget(d: Desc, variable: Str, t: int) {
    && -1 <= t < |d.vars|
    && (t >= 0 ==> d.vars[t].name == variable && !d.vars[t].ty.StateDesc?)
    && forall i :: 0 <= i < (if t >= 0 then t else |d.vars|) ==> !(d.vars[i].name == variable && !d.vars[i].ty.StateDesc?)
  }

  /** The variable can be changed so: it is of its type, and there is an element to set. */
  predicate Changeable(vd: VarDesc, c: Cell, value: Option<Text>) {
    && WellTyped(vd) && !vd.ty.StateDesc? && CellMatches(vd, c)
    && (value.Some? ==> value.value.Valid() && (Settable(vd.ty) ==> c.payload.elems != []))
  }

  /** dm_auth_update_globalSDL on values. */
  function ChangedState(st: State, variable: Str, now: UnifiedTime, value: Option<Text>): (r: State)
    requires st.State? && Sound(st)
    ensures r.State? && r.desc == st.desc && |r.vars| == |st.vars|
  {
    var t := FirstNamed(st.desc.vars, variable);
    if t < 0 || !Changeable(st.desc.vars[t], st.vars[t], value) then st
    else st.(vars := st.vars[t := Changed(st.desc.vars[t], st.vars[t], now, value)])
  }

  function ChangedGlobals(gs: Globals, age: Str, variable: Str, now: UnifiedTime, value: Option<Text>): (r: Globals)
    requires SoundGlobals(gs)
    ensures SoundGlobals(r) && r.Keys == gs.Keys && forall n :: n in gs ==> |r[n].vars| == |gs[n].vars|
  {
    if age !in gs then gs else gs[age := ChangedState(gs[age], variable, now, value)]
  }

  lemma ChangedIs(gs: Globals, age: Str, variable: Str, now: UnifiedTime, value: Option<Text>, t: int)
    requires SoundGlobals(gs) && age in gs && IsTarget(gs[age].desc, variable, t)
    requires t >= 0 ==> Changeable(gs[age].desc.vars[t], gs[age].vars[t], value)
    ensures ChangedGlobals(gs, age, variable, now, value)
         == if t < 0 then gs
            else gs[age := gs[age].(vars := gs[age].vars[t := Changed(gs[age].desc.vars[t], gs[age].vars[t], now, value)])]
  {
    hide Changed, Changeable;
    assert FirstNamed(gs[age].desc.vars, variable) == t;
    if t < 0 {
      assert gs[age := gs[age]] == gs;
    }
  }

  lemma UnknownAge(gs: Globals, age: Str, variable: Str, now: UnifiedTime, value: Option<Text>)
    requires SoundGlobals(gs) && age !in gs
    ensures ChangedGlobals(gs, age, variable, now, value) == gs
  {
  }

  /** e can happen in w. */
  predicate PossibleIn(w: World, e: Event) {
    PossibleAt(|w.hooks|, e) && (e.Start? && e.hook.State? ==> e.age in w.globals)
  }

  function WorldStep(w: World, e: Event): (r: World)
    requires SoundWorld(w) && PossibleIn(w, e)
    ensures SoundWorld(r) && |r.hooks| == NextCount(|w.hooks|, e) && r.globals.Keys == w.globals.Keys
  {
    match e
    case Start(age, _, k, _) => w.(hooks := w.hooks + [NewHook(w.globals, age, k)])
    case Message(h, m) => w.(hooks := w.hooks[h := HookStep(w.globals, w.hooks[h], m)])
    case GlobalChange(age, variable, now, value) =>
      var gs := ChangedGlobals(w.globals, age, variable, now, value);
      HooksKept(w, gs);
      w.(globals := gs)
  }

  lemma HooksKept(w: World, gs: Globals)
    requires SoundWorld(w) && SoundGlobals(gs) && gs.Keys == w.globals.Keys
    requires forall n :: n in gs ==> |gs[n].vars| == |w.globals[n].vars|
    ensures forall i :: 0 <= i < |w.hooks| ==> HookAt(gs, w.hooks[i])
  {
    forall i | 0 <= i < |w.hooks| ensures HookAt(gs, w.hooks[i]) {
      var k := w.hooks[i];
      assert HookAt(w.globals, k);
      if k.Hook? {
        assert forall j :: 0 <= j < |k.slots| ==> SlotAt(w.globals, k.slots[j]);
      }
    }
  }

  predicate PossibleRun(w: World, events: seq<Event>)
    requires SoundWorld(w)
    decreases |events|
  {
    events == [] || (PossibleIn(w, events[0]) && PossibleRun(WorldStep(w, events[0]), events[1..]))
  }

  function WorldRun(w: World, events: seq<Event>): (r: World)
    requires SoundWorld(w) && PossibleRun(w, events)
    ensures SoundWorld(r)
    decreases |events|
  {
    if events == [] then w else WorldRun(WorldStep(w, events[0]), events[1..])
  }

  /** What can happen does not depend on values. */
  lemma {:induction false} RunPossible(w: World, events: seq<Event>)
    requires SoundWorld(w) && PossibleFrom(|w.hooks|, events)
    requires forall k :: 0 <= k < |events| && events[k].Start? && events[k].localState.State? ==> events[k].age in w.globals
    ensures PossibleRun(w, events)
    decreases |events|
  {
    hide SoundWorld, WorldStep;
    if events != [] {
      RunPossible(WorldStep(w, events[0]), events[1..]);
    }
  }

  lemma PossibleNext(n: nat, events: seq<Event>)
    requires events != [] && PossibleFrom(n, events)
    ensures PossibleAt(n, events[0]) && PossibleFrom(NextCount(n, events[0]), events[1..])
  {
  }

  lemma RunNext(w: World, events: seq<Event>)
    requires events != [] && SoundWorld(w) && PossibleRun(w, events)
    ensures PossibleIn(w, events[0]) && SoundWorld(WorldStep(w, events[0])) && PossibleRun(WorldStep(w, events[0]), events[1..])
    ensures WorldRun(w, events) == WorldRun(WorldStep(w, events[0]), events[1..])
  {
    hide WorldStep, SoundWorld;
  }

  // ---- what the players see of it ----

  /** An accepted update overlays what is shown. */
  lemma ShownAfterUpdate(gs: Globals, k: Hook, u: State)
    requires SoundGlobals(gs) && k.Hook? && HookAt(gs, k) && u.State? && Sound(u) && u.desc == k.desc
    ensures var r := HookStep(gs, k, AgeUpdate(u)); r.Hook? && Shown(gs, r) == Overlay(Shown(gs, k), u.vars)
  {
    var l, r := Shown(gs, k.(slots := Added(k.slots, u.vars))), Overlay(Shown(gs, k), u.vars);
    assert forall i :: 0 <= i < |l| ==> r[i] == if u.vars[i].dirty then u.vars[i] else Shown(gs, k)[i];
  }

  lemma ShownMerged(gs: Globals, k: Hook, from: seq<Slot>, cells: seq<Cell>)
    requires k.Hook? && HookAt(gs, k) && |from| == |k.slots| == |cells|
    requires forall i :: 0 <= i < |from| ==> SlotAt(gs, from[i]) && CellOf(gs, from[i]) == cells[i]
    ensures HookAt(gs, k.(slots := Merged(gs, k.slots, from)))
    ensures Shown(gs, k.(slots := Merged(gs, k.slots, from))) == MergeVars(Shown(gs, k), cells)
  {
    hide CellOf, SlotAt;
    var l, r := Shown(gs, k.(slots := Merged(gs, k.slots, from))), MergeVars(Shown(gs, k), cells);
    assert forall i :: 0 <= i < |l| ==> r[i] == MergeCell(Shown(gs, k)[i], cells[i]);
  }

  /** A vault update is merged into what is shown, and then the global state is. */
  lemma ShownAfterVault(gs: Globals, k: Hook, u: State)
    requires SoundGlobals(gs) && k.Hook? && HookAt(gs, k) && u.State? && Sound(u)
    requires u.desc == k.desc == gs[k.age].desc
    ensures var r := HookStep(gs, k, VaultUpdate(u));
            r.Hook? && Shown(gs, r) == MergeVars(MergeVars(Shown(gs, k), u.vars), gs[k.age].vars)
  {
    hide Merged, Shown;
    ShownMerged(gs, k, OwnSlots(u.vars), u.vars);
    var m := MergedOwn(gs, k, u);
    ShownMerged(gs, m, GlobalSlots(k.age, |gs[k.age].vars|), gs[k.age].vars);
  }

  /** A new host shows its age's state, merged with the global one. */
  lemma ShownAtStart(gs: Globals, age: Str, k: State)
    requires SoundGlobals(gs) && k.State? && Sound(k) && age in gs && gs[age].desc == k.desc
    ensures var r := NewHook(gs, age, k); r.Hook? && Shown(gs, r) == MergeVars(k.vars, gs[age].vars)
  {
    hide Merged, Shown;
    var own := Hook(age, k.desc, OwnSlots(k.vars));
    ShownOwn(gs, own, k.vars);
    ShownMerged(gs, own, GlobalSlots(age, |gs[age].vars|), gs[age].vars);
  }

  lemma ShownOwn(gs: Globals, k: Hook, vars: seq<Cell>)
    requires k.Hook? && HookAt(gs, k) && k.slots == OwnSlots(vars)
    ensures Shown(gs, k) == vars
  {
  }

  /** A change of a global variable is seen at once by every hook that shares it, and by no other. */
  lemma ShownAfterChange(gs: Globals, k: Hook, age: Str, variable: Str, now: UnifiedTime, value: Option<Text>, i: nat)
    requires SoundGlobals(gs) && k.Hook? && HookAt(gs, k) && i < |k.slots|
    ensures var r := ChangedGlobals(gs, age, variable, now, value);
            && HookAt(r, k)
            && var t := if age in gs then FirstNamed(gs[age].desc.vars, variable) else -1;
               && (t < 0 || k.slots[i] != Of(age, t) ==> Shown(r, k)[i] == Shown(gs, k)[i])
               && (t >= 0 && k.slots[i] == Of(age, t) && Changeable(gs[age].desc.vars[t], gs[age].vars[t], value) ==>
                     Shown(r, k)[i] == Changed(gs[age].desc.vars[t], gs[age].vars[t], now, value))
  {
    hide Changed, Changeable;
    var r := ChangedGlobals(gs, age, variable, now, value);
    HooksKept(World(gs, [k]), r);
    assert HookAt(r, [k][0]);
  }
}
