/** What holds over every run of a game host and its clients: one game master, and locks that stay with
    their holders (GameServ/GameHost.cpp:213-317, 492-524; GameServ/GameServer.cpp:108-187, 287-299). */
module GameHostRuns {
  import opened GameHost
  import SdlTypes

  /** s' is reached from s by the events, each of them enabled in its turn. */
  predicate Runs(s: State, events: seq<Event>, s': State)
    decreases |events|
  {
    if events == [] then s' == s
    else Enabled(s, events[0]) && Runs(Step(s, events[0]), events[1..], s')
  }

  lemma {:induction false} RunKeepsInv(s: State, events: seq<Event>, s': State)
    requires Inv(s) && Runs(s, events, s')
    ensures Inv(s')
    decreases |events|
  {
    hide Inv, Step, Enabled;
    if events != [] {
      StepKeepsInv(s, events[0]);
      RunKeepsInv(Step(s, events[0]), events[1..], s');
    }
  }

  /** In every reachable state at most one connection whose disconnect is unprocessed was last told that
      it owns the group; it is the game master, and a game master is always such a connection. */
  lemma GameMasterIsExclusive(events: seq<Event>, s: State)
    requires Runs(START, events, s)
    ensures forall c, d :: 0 <= c < |s.conns| && 0 <= d < |s.conns| && Owner(s, c) && Owner(s, d) ==> c == d
    ensures forall c :: 0 <= c < |s.conns| && Owner(s, c) ==> s.conns[c].player == s.tables.gameMaster
    ensures s.tables.gameMaster != 0 ==>
              exists c :: 0 <= c < |s.conns| && Owner(s, c) && s.conns[c].player == s.tables.gameMaster
  {
    RunKeepsInv(START, events, s);
    assert forall c, d :: 0 <= c < |s.conns| && 0 <= d < |s.conns| && Owner(s, c) && Owner(s, d) ==> !SamePlayer(s, c, d);
  }

  /** The holder's entry for an object. */
  predicate Held(t: Tables, target: Uoid) {
    SdlTypes.ObjectKey(target) in t.locks
  }

  function HolderOf(t: Tables, target: Uoid): nat
    requires Held(t, target)
  {
    t.locks[SdlTypes.ObjectKey(target)]
  }

  /** e makes the holder of a lock give it up. */
  predicate Frees(s: State, e: Event, target: Uoid)
    requires Enabled(s, e)
  {
    && Held(s.tables, target)
    && e.Handle?
    && s.conns[s.queue[0].conn].player == HolderOf(s.tables, target)
    && (s.queue[0].Leave?
        || (s.queue[0].Lock? && SdlTypes.SameObject(s.queue[0].target, target) && !s.queue[0].lock))
  }

  /** A lock changes hands only through the table being empty of it: it is released if and only if its
      holder unlocks it or its holder's disconnect is handled. */
  lemma LockReleasedIff(s: State, e: Event, target: Uoid)
    requires Enabled(s, e) && Held(s.tables, target)
    ensures !Held(Step(s, e).tables, target) <==> Frees(s, e, target)
    ensures Held(Step(s, e).tables, target) ==> HolderOf(Step(s, e).tables, target) == HolderOf(s.tables, target)
  {
    if e.Handle? && s.queue[0].Lock? {
      SdlTypes.ObjectKeyIff(s.queue[0].target, target);
    }
  }

  /** A request for a lock is affirmed if and only if nobody holds it. */
  lemma AffirmedIff(t: Tables, player: nat, target: Uoid)
    ensures TestAndSet(t, player, target, true).1 == if Held(t, target) then Deny else Affirm
    ensures Held(TestAndSet(t, player, target, true).0, target)
    ensures !Held(t, target) ==> HolderOf(TestAndSet(t, player, target, true).0, target) == player
  {
  }

  /** e is a request for the lock on target that is affirmed. */
  predicate Affirms(s: State, e: Event, target: Uoid)
    requires Enabled(s, e)
  {
    && e.Handle? && s.queue[0].Lock? && s.queue[0].lock && SdlTypes.SameObject(s.queue[0].target, target)
    && TestAndSet(s.tables, s.conns[s.queue[0].conn].player, s.queue[0].target, true).1 == Affirm
  }

  /** How many requests for the lock on target are affirmed in a run, and how often a holder gives it up. */
  function Affirmed(s: State, events: seq<Event>, target: Uoid): nat
    requires CanRun(s, events)
    decreases |events|
  {
    if events == [] then 0
    else (if Affirms(s, events[0], target) then 1 else 0) + Affirmed(Step(s, events[0]), events[1..], target)
  }

  function Freed(s: State, events: seq<Event>, target: Uoid): nat
    requires CanRun(s, events)
    decreases |events|
  {
    if events == [] then 0
    else (if Frees(s, events[0], target) then 1 else 0) + Freed(Step(s, events[0]), events[1..], target)
  }

  predicate CanRun(s: State, events: seq<Event>)
    decreases |events|
  {
    events == [] || (Enabled(s, events[0]) && CanRun(Step(s, events[0]), events[1..]))
  }

  /** A lock is taken if and only if a request for it is affirmed. */
  lemma LockTakenIff(s: State, e: Event, target: Uoid)
    requires Enabled(s, e) && !Held(s.tables, target)
    ensures Held(Step(s, e).tables, target) <==> Affirms(s, e, target)
  {
    if e.Handle? && s.queue[0].Lock? {
      SdlTypes.ObjectKeyIff(s.queue[0].target, target);
    }
  }

  lemma NotAffirmedWhileHeld(s: State, e: Event, target: Uoid)
    requires Enabled(s, e) && Held(s.tables, target)
    ensures !Affirms(s, e, target)
  {
    if e.Handle? && s.queue[0].Lock? {
      SdlTypes.ObjectKeyIff(s.queue[0].target, target);
    }
  }

  lemma {:induction false} AffirmationsCounted(s: State, events: seq<Event>, s': State, target: Uoid)
    requires Runs(s, events, s')
    ensures CanRun(s, events)
    ensures Affirmed(s, events, target) + (if Held(s.tables, target) then 1 else 0)
         == Freed(s, events, target) + (if Held(s'.tables, target) then 1 else 0)
    decreases |events|
  {
    hide Step, Frees, Affirms, Held;
    if events != [] {
      var e := events[0];
      AffirmationsCounted(Step(s, e), events[1..], s', target);
      if Held(s.tables, target) {
        LockReleasedIff(s, e, target);
        NotAffirmedWhileHeld(s, e, target);
      } else {
        LockTakenIff(s, e, target);
        FreesHeld(s, e, target);
      }
    }
  }

  lemma FreesHeld(s: State, e: Event, target: Uoid)
    requires Enabled(s, e)
    ensures Frees(s, e, target) ==> Held(s.tables, target)
  {
  }

  /** Over every run, a request for the lock on an object is affirmed if and only if every earlier
      affirmation of it has been freed, by its holder's unlock or disconnect; at most one has not been. */
  lemma AffirmedIffAllFreed(events: seq<Event>, s: State, player: nat, target: Uoid)
    requires Runs(START, events, s)
    ensures CanRun(START, events)
    ensures var affirmed, freed := Affirmed(START, events, target), Freed(START, events, target);
            && freed <= affirmed <= freed + 1
            && (TestAndSet(s.tables, player, target, true).1 == Affirm <==> affirmed == freed)
  {
    AffirmationsCounted(START, events, s, target);
    AffirmedIff(s.tables, player, target);
  }

  predicate NeverFrees(s: State, events: seq<Event>, target: Uoid)
    decreases |events|
  {
    events == [] ||
    (Enabled(s, events[0]) && !Frees(s, events[0], target) && NeverFrees(Step(s, events[0]), events[1..], target))
  }

  /** From the moment a lock is affirmed until its holder unlocks or disconnects, it stays with its
      holder, a connection whose disconnect is unprocessed, and every request for it is denied. */
  lemma {:induction false} LockHeld(s: State, events: seq<Event>, s': State, target: Uoid, player: nat)
    requires Inv(s) && Runs(s, events, s') && NeverFrees(s, events, target)
    requires Held(s.tables, target)
    ensures Held(s'.tables, target) && HolderOf(s'.tables, target) == HolderOf(s.tables, target)
    ensures TestAndSet(s'.tables, player, target, true) == (s'.tables, Deny)
    ensures exists c :: 0 <= c < |s'.conns| && Live(s'.conns[c]) && s'.conns[c].player == HolderOf(s'.tables, target)
    decreases |events|
  {
    hide Step, Frees;
    if events != [] {
      LockReleasedIff(s, events[0], target);
      StepKeepsInv(s, events[0]);
      LockHeld(Step(s, events[0]), events[1..], s', target, player);
    }
  }
}
