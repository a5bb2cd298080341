/** Game-master ownership and object locks of a game host (GameServ/GameHost.cpp:213-317, 492-524), with
    the workers' half of joining and leaving (GameServ/GameServer.cpp:108-187, 287-299). A player id is
    in at most one live connection of a host, and a connection joins once. */
module GameHost {
  import opened Bytes
  import SdlTypes

  type Uoid = SdlTypes.Uoid

  datatype Answer = Affirm | Deny | Silent

  /** The host's own tables: the members by player id, the game master (0 for none), the lock owners. */
  datatype Tables = Tables(members: map<nat, nat>, gameMaster: nat, locks: map<Uoid, nat>)

  // ---- what the handlers do to the tables ----

  /** dm_test_and_set */
  function TestAndSet(t: Tables, player: nat, target: Uoid, lock: bool): (r: (Tables, Answer))
    ensures r.0 == t.(locks := r.0.locks)
  {
    var k := SdlTypes.ObjectKey(target);
    if lock then
      if k in t.locks then (t, Deny) else (t.(locks := t.locks[k := player]), Affirm)
    else if k in t.locks && t.locks[k] == player then (t.(locks := t.locks - {k}), Silent)
    else (t, Silent)
  }

  /** The locks that remain when a player leaves. */
  function Released(locks: map<Uoid, nat>, player: nat): map<Uoid, nat> {
    map k | k in locks && locks[k] != player :: locks[k]
  }

  /** dm_game_join: whether the client is told that it owns the group. */
  function JoinTables(t: Tables, player: nat): (Tables, bool) {
    if t.gameMaster == 0 then (t.(gameMaster := player), true) else (t, false)
  }

  /** dm_game_disconnect, where the member at the front of the map is heir. */
  function LeaveTables(t: Tables, player: nat, heir: nat): Tables {
    var locks := Released(t.locks, player);
    if t.gameMaster != player then t.(locks := locks)
    else t.(locks := locks, gameMaster := if t.members == map[] then 0 else heir)
  }

  /** heir can be at the front of the map. */
  predicate MayInherit(t: Tables, heir: nat) {
    t.members != map[] ==> heir in t.members
  }

  // ---- connections ----

  datatype Stage =
    | Outside        // no host yet
    | Hosted         // the player id and the host are set
    | Joining        // waits for the host's answer to the join
    | Answered       // has it, successful or not
    | Registered     // in the members
    | Asking(registered: bool)    // waits for the host to handle a lock message
    | Erased         // taken out of the members
    | Leaving        // waits for the host to handle the disconnect
    | Disconnected

  /** own: the latest ownership message to the client, if there has been one. */
  datatype Conn = Conn(stage: Stage, player: nat, own: Option<bool>)

  datatype Message =
    | Join(conn: nat)
    | Lock(conn: nat, target: Uoid, lock: bool)
    | Leave(conn: nat)

  datatype State = State(conns: seq<Conn>, tables: Tables, queue: seq<Message>)

  datatype Event =
    | Connect
    | SetHost(conn: nat, player: nat)
    | AskToJoin(conn: nat)
    | Register(conn: nat)
    | Ask(conn: nat, target: Uoid, lock: bool)
    | Erase(conn: nat)
    | AskToLeave(conn: nat)
    | Handle(accepted: bool, heir: nat)    // the host handles the message at the front of its queue

  const START := State([], Tables(map[], 0, map[]), [])

  /** The host knows of the connection, and its disconnect has not been processed. */
  predicate Live(x: Conn) {
    !x.stage.Outside? && !x.stage.Disconnected?
  }

  predicate Enabled(s: State, e: Event) {
    match e
    case Connect => true
    case SetHost(c, player) =>
      && c < |s.conns| && s.conns[c].stage.Outside? && player != 0
      && forall d :: 0 <= d < |s.conns| && Live(s.conns[d]) ==> s.conns[d].player != player
    case AskToJoin(c) => c < |s.conns| && s.conns[c].stage.Hosted?
    case Register(c) => c < |s.conns| && s.conns[c].stage.Answered?
    case Ask(c, _, _) => c < |s.conns| && (s.conns[c].stage.Hosted? || s.conns[c].stage.Registered?)
    case Erase(c) =>
      c < |s.conns| && (s.conns[c].stage.Hosted? || s.conns[c].stage.Answered? || s.conns[c].stage.Registered?)
    case AskToLeave(c) => c < |s.conns| && s.conns[c].stage.Erased?
    case Handle(_, heir) => s.queue != [] && s.queue[0].conn < |s.conns| && MayInherit(s.tables, heir)
  }

  function Put(s: State, c: nat, stage: Stage): State
    requires c < |s.conns|
  {
    s.(conns := s.conns[c := s.conns[c].(stage := stage)])
  }

  function Step(s: State, e: Event): (r: State)
    requires Enabled(s, e)
  {
    match e
    case Connect => s.(conns := s.conns + [Conn(Outside, 0, None)])
    case SetHost(c, player) => s.(conns := s.conns[c := Conn(Hosted, player, None)])
    case AskToJoin(c) => Put(s, c, Joining).(queue := s.queue + [Join(c)])
    case Register(c) =>
      Put(s, c, Registered).(tables := s.tables.(members := s.tables.members[s.conns[c].player := c]))
    case Ask(c, target, lock) =>
      Put(s, c, Asking(s.conns[c].stage.Registered?)).(queue := s.queue + [Lock(c, target, lock)])
    case Erase(c) =>
      Put(s, c, Erased).(tables := s.tables.(members := s.tables.members - {s.conns[c].player}))
    case AskToLeave(c) => Put(s, c, Leaving).(queue := s.queue + [Leave(c)])
    case Handle(accepted, heir) => HandleFront(s, accepted, heir)
  }

  function HandleFront(s: State, accepted: bool, heir: nat): State
    requires s.queue != [] && s.queue[0].conn < |s.conns|
  {
    var c := s.queue[0].conn;
    var x := s.conns[c];
    match s.queue[0]
    case Join(_) =>
      if !accepted then Put(s, c, Answered).(queue := s.queue[1..])
      else
        var (t, own) := JoinTables(s.tables, x.player);
        State(s.conns[c := x.(stage := Answered, own := Some(own))], t, s.queue[1..])
    case Lock(_, target, lock) =>
      var stage := if x.stage.Asking? && x.stage.registered then Registered else Hosted;
      Put(s, c, stage).(tables := TestAndSet(s.tables, x.player, target, lock).0, queue := s.queue[1..])
    case Leave(_) =>
      var t := LeaveTables(s.tables, x.player, heir);
      var conns := s.conns[c := x.(stage := Disconnected)];
      var told := s.tables.gameMaster == x.player && heir in s.tables.members && s.tables.members[heir] < |conns|;
      var conns' := if told then
                      conns[s.tables.members[heir] := conns[s.tables.members[heir]].(own := Some(true))]
                    else conns;
      State(conns', t, s.queue[1..])
  }

  // ---- the invariant ----

  predicate Waits(x: Conn, m: Message) {
    match m
    case Join(_) => x.stage.Joining?
    case Lock(_, _, _) => x.stage.Asking?
    case Leave(_) => x.stage.Leaving?
  }

  /** Every queued message is from a connection that waits for its answer. */
  predicate Queued(s: State) {
    && (forall k :: 0 <= k < |s.queue| ==> s.queue[k].conn < |s.conns| && Waits(s.conns[s.queue[k].conn], s.queue[k]))
    && (forall j, k :: 0 <= j < k < |s.queue| ==> s.queue[j].conn != s.queue[k].conn)
  }

  predicate SamePlayer(s: State, c: nat, d: nat)
    requires c < |s.conns| && d < |s.conns|
  {
    c != d && Live(s.conns[c]) && Live(s.conns[d]) && s.conns[c].player == s.conns[d].player
  }

  predicate Players(s: State) {
    && (forall c :: 0 <= c < |s.conns| && Live(s.conns[c]) ==> s.conns[c].player != 0)
    && (forall c, d :: 0 <= c < |s.conns| && 0 <= d < |s.conns| ==> !SamePlayer(s, c, d))
  }

  /** Before the answer to its join, a connection has been told nothing about ownership. */
  predicate Newcomers(s: State) {
    forall c :: 0 <= c < |s.conns| ==> NewcomerSound(s.conns[c])
  }

  predicate NewcomerSound(x: Conn) {
    x.stage.Outside? || x.stage.Hosted? || x.stage.Joining? || x.stage == Asking(false) ==> x.own.None?
  }

  predicate InMembers(x: Conn) {
    x.stage.Registered? || (x.stage.Asking? && x.stage.registered)
  }

  /** Every member is a registered connection. */
  predicate Members(s: State) {
    forall p :: p in s.tables.members ==>
      var c := s.tables.members[p];
      c < |s.conns| && s.conns[c].player == p && InMembers(s.conns[c])
  }

  /** Every registered connection is a member. */
  predicate Present(s: State) {
    forall c :: 0 <= c < |s.conns| && InMembers(s.conns[c]) ==> IsMember(s, c)
  }

  predicate IsMember(s: State, c: nat)
    requires c < |s.conns|
  {
    s.conns[c].player in s.tables.members && s.tables.members[s.conns[c].player] == c
  }

  predicate Owner(s: State, c: nat)
    requires c < |s.conns|
  {
    Live(s.conns[c]) && s.conns[c].own == Some(true)
  }

  /** Who has been told last that it owns the group is the game master, and the other way round. */
  ghost predicate Ownership(s: State) {
    && (forall c :: 0 <= c < |s.conns| && Owner(s, c) ==> s.conns[c].player == s.tables.gameMaster)
    && (s.tables.gameMaster != 0 ==>
          exists c :: 0 <= c < |s.conns| && Owner(s, c) && s.conns[c].player == s.tables.gameMaster)
  }

  ghost predicate Locks(s: State) {
    forall k :: k in s.tables.locks ==>
      exists c :: 0 <= c < |s.conns| && Live(s.conns[c]) && s.conns[c].player == s.tables.locks[k]
  }

  ghost predicate Inv(s: State) {
    Queued(s) && Players(s) && Newcomers(s) && Members(s) && Present(s) && Ownership(s) && Locks(s)
  }

  // ---- the queue ----

  predicate Waiting(x: Conn) {
    x.stage.Joining? || x.stage.Asking? || x.stage.Leaving?
  }

  /** The message that an event sends to the host. */
  function Sent(e: Event): seq<Message> {
    match e
    case AskToJoin(c) => [Join(c)]
    case Ask(c, target, lock) => [Lock(c, target, lock)]
    case AskToLeave(c) => [Leave(c)]
    case _ => []
  }

  /** The messages that stay in the queue. */
  function Rest(s: State, e: Event): (r: seq<Message>)
    requires Enabled(s, e)
    ensures |r| == |s.queue| - if e.Handle? then 1 else 0
  {
    if e.Handle? then s.queue[1..] else s.queue
  }

  /** e is a step of connection c, or answers its message. */
  predicate ActsOn(s: State, e: Event, c: nat)
    requires Enabled(s, e)
  {
    match e
    case Connect => false
    case Handle(_, _) => s.queue[0].conn == c
    case SetHost(d, _) => d == c
    case AskToJoin(d) => d == c
    case Register(d) => d == c
    case Ask(d, _, _) => d == c
    case Erase(d) => d == c
    case AskToLeave(d) => d == c
  }

  lemma QueueStep(s: State, e: Event)
    requires Enabled(s, e)
    ensures Step(s, e).queue == Rest(s, e) + Sent(e)
  {
    hide TestAndSet, LeaveTables, JoinTables;
  }

  /** Only the connection that e acts on changes its stage. */
  lemma StageStep(s: State, e: Event, c: nat)
    requires Enabled(s, e) && c < |s.conns| && !ActsOn(s, e, c)
    ensures c < |Step(s, e).conns| && Step(s, e).conns[c].stage == s.conns[c].stage
  {
    hide TestAndSet, LeaveTables, JoinTables;
  }

  /** A connection that waits does nothing by itself. */
  lemma WaitingRests(s: State, e: Event, c: nat)
    requires Enabled(s, e) && !e.Handle? && c < |s.conns| && Waiting(s.conns[c])
    ensures !ActsOn(s, e, c)
  {
  }

  /** Who sends a message did not wait before and waits for the answer now. */
  lemma SenderWaits(s: State, e: Event, m: Message)
    requires Enabled(s, e) && m in Sent(e)
    ensures Sent(e) == [m] && !e.Handle? && m.conn < |s.conns| && !Waiting(s.conns[m.conn])
    ensures m.conn < |Step(s, e).conns| && Waits(Step(s, e).conns[m.conn], m)
  {
  }

  lemma StillWaits(s: State, e: Event, k: nat)
    requires Queued(s) && Enabled(s, e) && k < |s.queue| && (e.Handle? ==> k > 0)
    ensures var m := s.queue[k]; m.conn < |Step(s, e).conns| && Waits(Step(s, e).conns[m.conn], m)
  {
    hide Step, Enabled;
    var c := s.queue[k].conn;
    assert Waits(s.conns[c], s.queue[k]);
    if e.Handle? {
      assert c != s.queue[0].conn;
    } else {
      WaitingRests(s, e, c);
    }
    StageStep(s, e, c);
  }

  lemma StepQueued(s: State, e: Event)
    requires Queued(s) && Enabled(s, e)
    ensures Queued(Step(s, e))
  {
    hide Step, Enabled, Waits, Sent;
    var s' := Step(s, e);
    var rest := Rest(s, e);
    QueueStep(s, e);
    forall k | 0 <= k < |s'.queue|
      ensures s'.queue[k].conn < |s'.conns| && Waits(s'.conns[s'.queue[k].conn], s'.queue[k])
      ensures k >= |rest| ==> k == |rest| && !e.Handle? && s'.queue[k].conn < |s.conns| && !Waiting(s.conns[s'.queue[k].conn])
    {
      if k < |rest| {
        StillWaits(s, e, if e.Handle? then k + 1 else k);
      } else {
        SenderWaits(s, e, s'.queue[k]);
      }
    }
    forall j, k | 0 <= j < k < |s'.queue| ensures s'.queue[j].conn != s'.queue[k].conn {
      if k == |rest| {
        WaitsIsWaiting(s.conns[s.queue[j].conn], s.queue[j]);
      }
    }
  }

  lemma WaitsIsWaiting(x: Conn, m: Message)
    requires Waits(x, m)
    ensures Waiting(x)
  {
  }

  // ---- the connections ----

  predicate IsSetHost(e: Event, c: nat) {
    e.SetHost? && e.conn == c
  }

  predicate HandlesLeave(s: State, e: Event, c: nat) {
    e.Handle? && s.queue != [] && s.queue[0] == Message.Leave(c)
  }

  /** A connection comes to life when it is given its host, and its life ends when its disconnect is
      handled. */
  lemma ConnStep(s: State, e: Event, c: nat)
    requires Queued(s) && Members(s) && Enabled(s, e) && c < |Step(s, e).conns|
    ensures c < |s.conns| || !Live(Step(s, e).conns[c])
    ensures c < |s.conns| ==>
              var x, y := s.conns[c], Step(s, e).conns[c];
              && (!IsSetHost(e, c) ==> y.player == x.player)
              && (Live(y) ==> Live(x) || IsSetHost(e, c))
              && (Live(x) ==> !IsSetHost(e, c))
              && (Live(x) && !Live(y) ==> HandlesLeave(s, e, c))
  {
    hide Released, TestAndSet;
  }

  lemma StepPlayers(s: State, e: Event)
    requires Inv(s) && Enabled(s, e)
    ensures Players(Step(s, e))
  {
    var s' := Step(s, e);
    forall c | 0 <= c < |s'.conns| && Live(s'.conns[c]) ensures s'.conns[c].player != 0 {
      ConnStep(s, e, c);
    }
    forall c, d | 0 <= c < |s'.conns| && 0 <= d < |s'.conns| ensures !SamePlayer(s', c, d) {
      ConnStep(s, e, c);
      ConnStep(s, e, d);
      if c < |s.conns| && d < |s.conns| {
        assert !SamePlayer(s, c, d);
      }
    }
  }

  lemma StepMembers(s: State, e: Event)
    requires Inv(s) && Enabled(s, e)
    ensures Members(Step(s, e))
  {
    hide Ownership, Locks, Released, Newcomers, Players, TestAndSet;
  }

  lemma StepPresent(s: State, e: Event)
    requires Inv(s) && Enabled(s, e)
    ensures Present(Step(s, e))
  {
    hide Step, Ownership, Locks, Newcomers, Enabled, Queued, IsMember, InMembers;
    var s' := Step(s, e);
    forall c | 0 <= c < |s'.conns| && InMembers(s'.conns[c]) ensures IsMember(s', c) {
      PresentStep(s, e, c);
    }
  }

  lemma PresentStep(s: State, e: Event, c: nat)
    requires Queued(s) && Players(s) && Members(s) && Present(s) && Enabled(s, e)
    requires c < |Step(s, e).conns| && InMembers(Step(s, e).conns[c])
    ensures IsMember(Step(s, e), c)
  {
    hide TestAndSet, Released;
    if c < |s.conns| && InMembers(s.conns[c]) {
      assert IsMember(s, c);
      if e.Register? {
        assert !SamePlayer(s, c, e.conn);
      } else if e.Erase? {
        assert !SamePlayer(s, c, e.conn);
      }
    }
  }

  /** Only a join without a game master and the inheritance tell a connection that it owns the group. */
  lemma OwnStep(s: State, e: Event, c: nat)
    requires Queued(s) && Players(s) && Members(s) && Enabled(s, e) && c < |Step(s, e).conns| && Owner(Step(s, e), c)
    ensures c < |s.conns|
    ensures Owner(s, c) || Step(s, e).conns[c].player == Step(s, e).tables.gameMaster
    ensures s.tables.gameMaster == Step(s, e).tables.gameMaster || s.tables.gameMaster == 0
            || (e.Handle? && s.queue[0].Leave? && s.conns[s.queue[0].conn].player == s.tables.gameMaster)
  {
    hide Released, TestAndSet;
    ConnStep(s, e, c);
  }

  lemma StepNewcomers(s: State, e: Event)
    requires Inv(s) && Enabled(s, e)
    ensures Newcomers(Step(s, e))
  {
    hide Ownership, Locks, Released, TestAndSet, Players;
    forall c | 0 <= c < |Step(s, e).conns| ensures NewcomerSound(Step(s, e).conns[c]) {
      if c < |s.conns| {
        assert NewcomerSound(s.conns[c]);
      }
    }
  }

  /** An owner stays one until its disconnect is handled. */
  lemma OwnerStays(s: State, e: Event, c: nat)
    requires Inv(s) && Enabled(s, e) && c < |s.conns| && Owner(s, c) && !HandlesLeave(s, e, c)
    ensures c < |Step(s, e).conns| && Owner(Step(s, e), c) && Step(s, e).conns[c].player == s.conns[c].player
  {
    hide Ownership, Locks, Released, TestAndSet, Players;
    assert NewcomerSound(s.conns[c]);
  }

  lemma OwnersMatch(s: State, e: Event, c: nat)
    requires Inv(s) && Enabled(s, e) && c < |Step(s, e).conns| && Owner(Step(s, e), c)
    ensures Step(s, e).conns[c].player == Step(s, e).tables.gameMaster
  {
    hide Locks, Members, Queued, Step;
    OwnStep(s, e, c);
    ConnStep(s, e, c);
    if Owner(s, c) && e.Handle? && s.queue[0].Leave? {
      LeaverEnds(s, e);
      assert !SamePlayer(s, c, s.queue[0].conn);
    }
  }

  lemma LeaverEnds(s: State, e: Event)
    requires Queued(s) && Members(s) && Enabled(s, e) && e.Handle? && s.queue[0].Leave?
    ensures Live(s.conns[s.queue[0].conn]) && !Live(Step(s, e).conns[s.queue[0].conn])
  {
    hide Released;
  }

  /** The answer to a join: a client that the daemon accepts is told whether it owns the group, which it does
      exactly when there is no game master, and one that is refused is told nothing. */
  lemma JoinAnswered(s: State, e: Event)
    requires Queued(s) && Enabled(s, e) && e.Handle? && s.queue[0].Join?
    ensures var c, s' := s.queue[0].conn, Step(s, e);
            && c < |s'.conns| && s'.conns[c].stage == Answered
            && (e.accepted && s.tables.gameMaster == 0 ==>
                  s'.conns[c].own == Some(true) && s'.tables == s.tables.(gameMaster := s.conns[c].player))
            && (e.accepted && s.tables.gameMaster != 0 ==> s'.conns[c].own == Some(false) && s'.tables == s.tables)
            && (!e.accepted ==> s'.conns[c].own == s.conns[c].own && s'.tables == s.tables)
  {
    hide TestAndSet, Released;
  }

  /** When the game master leaves, there is a new one if and only if a connection is registered; it is a
      registered one, and has been told that it owns the group. */
  lemma HeirOwns(s: State, e: Event)
    requires Inv(s) && Enabled(s, e) && e.Handle? && s.queue[0].Leave?
    requires s.conns[s.queue[0].conn].player == s.tables.gameMaster
    ensures Step(s, e).tables.gameMaster != 0 <==> exists d :: 0 <= d < |s.conns| && InMembers(s.conns[d])
    ensures Step(s, e).tables.gameMaster != 0 ==>
              exists d :: 0 <= d < |s.conns| && d < |Step(s, e).conns| && InMembers(s.conns[d]) && Owner(Step(s, e), d)
                          && Step(s, e).conns[d].player == s.conns[d].player == Step(s, e).tables.gameMaster
  {
    hide Locks, Released, Ownership, Newcomers;
    var s' := Step(s, e);
    if s.tables.members == map[] {
      assert forall d :: 0 <= d < |s.conns| ==> !InMembers(s.conns[d]) by {
        assert forall d :: 0 <= d < |s.conns| && InMembers(s.conns[d]) ==> IsMember(s, d);
      }
    } else {
      var d := s.tables.members[e.heir];
      assert InMembers(s.conns[d]) && Owner(s', d) && s'.conns[d].player == s'.tables.gameMaster;
    }
  }

  lemma StepOwnership(s: State, e: Event)
    requires Inv(s) && Enabled(s, e)
    ensures Ownership(Step(s, e))
  {
    hide Owner, Queued, Members, Newcomers, Locks;
    var s' := Step(s, e);
    forall c | 0 <= c < |s'.conns| && Owner(s', c) ensures s'.conns[c].player == s'.tables.gameMaster {
      OwnersMatch(s, e, c);
    }
    if s'.tables.gameMaster != 0 {
      SomeOwner(s, e);
    }
  }

  lemma SomeOwner(s: State, e: Event)
    requires Inv(s) && Enabled(s, e) && Step(s, e).tables.gameMaster != 0
    ensures exists c :: 0 <= c < |Step(s, e).conns| && Owner(Step(s, e), c)
                        && Step(s, e).conns[c].player == Step(s, e).tables.gameMaster
  {
    var s' := Step(s, e);
    if e.Handle? && s.queue[0].Leave? && s.conns[s.queue[0].conn].player == s.tables.gameMaster {
      HeirOwns(s, e);
    } else if s.tables.gameMaster != 0 {
      var c :| 0 <= c < |s.conns| && Owner(s, c) && s.conns[c].player == s.tables.gameMaster;
      OwnerStays(s, e, c);
      MasterStays(s, e);
    } else {
      NewMaster(s, e);
    }
  }

  lemma MasterStays(s: State, e: Event)
    requires Queued(s) && Enabled(s, e) && s.tables.gameMaster != 0
    requires !(e.Handle? && s.queue[0].Leave? && s.conns[s.queue[0].conn].player == s.tables.gameMaster)
    ensures Step(s, e).tables.gameMaster == s.tables.gameMaster
  {
    hide TestAndSet, Released;
  }

  lemma NewMaster(s: State, e: Event)
    requires Inv(s) && Enabled(s, e) && s.tables.gameMaster == 0 && Step(s, e).tables.gameMaster != 0
    requires !(e.Handle? && s.queue[0].Leave? && s.conns[s.queue[0].conn].player == s.tables.gameMaster)
    ensures exists c :: 0 <= c < |Step(s, e).conns| && Owner(Step(s, e), c)
                        && Step(s, e).conns[c].player == Step(s, e).tables.gameMaster
  {
    hide TestAndSet, Released;
    assert e.Handle? && s.queue[0].Join?;
    assert Owner(Step(s, e), s.queue[0].conn);
  }

  lemma StepLocks(s: State, e: Event)
    requires Inv(s) && Enabled(s, e)
    ensures Locks(Step(s, e))
  {
    hide Ownership;
    var s' := Step(s, e);
    forall k | k in s'.tables.locks
      ensures exists c :: 0 <= c < |s'.conns| && Live(s'.conns[c]) && s'.conns[c].player == s'.tables.locks[k]
    {
      if k in s.tables.locks && s.tables.locks[k] == s'.tables.locks[k] {
        var c :| 0 <= c < |s.conns| && Live(s.conns[c]) && s.conns[c].player == s.tables.locks[k];
        ConnStep(s, e, c);
      } else {
        assert e.Handle? && s.queue[0].Lock?;
        ConnStep(s, e, s.queue[0].conn);
      }
    }
  }

  lemma StepKeepsInv(s: State, e: Event)
    requires Inv(s) && Enabled(s, e)
    ensures Inv(Step(s, e))
  {
    hide Queued, Players, Newcomers, Members, Present, Ownership, Locks, Step;
    StepQueued(s, e);
    StepPlayers(s, e);
    StepNewcomers(s, e);
    StepMembers(s, e);
    StepPresent(s, e);
    StepOwnership(s, e);
    StepLocks(s, e);
  }

  // ---- the handlers ----

  /** The fields of GameHost_Private that the handlers change. */
  class GameHost {
    var members: map<nat, nat>
    var locks: map<Uoid, nat>
    var gameMaster: nat

    function View(): Tables
      reads this
    {
      Tables(members, gameMaster, locks)
    }

    constructor ()
      ensures View() == START.tables
    {
      members, locks, gameMaster := map[], map[], 0;
    }

    /** dm_test_and_set */
    method DoTestAndSet(player: nat, target: Uoid, lockRequest: bool) returns (answer: Answer)
      modifies this
      ensures (View(), answer) == TestAndSet(old(View()), player, target, lockRequest)
    {
      var k := SdlTypes.ObjectKey(target);
      if lockRequest {
        if k !in locks {
          answer := Affirm;
          locks := locks[k := player];
        } else {
          answer := Deny;
        }
      } else {
        if k in locks && locks[k] == player {
          locks := locks - {k};
        }
        return Silent;
      }
    }

    /** dm_game_join, once the auth daemon has answered. */
    method DoJoin(player: nat) returns (own: bool)
      modifies this
      ensures (View(), own) == JoinTables(old(View()), player)
    {
      if gameMaster == 0 {
        own := true;
        gameMaster := player;
      } else {
        own := false;
      }
    }

    /** dm_game_disconnect: stale locks are released and the game master is replaced. */
    method DoDisconnect(player: nat) returns (heir: nat, told: Option<nat>)
      modifies this
      ensures MayInherit(old(View()), heir) && View() == LeaveTables(old(View()), player, heir)
      ensures told == if old(gameMaster) == player && old(members) != map[] then Some(old(members)[heir]) else None
    {
      var rest := locks.Keys;
      while rest != {}
        invariant rest <= old(locks).Keys && locks.Keys <= old(locks).Keys
        invariant members == old(members) && gameMaster == old(gameMaster)
        invariant forall k :: k in locks ==> locks[k] == old(locks)[k]
        invariant forall k :: k in old(locks) ==> (k in locks <==> k in rest || old(locks)[k] != player)
        decreases |rest|
      {
        var k :| k in rest;
        rest := rest - {k};
        if locks[k] == player {
          locks := locks - {k};
        }
      }
      assert locks == Released(old(locks), player);
      heir, told := 0, None;
      if members != map[] {
        heir :| heir in members.Keys;
      }
      if gameMaster == player {
        if members != map[] {
          gameMaster := heir;
          told := Some(members[heir]);
        } else {
          gameMaster := 0;
        }
      }
    }
  }
}
