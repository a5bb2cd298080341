/** Exclusive sign-in of players (AuthServ/AuthServer.cpp:218-239, 1111-1160;
    AuthServ/AuthDaemon.cpp:268-292, 294-372): workers write their player id first, and the daemon's
    check reads the ids of the other clients one at a time while their workers run. */
module SignIn {
  /** Where a client's worker is. */
  datatype Stage =
    | Connecting        // not in the client list yet
    | Free              // in the list, signed in as nobody
    | Written           // has written its player id
    | Requested         // waits for the daemon
    | Confirmed         // signed in
    | Leaving           // has told the daemon that it disconnects
    | Left              // the daemon has handled the disconnect
    | Gone              // removed from the list

  /** id is m_playerId: 0 for nobody. */
  datatype Client = Client(stage: Stage, listed: bool, id: nat)

  datatype Message = SetPlayer(client: nat) | Disconnect(client: nat)

  /** While it checks, the daemon holds the lock on the client list. */
  datatype Daemon =
    | Idle
    | Checking(client: nat, todo: set<nat>)
    | Marking(client: nat)
    | Replying(client: nat)

  /** online: the players whose info record is marked online. */
  datatype State = State(clients: seq<Client>, daemon: Daemon, queue: seq<Message>, online: set<nat>)

  const START := State([], Idle, [], {})

  datatype Event =
    | Connect
    | Register(client: nat)
    | Write(client: nat, id: nat)
    | Request(client: nat)
    | Leave(client: nat)
    | Remove(client: nat)
    | Take(known: bool)       // the daemon takes a message; known: the account has such a player
    | Check(other: nat)
    | Checked
    | Mark
    | Reply

  predicate Unlocked(s: State) { !s.daemon.Checking? }

  predicate Enabled(s: State, e: Event) {
    match e
    case Connect => true
    case Register(c) => c < |s.clients| && s.clients[c].stage.Connecting? && Unlocked(s)
    case Write(c, _) => c < |s.clients| && (s.clients[c].stage.Free? || s.clients[c].stage.Confirmed?)
    case Request(c) => c < |s.clients| && s.clients[c].stage.Written?
    case Leave(c) =>
      c < |s.clients| && (s.clients[c].stage.Connecting? || s.clients[c].stage.Free? || s.clients[c].stage.Confirmed?)
    case Remove(c) => c < |s.clients| && s.clients[c].stage.Left? && Unlocked(s)
    case Take(_) => s.daemon.Idle? && s.queue != []
    case Check(d) => s.daemon.Checking? && d in s.daemon.todo
    case Checked => s.daemon.Checking? && s.daemon.todo == {}
    case Mark => s.daemon.Marking?
    case Reply => s.daemon.Replying?
  }

  predicate InRange(s: State) {
    && (forall k :: 0 <= k < |s.queue| ==> s.queue[k].client < |s.clients|)
    && (!s.daemon.Idle? ==> s.daemon.client < |s.clients|)
    && (s.daemon.Checking? ==> forall d :: d in s.daemon.todo ==> d < |s.clients|)
  }

  function With(s: State, c: nat, x: Client): State
    requires c < |s.clients|
  {
    s.(clients := s.clients[c := x])
  }

  /** The clients in the list, but for c. */
  function Others(clients: seq<Client>, c: nat): set<nat> {
    set d | 0 <= d < |clients| && clients[d].listed && d != c
  }

  function Step(s: State, e: Event): State
    requires InRange(s) && Enabled(s, e)
  {
    match e
    case Connect => s.(clients := s.clients + [Client(Connecting, false, 0)])
    case Register(c) => With(s, c, s.clients[c].(stage := Free, listed := true))
    case Write(c, id) => With(s, c, s.clients[c].(id := id, stage := if id == 0 then Free else Written))
    case Request(c) => With(s, c, s.clients[c].(stage := Requested)).(queue := s.queue + [SetPlayer(c)])
    case Leave(c) => With(s, c, s.clients[c].(stage := Leaving)).(queue := s.queue + [Disconnect(c)])
    case Remove(c) => With(s, c, s.clients[c].(stage := Gone, listed := false))
    case Take(known) =>
      var c := s.queue[0].client;
      var x := s.clients[c];
      if s.queue[0].SetPlayer? then
        if known then s.(queue := s.queue[1..], daemon := Checking(c, Others(s.clients, c)))
        else With(s, c, x.(id := 0, stage := Free)).(queue := s.queue[1..])
      else
        With(s, c, x.(stage := Left)).(queue := s.queue[1..], online := if x.id != 0 then s.online - {x.id} else s.online)
    case Check(d) =>
      var c := s.daemon.client;
      if s.clients[d].id == s.clients[c].id then
        With(s, c, s.clients[c].(id := 0, stage := Free)).(daemon := Idle)
      else s.(daemon := Checking(c, s.daemon.todo - {d}))
    case Checked => s.(daemon := Marking(s.daemon.client))
    case Mark => s.(daemon := Replying(s.daemon.client), online := s.online + {s.clients[s.daemon.client].id})
    case Reply => With(s, s.daemon.client, s.clients[s.daemon.client].(stage := Confirmed)).(daemon := Idle)
  }

  // ---- the invariant ----

  /** c has been granted its player id and has not given it up. */
  predicate Granted(s: State, c: nat)
    requires c < |s.clients|
  {
    var x := s.clients[c];
    && x.id != 0
    && (x.stage.Confirmed? || x.stage.Leaving? || ((s.daemon.Marking? || s.daemon.Replying?) && s.daemon.client == c))
  }

  predicate SamePlayer(s: State, c: nat, d: nat)
    requires c < |s.clients| && d < |s.clients|
  {
    c != d && s.clients[c].id == s.clients[d].id
  }

  predicate Exclusive(s: State) {
    forall c, d ::
      0 <= c < |s.clients| && 0 <= d < |s.clients| && Granted(s, c) && Granted(s, d) ==> !SamePlayer(s, c, d)
  }

  /** While c is checked, every client that has been granted the same player is still to be looked at. */
  predicate CheckSound(s: State) {
    s.daemon.Checking? && s.daemon.client < |s.clients| ==>
      forall d ::
        0 <= d < |s.clients| && Granted(s, d) && SamePlayer(s, d, s.daemon.client) ==> d in s.daemon.todo
  }

  predicate Online(s: State) {
    && (forall c :: 0 <= c < |s.clients| && Granted(s, c) && !(s.daemon.Marking? && s.daemon.client == c) ==>
          s.clients[c].id in s.online)
  }

  /** Stages agree with the list, with the ids and with what the daemon is about to handle. */
  predicate Consistent(s: State) {
    InRange(s) && Stages(s) && Queued(s)
  }

  predicate Stages(s: State) {
    && (forall c :: 0 <= c < |s.clients| ==> StageSound(s.clients[c]))
    && (!s.daemon.Idle? && s.daemon.client < |s.clients| ==> s.clients[s.daemon.client].stage.Requested?)
  }

  /** A client has at most one message with the daemon, and waits for it. */
  predicate Queued(s: State)
    requires InRange(s)
  {
    && (forall k :: 0 <= k < |s.queue| ==> QueuedSound(s, s.queue[k]))
    && (forall j, k :: 0 <= j < k < |s.queue| ==> s.queue[j].client != s.queue[k].client)
    && (!s.daemon.Idle? ==> forall k :: 0 <= k < |s.queue| ==> s.queue[k].client != s.daemon.client)
  }

  predicate StageSound(x: Client) {
    && (x.stage.Connecting? || x.stage.Free? ==> x.id == 0)
    && (x.stage.Free? ==> x.listed)
    && (x.stage.Written? || x.stage.Requested? || x.stage.Confirmed? ==> x.id != 0 && x.listed)
    && (x.stage.Leaving? && x.id != 0 ==> x.listed)
  }

  predicate QueuedSound(s: State, m: Message)
    requires m.client < |s.clients|
  {
    if m.SetPlayer? then s.clients[m.client].stage.Requested? else s.clients[m.client].stage.Leaving?
  }

  predicate Inv(s: State) {
    Consistent(s) && Exclusive(s) && CheckSound(s) && Online(s)
  }

  lemma StepInRange(s: State, e: Event)
    requires Consistent(s) && Enabled(s, e)
    ensures InRange(Step(s, e))
  {
  }

  lemma StepStages(s: State, e: Event)
    requires Consistent(s) && Enabled(s, e)
    ensures Stages(Step(s, e))
  {
    hide Others;
    if e.Take? {
      assert QueuedSound(s, s.queue[0]);
    }
  }

  // ---- the queue ----

  /** The message that an event sends to the daemon. */
  function Sent(e: Event): seq<Message> {
    match e
    case Request(c) => [SetPlayer(c)]
    case Leave(c) => [Disconnect(c)]
    case _ => []
  }

  predicate Waiting(x: Client) {
    x.stage.Requested? || x.stage.Leaving?
  }

  /** The messages that stay in the queue. */
  function Rest(s: State, e: Event): (r: seq<Message>)
    requires Enabled(s, e)
    ensures |r| == |s.queue| - if e.Take? then 1 else 0
  {
    if e.Take? then s.queue[1..] else s.queue
  }

  /** e is a step of client c's worker, or of the daemon for c. */
  predicate ActsOn(s: State, e: Event, c: nat)
    requires Enabled(s, e)
  {
    match e
    case Connect => false
    case Take(_) => s.queue[0].client == c
    case Check(_) => s.daemon.client == c
    case Checked => s.daemon.client == c
    case Mark => s.daemon.client == c
    case Reply => s.daemon.client == c
    case Register(d) => d == c
    case Write(d, _) => d == c
    case Request(d) => d == c
    case Leave(d) => d == c
    case Remove(d) => d == c
  }

  lemma QueueStep(s: State, e: Event)
    requires InRange(s) && Enabled(s, e)
    ensures Step(s, e).queue == Rest(s, e) + Sent(e)
  {
    hide Others;
  }

  /** Only the client that e acts on changes its stage. */
  lemma StageStep(s: State, e: Event, c: nat)
    requires InRange(s) && Enabled(s, e) && c < |s.clients| && !ActsOn(s, e, c)
    ensures c < |Step(s, e).clients| && Step(s, e).clients[c].stage == s.clients[c].stage
  {
    hide Others;
  }

  /** The daemon goes on with its client, or takes the client at the front of the queue. */
  lemma DaemonStep(s: State, e: Event)
    requires InRange(s) && Enabled(s, e) && !Step(s, e).daemon.Idle?
    ensures if e.Take? then Step(s, e).daemon.client == s.queue[0].client
            else !s.daemon.Idle? && Step(s, e).daemon.client == s.daemon.client
  {
    hide Others;
  }

  /** A client that waits in the queue is not the one that e acts on, unless its message is taken. */
  lemma WaitingRests(s: State, e: Event, k: nat)
    requires InRange(s) && Queued(s) && Enabled(s, e) && k < |s.queue| && (e.Take? ==> k > 0)
    ensures !ActsOn(s, e, s.queue[k].client)
  {
    assert QueuedSound(s, s.queue[k]);
  }

  /** Who sends a message did not wait before and waits for the answer now. */
  lemma SenderWaits(s: State, e: Event, m: Message)
    requires InRange(s) && Enabled(s, e) && m in Sent(e)
    ensures Sent(e) == [m] && !e.Take? && m.client < |s.clients| && !Waiting(s.clients[m.client])
    ensures m.client < |Step(s, e).clients| && QueuedSound(Step(s, e), m) && Step(s, e).daemon == s.daemon
  {
  }

  lemma StillWaits(s: State, e: Event, k: nat)
    requires InRange(s) && Queued(s) && Enabled(s, e) && k < |s.queue| && (e.Take? ==> k > 0)
    ensures s.queue[k].client < |Step(s, e).clients| && QueuedSound(Step(s, e), s.queue[k])
  {
    hide Step, Enabled;
    assert QueuedSound(s, s.queue[k]);
    WaitingRests(s, e, k);
    StageStep(s, e, s.queue[k].client);
  }

  lemma StepQueued(s: State, e: Event)
    requires Consistent(s) && Enabled(s, e)
    ensures InRange(Step(s, e)) && Queued(Step(s, e))
  {
    hide Step, Enabled, Sent, StageSound;
    StepInRange(s, e);
    var s' := Step(s, e);
    var rest := Rest(s, e);
    QueueStep(s, e);
    forall k | 0 <= k < |s'.queue|
      ensures QueuedSound(s', s'.queue[k])
      ensures k >= |rest| ==>
                k == |rest| && s'.daemon == s.daemon
                && s'.queue[k].client < |s.clients| && !Waiting(s.clients[s'.queue[k].client])
    {
      if k < |rest| {
        StillWaits(s, e, if e.Take? then k + 1 else k);
      } else {
        SenderWaits(s, e, s'.queue[k]);
      }
    }
    forall j, k | 0 <= j < k < |s'.queue| ensures s'.queue[j].client != s'.queue[k].client {
      if k == |rest| {
        assert QueuedSound(s, s.queue[j]);
      }
    }
    if !s'.daemon.Idle? {
      DaemonStep(s, e);
    }
  }

  /** Only a finished check grants a player. */
  lemma GrantedBefore(s: State, e: Event, d: nat)
    requires Consistent(s) && Enabled(s, e) && d < |Step(s, e).clients| && Granted(Step(s, e), d)
    ensures d < |s.clients| && Step(s, e).clients[d].id == s.clients[d].id
    ensures Granted(s, d) || (e.Checked? && d == s.daemon.client)
  {
    hide Others;
    if e.Take? {
      assert QueuedSound(s, s.queue[0]);
    }
  }

  /** Why a request is refused: the account has no such player, or the client that is looked at has it. */
  predicate Refuses(s: State, e: Event, c: nat)
    requires InRange(s) && Enabled(s, e) && c < |s.clients|
  {
    || (e.Take? && !e.known && s.queue[0] == SetPlayer(c))
    || (e.Check? && s.daemon.client == c && s.clients[e.other].id == s.clients[c].id)
  }

  /** A client that asks for a player is confirmed as it if and only if the daemon replies, and loses it if
      and only if it is refused; until then it keeps it and waits. */
  lemma RequestEnds(s: State, e: Event, c: nat)
    requires Consistent(s) && Enabled(s, e) && c < |s.clients| && s.clients[c].stage.Requested?
    ensures c < |Step(s, e).clients|
    ensures var x, y := s.clients[c], Step(s, e).clients[c];
            && (y.stage.Confirmed? <==> e.Reply? && s.daemon.client == c)
            && (y.stage.Free? <==> Refuses(s, e, c))
            && (y.stage.Free? || y.stage.Confirmed? || y.stage.Requested?)
            && y.id == if y.stage.Free? then 0 else x.id
  {
    hide Others;
    if e.Take? {
      assert QueuedSound(s, s.queue[0]);
    }
  }

  /** What the daemon does next for the client it looks after: it looks at each of the others once, and when
      none has the player, marks it and replies. */
  lemma DaemonGoesOn(s: State, e: Event)
    requires InRange(s) && Enabled(s, e) && !s.daemon.Idle?
    ensures var d, n := s.daemon, Step(s, e).daemon;
            && (e.Check? && !Refuses(s, e, d.client) ==> n == Checking(d.client, d.todo - {e.other}))
            && (e.Checked? ==> n == Marking(d.client))
            && (e.Mark? ==> n == Replying(d.client) && s.clients[d.client].id in Step(s, e).online)
            && (n.Idle? <==> e.Reply? || Refuses(s, e, d.client))
  {
    hide Others;
  }

  /** A check begins with all the other clients of the list, and with no one else. */
  lemma CheckBegins(s: State, e: Event)
    requires InRange(s) && Enabled(s, e) && e.Take? && e.known && s.queue[0].SetPlayer?
    ensures var n := Step(s, e).daemon;
            && n.Checking? && n.client == s.queue[0].client
            && forall d :: d in n.todo <==> 0 <= d < |s.clients| && s.clients[d].listed && d != n.client
  {
  }

  lemma StepExclusive(s: State, e: Event)
    requires Inv(s) && Enabled(s, e)
    ensures Exclusive(Step(s, e))
  {
    hide Step, Granted;
    var s' := Step(s, e);
    forall c, d | 0 <= c < |s'.clients| && 0 <= d < |s'.clients| && Granted(s', c) && Granted(s', d)
      ensures !SamePlayer(s', c, d)
    {
      GrantedBefore(s, e, c);
      GrantedBefore(s, e, d);
    }
  }

  /** A check begins with every client of the list, passes none that has been granted the player, and
      no client is granted a player meanwhile. */
  lemma StepCheckSound(s: State, e: Event)
    requires Inv(s) && Enabled(s, e)
    ensures CheckSound(Step(s, e))
  {
    var s' := Step(s, e);
    if s'.daemon.Checking? && s'.daemon.client < |s'.clients| {
      forall d | 0 <= d < |s'.clients| && Granted(s', d) && SamePlayer(s', d, s'.daemon.client)
        ensures d in s'.daemon.todo
      {
        GrantedBefore(s, e, d);
        assert StageSound(s.clients[d]);
      }
    }
  }

  lemma StepOnline(s: State, e: Event)
    requires Inv(s) && Enabled(s, e)
    ensures Online(Step(s, e))
  {
    var s' := Step(s, e);
    forall c | 0 <= c < |s'.clients| && Granted(s', c) && !(s'.daemon.Marking? && s'.daemon.client == c)
      ensures s'.clients[c].id in s'.online
    {
      GrantedBefore(s, e, c);
      if e.Take? {
        assert QueuedSound(s, s.queue[0]);
        assert !SamePlayer(s, c, s.queue[0].client) || !Granted(s, s.queue[0].client);
      }
    }
  }

  predicate Runs(s: State, events: seq<Event>, s': State)
    decreases |events|
  {
    if events == [] then s' == s
    else InRange(s) && Enabled(s, events[0]) && Runs(Step(s, events[0]), events[1..], s')
  }

  lemma KeepsConsistent(s: State, e: Event)
    requires Consistent(s) && Enabled(s, e)
    ensures Consistent(Step(s, e))
  {
    hide Stages, Queued, Step;
    StepInRange(s, e);
    StepStages(s, e);
    StepQueued(s, e);
  }

  lemma KeepsInv(s: State, e: Event)
    requires Inv(s) && Enabled(s, e)
    ensures Inv(Step(s, e))
  {
    hide Consistent, Exclusive, CheckSound, Online, Step, Enabled;
    KeepsConsistent(s, e);
    StepExclusive(s, e);
    StepCheckSound(s, e);
    StepOnline(s, e);
  }

  lemma {:induction false} RunKeepsInv(s: State, events: seq<Event>, s': State)
    requires Inv(s) && Runs(s, events, s')
    ensures Inv(s')
    decreases |events|
  {
    hide Consistent, Exclusive, CheckSound, Online, Step, Enabled;
    if events != [] {
      KeepsInv(s, events[0]);
      RunKeepsInv(Step(s, events[0]), events[1..], s');
    }
  }

  /** In no interleaving are two clients confirmed as the same player, and while a client is confirmed
      its player's record is marked online. */
  lemma SignInIsExclusive(events: seq<Event>, s: State)
    requires Runs(START, events, s)
    ensures forall c, d ::
              0 <= c < |s.clients| && 0 <= d < |s.clients| && s.clients[c].stage.Confirmed? && s.clients[d].stage.Confirmed?
              ==> !SamePlayer(s, c, d)
    ensures forall c :: 0 <= c < |s.clients| && s.clients[c].stage.Confirmed? ==>
              s.clients[c].id != 0 && s.clients[c].id in s.online
  {
    RunKeepsInv(START, events, s);
    assert forall c :: 0 <= c < |s.clients| && s.clients[c].stage.Confirmed? ==> StageSound(s.clients[c]) && Granted(s, c);
  }

  // ---- stray marks ----

  /** Every player that is marked online is some client's. */
  ghost predicate NoStray(s: State) {
    forall p :: p in s.online ==> HasHolder(s, p)
  }

  ghost predicate HasHolder(s: State, p: nat) {
    exists c :: 0 <= c < |s.clients| && Granted(s, c) && s.clients[c].id == p
  }

  /** A confirmed client asks for another player, or for none. */
  predicate GivesUp(s: State, e: Event) {
    e.Write? && e.client < |s.clients| && s.clients[e.client].stage.Confirmed?
  }

  /** A granted client stays one, unless it gives its player up or its disconnect is handled. */
  lemma GrantedAfter(s: State, e: Event, c: nat)
    requires Inv(s) && Enabled(s, e) && c < |s.clients| && Granted(s, c)
    ensures c < |Step(s, e).clients|
    ensures (GivesUp(s, e) && e.client == c)
            || (e.Take? && s.queue[0] == Disconnect(c))
            || (Granted(Step(s, e), c) && Step(s, e).clients[c].id == s.clients[c].id)
  {
    hide Others;
    if e.Take? {
      assert QueuedSound(s, s.queue[0]);
    }
  }

  /** A mark is only set for the client that is being granted, and cleared for one that disconnects. */
  lemma OnlineStep(s: State, e: Event)
    requires Inv(s) && Enabled(s, e)
    ensures Step(s, e).online
         == if e.Mark? then s.online + {s.clients[s.daemon.client].id}
            else if e.Take? && s.queue[0].Disconnect? && s.clients[s.queue[0].client].id != 0
                 then s.online - {s.clients[s.queue[0].client].id}
            else s.online
  {
    hide Others;
  }

  lemma StrayStep(s: State, e: Event, p: nat)
    requires Inv(s) && Enabled(s, e) && NoStray(s) && !GivesUp(s, e) && p in Step(s, e).online
    ensures HasHolder(Step(s, e), p)
  {
    hide Step, Others, Granted, Stages, Queued, CheckSound, Online;
    var s' := Step(s, e);
    OnlineStep(s, e);
    if p in s.online {
      var c :| 0 <= c < |s.clients| && Granted(s, c) && s.clients[c].id == p;
      GrantedAfter(s, e, c);
      if e.Take? && s.queue[0] == Disconnect(c) {
        HoldsSomeone(s, c);
        assert false;
      }
    } else {
      MarkGrants(s, e);
    }
  }

  lemma HoldsSomeone(s: State, c: nat)
    requires c < |s.clients| && Granted(s, c)
    ensures s.clients[c].id != 0
  {
  }

  lemma MarkGrants(s: State, e: Event)
    requires Inv(s) && Enabled(s, e) && e.Mark?
    ensures s.daemon.client < |Step(s, e).clients| && Granted(Step(s, e), s.daemon.client)
    ensures Step(s, e).clients[s.daemon.client].id == s.clients[s.daemon.client].id
  {
    assert StageSound(s.clients[s.daemon.client]);
  }

  /** Giving a player up leaves it marked, and nobody has it. */
  lemma GivenUpIsStray(s: State, e: Event)
    requires Inv(s) && Enabled(s, e) && GivesUp(s, e)
    ensures s.clients[e.client].id in Step(s, e).online && !HasHolder(Step(s, e), s.clients[e.client].id)
  {
    var c := e.client;
    var s' := Step(s, e);
    assert StageSound(s.clients[c]) && Granted(s, c);
    assert Consistent(s) && (!s.daemon.Idle? ==> s.daemon.client != c);
    forall d | 0 <= d < |s'.clients| && Granted(s', d) ensures s'.clients[d].id != s.clients[c].id {
      GrantedBefore(s, e, d);
      assert d != c;
      assert !SamePlayer(s, c, d);
    }
  }

  /** The exact condition, step by step: as long as every marked player is some client's, a step ends
      that if and only if a confirmed client writes a new player id, whichever it is. */
  lemma StrayIffGivenUp(s: State, e: Event)
    requires Inv(s) && Enabled(s, e) && NoStray(s)
    ensures NoStray(Step(s, e)) <==> !GivesUp(s, e)
  {
    hide Step, Enabled, HasHolder, Stages, Queued, Exclusive, CheckSound, Online;
    if GivesUp(s, e) {
      GivenUpIsStray(s, e);
    } else {
      forall p | p in Step(s, e).online ensures HasHolder(Step(s, e), p) {
        StrayStep(s, e, p);
      }
    }
  }

  /** No confirmed client of the run writes a new player id. */
  predicate NeverGivesUp(s: State, events: seq<Event>)
    decreases |events|
  {
    events == [] ||
    (InRange(s) && Enabled(s, events[0]) && !GivesUp(s, events[0]) && NeverGivesUp(Step(s, events[0]), events[1..]))
  }

  lemma {:induction false} RunWithoutStray(s: State, events: seq<Event>, s': State)
    requires Inv(s) && NoStray(s) && Runs(s, events, s') && NeverGivesUp(s, events)
    ensures NoStray(s')
    decreases |events|
  {
    hide Inv, Step, Enabled, NoStray, GivesUp;
    if events != [] {
      StrayIffGivenUp(s, events[0]);
      KeepsInv(s, events[0]);
      RunWithoutStray(Step(s, events[0]), events[1..], s');
    }
  }

  /** In every run in which no confirmed client writes a new player id, a player is marked online only
      while a client has been granted it and has not disconnected. */
  lemma OnlineMeansGranted(events: seq<Event>, s: State)
    requires Runs(START, events, s) && NeverGivesUp(START, events)
    ensures forall p :: p in s.online ==> exists c :: 0 <= c < |s.clients| && Granted(s, c) && s.clients[c].id == p
  {
    hide Runs, NeverGivesUp;
    RunWithoutStray(START, events, s);
    forall p | p in s.online ensures exists c :: 0 <= c < |s.clients| && Granted(s, c) && s.clients[c].id == p {
      assert HasHolder(s, p);
    }
  }

  /** The first time that a confirmed client writes a new player id, its old player becomes a stray. */
  lemma FirstStray(events: seq<Event>, s: State, e: Event)
    requires Runs(START, events, s) && NeverGivesUp(START, events) && Enabled(s, e)
    ensures Inv(s) && (NoStray(Step(s, e)) <==> !GivesUp(s, e))
  {
    hide Runs, NeverGivesUp, Step;
    assert NoStray(START);
    hide NoStray;
    RunKeepsInv(START, events, s);
    RunWithoutStray(START, events, s);
    StrayIffGivenUp(s, e);
  }

  /** A state with one client and player 7. */
  function Single(stage: Stage, id: nat, daemon: Daemon, queue: seq<Message>, online: set<nat>): State {
    State([Client(stage, !stage.Connecting? && !stage.Gone?, id)], daemon, queue, online)
  }

  /** The converse fails: a client that gives its player up by signing in as nobody, and leaves, leaves
      the record marked online, since only a disconnect clears the mark. */
  lemma OnlineCanOutliveSignIn()
    ensures exists events :: Runs(START, events, Single(Gone, 0, Idle, [], {7}))
  {
    var confirmed := Single(Confirmed, 7, Idle, [], {7});
    var rest := LeavesOnline(confirmed);
    var events := BecomesOnline(confirmed, rest);
  }

  lemma LeavesOnline(confirmed: State) returns (rest: seq<Event>)
    requires confirmed == Single(Confirmed, 7, Idle, [], {7})
    ensures Runs(confirmed, rest, Single(Gone, 0, Idle, [], {7}))
  {
    hide Runs;
    var end := Single(Gone, 0, Idle, [], {7});
    var free, left := Single(Free, 0, Idle, [], {7}), Single(Left, 0, Idle, [], {7});
    var leaving := Single(Leaving, 0, Idle, [Disconnect(0)], {7});
    rest := RunsCons(left, Remove(0), end, RunsNone(end), end);
    rest := RunsCons(leaving, Take(true), left, rest, end);
    rest := RunsCons(free, Leave(0), leaving, rest, end);
    rest := RunsCons(confirmed, Write(0, 0), free, rest, end);
  }

  lemma BecomesOnline(confirmed: State, rest: seq<Event>) returns (events: seq<Event>)
    requires confirmed == Single(Confirmed, 7, Idle, [], {7}) && Runs(confirmed, rest, Single(Gone, 0, Idle, [], {7}))
    ensures Runs(START, events, Single(Gone, 0, Idle, [], {7}))
  {
    hide Runs;
    var end := Single(Gone, 0, Idle, [], {7});
    var checking := Single(Requested, 7, Checking(0, {}), [], {});
    var marking, replying := Single(Requested, 7, Marking(0), [], {}), Single(Requested, 7, Replying(0), [], {7});
    events := RunsCons(replying, Reply, confirmed, rest, end);
    events := RunsCons(marking, Mark, replying, events, end);
    events := RunsCons(checking, Checked, marking, events, end);
    events := ComesToCheck(checking, events);
  }

  lemma ComesToCheck(checking: State, rest: seq<Event>) returns (events: seq<Event>)
    requires checking == Single(Requested, 7, Checking(0, {}), [], {}) && Runs(checking, rest, Single(Gone, 0, Idle, [], {7}))
    ensures Runs(START, events, Single(Gone, 0, Idle, [], {7}))
  {
    hide Runs;
    var end := Single(Gone, 0, Idle, [], {7});
    var connecting, free := Single(Connecting, 0, Idle, [], {}), Single(Free, 0, Idle, [], {});
    var written := Single(Written, 7, Idle, [], {});
    var queued := Single(Requested, 7, Idle, [SetPlayer(0)], {});
    events := rest;
    assert Others(queued.clients, 0) == {};
    events := RunsCons(queued, Take(true), checking, events, end);
    events := RunsCons(written, Request(0), queued, events, end);
    events := RunsCons(free, Write(0, 7), written, events, end);
    events := RunsCons(connecting, Register(0), free, events, end);
    events := RunsCons(START, Connect, connecting, events, end);
  }

  function RunsNone(s: State): (events: seq<Event>)
    ensures Runs(s, events, s)
  {
    []
  }

  lemma RunsCons(s: State, e: Event, next: State, rest: seq<Event>, s': State) returns (events: seq<Event>)
    requires InRange(s) && Enabled(s, e) && Runs(next, rest, s')
    requires var n := Step(s, e);
             n.clients == next.clients && n.daemon == next.daemon && n.queue == next.queue && n.online == next.online
    ensures Runs(s, events, s')
  {
    events := [e] + rest;
    assert events[1..] == rest && Step(s, e) == next;
  }
}
