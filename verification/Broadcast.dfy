/** Broadcast buffers: reference counts shared by the auth daemon, the clients' broadcast channels and
    the workers that send them (AuthServ/AuthDaemon.cpp:204-266, AuthServ/AuthServer.cpp:1096-1104,
    1149-1170, streams.h:177-182). Buffers and clients are numbered. */
module Broadcast {
  import opened Bytes
  import opened Sums

  /** Where a client's worker is: not yet in the client list, in it, or removed and draining. */
  datatype Stage = Connecting | Listed | Removed

  datatype Client = Client(stage: Stage, queue: seq<nat>, sending: Option<nat>)

  /** The client list is locked from Lock until the daemon is idle again. */
  datatype Daemon =
    | Idle
    | Composed(msg: nat)
    | Looping(msg: nat, todo: seq<nat>)
    | Referenced(msg: nat, todo: seq<nat>)

  /** freed counts how often a buffer has been deleted. */
  datatype State = State(refs: seq<int>, freed: seq<nat>, clients: seq<Client>, daemon: Daemon)

  datatype Event =
    | Connect
    | Register(client: nat)
    | Compose
    | Lock
    | Skip
    | Ref
    | Put
    | Release
    | Take(client: nat)
    | Sent(client: nat)
    | Remove(client: nat)

  const START := State([], [], [], Idle)

  predicate Unlocked(d: Daemon) { d.Idle? || d.Composed? }

  predicate Enabled(s: State, e: Event) {
    match e
    case Connect => true
    case Register(c) => c < |s.clients| && s.clients[c].stage == Connecting && Unlocked(s.daemon)
    case Compose => s.daemon.Idle?
    case Lock => s.daemon.Composed?
    case Skip => s.daemon.Looping? && s.daemon.todo != []
    case Ref => s.daemon.Looping? && s.daemon.todo != []
    case Put => s.daemon.Referenced?
    case Release => s.daemon.Looping? && s.daemon.todo == []
    case Take(c) => c < |s.clients| && s.clients[c].sending.None? && s.clients[c].queue != []
    case Sent(c) => c < |s.clients| && s.clients[c].sending.Some?
    case Remove(c) => c < |s.clients| && s.clients[c].stage == Listed && s.clients[c].sending.None? && Unlocked(s.daemon)
  }

  /** Every number names a buffer or a client, and the daemon only visits clients of the list. */
  predicate InRange(s: State) {
    && |s.freed| == |s.refs|
    && (!s.daemon.Idle? ==> s.daemon.msg < |s.refs|)
    && (forall c :: 0 <= c < |s.clients| ==> ClientInRange(s.clients[c], |s.refs|))
    && (s.daemon.Looping? || s.daemon.Referenced? ==>
          forall k :: 0 <= k < |s.daemon.todo| ==>
            s.daemon.todo[k] < |s.clients| && s.clients[s.daemon.todo[k]].stage == Listed)
    && (s.daemon.Referenced? ==> s.daemon.todo != [])
  }

  predicate ClientInRange(c: Client, n: nat) {
    && (c.sending.Some? ==> c.sending.value < n)
    && (forall k :: 0 <= k < |c.queue| ==> c.queue[k] < n)
    && (c.stage == Connecting ==> c.queue == [] && c.sending.None?)
  }

  /** The positions of the clients in the list. */
  function ListedClients(clients: seq<Client>): (r: seq<nat>)
    ensures forall k :: 0 <= k < |r| ==> r[k] < |clients| && clients[r[k]].stage == Listed
    ensures forall c :: 0 <= c < |clients| && clients[c].stage == Listed ==> c in r
    ensures forall j, k :: 0 <= j < k < |r| ==> r[j] < r[k]
  {
    if clients == [] then []
    else
      var n := |clients| - 1;
      ListedClients(clients[..n]) + (if clients[n].stage == Listed then [n] else [])
  }

  /** BufferStream::unref: the count goes down, and at 0 the buffer is deleted. */
  function Unref(s: State, b: nat): State
    requires b < |s.refs| == |s.freed|
  {
    var n := s.refs[b] - 1;
    s.(refs := s.refs[b := n], freed := if n == 0 then s.freed[b := s.freed[b] + 1] else s.freed)
  }

  function Step(s: State, e: Event): State
    requires InRange(s) && Enabled(s, e)
  {
    match e
    case Connect => s.(clients := s.clients + [Client(Connecting, [], None)])
    case Register(c) => s.(clients := s.clients[c := s.clients[c].(stage := Listed)])
    case Compose => s.(refs := s.refs + [1], freed := s.freed + [0], daemon := Composed(|s.refs|))
    case Lock => s.(daemon := Looping(s.daemon.msg, ListedClients(s.clients)))
    case Skip => s.(daemon := Looping(s.daemon.msg, s.daemon.todo[1..]))
    case Ref =>
      var b := s.daemon.msg;
      s.(refs := s.refs[b := s.refs[b] + 1], daemon := Referenced(b, s.daemon.todo))
    case Put =>
      var b, c := s.daemon.msg, s.daemon.todo[0];
      s.(clients := s.clients[c := s.clients[c].(queue := s.clients[c].queue + [b])], daemon := Looping(b, s.daemon.todo[1..]))
    case Release => Unref(s, s.daemon.msg).(daemon := Idle)
    case Take(c) =>
      var q := s.clients[c].queue;
      s.(clients := s.clients[c := s.clients[c].(queue := q[1..], sending := Some(q[0]))])
    case Sent(c) => Unref(s, s.clients[c].sending.value).(clients := s.clients[c := s.clients[c].(sending := None)])
    case Remove(c) => s.(clients := s.clients[c := s.clients[c].(stage := Removed)])
  }

  // ---- who holds a buffer ----

  /** The entries of b in a client's channel, and its worker when it is sending b. */
  function HeldBy(c: Client, b: nat): nat {
    multiset(c.queue)[b] + (if c.sending == Some(b) then 1 else 0)
  }

  function Holds(clients: seq<Client>, b: nat): (r: seq<nat>)
    ensures |r| == |clients|
  {
    seq(|clients|, i requires 0 <= i < |clients| => HeldBy(clients[i], b))
  }

  function DaemonHolds(d: Daemon, b: nat): nat {
    match d
    case Idle => 0
    case Composed(msg) => if msg == b then 1 else 0
    case Looping(msg, _) => if msg == b then 1 else 0
    case Referenced(msg, _) => if msg == b then 2 else 0
  }

  function Holders(s: State, b: nat): nat {
    DaemonHolds(s.daemon, b) + Sum(Holds(s.clients, b))
  }

  predicate Counted(s: State, b: nat)
    requires b < |s.refs| == |s.freed|
  {
    && s.refs[b] == Holders(s, b)
    && s.freed[b] == if Holders(s, b) == 0 then 1 else 0
  }

  predicate Inv(s: State) {
    InRange(s) && forall b :: 0 <= b < |s.refs| ==> Counted(s, b)
  }

  lemma HoldsUpdate(clients: seq<Client>, c: nat, x: Client, b: nat)
    requires c < |clients|
    ensures Sum(Holds(clients[c := x], b)) + HeldBy(clients[c], b) == Sum(Holds(clients, b)) + HeldBy(x, b)
    ensures HeldBy(clients[c], b) <= Sum(Holds(clients, b))
  {
    assert Holds(clients[c := x], b) == Holds(clients, b)[c := HeldBy(x, b)];
    SumUpdate(Holds(clients, b), c, HeldBy(x, b));
    SumAtLeast(Holds(clients, b), c);
  }

  lemma StepInRange(s: State, e: Event)
    requires InRange(s) && Enabled(s, e)
    ensures InRange(Step(s, e))
  {
  }

  /** The change of one client's channel or worker. */
  lemma ClientStep(s: State, s': State, c: nat, b: nat)
    requires c < |s.clients| && c < |s'.clients| && s'.clients == s.clients[c := s'.clients[c]]
    ensures Sum(Holds(s'.clients, b)) + HeldBy(s.clients[c], b) == Sum(Holds(s.clients, b)) + HeldBy(s'.clients[c], b)
    ensures HeldBy(s.clients[c], b) <= Sum(Holds(s.clients, b))
  {
    HoldsUpdate(s.clients, c, s'.clients[c], b);
  }

  lemma ConnectHolds(clients: seq<Client>, b: nat)
    ensures Sum(Holds(clients + [Client(Connecting, [], None)], b)) == Sum(Holds(clients, b))
  {
    var x := Client(Connecting, [], None);
    assert Holds(clients + [x], b) == Holds(clients, b) + [0];
    SumAppend(Holds(clients, b), 0);
  }

  lemma {:induction false} UnknownHolds(clients: seq<Client>, n: nat, b: nat)
    requires (forall c :: 0 <= c < |clients| ==> ClientInRange(clients[c], n)) && b >= n
    ensures Sum(Holds(clients, b)) == 0
  {
    forall i | 0 <= i < |clients| ensures Holds(clients, b)[i] == 0 {
      assert ClientInRange(clients[i], n);
    }
    SumZero(Holds(clients, b));
  }

  /** Steps that change a client but no reference count. */
  lemma ClientCounted(s: State, e: Event, b: nat)
    requires InRange(s) && Enabled(s, e) && (e.Register? || e.Take? || e.Remove?)
    requires b < |s.refs| && Counted(s, b)
    ensures InRange(Step(s, e)) && Counted(Step(s, e), b)
  {
    hide Holds, InRange;
    StepInRange(s, e);
    var c := e.client;
    ClientStep(s, Step(s, e), c, b);
    if e.Take? {
      var q := s.clients[c].queue;
      assert q == [q[0]] + q[1..];
    }
  }

  lemma PutCounted(s: State, b: nat)
    requires InRange(s) && Enabled(s, Put) && b < |s.refs| && Counted(s, b)
    ensures InRange(Step(s, Put)) && Counted(Step(s, Put), b)
  {
    hide Holds;
    StepInRange(s, Put);
    ClientStep(s, Step(s, Put), s.daemon.todo[0], b);
  }

  lemma SentCounted(s: State, c: nat, b: nat)
    requires InRange(s) && Enabled(s, Sent(c)) && b < |s.refs| && Counted(s, b)
    ensures InRange(Step(s, Sent(c))) && Counted(Step(s, Sent(c)), b)
  {
    hide Holds;
    StepInRange(s, Sent(c));
    assert ClientInRange(s.clients[c], |s.refs|);
    ClientStep(s, Step(s, Sent(c)), c, b);
  }

  /** Steps of the daemon alone. */
  lemma DaemonCounted(s: State, e: Event, b: nat)
    requires InRange(s) && Enabled(s, e) && (e.Lock? || e.Skip? || e.Ref? || e.Release?)
    requires b < |s.refs| && Counted(s, b)
    ensures InRange(Step(s, e)) && Counted(Step(s, e), b)
  {
    hide Holds;
    StepInRange(s, e);
  }

  lemma StepCounted(s: State, e: Event, b: nat)
    requires Inv(s) && Enabled(s, e) && b < |Step(s, e).refs|
    ensures InRange(Step(s, e)) && Counted(Step(s, e), b)
  {
    hide Holds;
    StepInRange(s, e);
    if e.Connect? {
      ConnectHolds(s.clients, b);
      assert Counted(s, b);
    } else if e.Compose? {
      UnknownHolds(s.clients, |s.refs|, |s.refs|);
      if b < |s.refs| {
        assert Counted(s, b);
      }
    } else {
      hide InRange;
      assert b < |s.refs|;
      assert Counted(s, b);
      if e.Register? || e.Take? || e.Remove? {
        ClientCounted(s, e, b);
      } else if e.Put? {
        PutCounted(s, b);
      } else if e.Sent? {
        SentCounted(s, e.client, b);
      } else {
        DaemonCounted(s, e, b);
      }
    }
  }

  lemma StepKeepsInv(s: State, e: Event)
    requires Inv(s) && Enabled(s, e)
    ensures Inv(Step(s, e))
  {
    hide Counted, Step;
    StepInRange(s, e);
    forall b | 0 <= b < |Step(s, e).refs| ensures Counted(Step(s, e), b) {
      StepCounted(s, e, b);
    }
  }

  // ---- every run ----

  /** s' is reached from s by the events, each of them enabled in its turn. */
  predicate Runs(s: State, events: seq<Event>, s': State)
    decreases |events|
  {
    if events == [] then s' == s
    else InRange(s) && Enabled(s, events[0]) && Runs(Step(s, events[0]), events[1..], s')
  }

  lemma {:induction false} RunKeepsInv(s: State, events: seq<Event>, s': State)
    requires Inv(s) && Runs(s, events, s')
    ensures Inv(s')
    decreases |events|
  {
    hide Inv, Step;
    if events != [] {
      StepKeepsInv(s, events[0]);
      RunKeepsInv(Step(s, events[0]), events[1..], s');
    }
  }

  lemma {:induction false} SomeoneHolds(s: State, c: nat, b: nat)
    requires c < |s.clients| && (b in s.clients[c].queue || s.clients[c].sending == Some(b))
    ensures Holders(s, b) > 0
  {
    SumAtLeast(Holds(s.clients, b), c);
  }

  lemma NoOneHolds(s: State, b: nat)
    requires !s.daemon.Idle? ==> s.daemon.msg != b
    requires forall c :: 0 <= c < |s.clients| ==> b !in s.clients[c].queue && s.clients[c].sending != Some(b)
    ensures Holders(s, b) == 0
  {
    SumZero(Holds(s.clients, b));
  }

  /** In every reachable state the count of a buffer is the number of its holders: the daemon, its
      entries in all channels and the workers that send it. While one of them holds it, it has not
      been freed; once none does, it has been freed exactly once. */
  lemma BufferLifetime(events: seq<Event>, s: State, b: nat)
    requires Runs(START, events, s) && b < |s.refs|
    ensures |s.freed| == |s.refs| && s.refs[b] == Holders(s, b)
    ensures forall c :: 0 <= c < |s.clients| && (b in s.clients[c].queue || s.clients[c].sending == Some(b)) ==>
              s.freed[b] == 0 && s.refs[b] > 0
    ensures !s.daemon.Idle? && s.daemon.msg == b ==> s.freed[b] == 0 && s.refs[b] > 0
    ensures s.freed[b] == 1
       <==> (!s.daemon.Idle? ==> s.daemon.msg != b)
            && forall c :: 0 <= c < |s.clients| ==> b !in s.clients[c].queue && s.clients[c].sending != Some(b)
    ensures s.freed[b] <= 1
  {
    hide Holds, Step;
    assert Inv(START);
    RunKeepsInv(START, events, s);
    assert Counted(s, b);
    forall c | 0 <= c < |s.clients| && (b in s.clients[c].queue || s.clients[c].sending == Some(b))
      ensures Holders(s, b) > 0
    {
      SomeoneHolds(s, c, b);
    }
    if (!s.daemon.Idle? ==> s.daemon.msg != b)
       && forall c :: 0 <= c < |s.clients| ==> b !in s.clients[c].queue && s.clients[c].sending != Some(b) {
      NoOneHolds(s, b);
    }
  }

  /** A client that has left the list and drained its channel. */
  predicate Gone(c: Client) {
    c.stage == Removed && c.queue == [] && c.sending.None?
  }

  /** It is sent nothing any more, so it leaves nothing behind. */
  lemma {:induction false} GoneForGood(s: State, events: seq<Event>, s': State, c: nat)
    requires InRange(s) && Runs(s, events, s') && c < |s.clients| && Gone(s.clients[c])
    ensures c < |s'.clients| && Gone(s'.clients[c])
    decreases |events|
  {
    hide InRange;
    if events != [] {
      GoneStays(s, events[0], c);
      StepInRange(s, events[0]);
      GoneForGood(Step(s, events[0]), events[1..], s', c);
    }
  }

  lemma GoneStays(s: State, e: Event, c: nat)
    requires InRange(s) && Enabled(s, e) && c < |s.clients| && Gone(s.clients[c])
    ensures c < |Step(s, e).clients| && Gone(Step(s, e).clients[c])
  {
  }

  /** When the daemon is idle and every client has gone, every buffer has been freed exactly once. */
  lemma AllFreed(events: seq<Event>, s: State, b: nat)
    requires Runs(START, events, s) && b < |s.refs| && s.daemon.Idle?
    requires forall c :: 0 <= c < |s.clients| ==> Gone(s.clients[c])
    ensures |s.freed| == |s.refs| && s.freed[b] == 1
  {
    hide Step;
    BufferLifetime(events, s, b);
  }

  // ---- delivery ----

  /** What a client has before it, oldest first: the buffer that its worker sends, then its channel. */
  function Pipe(x: Client): seq<nat> {
    (if x.sending.Some? then [x.sending.value] else []) + x.queue
  }

  /** What e puts into the channel of client c, and what it finishes sending to c. */
  function PutBy(s: State, e: Event, c: nat): seq<nat>
    requires InRange(s) && Enabled(s, e)
  {
    if e.Put? && s.daemon.todo[0] == c then [s.daemon.msg] else []
  }

  function SentBy(s: State, e: Event, c: nat): seq<nat>
    requires InRange(s) && Enabled(s, e)
  {
    if e.Sent? && e.client == c then [s.clients[c].sending.value] else []
  }

  /** The same over a run. */
  function PutIn(s: State, events: seq<Event>, s': State, c: nat): seq<nat>
    requires Runs(s, events, s')
    decreases |events|
  {
    if events == [] then [] else PutBy(s, events[0], c) + PutIn(Step(s, events[0]), events[1..], s', c)
  }

  function SentIn(s: State, events: seq<Event>, s': State, c: nat): seq<nat>
    requires Runs(s, events, s')
    decreases |events|
  {
    if events == [] then [] else SentBy(s, events[0], c) + SentIn(Step(s, events[0]), events[1..], s', c)
  }

  /** How a client comes into the list and leaves it. */
  lemma StageGoes(s: State, e: Event, c: nat)
    requires InRange(s) && Enabled(s, e) && c < |s.clients|
    ensures c < |Step(s, e).clients|
    ensures var x, y := s.clients[c].stage, Step(s, e).clients[c].stage;
            && (y == Listed <==> e == Register(c) || (x == Listed && e != Remove(c)))
            && (y == Removed <==> e == Remove(c) || x == Removed)
  {
    hide ListedClients;
  }

  lemma PipeStep(s: State, e: Event, c: nat)
    requires InRange(s) && Enabled(s, e) && c < |s.clients|
    ensures c < |Step(s, e).clients|
    ensures Pipe(s.clients[c]) + PutBy(s, e, c) == SentBy(s, e, c) + Pipe(Step(s, e).clients[c])
  {
    hide Holds, HeldBy, ListedClients;
    if e.Take? && e.client == c {
      assert s.clients[c].queue == [s.clients[c].queue[0]] + s.clients[c].queue[1..];
    }
  }

  /** Nothing is lost and nothing overtakes: over every run, what a client had before it, and then all
      that is put for it, is what has been sent to it, and then what it has before it. */
  lemma {:induction false} SentInOrder(s: State, events: seq<Event>, s': State, c: nat)
    requires Runs(s, events, s') && c < |s.clients|
    ensures c < |s'.clients|
    ensures Pipe(s.clients[c]) + PutIn(s, events, s', c) == SentIn(s, events, s', c) + Pipe(s'.clients[c])
    decreases |events|
  {
    hide Step, InRange, Enabled, Pipe, PutBy, SentBy;
    if events != [] {
      var e := events[0];
      var next := Step(s, e);
      PipeStep(s, e, c);
      SentInOrder(next, events[1..], s', c);
      var p, q := PutBy(s, e, c), SentBy(s, e, c);
      var ps, qs := PutIn(next, events[1..], s', c), SentIn(next, events[1..], s', c);
      calc {
        Pipe(s.clients[c]) + (p + ps);
        (Pipe(s.clients[c]) + p) + ps;
        (q + Pipe(next.clients[c])) + ps;
        q + (Pipe(next.clients[c]) + ps);
        q + (qs + Pipe(s'.clients[c]));
        (q + qs) + Pipe(s'.clients[c]);
      }
    }
  }

  /** How often the daemon passes client c by, for it is not concerned. */
  function SkipsIn(s: State, events: seq<Event>, s': State, c: nat): nat
    requires Runs(s, events, s')
    decreases |events|
  {
    if events == [] then 0
    else
      (if events[0].Skip? && s.daemon.todo[0] == c then 1 else 0) + SkipsIn(Step(s, events[0]), events[1..], s', c)
  }

  predicate Broadcasting(s: State, b: nat) {
    (s.daemon.Looping? || s.daemon.Referenced?) && s.daemon.msg == b
    && forall j, k :: 0 <= j < k < |s.daemon.todo| ==> s.daemon.todo[j] != s.daemon.todo[k]
  }

  /** No event but the last ends the broadcast. */
  predicate NoRelease(events: seq<Event>) {
    forall k :: 0 <= k < |events| ==> !events[k].Release?
  }

  /** From any point of a broadcast to its end: a client that is still to be visited is either passed by, or
      the buffer is put into its channel, once; any other client is left alone. */
  lemma {:induction false} VisitedOnce(s: State, events: seq<Event>, s': State, c: nat, b: nat)
    requires InRange(s) && Runs(s, events, s') && NoRelease(events) && Broadcasting(s, b)
    requires s'.daemon == Looping(b, [])
    ensures var put, skips := PutIn(s, events, s', c), SkipsIn(s, events, s', c);
            if c in s.daemon.todo then (put == [b] && skips == 0) || (put == [] && skips == 1)
            else put == [] && skips == 0
    decreases |events|
  {
    hide InRange, Runs;
    if events == [] {
      RunsNowhere(s, events, s');
    } else {
      var e := events[0];
      RunsOn(s, events, s');
      VisitStep(s, e, c, b);
      StepInRange(s, e);
      VisitedOnce(Step(s, e), events[1..], s', c, b);
    }
  }

  lemma RunsNowhere(s: State, events: seq<Event>, s': State)
    requires Runs(s, events, s') && events == []
    ensures s' == s
  {
  }

  lemma RunsOn(s: State, events: seq<Event>, s': State)
    requires Runs(s, events, s') && events != []
    ensures InRange(s) && Enabled(s, events[0]) && Runs(Step(s, events[0]), events[1..], s')
  {
  }

  lemma VisitStep(s: State, e: Event, c: nat, b: nat)
    requires InRange(s) && Enabled(s, e) && !e.Release? && Broadcasting(s, b)
    ensures var n := Step(s, e);
            && Broadcasting(n, b)
            && if (e.Skip? || e.Put?) && s.daemon.todo[0] == c then c in s.daemon.todo && c !in n.daemon.todo
               else c in n.daemon.todo <==> c in s.daemon.todo
  {
    hide ListedClients;
    if e.Skip? || e.Put? {
      assert s.daemon.todo == [s.daemon.todo[0]] + s.daemon.todo[1..];
    }
  }

  /** A broadcast reaches every client of the list: from the lock to the release, the daemon visits each
      client that is listed exactly once, and one that it does not pass by has the buffer put into its
      channel; after all that was in it, as `SentInOrder` says. */
  lemma BroadcastReaches(s: State, events: seq<Event>, s': State, c: nat, b: nat)
    requires InRange(s) && s.daemon == Composed(b) && Runs(s, [Lock] + events, s') && NoRelease(events)
    requires s'.daemon == Looping(b, []) && c < |s.clients| && s.clients[c].stage == Listed
    ensures var all := [Lock] + events;
            var put, skips := PutIn(s, all, s', c), SkipsIn(s, all, s', c);
            (put == [b] && skips == 0) || (put == [] && skips == 1)
  {
    hide Runs, ListedClients;
    var all := [Lock] + events;
    assert all[1..] == events;
    RunsOn(s, all, s');
    StepInRange(s, Lock);
    VisitedOnce(Step(s, Lock), events, s', c, b);
  }
}
