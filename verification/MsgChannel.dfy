/** The message queue between threads (NetIO/MsgChannel.cpp:38-83): a queue under a mutex, and an
    event semaphore that is created on first use. Every atomic section is one step of one thread. */
module MsgChannel {
  import opened Sums

  /** Between which sections of putMessage or getMessage a thread is. */
  datatype Phase =
    | Idle
    | Pushed           // the message is in the queue
    | Posting          // and there is a semaphore to write to
    | Getting          // there is a semaphore to read from
    | Popping          // the semaphore is lowered, the message still in the queue

  /** semaphore is -1 until it is created; broken is set by a pop of an empty queue. */
  datatype State<M> = State(semaphore: int, queue: seq<M>, threads: seq<Phase>, pushed: seq<M>, popped: seq<M>, broken: bool)

  datatype Action<M> =
    | Push(thread: nat, m: M)
    | OpenToPost(thread: nat)
    | Post(thread: nat)
    | OpenToGet(thread: nat)
    | Wait(thread: nat)
    | Pop(thread: nat)
    | Poll(thread: nat)

  function Start<M>(threads: nat): State<M> {
    State(-1, [], seq(threads, _ => Idle), [], [], false)
  }

  /** The phase in which a thread takes the action; reading the semaphore blocks while it is 0. */
  predicate Enabled<M>(s: State<M>, a: Action<M>) {
    && a.thread < |s.threads|
    && var ph := s.threads[a.thread];
      match a
      case Push(_, _) => ph == Idle
      case OpenToPost(_) => ph == Pushed
      case Post(_) => ph == Posting
      case OpenToGet(_) => ph == Idle
      case Wait(_) => ph == Getting && s.semaphore > 0
      case Pop(_) => ph == Popping
      case Poll(_) => ph == Idle
  }

  /** fd */
  function Opened(semaphore: int): int {
    if semaphore >= 0 then semaphore else 0
  }

  function Step<M>(s: State<M>, a: Action<M>): State<M>
    requires Enabled(s, a)
  {
    var t := a.thread;
    match a
    case Push(_, m) => s.(queue := s.queue + [m], pushed := s.pushed + [m], threads := s.threads[t := Pushed])
    case OpenToPost(_) => s.(semaphore := Opened(s.semaphore), threads := s.threads[t := Posting])
    case Post(_) => s.(semaphore := s.semaphore + 1, threads := s.threads[t := Idle])
    case OpenToGet(_) => s.(semaphore := Opened(s.semaphore), threads := s.threads[t := Getting])
    case Wait(_) => s.(semaphore := s.semaphore - 1, threads := s.threads[t := Popping])
    case Pop(_) =>
      if s.queue == [] then s.(broken := true)
      else s.(queue := s.queue[1..], popped := s.popped + [s.queue[0]], threads := s.threads[t := Idle])
    case Poll(_) => s.(semaphore := Opened(s.semaphore))
  }

  // ---- the invariant ----

  function Weight(ph: Phase): nat {
    if ph.Pushed? || ph.Posting? || ph.Popping? then 1 else 0
  }

  function Weights(threads: seq<Phase>): (r: seq<nat>)
    ensures |r| == |threads|
  {
    seq(|threads|, i requires 0 <= i < |threads| => Weight(threads[i]))
  }

  /** Producers between push and post, and consumers between wait and pop. */
  function Between(threads: seq<Phase>): nat {
    Sum(Weights(threads))
  }

  ghost predicate Inv<M>(s: State<M>) {
    && !s.broken && s.semaphore >= -1
    && (forall t :: 0 <= t < |s.threads| && s.threads[t] != Idle && s.threads[t] != Pushed ==> s.semaphore >= 0)
    && |s.queue| == Opened(s.semaphore) + Between(s.threads)
    && s.pushed == s.popped + s.queue
  }

  lemma BetweenUpdate(threads: seq<Phase>, t: nat, ph: Phase)
    requires t < |threads|
    ensures Between(threads[t := ph]) + Weight(threads[t]) == Between(threads) + Weight(ph)
    ensures Weight(threads[t]) <= Between(threads)
  {
    assert Weights(threads[t := ph]) == Weights(threads)[t := Weight(ph)];
    SumUpdate(Weights(threads), t, Weight(ph));
    SumAtLeast(Weights(threads), t);
  }

  lemma StartInv<M>(threads: nat)
    ensures Inv(Start<M>(threads))
  {
    SumZero(Weights(Start<M>(threads).threads));
  }

  /** Whoever posts, gets or polls has a semaphore afterwards, which was created with 0 unless there was one. */
  lemma SemaphoreThere<M>(s: State<M>, a: Action<M>)
    requires Enabled(s, a) && (a.OpenToPost? || a.OpenToGet? || a.Poll?)
    ensures Step(s, a).semaphore == if s.semaphore < 0 then 0 else s.semaphore
  {
  }

  /** A thread about to pop always finds a message. */
  lemma PopSafe<M>(s: State<M>, t: nat)
    requires Inv(s) && t < |s.threads| && s.threads[t] == Popping
    ensures s.queue != []
  {
    BetweenUpdate(s.threads, t, Idle);
  }

  lemma StepKeepsInv<M>(s: State<M>, a: Action<M>)
    requires Inv(s) && Enabled(s, a)
    ensures Inv(Step(s, a))
  {
    hide Between;
    var t := a.thread;
    if a.Pop? {
      PopSafe(s, t);
      assert s.queue == [s.queue[0]] + s.queue[1..];
    }
    if !a.Poll? {
      BetweenUpdate(s.threads, t, Step(s, a).threads[t]);
    }
  }

  /** s' is reached from s by the actions, each of them enabled in its turn. */
  ghost predicate Runs<M>(s: State<M>, actions: seq<Action<M>>, s': State<M>)
    decreases |actions|
  {
    if actions == [] then s' == s
    else
      Enabled(s, actions[0]) && Runs(Step(s, actions[0]), actions[1..], s')
  }

  /** In every interleaving of any number of producers and consumers: the length of the queue is the
      semaphore plus the threads in between, messages come out in the order they went in, and no
      thread pops an empty queue. */
  lemma {:induction false} RunKeepsInv<M>(s: State<M>, actions: seq<Action<M>>, s': State<M>)
    requires Inv(s) && Runs(s, actions, s')
    ensures Inv(s')
    decreases |actions|
  {
    if actions != [] {
      StepKeepsInv(s, actions[0]);
      RunKeepsInv(Step(s, actions[0]), actions[1..], s');
    }
  }

  /** No message is stranded: when no thread is in between, a message in the queue is a reader's to take. */
  lemma NoneStranded<M>(s: State<M>)
    requires Inv(s) && forall t :: 0 <= t < |s.threads| ==> Weight(s.threads[t]) == 0
    ensures |s.queue| == Opened(s.semaphore)
    ensures s.queue != [] ==> forall t :: 0 <= t < |s.threads| && s.threads[t] == Getting ==> Enabled(s, Wait(t))
  {
    SumZero(Weights(s.threads));
  }

  // ---- the sections as methods ----

  class MsgChannel<M(==)> {
    var semaphore: int
    var queue: seq<M>
    ghost var threads: seq<Phase>
    ghost var pushed: seq<M>
    ghost var popped: seq<M>

    ghost function View(): State<M>
      reads this
    {
      State(semaphore, queue, threads, pushed, popped, false)
    }

    constructor (ghost n: nat)
      ensures View() == Start(n) && Inv(View())
    {
      semaphore, queue, threads, pushed, popped := -1, [], seq(n, _ => Idle), [], [];
      new;
      StartInv<M>(n);
    }

    method Fd() returns (fd: int)
      requires Inv(View())
      modifies this`semaphore
      ensures semaphore == Opened(old(semaphore)) && Inv(View())
    {
      if semaphore < 0 {
        semaphore := 0;
      }
      return semaphore;
    }

    /** The section of putMessage under the mutex. */
    method PushMessage(ghost t: nat, m: M)
      requires Inv(View()) && Enabled(View(), Push(t, m))
      modifies this
      ensures View() == Step(old(View()), Push(t, m)) && Inv(View())
    {
      StepKeepsInv(View(), Push(t, m));
      queue := queue + [m];
      pushed, threads := pushed + [m], threads[t := Pushed];
    }

    method WriteSemaphore(ghost t: nat)
      requires Inv(View()) && Enabled(View(), Action<M>.Post(t))
      modifies this
      ensures View() == Step(old(View()), Post(t)) && Inv(View())
    {
      StepKeepsInv(View(), Post(t));
      semaphore := semaphore + 1;
      threads := threads[t := Idle];
    }

    /** The read returns only when the semaphore can be lowered. */
    method ReadSemaphore(ghost t: nat)
      requires Inv(View()) && Enabled(View(), Action<M>.Wait(t))
      modifies this
      ensures View() == Step(old(View()), Wait(t)) && Inv(View())
    {
      StepKeepsInv(View(), Wait(t));
      semaphore := semaphore - 1;
      threads := threads[t := Popping];
    }

    /** The section of getMessage under the mutex: it needs no check that the queue has a message. */
    method PopMessage(ghost t: nat) returns (m: M)
      requires Inv(View()) && Enabled(View(), Action<M>.Pop(t))
      modifies this
      ensures old(queue) != [] && m == old(queue)[0] && Inv(View())
      ensures View() == Step(old(View()), Pop(t))
    {
      PopSafe(View(), t);
      StepKeepsInv(View(), Pop(t));
      m := queue[0];
      queue := queue[1..];
      popped, threads := popped + [m], threads[t := Idle];
    }

    method HasMessage() returns (has: bool)
      ensures has <==> queue != []
    {
      has := queue != [];
    }
  }
}
