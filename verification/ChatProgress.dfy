/** Liveness of the chat server: without new datagrams everything that was accepted
    gets broadcast, after a bounded number of steps (3_ChatServer/UdpServer.hpp:87-94,
    ChatServerMain.cpp:36-48, Route.hpp:17-28). */
module ChatProgress {
  import opened ChatProtocol
  import opened Tally
  import opened Wrappers

  /** A step of a worker, or of the receive loop on the datagram it is working on. */
  predicate CanGo(s: State, a: Action) {
    (a.Serve? || a.Work?) && Step(s, a).Some?
  }

  ghost predicate AllGo(s: State, sched: seq<Action>)
    decreases |sched|
  {
    sched == [] || (CanGo(s, sched[0]) && AllGo(Next(s, sched[0]), sched[1..]))
  }

  // ---------- Who is kept waiting, and by what ----------

  /** The receive loop waits for a datagram or for the route's lock; it is always
      ready for one when it has none in hand. */
  lemma ServerBlockedIff(s: State, msg: Message)
    ensures Step(s, Serve).None? <==> s.server.SReceive? || (s.server.SRegister? && s.owner != Free)
    ensures Step(s, Receive(msg)).None? <==> !s.server.SReceive?
  {}

  /** A worker waits for a message or for the lock. */
  lemma WorkerBlockedIff(s: State, i: nat)
    requires i < |s.workers|
    ensures Step(s, Work(i)).None? <==>
            (s.workers[i].WIdle? && s.queue == []) || (s.workers[i].WTook? && s.owner != Free)
  {}

  // ---------- The measure ----------

  /** How many users there can be when the datagram in hand has been dealt with. */
  function UsersToCome(s: State): nat {
    |s.users| + if s.server.SRegister? || s.server.SChecking? then 1 else 0
  }

  /** The steps a worker takes for a message, with at most n users. */
  function WorkerRank(n: nat): (w: Worker -> nat) {
    (w: Worker) =>
      match w
      case WIdle => 0
      case WTook(_) => n + 3
      case WSending(_, k) => if k <= n then n - k + 2 else 0
      case WSent => 1
  }

  function ServerRank(server: Server, n: nat): nat {
    match server
    case SReceive => 0
    case SHandOver(_) => n + 5
    case SChecked(_) => n + 6
    case SChecking(_) => n + 7
    case SRegister(_) => n + 8
  }

  function QueueRank(n: nat): (w: Message -> nat) { _ => n + 4 }

  function WorkLeft(s: State, n: nat): nat {
    Sum(s.queue, QueueRank(n)) + Sum(s.workers, WorkerRank(n)) + ServerRank(s.server, n)
  }

  lemma ServerLessWork(s: State, n: nat)
    requires ServerStep(s).Some? && UsersToCome(s) <= n
    ensures var t := ServerStep(s).value;
            && |t.workers| == |s.workers|
            && WorkLeft(t, n) < WorkLeft(s, n) && UsersToCome(t) <= n && Known(t) == Known(s)
  {
    hide Sum;
    if s.server.SHandOver? {
      SumSnoc(s.queue, s.server.msg, QueueRank(n));
    }
  }

  /** A broadcast in progress has not gone past the last user. */
  lemma WithinUsers(s: State, i: nat)
    requires Locks(s) && Logged(s) && i < |s.workers| && s.workers[i].WSending?
    ensures s.workers[i].k <= |s.users|
  {}

  lemma WorkerLessWork(s: State, i: nat, n: nat)
    requires i < |s.workers| && WorkerStep(s, i).Some? && UsersToCome(s) <= n
    requires s.workers[i].WSending? ==> s.workers[i].k <= |s.users|
    ensures var t := WorkerStep(s, i).value;
            && |t.workers| == |s.workers|
            && WorkLeft(t, n) < WorkLeft(s, n) && UsersToCome(t) <= n && Known(t) == Known(s)
  {
    var t := WorkerStep(s, i).value;
    assert s.workers[i].WIdle? ==> Sum(s.queue, QueueRank(n)) == n + 4 + Sum(s.queue[1..], QueueRank(n));
    hide Sum;
    SumUpdate(s.workers, i, t.workers[i], WorkerRank(n));
  }

  lemma LessWork(s: State, a: Action, n: nat)
    requires Invariant(s) && CanGo(s, a) && UsersToCome(s) <= n
    ensures var t := Next(s, a);
            && Invariant(t) && |t.workers| == |s.workers|
            && WorkLeft(t, n) < WorkLeft(s, n) && UsersToCome(t) <= n && Known(t) == Known(s)
  {
    StepKeepsInvariant(s, a);
    hide WorkLeft, UsersToCome, Known, ServerStep, WorkerStep, Flat, Conserved, Registered, Growing;
    match a {
      case Serve => ServerLessWork(s, n);
      case Work(i) =>
        if s.workers[i].WSending? {
          WithinUsers(s, i);
        }
        hide Locks, Logged;
        WorkerLessWork(s, i, n);
    }
  }

  // ---------- Where it comes to rest ----------

  ghost predicate AtRest(s: State) {
    forall a: Action :: !CanGo(s, a)
  }

  /** Everything that was accepted has been sent to everybody registered at the time, once. */
  ghost predicate AllBroadcast(s: State) {
    && s.queue == [] && s.server.SReceive? && (forall i :: 0 <= i < |s.workers| ==> s.workers[i].WIdle?)
    && multiset(Messages(s.blocks)) == multiset(s.accepted) && s.log == Flat(s.blocks)
  }

  lemma OwnerGoes(s: State)
    requires Invariant(s) && s.owner != Free
    ensures exists a: Action :: CanGo(s, a)
  {
    hide Bag, Flat;
    match s.owner {
      case ByServer => assert CanGo(s, Serve);
      case ByWorker(i) => assert CanGo(s, Work(i));
    }
  }

  lemma RestIsIdle(s: State)
    requires Invariant(s) && AtRest(s)
    ensures s.owner == Free && s.server.SReceive?
    ensures forall i :: 0 <= i < |s.workers| ==> s.workers[i].WIdle? && s.queue == []
  {
    if s.owner != Free {
      OwnerGoes(s);
    }
    hide Invariant;
    assert !CanGo(s, Serve);
    forall i | 0 <= i < |s.workers| ensures s.workers[i].WIdle? && s.queue == [] {
      assert !CanGo(s, Work(i));
    }
  }

  lemma RestIsBroadcast(s: State)
    requires Invariant(s) && |s.workers| > 0 && AtRest(s)
    ensures AllBroadcast(s) && s.accepted == Known(s)
  {
    RestIsIdle(s);
    hide Bag, Flat, AtRest, Messages;
    assert s.workers[0].WIdle?;
    BagEmpty(s.workers, InHand);
  }

  /** Main result on liveness: with at least one worker, from any reachable state,
      every run without new datagrams is bounded, and one that cannot go on has
      broadcast every message handed over, the one in hand included, exactly once. */
  lemma {:induction false} EverythingIsBroadcast(s: State, sched: seq<Action>, n: nat)
    requires Invariant(s) && |s.workers| > 0 && AllGo(s, sched) && UsersToCome(s) <= n
    ensures var t := Exec(s, sched);
            && |sched| + WorkLeft(t, n) <= WorkLeft(s, n) && Invariant(t)
            && (AtRest(t) ==> AllBroadcast(t) && t.accepted == Known(s))
    decreases |sched|
  {
    hide Invariant;
    if sched == [] {
      if AtRest(s) {
        RestIsBroadcast(s);
      }
    } else {
      var a := sched[0];
      LessWork(s, a, n);
      hide Step, CanGo, WorkLeft, UsersToCome, Known, AtRest, AllBroadcast;
      EverythingIsBroadcast(Next(s, a), sched[1..], n);
    }
  }

  /** From the first datagram on: when no more arrive and the server comes to rest,
      each message received has been broadcast once. */
  lemma ReceivedIsBroadcast(workers: nat, before: seq<Action>, after: seq<Action>)
    requires workers > 0 && AllGo(Exec(Init(workers), before), after)
    ensures var s := Exec(Init(workers), before);
            var t := Exec(s, after);
            AtRest(t) ==>
              AllBroadcast(t) && multiset(Messages(t.blocks)) == multiset(Arrived(Init(workers), before))
  {
    var s := Exec(Init(workers), before);
    AlwaysInvariant(workers, before);
    WorkersKept(Init(workers), before);
    EverythingIsBroadcast(s, after, UsersToCome(s));
    NothingIsDropped(workers, before);
  }

  lemma {:induction false} WorkersKept(s: State, sched: seq<Action>)
    ensures |Exec(s, sched).workers| == |s.workers|
    decreases |sched|
  {
    if sched != [] {
      assert |Next(s, sched[0]).workers| == |s.workers|;
      hide Next;
      WorkersKept(Next(s, sched[0]), sched[1..]);
    }
  }
}
