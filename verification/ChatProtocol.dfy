/** The chat server as a transition system: the receive loop registers a sender
    and hands the message to the pool; any number of pool workers broadcast
    messages under the route's lock (3_ChatServer/UdpServer.hpp:71-97,
    ChatServerMain.cpp:36-49, Route.hpp:17-28, UserManager.hpp:20-45).

    The pool is the FIFO queue that ThreadPoolProtocol proves it to be; a task is
    in one worker's hand between being taken and being finished. */
module ChatProtocol {
  import opened Wrappers
  import opened Tally

  datatype Addr = Addr(ip: string, port: nat)

  /** The text is prefixed with its sender's address before it is sent (UdpServer.hpp:89). */
  datatype Message = Message(from: Addr, text: string)

  datatype Send = Send(msg: Message, to: Addr)

  /** One broadcast: the message and the users at the time. */
  datatype Block = Block(msg: Message, to: seq<Addr>)

  datatype Server =
    | SReceive
    | SRegister(msg: Message)   // CheckUser, before Lock
    | SChecking(msg: Message)   // owns the lock, before AddUser
    | SChecked(msg: Message)    // before UnLock
    | SHandOver(msg: Message)   // before Enqueue

  datatype Worker =
    | WIdle
    | WTook(msg: Message)           // in Broadcast, before Lock
    | WSending(msg: Message, k: nat) // owns the lock, before the k-th sendto
    | WSent                         // before UnLock

  datatype Owner = Free | ByServer | ByWorker(i: nat)

  /** History: the sends so far, the broadcasts begun so far, and the messages enqueued. */
  datatype State = State(
    users: seq<Addr>, owner: Owner, server: Server, queue: seq<Message>, workers: seq<Worker>,
    log: seq<Send>, blocks: seq<Block>, accepted: seq<Message>)

  datatype Action = Receive(msg: Message) | ReceiveNothing | Serve | Work(i: nat)

  function Init(workers: nat): State {
    State([], Free, SReceive, [], seq(workers, _ => WIdle), [], [], [])
  }

  /** UserManager::AddUser. */
  function AddUser(users: seq<Addr>, a: Addr): seq<Addr> {
    if a in users then users else users + [a]
  }

  function ServerStep(s: State): Option<State> {
    match s.server
    case SReceive => None // waits for a datagram
    case SRegister(m) =>
      if s.owner != Free then None else Some(s.(owner := ByServer, server := SChecking(m)))
    case SChecking(m) => Some(s.(users := AddUser(s.users, m.from), server := SChecked(m)))
    case SChecked(m) => Some(s.(owner := Free, server := SHandOver(m)))
    case SHandOver(m) =>
      Some(s.(queue := s.queue + [m], accepted := s.accepted + [m], server := SReceive))
  }

  function WorkerStep(s: State, i: nat): Option<State>
    requires i < |s.workers|
  {
    match s.workers[i]
    case WIdle =>
      if s.queue == [] then None
      else Some(s.(queue := s.queue[1..], workers := s.workers[i := WTook(s.queue[0])]))
    case WTook(m) =>
      if s.owner != Free then None
      else Some(s.(owner := ByWorker(i), blocks := s.blocks + [Block(m, s.users)],
                   workers := s.workers[i := WSending(m, 0)]))
    case WSending(m, k) =>
      if k < |s.users|
      then Some(s.(log := s.log + [Send(m, s.users[k])], workers := s.workers[i := WSending(m, k + 1)]))
      else Some(s.(workers := s.workers[i := WSent]))
    case WSent => Some(s.(owner := Free, workers := s.workers[i := WIdle]))
  }

  /** A failed or empty receive only logs (UdpServer.hpp:77-83). */
  function Step(s: State, a: Action): Option<State> {
    match a
    case Receive(m) => if s.server.SReceive? then Some(s.(server := SRegister(m))) else None
    case ReceiveNothing => if s.server.SReceive? then Some(s) else None
    case Serve => ServerStep(s)
    case Work(i) => if i < |s.workers| then WorkerStep(s, i) else None
  }

  function Next(s: State, a: Action): State {
    match Step(s, a) case Some(s') => s' case None => s
  }

  function Exec(s: State, sched: seq<Action>): State
    decreases |sched|
  {
    if sched == [] then s else Exec(Next(s, sched[0]), sched[1..])
  }

  // ---------- What holds in every reachable state ----------

  predicate NoDuplicates(users: seq<Addr>) {
    forall i, j :: 0 <= i < j < |users| ==> users[i] != users[j]
  }

  /** The sends of one broadcast. */
  function Sends(msg: Message, to: seq<Addr>): (r: seq<Send>)
    ensures |r| == |to|
  {
    seq(|to|, k requires 0 <= k < |to| => Send(msg, to[k]))
  }

  /** The sends of several broadcasts, one broadcast after the other. */
  function Flat(blocks: seq<Block>): seq<Send> {
    if blocks == [] then []
    else Flat(blocks[..|blocks| - 1]) + Sends(blocks[|blocks| - 1].msg, blocks[|blocks| - 1].to)
  }

  ghost predicate Locks(s: State) {
    && (s.owner.ByWorker? ==> s.owner.i < |s.workers|)
    && (s.server.SChecking? || s.server.SChecked? <==> s.owner == ByServer)
    && (forall i :: 0 <= i < |s.workers| ==>
          (s.workers[i].WSending? || s.workers[i].WSent? <==> s.owner == ByWorker(i)))
  }

  /** Every message on its way has a registered sender. */
  ghost predicate Registered(s: State) {
    && NoDuplicates(s.users)
    && (s.server.SChecked? || s.server.SHandOver? ==> s.server.msg.from in s.users)
    && (forall k :: 0 <= k < |s.queue| ==> s.queue[k].from in s.users)
    && (forall i :: 0 <= i < |s.workers| && (s.workers[i].WTook? || s.workers[i].WSending?) ==>
          s.workers[i].msg.from in s.users)
  }

  /** Each broadcast goes to a longer or equal list than the one before, and to its sender. */
  ghost predicate Growing(blocks: seq<Block>, users: seq<Addr>) {
    && (forall b :: 0 <= b < |blocks| ==> blocks[b].to <= users && blocks[b].msg.from in blocks[b].to)
    && (forall b, c :: 0 <= b < c < |blocks| ==> blocks[b].to <= blocks[c].to)
  }

  /** The send log: complete broadcasts, and the beginning of the one in progress. */
  ghost predicate Logged(s: State) {
    if s.owner.ByWorker? && s.owner.i < |s.workers| && s.workers[s.owner.i].WSending? then
      var w := s.workers[s.owner.i];
      && s.blocks != [] && s.blocks[|s.blocks| - 1] == Block(w.msg, s.users) && w.k <= |s.users|
      && s.log == Flat(s.blocks[..|s.blocks| - 1]) + Sends(w.msg, s.users[..w.k])
    else s.log == Flat(s.blocks)
  }

  function Hand(w: Worker): Option<Message> { if w.WTook? then Some(w.msg) else None }
  function InHand(w: Worker): multiset<Message> { match Hand(w) case Some(m) => multiset{m} case None => multiset{} }

  function Messages(blocks: seq<Block>): seq<Message> {
    seq(|blocks|, b requires 0 <= b < |blocks| => blocks[b].msg)
  }

  /** Every accepted message is queued, in one worker's hand, or broadcast: once. */
  ghost predicate Conserved(s: State) {
    Balanced(s.accepted, Messages(s.blocks), s.workers, s.queue)
  }

  ghost predicate Balanced(accepted: seq<Message>, begun: seq<Message>, workers: seq<Worker>, queue: seq<Message>) {
    multiset(accepted) == multiset(begun) + Bag(workers, InHand) + multiset(queue)
  }

  ghost predicate Invariant(s: State) {
    Locks(s) && Registered(s) && Growing(s.blocks, s.users) && Logged(s) && Conserved(s)
  }

  // ---------- Every step keeps the invariant ----------

  lemma ServerKeepsInvariant(s: State, s': State)
    requires Invariant(s) && ServerStep(s) == Some(s')
    ensures Invariant(s')
  {
    hide Flat, Bag, Messages;
    if s.server.SHandOver? {
      assert multiset(s'.accepted) == multiset(s.accepted) + multiset{s.server.msg};
      assert multiset(s'.queue) == multiset(s.queue) + multiset{s.server.msg};
    }
  }

  lemma TakeKeepsBalance(accepted: seq<Message>, begun: seq<Message>, ws: seq<Worker>, queue: seq<Message>, i: nat)
    requires Balanced(accepted, begun, ws, queue) && i < |ws| && ws[i].WIdle? && queue != []
    ensures Balanced(accepted, begun, ws[i := WTook(queue[0])], queue[1..])
  {
    hide Bag;
    BagGain(ws, i, WTook(queue[0]), InHand);
    assert queue == [queue[0]] + queue[1..];
  }

  lemma BeginKeepsBalance(accepted: seq<Message>, begun: seq<Message>,
                          ws: seq<Worker>, queue: seq<Message>, i: nat, m: Message)
    requires Balanced(accepted, begun, ws, queue) && i < |ws| && ws[i] == WTook(m)
    ensures Balanced(accepted, begun + [m], ws[i := WSending(m, 0)], queue)
  {
    hide Bag;
    BagLoss(ws, i, WSending(m, 0), InHand);
  }

  lemma RestKeepsBalance(accepted: seq<Message>, begun: seq<Message>,
                         ws: seq<Worker>, queue: seq<Message>, i: nat, w: Worker)
    requires Balanced(accepted, begun, ws, queue) && i < |ws| && Hand(w) == Hand(ws[i])
    ensures Balanced(accepted, begun, ws[i := w], queue)
  {
    hide Bag;
    BagSame(ws, ws[i := w], InHand);
  }

  lemma WorkerKeepsConserved(s: State, i: nat, s': State)
    requires Conserved(s) && i < |s.workers| && WorkerStep(s, i) == Some(s')
    ensures Conserved(s')
  {
    hide Balanced, InHand;
    match s.workers[i] {
      case WIdle => TakeKeepsBalance(s.accepted, Messages(s.blocks), s.workers, s.queue, i);
      case WTook(m) =>
        BeginKeepsBalance(s.accepted, Messages(s.blocks), s.workers, s.queue, i, m);
        assert Messages(s'.blocks) == Messages(s.blocks) + [m];
      case _ => RestKeepsBalance(s.accepted, Messages(s.blocks), s.workers, s.queue, i, s'.workers[i]);
    }
  }

  lemma WorkerKeepsLogged(s: State, i: nat, s': State)
    requires Locks(s) && Logged(s) && i < |s.workers| && WorkerStep(s, i) == Some(s')
    ensures Logged(s')
  {
    match s.workers[i] {
      case WTook(m) =>
        assert s'.blocks[..|s.blocks|] == s.blocks;
        assert Sends(m, s.users[..0]) == [];
      case WSending(m, k) =>
        if k < |s.users| {
          assert Sends(m, s.users[..k + 1]) == Sends(m, s.users[..k]) + [Send(m, s.users[k])];
        } else {
          assert s.users[..k] == s.users;
        }
      case _ =>
    }
  }

  lemma WorkerKeepsLocks(s: State, i: nat, s': State)
    requires Locks(s) && i < |s.workers| && WorkerStep(s, i) == Some(s')
    ensures Locks(s')
  {}

  lemma WorkerKeepsRegistered(s: State, i: nat, s': State)
    requires Registered(s) && i < |s.workers| && WorkerStep(s, i) == Some(s')
    ensures Registered(s')
  {
    hide NoDuplicates;
  }

  lemma WorkerKeepsGrowing(s: State, i: nat, s': State)
    requires Registered(s) && Growing(s.blocks, s.users) && i < |s.workers| && WorkerStep(s, i) == Some(s')
    ensures Growing(s'.blocks, s'.users)
  {
    hide NoDuplicates;
  }

  lemma StepKeepsInvariant(s: State, a: Action)
    requires Invariant(s) && Step(s, a).Some?
    ensures Invariant(Step(s, a).value)
  {
    hide Flat, Bag, Messages, Sends;
    match a {
      case Serve => ServerKeepsInvariant(s, Step(s, a).value);
      case Work(i) =>
        hide Locks, Registered, Growing, Logged, Conserved;
        WorkerKeepsLocks(s, i, Step(s, a).value);
        WorkerKeepsRegistered(s, i, Step(s, a).value);
        WorkerKeepsGrowing(s, i, Step(s, a).value);
        WorkerKeepsLogged(s, i, Step(s, a).value);
        WorkerKeepsConserved(s, i, Step(s, a).value);
      case _ =>
    }
  }

  lemma {:induction false} RunKeepsInvariant(s: State, sched: seq<Action>)
    requires Invariant(s)
    ensures Invariant(Exec(s, sched))
    decreases |sched|
  {
    hide Invariant, Step;
    if sched != [] {
      if Step(s, sched[0]).Some? {
        StepKeepsInvariant(s, sched[0]);
      }
      RunKeepsInvariant(Next(s, sched[0]), sched[1..]);
    }
  }

  lemma AlwaysInvariant(workers: nat, sched: seq<Action>)
    ensures Invariant(Exec(Init(workers), sched))
  {
    hide Bag;
    BagEmpty(Init(workers).workers, InHand);
    RunKeepsInvariant(Init(workers), sched);
  }

  // ---------- Total order ----------

  /** The messages sent to u, in order. */
  function Received(log: seq<Send>, u: Addr): seq<Message> {
    if log == [] then []
    else Received(log[..|log| - 1], u) + if log[|log| - 1].to == u then [log[|log| - 1].msg] else []
  }

  predicate IsSuffix<A(==)>(a: seq<A>, b: seq<A>) {
    |a| <= |b| && b[|b| - |a|..] == a
  }

  lemma {:induction false} ReceivedAppend(a: seq<Send>, b: seq<Send>, u: Addr)
    ensures Received(a + b, u) == Received(a, u) + Received(b, u)
    decreases |b|
  {
    if b == [] {
      assert a + b == a;
    } else {
      assert (a + b)[..|a + b| - 1] == a + b[..|b| - 1];
      ReceivedAppend(a, b[..|b| - 1], u);
    }
  }

  /** A broadcast reaches each of its recipients once and nobody else. */
  lemma {:induction false} ReceivedOnce(msg: Message, to: seq<Addr>, u: Addr)
    requires NoDuplicates(to)
    ensures Received(Sends(msg, to), u) == if u in to then [msg] else []
    decreases |to|
  {
    if to != [] {
      var init := to[..|to| - 1];
      assert Sends(msg, to)[..|to| - 1] == Sends(msg, init);
      ReceivedOnce(msg, init, u);
      assert to == init + [to[|to| - 1]];
    }
  }

  lemma ReceivedSnoc(blocks: seq<Block>, users: seq<Addr>, u: Addr)
    requires blocks != [] && Growing(blocks, users) && NoDuplicates(users)
    ensures var n := |blocks| - 1;
            Received(Flat(blocks), u) ==
            Received(Flat(blocks[..n]), u) + if u in blocks[n].to then [blocks[n].msg] else []
  {
    var last := blocks[|blocks| - 1];
    ReceivedAppend(Flat(blocks[..|blocks| - 1]), Sends(last.msg, last.to), u);
    assert last.to <= users;
    ReceivedOnce(last.msg, last.to, u);
  }

  lemma {:induction false} NothingReceived(blocks: seq<Block>, users: seq<Addr>, u: Addr)
    requires Growing(blocks, users) && NoDuplicates(users)
    requires forall b :: 0 <= b < |blocks| ==> u !in blocks[b].to
    ensures Received(Flat(blocks), u) == []
    decreases |blocks|
  {
    if blocks != [] {
      ReceivedSnoc(blocks, users, u);
      NothingReceived(blocks[..|blocks| - 1], users, u);
    }
  }

  /** Whoever registered first has received all that the other has, and what the
      other has received are the latest of these messages, in the same order. */
  lemma {:induction false} SuffixOfBlocks(blocks: seq<Block>, users: seq<Addr>, i: nat, j: nat)
    requires Growing(blocks, users) && NoDuplicates(users) && i <= j < |users|
    ensures IsSuffix(Received(Flat(blocks), users[j]), Received(Flat(blocks), users[i]))
    decreases |blocks|
  {
    if blocks != [] {
      var init, last := blocks[..|blocks| - 1], blocks[|blocks| - 1];
      var u, v := users[i], users[j];
      ReceivedSnoc(blocks, users, u);
      ReceivedSnoc(blocks, users, v);
      LastBlock(blocks, users, i, j);
      hide Received, Flat, IsSuffix, Growing, NoDuplicates;
      SuffixOfBlocks(init, users, i, j);
      if v !in last.to {
        NothingReceived(init, users, v);
      }
      SuffixStep(Received(Flat(init), v), Received(Flat(init), u), v in last.to, u in last.to, last.msg);
    }
  }

  lemma SuffixStep<A>(a: seq<A>, b: seq<A>, inA: bool, inB: bool, x: A)
    requires IsSuffix(a, b) && (if inA then inB else a == [])
    ensures IsSuffix(a + (if inA then [x] else []), b + (if inB then [x] else []))
  {}

  /** The last broadcast reaches the earlier of two users if it reaches the later,
      and whom it missed, all before it missed. */
  lemma LastBlock(blocks: seq<Block>, users: seq<Addr>, i: nat, j: nat)
    requires Growing(blocks, users) && NoDuplicates(users) && i <= j < |users| && blocks != []
    ensures var init, last := blocks[..|blocks| - 1], blocks[|blocks| - 1];
            && Growing(init, users)
            && (users[j] in last.to ==> users[i] in last.to)
            && (users[j] !in last.to ==> forall b :: 0 <= b < |init| ==> users[j] !in init[b].to)
  {
    var last := blocks[|blocks| - 1];
    if users[j] in last.to {
      EarlierUserToo(last.to, users, i, j);
    } else {
      forall b | 0 <= b < |blocks| - 1 ensures users[j] !in blocks[b].to {
        assert blocks[b].to <= last.to;
      }
    }
  }

  lemma EarlierUserToo(to: seq<Addr>, users: seq<Addr>, i: nat, j: nat)
    requires to <= users && NoDuplicates(users) && i <= j < |users| && users[j] in to
    ensures users[i] in to
  {
    var k :| 0 <= k < |to| && to[k] == users[j];
    assert users[k] == users[j];
    assert to[i] == users[i];
  }

  /** The broadcast in progress, if any: what is sent, and how many users have got it. */
  function InProgress(s: State): Option<(Message, nat)> {
    if s.owner.ByWorker? && s.owner.i < |s.workers| && s.workers[s.owner.i].WSending?
    then Some((s.workers[s.owner.i].msg, s.workers[s.owner.i].k))
    else None
  }

  /** The broadcast in progress has reached user i and not user j. */
  predicate Between(s: State, i: nat, j: nat) {
    InProgress(s).Some? && i < InProgress(s).value.1 <= j
  }

  /** What user u has received: what the finished broadcasts sent to it, and the
      message in progress if it is among the users reached so far. */
  lemma ReceivedSoFar(s: State, u: nat)
    requires Logged(s) && NoDuplicates(s.users) && u < |s.users| && InProgress(s).Some?
    ensures s.blocks != []
    ensures Received(s.log, s.users[u]) ==
            Received(Flat(s.blocks[..|s.blocks| - 1]), s.users[u])
            + if u < InProgress(s).value.1 then [InProgress(s).value.0] else []
  {
    var (m, k) := InProgress(s).value;
    hide Received, Flat;
    ReceivedAppend(Flat(s.blocks[..|s.blocks| - 1]), Sends(m, s.users[..k]), s.users[u]);
    ReceivedOnce(m, s.users[..k], s.users[u]);
    assert u < k ==> s.users[..k][u] == s.users[u];
  }

  /** Of two users the later registered has received a suffix of what the earlier
      has; between the two, the earlier has the message in progress on top. */
  predicate Ordered(s: State, i: nat, j: nat)
    requires i < |s.users| && j < |s.users|
  {
    var earlier, later := Received(s.log, s.users[i]), Received(s.log, s.users[j]);
    if Between(s, i, j) then
      && earlier != [] && earlier[|earlier| - 1] == InProgress(s).value.0
      && IsSuffix(later, earlier[..|earlier| - 1])
    else IsSuffix(later, earlier)
  }

  lemma LaterHasSuffix(s: State, i: nat, j: nat)
    requires Invariant(s) && i <= j < |s.users|
    ensures Ordered(s, i, j)
  {
    hide Bag, Received, IsSuffix, Flat, Balanced;
    if InProgress(s).None? {
      SuffixOfBlocks(s.blocks, s.users, i, j);
    } else {
      var (m, k) := InProgress(s).value;
      ReceivedSoFar(s, i);
      ReceivedSoFar(s, j);
      var init := s.blocks[..|s.blocks| - 1];
      assert Growing(init, s.users);
      SuffixOfBlocks(init, s.users, i, j);
      var a, b := Received(Flat(init), s.users[j]), Received(Flat(init), s.users[i]);
      hide Invariant;
      if k <= i || j < k {
        BothOrNeither(a, b, j < k, m);
      } else {
        assert (b + [m])[..|b + [m]| - 1] == b && a + [] == a;
      }
    }
  }

  lemma BothOrNeither<A>(a: seq<A>, b: seq<A>, both: bool, x: A)
    requires IsSuffix(a, b)
    ensures IsSuffix(a + (if both then [x] else []), b + (if both then [x] else []))
  {}

  /** Main result: after any interleaving, the send log is one whole broadcast
      after another (the last one possibly cut short), each to distinct users
      that include the sender; and of any two users the later registered has
      received a suffix of what the other has, leaving aside the message of a
      broadcast that has reached the one and not yet the other. */
  lemma BroadcastsAreTotallyOrdered(workers: nat, sched: seq<Action>)
    ensures var s := Exec(Init(workers), sched);
            && NoDuplicates(s.users)
            && (forall b :: 0 <= b < |s.blocks| ==>
                  s.blocks[b].to <= s.users && s.blocks[b].msg.from in s.blocks[b].to)
            && (InProgress(s).None? ==> s.log == Flat(s.blocks))
            && s.log <= Flat(s.blocks)
            && forall i, j :: 0 <= i <= j < |s.users| ==> Ordered(s, i, j)
  {
    hide Bag, Received, IsSuffix, Balanced;
    AlwaysInvariant(workers, sched);
    var s := Exec(Init(workers), sched);
    if InProgress(s).Some? {
      var (m, k) := InProgress(s).value;
      assert Sends(m, s.users[..k]) == Sends(m, s.users)[..k];
    }
    forall i, j | 0 <= i <= j < |s.users| ensures Ordered(s, i, j) {
      LaterHasSuffix(s, i, j);
    }
  }

  /** Nothing is broadcast twice or made up, and when the pool is idle all that
      was accepted has been broadcast. */
  lemma BroadcastOnce(workers: nat, sched: seq<Action>)
    ensures var s := Exec(Init(workers), sched);
            && multiset(Messages(s.blocks)) <= multiset(s.accepted)
            && (s.queue == [] && (forall i :: 0 <= i < |s.workers| ==> s.workers[i].WIdle?) ==>
                  multiset(Messages(s.blocks)) == multiset(s.accepted))
  {
    hide Bag, Messages;
    AlwaysInvariant(workers, sched);
    var s := Exec(Init(workers), sched);
    if forall i :: 0 <= i < |s.workers| ==> s.workers[i].WIdle? {
      BagEmpty(s.workers, InHand);
    }
  }

  // ---------- What was received ----------

  /** The users after messages from these senders. */
  function RegisterAll(users: seq<Addr>, msgs: seq<Message>): seq<Addr>
    decreases |msgs|
  {
    if msgs == [] then users
    else AddUser(RegisterAll(users, msgs[..|msgs| - 1]), msgs[|msgs| - 1].from)
  }

  /** The position of the first message from u, |msgs| if there is none. */
  function First(msgs: seq<Message>, u: Addr): (k: nat)
    ensures k <= |msgs|
    ensures k < |msgs| ==> msgs[k].from == u
    ensures forall i :: 0 <= i < k ==> msgs[i].from != u
  {
    if msgs == [] then 0
    else if msgs[0].from == u then 0
    else
      var k := First(msgs[1..], u);
      assert forall i :: 1 <= i < |msgs| ==> msgs[i] == msgs[1..][i - 1];
      k + 1
  }

  lemma RegisterSnoc(users: seq<Addr>, msgs: seq<Message>, m: Message)
    ensures RegisterAll(users, msgs + [m]) == AddUser(RegisterAll(users, msgs), m.from)
  {
    assert (msgs + [m])[..|msgs|] == msgs;
  }

  /** r is what registering the senders of msgs makes of the users. */
  ghost predicate SendersAdded(users: seq<Addr>, msgs: seq<Message>, r: seq<Addr>) {
    && NoDuplicates(r) && users <= r
    && (forall u :: u in r <==> u in users || First(msgs, u) < |msgs|)
    && (forall i :: |users| <= i < |r| ==> First(msgs, r[i]) < |msgs|)
    && (forall i, j :: |users| <= i < j < |r| ==> First(msgs, r[i]) < First(msgs, r[j]))
  }

  /** The new users are the senders, each once, in the order of their first messages. */
  lemma {:induction false} SendersOnce(users: seq<Addr>, msgs: seq<Message>)
    requires NoDuplicates(users)
    ensures SendersAdded(users, msgs, RegisterAll(users, msgs))
    decreases |msgs|
  {
    if msgs != [] {
      var n := |msgs| - 1;
      SendersOnce(users, msgs[..n]);
      assert msgs[..n] + [msgs[n]] == msgs;
      SenderAdded(users, msgs[..n], RegisterAll(users, msgs[..n]), msgs[n]);
    }
  }

  lemma SenderAdded(users: seq<Addr>, msgs: seq<Message>, r: seq<Addr>, m: Message)
    requires SendersAdded(users, msgs, r)
    ensures SendersAdded(users, msgs + [m], AddUser(r, m.from))
  {
    forall u ensures First(msgs + [m], u) ==
                     if First(msgs, u) < |msgs| then First(msgs, u)
                     else if m.from == u then |msgs| else |msgs| + 1
    {
      FirstSnoc(msgs, m, u);
    }
    hide First;
  }

  lemma FirstSnoc(msgs: seq<Message>, m: Message, u: Addr)
    ensures First(msgs + [m], u) ==
            if First(msgs, u) < |msgs| then First(msgs, u) else if m.from == u then |msgs| else |msgs| + 1
  {
    var k, l := First(msgs, u), First(msgs + [m], u);
    assert l < |msgs| ==> msgs[l] == (msgs + [m])[l];
    assert k < |msgs| ==> msgs[k] == (msgs + [m])[k];
    assert (msgs + [m])[|msgs|] == m;
  }

  /** The messages whose senders have been checked in. */
  function CheckedIn(s: State): seq<Message> {
    if s.server.SChecked? || s.server.SHandOver? then s.accepted + [s.server.msg] else s.accepted
  }

  /** The message that this action receives, if any. */
  function Arriving(s: State, a: Action): seq<Message> {
    if a.Receive? && s.server.SReceive? then [a.msg] else []
  }

  /** The messages received along a schedule. */
  function Arrived(s: State, sched: seq<Action>): seq<Message>
    decreases |sched|
  {
    if sched == [] then [] else Arriving(s, sched[0]) + Arrived(Next(s, sched[0]), sched[1..])
  }

  /** The messages handed to the pool, and the one in hand. */
  function Known(s: State): seq<Message> {
    if s.server.SReceive? then s.accepted else s.accepted + [s.server.msg]
  }

  lemma ServeReceives(s: State)
    requires s.users == RegisterAll([], CheckedIn(s))
    ensures var t := Next(s, Serve); Known(t) == Known(s) && t.users == RegisterAll([], CheckedIn(t))
  {
    if s.server.SChecking? {
      RegisterSnoc([], s.accepted, s.server.msg);
    }
    hide RegisterAll, AddUser;
  }

  lemma WorkReceives(s: State, i: nat)
    ensures var t := Next(s, Work(i)); t.server == s.server && t.accepted == s.accepted && t.users == s.users
  {}

  lemma StepReceives(s: State, a: Action)
    requires s.users == RegisterAll([], CheckedIn(s))
    ensures var t := Next(s, a); Known(t) == Known(s) + Arriving(s, a) && t.users == RegisterAll([], CheckedIn(t))
  {
    match a {
      case Serve => ServeReceives(s);
      case Work(i) =>
        WorkReceives(s, i);
        hide Next;
      case _ =>
    }
    hide RegisterAll, ServerStep, WorkerStep;
  }

  lemma {:induction false} ReceivesInOrder(s: State, sched: seq<Action>)
    requires s.users == RegisterAll([], CheckedIn(s))
    ensures var t := Exec(s, sched);
            Known(t) == Known(s) + Arrived(s, sched) && t.users == RegisterAll([], CheckedIn(t))
    decreases |sched|
  {
    hide Next, RegisterAll, CheckedIn, Known, Arriving;
    if sched != [] {
      var t := Next(s, sched[0]);
      StepReceives(s, sched[0]);
      ReceivesInOrder(t, sched[1..]);
    }
  }

  /** Main result on the receive loop: after any interleaving, the messages handed
      to the pool, and the one in hand, are those received, in order; and the users
      are the senders checked in so far, each once, in the order of their first
      messages. */
  lemma NothingIsDropped(workers: nat, sched: seq<Action>)
    ensures var s := Exec(Init(workers), sched);
            && Known(s) == Arrived(Init(workers), sched)
            && NoDuplicates(s.users)
            && (forall u :: u in s.users <==> First(CheckedIn(s), u) < |CheckedIn(s)|)
            && (forall i, j :: 0 <= i < j < |s.users| ==>
                  First(CheckedIn(s), s.users[i]) < First(CheckedIn(s), s.users[j]))
  {
    ReceivesInOrder(Init(workers), sched);
    SendersOnce([], CheckedIn(Exec(Init(workers), sched)));
  }
}
