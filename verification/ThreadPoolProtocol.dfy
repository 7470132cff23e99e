/** The thread pool as a transition system: any number of workers running
    HandlerTask, any number of client threads calling Enqueue and Stop, and one
    Start (4_EchoTcpServer/ThreadPool.hpp:24-53, 91-137).

    Wait releases the mutex and joins the wait set in one step; a waiting worker
    is woken by a signal, a broadcast or spuriously, and must get the mutex back
    before it goes on. A signal wakes at least one waiting worker if there is
    one, possibly more: which ones is the scheduler's choice. Tasks terminate,
    Start runs once, and Stop is only called after Start has returned; Enqueue
    may be called at any time, even before Start. */
module ThreadPoolProtocol {
  import opened Tally
  import opened Wrappers

  datatype Worker<T> =
    | WNew                 // not started
    | WAtLock              // line 31
    | WTest                // owns the mutex, before line 33
    | WCounted             // after line 35
    | WWaiting             // inside Wait, in the wait set
    | WWoken               // inside Wait, woken, without the mutex
    | WReacquired          // before line 37
    | WTook(task: T)       // after line 45, owns the mutex
    | WRunning(task: T)    // line 49
    | WLeaving             // break of line 41, owns the mutex
    | WExited

  datatype Client<T> =
    | CIdle
    | EAtLock(task: T)     // line 131
    | EHolding(task: T)    // before line 132
    | EPushed              // before line 133
    | ESignalled           // before line 136
    | SAtLock              // line 116
    | SHolding             // before line 117
    | SCleared             // before line 118
    | SNotified            // before line 121

  datatype Owner = Free | ByWorker(i: nat) | ByClient(c: nat)

  /** The fields of ThreadPool, the threads, how many workers Start has created,
      and history: the tasks enqueued, dequeued and executed so far, and how many
      were enqueued when Stop first cleared _isrunning. */
  datatype State<T> = State(
    isrunning: bool, tasks: seq<T>, slaverSleepCount: nat, owner: Owner,
    workers: seq<Worker<T>>, clients: seq<Client<T>>, startCalled: bool, started: nat,
    enqueued: seq<T>, dequeued: seq<T>, executed: seq<T>, stopMark: Option<nat>)

  datatype Action<T> =
    | StartFlag                      // lines 92-96
    | StartSlaver                    // one iteration of lines 97-99
    | Work(i: nat)
    | Spurious(i: nat)
    | CallEnqueue(c: nat, task: T)
    | CallStop(c: nat)
    | Serve(c: nat, woken: set<nat>) // the client's next action; `woken` is used if it signals

  function Init<T>(slaverNum: nat, clients: nat): State<T> {
    State(false, [], 0, Free, seq(slaverNum, _ => WNew), seq(clients, _ => CIdle), false, 0, [], [], [], None)
  }

  function Wake<T>(ws: seq<Worker<T>>, woken: set<nat>): (r: seq<Worker<T>>)
    ensures |r| == |ws|
  {
    seq(|ws|, i requires 0 <= i < |ws| => if i in woken && ws[i].WWaiting? then WWoken else ws[i])
  }

  function Waiting<T>(ws: seq<Worker<T>>): set<nat> {
    set i | 0 <= i < |ws| && ws[i].WWaiting?
  }

  /** pthread_cond_signal unblocks at least one of the blocked threads, if any. */
  predicate Signals<T>(ws: seq<Worker<T>>, woken: set<nat>) {
    (exists i :: 0 <= i < |ws| && ws[i].WWaiting?) ==> exists i :: 0 <= i < |ws| && ws[i].WWaiting? && i in woken
  }

  function WorkerStep<T>(s: State<T>, i: nat): Option<State<T>>
    requires i < |s.workers|
  {
    match s.workers[i]
    case WNew => None
    case WAtLock =>
      if s.owner != Free then None
      else Some(s.(owner := ByWorker(i), workers := s.workers[i := WTest]))
    case WTest =>
      if s.tasks != [] then
        Some(s.(tasks := s.tasks[1..], dequeued := s.dequeued + [s.tasks[0]],
                workers := s.workers[i := WTook(s.tasks[0])]))
      else if s.isrunning then
        Some(s.(slaverSleepCount := s.slaverSleepCount + 1, workers := s.workers[i := WCounted]))
      else
        Some(s.(workers := s.workers[i := WLeaving]))
    case WCounted => Some(s.(owner := Free, workers := s.workers[i := WWaiting]))
    case WWaiting => None
    case WWoken =>
      if s.owner != Free then None
      else Some(s.(owner := ByWorker(i), workers := s.workers[i := WReacquired]))
    case WReacquired =>
      if s.slaverSleepCount == 0 then None // below zero: never reached, by `Invariant`
      else Some(s.(slaverSleepCount := s.slaverSleepCount - 1, workers := s.workers[i := WTest]))
    case WTook(t) => Some(s.(owner := Free, workers := s.workers[i := WRunning(t)]))
    case WRunning(t) => Some(s.(executed := s.executed + [t], workers := s.workers[i := WAtLock]))
    case WLeaving => Some(s.(owner := Free, workers := s.workers[i := WExited]))
    case WExited => None
  }

  function ClientStep<T>(s: State<T>, c: nat, woken: set<nat>): Option<State<T>>
    requires c < |s.clients|
  {
    match s.clients[c]
    case CIdle => None
    case EAtLock(t) =>
      if s.owner != Free then None
      else Some(s.(owner := ByClient(c), clients := s.clients[c := EHolding(t)]))
    case EHolding(t) =>
      Some(s.(tasks := s.tasks + [t], enqueued := s.enqueued + [t], clients := s.clients[c := EPushed]))
    case EPushed =>
      if s.slaverSleepCount == 0 then Some(s.(clients := s.clients[c := ESignalled]))
      else if !Signals(s.workers, woken) then None
      else Some(s.(workers := Wake(s.workers, woken), clients := s.clients[c := ESignalled]))
    case ESignalled => Some(s.(owner := Free, clients := s.clients[c := CIdle]))
    case SAtLock =>
      if s.owner != Free then None
      else Some(s.(owner := ByClient(c), clients := s.clients[c := SHolding]))
    case SHolding =>
      Some(s.(isrunning := false, stopMark := if s.stopMark.None? then Some(|s.enqueued|) else s.stopMark,
              clients := s.clients[c := SCleared]))
    case SCleared =>
      if s.slaverSleepCount == 0 then Some(s.(clients := s.clients[c := SNotified]))
      else Some(s.(workers := Wake(s.workers, Waiting(s.workers)), clients := s.clients[c := SNotified]))
    case SNotified => Some(s.(owner := Free, clients := s.clients[c := CIdle]))
  }

  function Step<T>(s: State<T>, a: Action<T>): Option<State<T>> {
    match a
    case StartFlag => if s.startCalled then None else Some(s.(startCalled := true, isrunning := true))
    case StartSlaver =>
      if s.startCalled && s.started < |s.workers|
      then Some(s.(started := s.started + 1, workers := s.workers[s.started := WAtLock]))
      else None
    case Work(i) => if i < |s.workers| then WorkerStep(s, i) else None
    case Spurious(i) =>
      if i < |s.workers| && s.workers[i].WWaiting? then Some(s.(workers := Wake(s.workers, {i}))) else None
    case CallEnqueue(c, t) =>
      if c < |s.clients| && s.clients[c].CIdle? then Some(s.(clients := s.clients[c := EAtLock(t)])) else None
    case CallStop(c) =>
      if c < |s.clients| && s.clients[c].CIdle? && s.startCalled && s.started == |s.workers|
      then Some(s.(clients := s.clients[c := SAtLock])) else None
    case Serve(c, woken) => if c < |s.clients| then ClientStep(s, c, woken) else None
  }

  function Next<T>(s: State<T>, a: Action<T>): State<T> {
    match Step(s, a) case Some(s') => s' case None => s
  }

  /** The state a scheduler's choices lead to; scheduling a blocked thread changes nothing. */
  function Exec<T>(s: State<T>, sched: seq<Action<T>>): State<T>
    decreases |sched|
  {
    if sched == [] then s else Exec(Next(s, sched[0]), sched[1..])
  }

  lemma {:induction false} ExecAppend<T>(s: State<T>, a: seq<Action<T>>, b: seq<Action<T>>)
    ensures Exec(s, a + b) == Exec(Exec(s, a), b)
    decreases |a|
  {
    hide Next;
    if a == [] {
      assert a + b == b;
    } else {
      assert (a + b)[1..] == a[1..] + b;
      ExecAppend(Next(s, a[0]), a[1..], b);
    }
  }

  // ---------- What holds in every reachable state ----------

  predicate WHolds<T>(w: Worker<T>) { w.WTest? || w.WCounted? || w.WReacquired? || w.WTook? || w.WLeaving? }
  predicate CHolds<T>(c: Client<T>) { !c.CIdle? && !c.EAtLock? && !c.SAtLock? }
  predicate Stopping<T>(c: Client<T>) { c.SAtLock? || c.SHolding? || c.SCleared? || c.SNotified? }

  function Waits<T>(w: Worker<T>): nat { if w.WWaiting? then 1 else 0 }
  /** Will look at the queue before it can sleep again. */
  function Awake<T>(w: Worker<T>): nat { if w.WWoken? || w.WReacquired? || w.WTest? then 1 else 0 }
  /** Counted by _slaver_sleep_count. */
  function Asleep<T>(w: Worker<T>): nat { if w.WCounted? || w.WWaiting? || w.WWoken? || w.WReacquired? then 1 else 0 }
  /** Has pushed a task and not signalled yet. */
  function Owes<T>(c: Client<T>): nat { if c.EPushed? then 1 else 0 }
  /** Has cleared _isrunning and not broadcast yet. */
  function Clearing<T>(c: Client<T>): nat { if c.SCleared? then 1 else 0 }
  function Hand<T>(w: Worker<T>): Option<T> { if w.WTook? || w.WRunning? then Some(w.task) else None }
  function InHand<T>(w: Worker<T>): multiset<T> { match Hand(w) case Some(t) => multiset{t} case None => multiset{} }

  ghost predicate Locks<T>(s: State<T>) {
    && (s.owner.ByWorker? ==> s.owner.i < |s.workers|)
    && (s.owner.ByClient? ==> s.owner.c < |s.clients|)
    && (forall i :: 0 <= i < |s.workers| ==> (WHolds(s.workers[i]) <==> s.owner == ByWorker(i)))
    && (forall c :: 0 <= c < |s.clients| ==> (CHolds(s.clients[c]) <==> s.owner == ByClient(c)))
  }

  ghost predicate Lifecycle<T>(s: State<T>) {
    && s.started <= |s.workers| && (s.started > 0 ==> s.startCalled)
    && (forall i :: 0 <= i < |s.workers| ==> (s.workers[i].WNew? <==> s.started <= i))
    && s.isrunning == (s.startCalled && s.stopMark.None?)
    && (s.stopMark.Some? ==> s.startCalled && s.started == |s.workers| && s.stopMark.value <= |s.enqueued|)
    && (forall c :: 0 <= c < |s.clients| && Stopping(s.clients[c]) ==> s.startCalled && s.started == |s.workers|)
    && (forall c :: 0 <= c < |s.clients| && s.clients[c].SCleared? ==> s.stopMark.Some?)
    && (forall i :: 0 <= i < |s.workers| && s.workers[i].WCounted? ==> s.isrunning && s.tasks == [])
    && (forall i :: 0 <= i < |s.workers| && s.workers[i].WLeaving? ==> s.tasks == [])
    && (forall i :: 0 <= i < |s.workers| && (s.workers[i].WLeaving? || s.workers[i].WExited?) ==>
          s.stopMark.Some? && s.stopMark.value <= |s.dequeued|)
  }

  /** The sleep counter is exact; while a worker waits, every queued task is
      matched by a worker on its way to look or by a client that still owes the
      signal; once stopped (and broadcast), nobody waits. */
  ghost predicate Wakeups<T>(s: State<T>) {
    && s.slaverSleepCount == Sum(s.workers, Asleep)
    && (Sum(s.workers, Waits) > 0 ==> Sum(s.workers, Awake) + Sum(s.clients, Owes) >= |s.tasks|)
    && (s.stopMark.Some? && Sum(s.clients, Clearing) == 0 ==> Sum(s.workers, Waits) == 0)
  }

  /** Every dequeued task is in one worker's hand or has been executed, as often as it was dequeued. */
  ghost predicate Handled<T>(dequeued: seq<T>, executed: seq<T>, ws: seq<Worker<T>>) {
    multiset(dequeued) == multiset(executed) + Bag(ws, InHand)
  }

  ghost predicate Conservation<T>(s: State<T>) {
    s.enqueued == s.dequeued + s.tasks && Handled(s.dequeued, s.executed, s.workers)
  }

  ghost predicate Invariant<T>(s: State<T>) {
    Locks(s) && Lifecycle(s) && Wakeups(s) && Conservation(s)
  }

  // ---------- Every step keeps the invariant ----------

  lemma WorkerSums<T>(ws: seq<Worker<T>>, i: nat, w: Worker<T>)
    requires i < |ws|
    ensures Sum(ws[i := w], Waits) + Waits(ws[i]) == Sum(ws, Waits) + Waits(w)
    ensures Sum(ws[i := w], Awake) + Awake(ws[i]) == Sum(ws, Awake) + Awake(w)
    ensures Sum(ws[i := w], Asleep) + Asleep(ws[i]) == Sum(ws, Asleep) + Asleep(w)
  {
    SumUpdate(ws, i, w, Waits);
    SumUpdate(ws, i, w, Awake);
    SumUpdate(ws, i, w, Asleep);
  }

  lemma ClientSums<T>(cs: seq<Client<T>>, i: nat, c: Client<T>)
    requires i < |cs|
    ensures Sum(cs[i := c], Owes) + Owes(cs[i]) == Sum(cs, Owes) + Owes(c)
    ensures Sum(cs[i := c], Clearing) + Clearing(cs[i]) == Sum(cs, Clearing) + Clearing(c)
    ensures Clearing(cs[i]) <= Sum(cs, Clearing)
  {
    SumUpdate(cs, i, c, Owes);
    SumUpdate(cs, i, c, Clearing);
    SumAtLeast(cs, i, Clearing);
  }

  /** A wake-up moves workers from the wait set to the woken ones: at least one
      if it signals, all if it broadcasts. */
  lemma WakeSums<T>(ws: seq<Worker<T>>, woken: set<nat>)
    ensures Sum(Wake(ws, woken), Asleep) == Sum(ws, Asleep)
    ensures Sum(Wake(ws, woken), Waits) + Sum(Wake(ws, woken), Awake) == Sum(ws, Waits) + Sum(ws, Awake)
    ensures Sum(Wake(ws, woken), Waits) <= Sum(ws, Waits) <= Sum(ws, Asleep)
    ensures Signals(ws, woken) && Sum(ws, Waits) > 0 ==> Sum(Wake(ws, woken), Waits) < Sum(ws, Waits)
    ensures woken == Waiting(ws) ==> Sum(Wake(ws, woken), Waits) == 0
  {
    hide Sum;
    var vs := Wake(ws, woken);
    SumSame(ws, vs, Asleep);
    SumMove(ws, vs, Waits, Awake);
    SumLess(ws, vs, Waits);
    SumPositive(ws, Waits);
    SumPositive(vs, Waits);
    SumBelow(ws, Waits, Asleep);
    if Signals(ws, woken) && Sum(ws, Waits) > 0 {
      var i :| 0 <= i < |ws| && ws[i].WWaiting? && i in woken;
      assert Waits(vs[i]) < Waits(ws[i]);
    }
  }

  lemma WorkerKeepsLocks<T>(s: State<T>, i: nat, s': State<T>)
    requires Locks(s) && i < |s.workers| && WorkerStep(s, i) == Some(s')
    ensures Locks(s')
  {}

  lemma WakeLeaves<T>(ws: seq<Worker<T>>, woken: set<nat>)
    ensures forall i :: 0 <= i < |ws| ==>
              Wake(ws, woken)[i] == ws[i] || (ws[i].WWaiting? && Wake(ws, woken)[i].WWoken?)
  {}

  lemma WakeKeepsLocks<T>(s: State<T>, c: nat, woken: set<nat>, pc: Client<T>)
    requires Locks(s) && c < |s.clients| && CHolds(s.clients[c]) == CHolds(pc)
    ensures Locks(s.(workers := Wake(s.workers, woken), clients := s.clients[c := pc]))
  {
    WakeLeaves(s.workers, woken);
    hide Wake;
  }

  lemma ClientKeepsLocks<T>(s: State<T>, c: nat, woken: set<nat>, s': State<T>)
    requires Locks(s) && c < |s.clients| && ClientStep(s, c, woken) == Some(s')
    ensures Locks(s')
  {
    match s.clients[c] {
      case EPushed => WakeKeepsLocks(s, c, woken, ESignalled);
      case SCleared => WakeKeepsLocks(s, c, Waiting(s.workers), SNotified);
      case _ =>
    }
    hide Wake, Waiting, Signals;
  }

  lemma WorkerKeepsLifecycle<T>(s: State<T>, i: nat, s': State<T>)
    requires Locks(s) && Lifecycle(s) && s.enqueued == s.dequeued + s.tasks
    requires i < |s.workers| && WorkerStep(s, i) == Some(s')
    ensures Lifecycle(s')
  {}

  lemma ClientKeepsLifecycle<T>(s: State<T>, c: nat, woken: set<nat>, s': State<T>)
    requires Locks(s) && Lifecycle(s) && c < |s.clients| && ClientStep(s, c, woken) == Some(s')
    ensures Lifecycle(s')
  {
    match s.clients[c] {
      case SHolding => StopKeepsLifecycle(s, c, s');
      case EPushed => WakeKeepsLifecycle(s, c, woken, s');
      case SCleared => WakeKeepsLifecycle(s, c, woken, s');
      case _ =>
    }
  }

  lemma WakeKeepsLifecycle<T>(s: State<T>, c: nat, woken: set<nat>, s': State<T>)
    requires Lifecycle(s) && c < |s.clients| && (s.clients[c].EPushed? || s.clients[c].SCleared?)
    requires ClientStep(s, c, woken) == Some(s')
    ensures Lifecycle(s')
  {
    WakeLeaves(s.workers, if s.clients[c].SCleared? then Waiting(s.workers) else woken);
    hide Wake, Waiting, Signals;
  }

  /** Clearing _isrunning: whoever holds the mutex here, no worker is about to sleep or leave. */
  lemma StopKeepsLifecycle<T>(s: State<T>, c: nat, s': State<T>)
    requires Locks(s) && Lifecycle(s) && c < |s.clients| && s.clients[c].SHolding?
    requires ClientStep(s, c, {}) == Some(s')
    ensures Lifecycle(s')
  {}

  lemma WorkerKeepsWakeups<T>(s: State<T>, i: nat, s': State<T>)
    requires Invariant(s) && i < |s.workers| && WorkerStep(s, i) == Some(s')
    ensures Wakeups(s')
  {
    hide Sum, Handled;
    WorkerSums(s.workers, i, s'.workers[i]);
  }

  lemma ClientKeepsWakeups<T>(s: State<T>, c: nat, woken: set<nat>, s': State<T>)
    requires Invariant(s) && c < |s.clients| && ClientStep(s, c, woken) == Some(s')
    ensures Wakeups(s')
  {
    hide Sum, Handled;
    ClientSums(s.clients, c, s'.clients[c]);
    WakeSums(s.workers, if s.clients[c].SCleared? then Waiting(s.workers) else woken);
  }

  lemma TakeKeepsHandled<T>(dequeued: seq<T>, executed: seq<T>, ws: seq<Worker<T>>, i: nat, t: T)
    requires Handled(dequeued, executed, ws) && i < |ws| && ws[i].WTest?
    ensures Handled(dequeued + [t], executed, ws[i := WTook(t)])
  {
    hide Bag;
    BagGain(ws, i, WTook(t), InHand);
  }

  lemma RunKeepsHandled<T>(dequeued: seq<T>, executed: seq<T>, ws: seq<Worker<T>>, i: nat, t: T)
    requires Handled(dequeued, executed, ws) && i < |ws| && ws[i] == WRunning(t)
    ensures Handled(dequeued, executed + [t], ws[i := WAtLock])
  {
    hide Bag;
    BagLoss(ws, i, WAtLock, InHand);
  }

  lemma OthersKeepHandled<T>(dequeued: seq<T>, executed: seq<T>, ws: seq<Worker<T>>, vs: seq<Worker<T>>)
    requires Handled(dequeued, executed, ws) && |vs| == |ws|
    requires forall i :: 0 <= i < |ws| ==> Hand(vs[i]) == Hand(ws[i])
    ensures Handled(dequeued, executed, vs)
  {
    hide Bag;
    BagSame(ws, vs, InHand);
  }

  /** A task moves from the queue to a worker's hand, and from there to the executed ones. */
  lemma WorkerKeepsConservation<T>(s: State<T>, i: nat, s': State<T>)
    requires Conservation(s) && i < |s.workers| && WorkerStep(s, i) == Some(s')
    ensures Conservation(s')
  {
    hide Handled, InHand;
    match s.workers[i] {
      case WTest =>
        if s.tasks != [] {
          TakeKeepsHandled(s.dequeued, s.executed, s.workers, i, s.tasks[0]);
        } else {
          OthersKeepHandled(s.dequeued, s.executed, s.workers, s'.workers);
        }
      case WRunning(t) => RunKeepsHandled(s.dequeued, s.executed, s.workers, i, t);
      case _ => OthersKeepHandled(s.dequeued, s.executed, s.workers, s'.workers);
    }
  }

  lemma ClientKeepsConservation<T>(s: State<T>, c: nat, woken: set<nat>, s': State<T>)
    requires Conservation(s) && c < |s.clients| && ClientStep(s, c, woken) == Some(s')
    ensures Conservation(s')
  {
    hide Handled, InHand;
    OthersKeepHandled(s.dequeued, s.executed, s.workers, s'.workers);
  }

  lemma StartKeepsInvariant<T>(s: State<T>, s': State<T>)
    requires Invariant(s) && Step(s, StartSlaver) == Some(s')
    ensures Invariant(s')
  {
    hide Sum, Handled;
    WorkerSums(s.workers, s.started, WAtLock);
    assert s.workers[s.started].WNew?;
    OthersKeepHandled(s.dequeued, s.executed, s.workers, s'.workers);
  }

  lemma OtherStepKeepsInvariant<T>(s: State<T>, a: Action<T>, s': State<T>)
    requires Invariant(s) && !a.Work? && !a.Serve? && !a.StartSlaver? && Step(s, a) == Some(s')
    ensures Invariant(s')
  {
    hide Sum, Handled, InHand;
    OthersKeepHandled(s.dequeued, s.executed, s.workers, s'.workers);
    if a.Spurious? {
      WakeSums(s.workers, {a.i});
    } else if a.CallEnqueue? {
      ClientSums(s.clients, a.c, EAtLock(a.task));
    } else if a.CallStop? {
      ClientSums(s.clients, a.c, SAtLock);
    }
  }

  lemma StepKeepsInvariant<T>(s: State<T>, a: Action<T>)
    requires Invariant(s) && Step(s, a).Some?
    ensures Invariant(Step(s, a).value)
  {
    hide Sum, Handled, Wakeups, Locks, Lifecycle;
    var s' := Step(s, a).value;
    match a {
      case Work(i) =>
        WorkerKeepsLocks(s, i, s');
        WorkerKeepsLifecycle(s, i, s');
        WorkerKeepsWakeups(s, i, s');
        WorkerKeepsConservation(s, i, s');
      case Serve(c, woken) =>
        ClientKeepsLocks(s, c, woken, s');
        ClientKeepsLifecycle(s, c, woken, s');
        ClientKeepsWakeups(s, c, woken, s');
        ClientKeepsConservation(s, c, woken, s');
      case StartSlaver => StartKeepsInvariant(s, s');
      case _ => OtherStepKeepsInvariant(s, a, s');
    }
  }

  lemma {:induction false} RunKeepsInvariant<T>(s: State<T>, sched: seq<Action<T>>)
    requires Invariant(s)
    ensures Invariant(Exec(s, sched))
    decreases |sched|
  {
    hide Invariant, Step;
    if sched != [] {
      if Step(s, sched[0]).Some? {
        StepKeepsInvariant(s, sched[0]);
      }
      RunKeepsInvariant(Next(s, sched[0]), sched[1..]);
    }
  }

  /** Main result: the invariant holds after every schedule of any number of
      workers and clients. */
  lemma AlwaysInvariant<T>(slaverNum: nat, clients: nat, sched: seq<Action<T>>)
    ensures Invariant(Exec(Init(slaverNum, clients), sched))
  {
    hide Sum, Bag;
    var s0: State<T> := Init(slaverNum, clients);
    SumZero(s0.workers, Asleep<T>);
    SumZero(s0.workers, Waits<T>);
    BagEmpty(s0.workers, InHand<T>);
    RunKeepsInvariant(s0, sched);
  }

  // ---------- No lost wakeup ----------

  /** Skipping a signal because the counter is zero loses nothing, and while the
      mutex is free every queued task has a woken worker as long as one sleeps. */
  lemma NoLostWakeup<T>(s: State<T>)
    requires Invariant(s)
    ensures s.slaverSleepCount == 0 ==> forall i :: 0 <= i < |s.workers| ==> !s.workers[i].WWaiting?
    ensures s.owner.Free? ==> s.slaverSleepCount == Sum(s.workers, Waits) + Sum(s.workers, Awake)
    ensures s.owner.Free? && Sum(s.workers, Waits) > 0 ==> Sum(s.workers, Awake) >= |s.tasks|
  {
    hide Sum, Handled;
    SumPositive(s.workers, Asleep);
    if s.owner.Free? {
      SumZero(s.clients, Owes);
      SumSplit(s.workers, Asleep, Waits, Awake);
    }
  }

  ghost predicate AllStarted<T>(s: State<T>) { s.started == |s.workers| }
  ghost predicate AllExited<T>(s: State<T>) { forall i :: 0 <= i < |s.workers| ==> s.workers[i].WExited? }

  /** With tasks queued and a worker alive, some worker outside the wait set can be run to the queue. */
  lemma AwakeWorker<T>(s: State<T>) returns (j: nat)
    requires Invariant(s) && AllStarted(s) && s.tasks != [] && !AllExited(s) && s.owner.Free?
    ensures j < |s.workers| && (s.workers[j].WAtLock? || s.workers[j].WWoken? || s.workers[j].WRunning?)
  {
    hide Sum, Handled;
    j :| 0 <= j < |s.workers| && !s.workers[j].WExited?;
    if s.workers[j].WWaiting? {
      SumAtLeast(s.workers, j, Waits);
      NoLostWakeup(s);
      SumPositive(s.workers, Awake);
      j :| 0 <= j < |s.workers| && Awake(s.workers[j]) > 0;
    }
  }

  ghost function ToQueue<T>(w: Worker<T>): nat {
    match w
    case WTook(_) => 6
    case WRunning(_) => 5
    case WAtLock => 4
    case WWoken => 4
    case WReacquired => 3
    case WTest => 2
    case _ => 0
  }

  lemma WorkerAdvances<T>(s: State<T>, j: nat) returns (t: State<T>)
    requires Invariant(s) && s.tasks != [] && j < |s.workers| && ToQueue(s.workers[j]) > 0
    requires s.owner == Free || s.owner == ByWorker(j)
    ensures Step(s, Work(j)) == Some(t) && |t.workers| == |s.workers|
    ensures if s.workers[j].WTest? then t.dequeued == s.dequeued + [s.tasks[0]]
            else
              && t.dequeued == s.dequeued && t.tasks == s.tasks
              && 0 < ToQueue(t.workers[j]) < ToQueue(s.workers[j])
              && (t.owner == Free || t.owner == ByWorker(j))
  {
    hide Sum, Handled;
    SumAtLeast(s.workers, j, Asleep);
    t := Step(s, Work(j)).value;
  }

  /** A worker on its way, run alone, takes the next task. */
  lemma {:induction false} WorkerServes<T>(s: State<T>, j: nat) returns (sched: seq<Action<T>>)
    requires Invariant(s) && s.tasks != [] && j < |s.workers| && ToQueue(s.workers[j]) > 0
    requires s.owner == Free || s.owner == ByWorker(j)
    ensures Exec(s, sched).dequeued == s.dequeued + [s.tasks[0]]
    ensures forall k :: 0 <= k < |sched| ==> sched[k].Work?
    decreases ToQueue(s.workers[j])
  {
    hide Invariant, Step;
    var a: Action<T> := Work(j);
    var t := WorkerAdvances(s, j);
    StepKeepsInvariant(s, a);
    if s.workers[j].WTest? {
      sched := [a];
      assert Exec(s, sched) == Exec(t, []);
    } else {
      var rest := WorkerServes(t, j);
      sched := [a] + rest;
    }
  }

  ghost function ToRelease<T>(c: Client<T>): nat {
    match c
    case EHolding(_) => 3
    case EPushed => 2
    case ESignalled => 1
    case SHolding => 3
    case SCleared => 2
    case SNotified => 1
    case _ => 0
  }

  lemma ClientAdvances<T>(s: State<T>, c: nat) returns (t: State<T>)
    requires Invariant(s) && s.owner == ByClient(c) && !AllExited(s)
    ensures Step(s, Serve(c, Waiting(s.workers))) == Some(t)
    ensures t.dequeued == s.dequeued && s.tasks <= t.tasks && t.started == s.started
    ensures |t.workers| == |s.workers| && |t.clients| == |s.clients| && !AllExited(t)
    ensures (t.owner == s.owner && c < |s.clients| && ToRelease(t.clients[c]) < ToRelease(s.clients[c]))
            || t.owner == Free
  {
    hide Sum, Handled;
    t := Step(s, Serve(c, Waiting(s.workers))).value;
    WakeLeaves(s.workers, Waiting(s.workers));
    hide Wake;
    var i :| 0 <= i < |s.workers| && !s.workers[i].WExited?;
    assert !t.workers[i].WExited?;
  }

  lemma {:induction false} ServeOnceStarted<T>(s: State<T>) returns (sched: seq<Action<T>>)
    requires Invariant(s) && AllStarted(s) && s.tasks != [] && !AllExited(s)
    ensures Exec(s, sched).dequeued == s.dequeued + [s.tasks[0]]
    ensures forall k :: 0 <= k < |sched| ==> sched[k].Work? || sched[k].Serve?
    decreases match s.owner case ByClient(c) => 1 + (if c < |s.clients| then ToRelease(s.clients[c]) else 0) case _ => 0
  {
    match s.owner {
      case Free =>
        var j := AwakeWorker(s);
        sched := WorkerServes(s, j);
      case ByWorker(i) =>
        sched := WorkerServes(s, i);
      case ByClient(c) =>
        var a: Action<T> := Serve(c, Waiting(s.workers));
        var t := ClientAdvances(s, c);
        StepKeepsInvariant(s, a);
        hide Invariant, Step;
        var rest := ServeOnceStarted(t);
        sched := [a] + rest;
    }
  }

  /** One step of Start, as long as it is not through. */
  lemma StartAdvances<T>(s: State<T>) returns (a: Action<T>, t: State<T>)
    requires Invariant(s) && !AllStarted(s) && !AllExited(s)
    ensures (a.StartFlag? || a.StartSlaver?) && Step(s, a) == Some(t) && Invariant(t)
    ensures t.tasks == s.tasks && t.dequeued == s.dequeued && !AllExited(t) && |t.workers| == |s.workers|
    ensures if s.startCalled then t.startCalled && s.started < t.started <= |t.workers|
            else t.startCalled && t.started == s.started
  {
    hide Sum, Handled;
    a := if s.startCalled then StartSlaver else StartFlag;
    t := Step(s, a).value;
    StepKeepsInvariant(s, a);
    var i :| 0 <= i < |s.workers| && !s.workers[i].WExited?;
    assert !t.workers[i].WExited?;
  }

  /** As long as a worker is alive, or yet to be created, a queued task can still
      be taken, from any reachable state, with no spurious wakeup and no new call. */
  lemma {:induction false} CanServe<T>(s: State<T>) returns (sched: seq<Action<T>>)
    requires Invariant(s) && s.tasks != [] && !AllExited(s)
    ensures Exec(s, sched).dequeued == s.dequeued + [s.tasks[0]]
    ensures forall k :: 0 <= k < |sched| ==> !sched[k].Spurious? && !sched[k].CallEnqueue? && !sched[k].CallStop?
    decreases if s.started <= |s.workers| then |s.workers| - s.started else 0, !s.startCalled
  {
    if AllStarted(s) {
      sched := ServeOnceStarted(s);
    } else {
      var a, t := StartAdvances(s);
      assert s.started <= |s.workers|;
      hide Invariant, Step;
      var rest := CanServe(t);
      sched := [a] + rest;
    }
  }

  /** Once all workers have exited nothing is dequeued or executed any more. */
  lemma {:induction false} ExitedForever<T>(s: State<T>, sched: seq<Action<T>>)
    requires AllStarted(s) && AllExited(s)
    ensures var t := Exec(s, sched);
            AllExited(t) && t.dequeued == s.dequeued && t.executed == s.executed && s.tasks <= t.tasks
    decreases |sched|
  {
    if sched != [] {
      ExitedStep(s, sched[0]);
      ExitedForever(Next(s, sched[0]), sched[1..]);
    }
  }

  lemma ExitedStep<T>(s: State<T>, a: Action<T>)
    requires AllStarted(s) && AllExited(s)
    ensures var t := Next(s, a);
            && AllStarted(t) && AllExited(t)
            && t.dequeued == s.dequeued && t.executed == s.executed && s.tasks <= t.tasks
  {}

  lemma StartsOne<T>(s: State<T>)
    requires Invariant(s) && s.started < |s.workers|
    ensures s.workers[s.started].WNew?
  {}

  lemma ExitedWereStarted<T>(s: State<T>)
    requires Invariant(s) && AllExited(s)
    ensures AllStarted(s)
  {
    assert s.started <= |s.workers|;
    hide Invariant;
    if s.started < |s.workers| {
      StartsOne(s);
    }
  }

  /** Exactly when a queued task can still be served: some worker has not exited.
      (Enqueue does not look at _isrunning, so a task enqueued after the last
      worker has left stays in the queue for ever.) */
  lemma ServedIffWorkerAlive<T(!new)>(s: State<T>)
    requires Invariant(s) && s.tasks != []
    ensures (exists sched: seq<Action<T>> :: Exec(s, sched).dequeued == s.dequeued + [s.tasks[0]]) <==> !AllExited(s)
  {
    if AllExited(s) {
      ExitedWereStarted(s);
      forall sched: seq<Action<T>> ensures Exec(s, sched).dequeued != s.dequeued + [s.tasks[0]] {
        ExitedForever(s, sched);
      }
    } else {
      var sched := CanServe(s);
    }
  }
}
