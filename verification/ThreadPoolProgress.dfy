/** Liveness of the thread pool, stopped or not: left to itself, without new calls,
    it comes to rest after a bounded number of steps, with nothing queued as long
    as a worker is alive (4_EchoTcpServer/ThreadPool.hpp:24-53, 91-137). */
module ThreadPoolProgress {
  import opened ThreadPoolProtocol
  import opened ThreadPoolShutdown
  import opened Tally
  import opened Wrappers

  /** A step of a worker, of a call under way or of Start: no new call, no spurious wakeup. */
  predicate Proceeds<T>(a: Action<T>) {
    !a.CallEnqueue? && !a.CallStop? && !a.Spurious?
  }

  predicate CanProceed<T>(s: State<T>, a: Action<T>) {
    Proceeds(a) && Step(s, a).Some?
  }

  ghost predicate AllProceed<T>(s: State<T>, sched: seq<Action<T>>)
    decreases |sched|
  {
    sched == [] || (CanProceed(s, sched[0]) && AllProceed(Next(s, sched[0]), sched[1..]))
  }

  // ---------- Who is kept waiting, and by what ----------

  /** A worker is kept from its next action only by being asleep or by the mutex. */
  lemma WorkerBlockedIff<T>(s: State<T>, i: nat)
    requires Invariant(s) && i < |s.workers|
    ensures Step(s, Work(i)).None? <==>
            || s.workers[i].WNew? || s.workers[i].WWaiting? || s.workers[i].WExited?
            || ((s.workers[i].WAtLock? || s.workers[i].WWoken?) && s.owner != Free)
  {
    hide Sum, Handled;
    SumAtLeast(s.workers, i, Asleep);
  }

  /** A call under way is kept from its next action only by the mutex. */
  lemma ClientBlockedIff<T>(s: State<T>, c: nat)
    requires Invariant(s) && c < |s.clients|
    ensures Step(s, Serve(c, Waiting(s.workers))).None? <==>
            s.clients[c].CIdle? || ((s.clients[c].EAtLock? || s.clients[c].SAtLock?) && s.owner != Free)
  {
    SignalsWaiting(s.workers);
    hide Invariant, Wake, Waiting, Signals;
  }

  /** An idle client can always call Enqueue, and Stop once Start is through; it
      is then before Lock, and nothing else has changed. */
  lemma CallsBegin<T>(s: State<T>, c: nat, task: T)
    requires c < |s.clients|
    ensures Step(s, CallEnqueue(c, task)) ==
            if s.clients[c].CIdle? then Some(s.(clients := s.clients[c := EAtLock(task)])) else None
    ensures Step(s, CallStop(c)).Some? <==> s.clients[c].CIdle? && s.startCalled && AllStarted(s)
    ensures Step(s, CallStop(c)).Some? ==> Step(s, CallStop(c)).value == s.(clients := s.clients[c := SAtLock])
  {}

  ghost predicate Woken<T>(ws: seq<Worker<T>>, vs: seq<Worker<T>>, who: set<nat>) {
    |vs| == |ws| && forall k :: 0 <= k < |ws| ==>
      vs[k] == if ws[k].WWaiting? && k in who then WWoken else ws[k]
  }

  /** Which workers a notification wakes. After a push: none if the counter is zero;
      otherwise any choice that, if anybody waits, includes one who does. After
      _isrunning is cleared: all. And any waiting worker may wake by itself. */
  lemma WhoIsWoken<T>(s: State<T>, c: nat, woken: set<nat>, i: nat)
    requires Invariant(s) && c < |s.clients| && i < |s.workers|
    ensures s.clients[c].EPushed? ==>
              var t := Step(s, Serve(c, woken));
              && (t.None? <==> s.slaverSleepCount > 0 && !Signals(s.workers, woken))
              && (t.Some? ==> Woken(s.workers, t.value.workers, if s.slaverSleepCount > 0 then woken else {}))
    ensures s.clients[c].SCleared? ==>
              var t := Step(s, Serve(c, woken));
              t.Some? && forall k :: 0 <= k < |s.workers| ==>
                           k < |t.value.workers| && !t.value.workers[k].WWaiting?
    ensures s.workers[i].WWaiting? ==>
              Step(s, Spurious(i)).Some? && Woken(s.workers, Step(s, Spurious(i)).value.workers, {i})
  {
    NoLostWakeup(s);
    hide Invariant, Signals;
  }

  // ---------- The measure ----------

  /** How many steps a worker takes before it waits, with no more tasks to take. */
  function Effort<T>(w: Worker<T>): nat {
    match w
    case WTook(_) => 5
    case WNew => 4
    case WWoken => 4
    case WRunning(_) => 4
    case WAtLock => 3
    case WReacquired => 3
    case WTest => 2
    case WCounted => 1
    case WLeaving => 1
    case _ => 0
  }

  /** A signal or broadcast that this call may still send can cost each of n workers four steps. */
  predicate ToNotify<T>(c: Client<T>) { !c.CIdle? && !c.ESignalled? && !c.SNotified? }

  function CallEffort<T>(n: nat): (w: Client<T> -> nat) {
    c => CallRank(c) + if ToNotify(c) then 4 * n else 0
  }

  function ToStart<T>(s: State<T>): nat { if s.startCalled then 0 else 1 }

  function WorkLeft<T>(s: State<T>): nat {
    4 * |s.tasks| + Sum(s.workers, Effort) + Sum(s.clients, CallEffort(|s.workers|)) + ToStart(s)
  }

  lemma WakeEffort<T>(ws: seq<Worker<T>>, woken: set<nat>)
    ensures |Wake(ws, woken)| == |ws|
    ensures Sum(Wake(ws, woken), Effort) <= Sum(ws, Effort) + 4 * |ws|
  {
    hide Sum;
    WakeLeaves(ws, woken);
    hide Wake;
    FourMoreEach(ws, Wake(ws, woken), Effort);
  }

  /** Only a call that may still notify wakes workers, and it does so once. */
  lemma NotifiesOnce<T>(s: State<T>, c: nat, woken: set<nat>)
    requires Step(s, Serve(c, woken)).Some?
    ensures var t := Next(s, Serve(c, woken));
            && t.startCalled == s.startCalled
            && (ToNotify(t.clients[c]) ==> ToNotify(s.clients[c]))
            && (t.workers != s.workers ==> ToNotify(s.clients[c]) && !ToNotify(t.clients[c]))
  {
    hide Wake, Waiting, Signals;
  }

  lemma ServeLessWork<T>(s: State<T>, c: nat, woken: set<nat>)
    requires Step(s, Serve(c, woken)).Some?
    ensures WorkLeft(Next(s, Serve(c, woken))) < WorkLeft(s)
  {
    CallAdvances(s, c, woken);
    NotifiesOnce(s, c, woken);
    var t := Next(s, Serve(c, woken));
    WakeEffort(s.workers, woken);
    WakeEffort(s.workers, Waiting(s.workers));
    SumUpdate(s.clients, c, t.clients[c], CallEffort(|s.workers|));
    hide Sum, Step, Next, Wake, Waiting, CallRank, Effort;
  }

  lemma WorkerAdvancesItself<T>(s: State<T>, i: nat)
    requires i < |s.workers| && WorkerStep(s, i).Some?
    ensures var t := WorkerStep(s, i).value;
            && |t.workers| == |s.workers| && t.workers == s.workers[i := t.workers[i]] && t.clients == s.clients
            && t.startCalled == s.startCalled
            && 4 * |t.tasks| + Effort(t.workers[i]) < 4 * |s.tasks| + Effort(s.workers[i])
  {}

  lemma WorkerLessWork<T>(s: State<T>, i: nat)
    requires Step(s, Work(i)).Some?
    ensures WorkLeft(Next(s, Work(i))) < WorkLeft(s)
  {
    WorkerAdvancesItself(s, i);
    SumUpdate(s.workers, i, Next(s, Work(i)).workers[i], Effort);
    hide Sum, Step, Next, Effort, CallEffort;
  }

  lemma StartLessWork<T>(s: State<T>, a: Action<T>)
    requires Lifecycle(s) && (a.StartFlag? || a.StartSlaver?) && Step(s, a).Some?
    ensures WorkLeft(Next(s, a)) < WorkLeft(s)
  {
    hide Sum;
    var t := Next(s, a);
    if a.StartSlaver? {
      SumUpdate(s.workers, s.started, t.workers[s.started], Effort);
    }
  }

  lemma LessWork<T>(s: State<T>, a: Action<T>)
    requires Lifecycle(s) && CanProceed(s, a)
    ensures WorkLeft(Next(s, a)) < WorkLeft(s)
  {
    hide Lifecycle;
    match a {
      case Work(i) => WorkerLessWork(s, i);
      case Serve(c, woken) => ServeLessWork(s, c, woken);
      case _ =>
        hide Step, Next, WorkLeft;
        StartLessWork(s, a);
    }
  }

  // ---------- Where it comes to rest ----------

  ghost predicate AtRest<T(!new)>(s: State<T>) {
    forall a: Action<T> :: !CanProceed(s, a)
  }

  lemma {:induction false} RestStays<T(!new)>(s: State<T>, sched: seq<Action<T>>)
    requires AtRest(s) && forall k :: 0 <= k < |sched| ==> Proceeds(sched[k])
    ensures Exec(s, sched) == s
    decreases |sched|
  {
    if sched != [] {
      assert !CanProceed(s, sched[0]);
      RestStays(s, sched[1..]);
    }
  }

  lemma OwnerProceeds<T>(s: State<T>)
    requires Invariant(s) && s.owner != Free
    ensures exists a: Action<T> :: CanProceed(s, a)
  {
    hide Sum, Handled;
    match s.owner {
      case ByWorker(i) =>
        SumAtLeast(s.workers, i, Asleep);
        assert CanProceed(s, Work(i));
      case ByClient(c) =>
        SignalsWaiting(s.workers);
        assert CanProceed(s, Serve(c, Waiting(s.workers)));
    }
  }

  /** Start is through, all calls have returned, the workers wait or have exited. */
  lemma RestIsQuiet<T(!new)>(s: State<T>)
    requires Invariant(s) && AtRest(s)
    ensures s.owner == Free && AllStarted(s)
    ensures forall c :: 0 <= c < |s.clients| ==> s.clients[c].CIdle?
    ensures forall i :: 0 <= i < |s.workers| ==> s.workers[i].WWaiting? || s.workers[i].WExited?
  {
    hide Sum, Handled;
    assert !CanProceed(s, if s.startCalled then StartSlaver else StartFlag);
    if s.owner != Free {
      OwnerProceeds(s);
    }
    forall c | 0 <= c < |s.clients| ensures s.clients[c].CIdle? {
      assert !CanProceed(s, Serve(c, {}));
    }
    forall i | 0 <= i < |s.workers| ensures s.workers[i].WWaiting? || s.workers[i].WExited? {
      assert !CanProceed(s, Work(i));
    }
  }

  /** And nothing is queued, or nobody is left to take it. */
  lemma RestIsServed<T(!new)>(s: State<T>)
    requires Invariant(s) && AtRest(s)
    ensures multiset(s.executed) == multiset(s.dequeued)
    ensures s.tasks == [] || AllExited(s)
    ensures !AllExited(s) ==> AllExecuted(s)
  {
    RestIsQuiet(s);
    BagEmpty(s.workers, InHand);
    assert multiset(s.executed) == multiset(s.dequeued);
    if s.tasks != [] && !AllExited(s) {
      var sched := CanServe(s);
      RestStays(s, sched);
      assert false;
    }
    if s.tasks == [] {
      assert s.enqueued == s.dequeued;
    }
  }

  /** Main result on liveness: from any reachable state, whichever threads the
      scheduler prefers, at most WorkLeft(s) steps can be taken without a new call; a
      run that cannot go on has completed Start and all calls, and, unless all
      workers have exited, has executed everything enqueued exactly once. */
  lemma {:induction false} ComesToRest<T(!new)>(s: State<T>, sched: seq<Action<T>>)
    requires Invariant(s) && AllProceed(s, sched)
    ensures var t := Exec(s, sched);
            && |sched| + WorkLeft(t) <= WorkLeft(s) && Invariant(t)
            && (AtRest(t) ==>
                  && AllStarted(t) && (forall c :: 0 <= c < |t.clients| ==> t.clients[c].CIdle?)
                  && multiset(t.executed) == multiset(t.dequeued) && (!AllExited(t) ==> AllExecuted(t)))
    decreases |sched|
  {
    if sched == [] {
      if AtRest(s) {
        RestIsQuiet(s);
        RestIsServed(s);
      }
    } else {
      LessWork(s, sched[0]);
      StepKeepsInvariant(s, sched[0]);
      hide Invariant, Step, CanProceed, WorkLeft, AtRest, AllStarted, AllExited, AllExecuted;
      ComesToRest(Next(s, sched[0]), sched[1..]);
    }
  }
}
