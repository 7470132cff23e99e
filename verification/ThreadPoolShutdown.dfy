/** What Stop and Wait achieve: nothing enqueued before Stop is lost, and once
    _isrunning is cleared the pool drains and every worker exits within a bounded
    number of steps (4_EchoTcpServer/ThreadPool.hpp:33-50, 102-137). */
module ThreadPoolShutdown {
  import opened ThreadPoolProtocol
  import opened Tally

  /** At every moment the tasks leave the queue in the order they entered it, and
      each dequeued task is in one hand or executed. Once any worker has exited,
      all that was enqueued before Stop has been dequeued; once all have, every
      dequeued task has been executed exactly as often as it was enqueued. */
  lemma GracefulShutdown<T>(slaverNum: nat, clients: nat, sched: seq<Action<T>>)
    ensures var s := Exec(Init(slaverNum, clients), sched);
            && s.enqueued == s.dequeued + s.tasks
            && multiset(s.dequeued) == multiset(s.executed) + Bag(s.workers, InHand)
            && ((exists i :: 0 <= i < |s.workers| && s.workers[i].WExited?) ==>
                  s.stopMark.Some? && s.stopMark.value <= |s.dequeued|
                  && s.enqueued[..s.stopMark.value] == s.dequeued[..s.stopMark.value])
            && (AllExited(s) ==> multiset(s.executed) == multiset(s.dequeued))
  {
    hide Bag, Sum;
    AlwaysInvariant(slaverNum, clients, sched);
    var s := Exec(Init(slaverNum, clients), sched);
    if AllExited(s) {
      BagEmpty(s.workers, InHand);
    }
  }

  /** _isrunning is cleared and the broadcast, if any was due, is done. */
  ghost predicate Stopped<T>(s: State<T>) {
    s.stopMark.Some? && Sum(s.workers, Waits) == 0
  }

  lemma StoppedAfterStop<T>(s: State<T>)
    requires Invariant(s) && s.stopMark.Some?
    requires forall c :: 0 <= c < |s.clients| ==> !s.clients[c].SCleared?
    ensures Stopped(s)
  {
    hide Sum;
    SumZero(s.clients, Clearing);
  }

  /** After Stop nobody waits, for ever. */
  lemma {:induction false} StoppedForever<T>(s: State<T>, sched: seq<Action<T>>)
    requires Invariant(s) && Stopped(s)
    ensures Stopped(Exec(s, sched)) && Exec(s, sched).stopMark == s.stopMark
    decreases |sched|
  {
    if sched != [] {
      if Step(s, sched[0]).Some? {
        StoppedStep(s, sched[0]);
        StepKeepsInvariant(s, sched[0]);
      }
      hide Invariant, Step, Stopped;
      StoppedForever(Next(s, sched[0]), sched[1..]);
    }
  }

  lemma StoppedStep<T>(s: State<T>, a: Action<T>)
    requires Invariant(s) && Stopped(s) && Step(s, a).Some?
    ensures Stopped(Step(s, a).value) && Step(s, a).value.stopMark == s.stopMark
  {
    hide Sum, Handled;
    var t := Step(s, a).value;
    SumPositive(s.workers, Waits);
    if Sum(t.workers, Waits) > 0 {
      SumPositive(t.workers, Waits);
      var i :| 0 <= i < |t.workers| && Waits(t.workers[i]) > 0;
      NobodyFallsAsleep(s, a, i);
      assert false;
    }
  }

  lemma NobodyFallsAsleep<T>(s: State<T>, a: Action<T>, i: nat)
    requires Locks(s) && Lifecycle(s) && s.stopMark.Some? && Step(s, a).Some?
    requires i < |s.workers| && !s.workers[i].WWaiting?
    ensures !Step(s, a).value.workers[i].WWaiting?
  {
    WakeLeaves(s.workers, if a.Serve? then a.woken else {});
    WakeLeaves(s.workers, Waiting(s.workers));
    hide Wake, Waiting, Signals;
  }

  /** Any thread's next action, but no new call of Enqueue or Stop. */
  predicate CanGo<T>(s: State<T>, a: Action<T>) {
    !a.CallEnqueue? && !a.CallStop? && Step(s, a).Some?
  }

  /** How many steps a worker is from having exited, with no more tasks to take. */
  function Rank<T>(w: Worker<T>): nat {
    match w
    case WCounted => 6
    case WWaiting => 5
    case WTook(_) => 5
    case WWoken => 4
    case WRunning(_) => 4
    case WReacquired => 3
    case WAtLock => 3
    case WTest => 2
    case WLeaving => 1
    case _ => 0
  }

  /** How many steps a client's call still takes; a task yet to be pushed counts for four. */
  function CallRank<T>(c: Client<T>): nat {
    match c
    case CIdle => 0
    case EAtLock(_) => 8
    case EHolding(_) => 7
    case SAtLock => 4
    case SHolding => 3
    case EPushed => 2
    case SCleared => 2
    case ESignalled => 1
    case SNotified => 1
  }

  function Measure<T>(s: State<T>): nat {
    4 * |s.tasks| + Sum(s.workers, Rank) + Sum(s.clients, CallRank)
  }

  lemma WorkDecreases<T>(s: State<T>, i: nat)
    requires Invariant(s) && s.stopMark.Some? && Step(s, Work(i)).Some?
    ensures Measure(Step(s, Work(i)).value) < Measure(s)
  {
    hide Sum, Handled, Wakeups;
    var t := Step(s, Work(i)).value;
    SumUpdate(s.workers, i, t.workers[i], Rank);
  }

  lemma WakeRank<T>(ws: seq<Worker<T>>, woken: set<nat>)
    ensures Sum(Wake(ws, woken), Rank) <= Sum(ws, Rank)
    ensures (exists i :: 0 <= i < |ws| && i in woken && ws[i].WWaiting?) ==> Sum(Wake(ws, woken), Rank) < Sum(ws, Rank)
  {
    hide Sum;
    var vs := Wake(ws, woken);
    SumLess(ws, vs, Rank);
    if i :| 0 <= i < |ws| && i in woken && ws[i].WWaiting? {
      assert Rank(vs[i]) < Rank(ws[i]);
    }
  }

  /** A client's step brings its call forward, and only a notification touches workers. */
  lemma CallAdvances<T>(s: State<T>, c: nat, woken: set<nat>)
    requires Step(s, Serve(c, woken)).Some?
    ensures var t := Step(s, Serve(c, woken)).value;
            && t.clients == s.clients[c := t.clients[c]]
            && 4 * |t.tasks| + CallRank(t.clients[c]) < 4 * |s.tasks| + CallRank(s.clients[c])
            && (t.workers == s.workers || t.workers == Wake(s.workers, woken)
                || t.workers == Wake(s.workers, Waiting(s.workers)))
  {
    hide Wake, Waiting, Signals;
  }

  lemma ServeDecreases<T>(s: State<T>, c: nat, woken: set<nat>)
    requires Step(s, Serve(c, woken)).Some?
    ensures Measure(Step(s, Serve(c, woken)).value) < Measure(s)
  {
    CallAdvances(s, c, woken);
    var t := Step(s, Serve(c, woken)).value;
    WakeRank(s.workers, woken);
    WakeRank(s.workers, Waiting(s.workers));
    SumUpdate(s.clients, c, t.clients[c], CallRank);
    hide Sum, Step, Wake, Waiting, CallRank, Rank;
  }

  /** Once _isrunning is cleared every step but a new call uses up some of Measure. */
  lemma GoDecreases<T>(s: State<T>, a: Action<T>)
    requires Invariant(s) && s.stopMark.Some? && CanGo(s, a)
    ensures Measure(Next(s, a)) < Measure(s)
  {
    match a {
      case Work(i) => WorkDecreases(s, i);
      case Serve(c, woken) => ServeDecreases(s, c, woken);
      case Spurious(i) => WakeRank(s.workers, {i});
      case _ =>
    }
  }

  /** Client `spare` (if it is one) is left where it is: at the lock, before pushing its task. */
  predicate Spared<T>(s: State<T>, spare: nat) {
    spare < |s.clients| ==> s.clients[spare].EAtLock?
  }

  /** All workers have exited and all calls, but that of the spared client, have returned. */
  ghost predicate OthersDone<T>(s: State<T>, spare: nat) {
    AllExited(s) && forall c :: 0 <= c < |s.clients| && c != spare ==> s.clients[c].CIdle?
  }

  /** Until then some thread can go on, even if the spared client does not. */
  lemma SomeoneGoes<T>(s: State<T>, spare: nat)
    requires Invariant(s) && s.stopMark.Some? && Spared(s, spare) && !OthersDone(s, spare)
    ensures exists a: Action<T> :: !a.Spurious? && CanGo(s, a) && !(a.Serve? && a.c == spare)
  {
    hide Sum, Handled;
    match s.owner {
      case ByWorker(i) =>
        SumAtLeast(s.workers, i, Asleep);
        assert CanGo(s, Work(i));
      case ByClient(c) =>
        SignalsWaiting(s.workers);
        assert CanGo(s, Serve(c, Waiting(s.workers)));
      case Free =>
        if c :| 0 <= c < |s.clients| && c != spare && !s.clients[c].CIdle? {
          assert CanGo(s, Serve(c, {}));
        } else {
          var j :| 0 <= j < |s.workers| && !s.workers[j].WExited?;
          StoppedAfterStop(s);
          SumPositive(s.workers, Waits);
          assert Waits(s.workers[j]) == 0;
          assert CanGo(s, Work(j));
        }
    }
  }

  lemma SignalsWaiting<T>(ws: seq<Worker<T>>)
    ensures Signals(ws, Waiting(ws))
  {}

  /** No task is on its way into a queue that nobody will look at again: no
      client waits for the mutex in Enqueue, and if one is about to push, or a
      task is queued, some worker is alive. */
  ghost predicate NoneLate<T>(s: State<T>) {
    && (forall c :: 0 <= c < |s.clients| ==> !s.clients[c].EAtLock?)
    && (Coming(s) ==> !AllExited(s))
  }

  predicate Coming<T>(s: State<T>) {
    s.tasks != [] || exists c :: 0 <= c < |s.clients| && s.clients[c].EHolding?
  }

  /** Woken or not, a worker has exited or has not. */
  ghost predicate SameExits<T>(ws: seq<Worker<T>>, vs: seq<Worker<T>>) {
    |vs| == |ws| && forall i :: 0 <= i < |ws| ==> (vs[i].WExited? <==> ws[i].WExited?)
  }

  lemma WorkKeepsNoneLate<T>(s: State<T>, i: nat)
    requires Locks(s) && Lifecycle(s) && s.stopMark.Some? && NoneLate(s) && Step(s, Work(i)).Some?
    ensures NoneLate(Next(s, Work(i)))
  {
    var t := Next(s, Work(i));
    if Coming(t) {
      var j :| 0 <= j < |s.workers| && !s.workers[j].WExited?;
      assert !t.workers[j].WExited?;
    }
  }

  lemma ServeKeepsExits<T>(s: State<T>, c: nat, woken: set<nat>)
    ensures SameExits(s.workers, Next(s, Serve(c, woken)).workers)
  {
    WakeLeaves(s.workers, woken);
    WakeLeaves(s.workers, Waiting(s.workers));
    hide Wake, Waiting, Signals;
  }

  /** What a client's step does to clients and tasks. */
  lemma ServeBrings<T>(s: State<T>, c: nat, woken: set<nat>)
    requires Step(s, Serve(c, woken)).Some? && !s.clients[c].EAtLock?
    ensures var t := Next(s, Serve(c, woken));
            && t.clients == s.clients[c := t.clients[c]] && !t.clients[c].EAtLock? && !t.clients[c].EHolding?
            && (!s.clients[c].EHolding? ==> t.tasks == s.tasks)
  {
    hide Wake, Waiting, Signals;
  }

  lemma ServeKeepsNoneLate<T>(s: State<T>, c: nat, woken: set<nat>)
    requires NoneLate(s) && Step(s, Serve(c, woken)).Some?
    ensures NoneLate(Next(s, Serve(c, woken)))
  {
    var t := Next(s, Serve(c, woken));
    assert !s.clients[c].EAtLock?;
    ServeBrings(s, c, woken);
    ServeKeepsExits(s, c, woken);
    hide Step, Next;
    if Coming(t) {
      assert Coming(s);
    }
  }

  lemma GoKeeps<T>(s: State<T>, a: Action<T>)
    requires Invariant(s) && s.stopMark.Some? && CanGo(s, a)
    ensures var t := Next(s, a); Invariant(t) && t.stopMark == s.stopMark && (NoneLate(s) ==> NoneLate(t))
  {
    hide Sum, Handled, Wakeups;
    StepKeepsInvariant(s, a);
    if NoneLate(s) {
      match a {
        case Work(i) => WorkKeepsNoneLate(s, i);
        case Serve(c, woken) => ServeKeepsNoneLate(s, c, woken);
        case _ =>
      }
    }
    hide Wake, Waiting, Signals, NoneLate;
  }

  predicate SameShape<T>(s: State<T>, t: State<T>) {
    |t.workers| == |s.workers| && |t.clients| == |s.clients|
  }

  lemma GoSpares<T>(s: State<T>, a: Action<T>, spare: nat)
    requires Spared(s, spare) && CanGo(s, a) && !(a.Serve? && a.c == spare)
    ensures SameShape(s, Next(s, a)) && Spared(Next(s, a), spare)
  {
    if a.Serve? {
      CallAdvances(s, a.c, a.woken);
    }
    hide Wake, Waiting, Signals, ClientStep;
  }

  /** Every step of the schedule is one that its thread can take, and none is a new call. */
  ghost predicate AllGo<T>(s: State<T>, sched: seq<Action<T>>)
    decreases |sched|
  {
    sched == [] || (CanGo(s, sched[0]) && AllGo(Next(s, sched[0]), sched[1..]))
  }

  /** The workers are gone, the calls have returned, each task ever taken has been
      executed as often as it was enqueued, and what was enqueued before Stop was taken. */
  ghost predicate Drained<T>(s: State<T>) {
    && AllExited(s) && (forall c :: 0 <= c < |s.clients| ==> s.clients[c].CIdle?)
    && s.enqueued == s.dequeued + s.tasks && multiset(s.executed) == multiset(s.dequeued)
    && (s.stopMark.Some? && |s.workers| > 0 ==> s.stopMark.value <= |s.dequeued|)
  }

  /** Nothing is left to do, except for new calls. */
  ghost predicate Complete<T(!new)>(s: State<T>) {
    forall a: Action<T> :: !CanGo(s, a)
  }

  lemma CompleteIsDone<T(!new)>(s: State<T>)
    requires Invariant(s) && s.stopMark.Some?
    ensures Complete(s) <==> OthersDone(s, |s.clients|)
  {
    hide Sum, Handled;
    if !OthersDone(s, |s.clients|) {
      SomeoneGoes(s, |s.clients|);
    }
  }

  lemma DoneIsDrained<T>(s: State<T>)
    requires Invariant(s) && s.stopMark.Some? && OthersDone(s, |s.clients|)
    ensures Drained(s)
  {
    BagEmpty(s.workers, InHand);
    hide Sum, Bag;
    if |s.workers| > 0 {
      assert s.workers[0].WExited?;
    }
  }

  /** Main result on Wait: from the moment Stop clears _isrunning, whatever calls
      are still under way, every run without new calls is bounded by Measure, and
      one that cannot go on is drained. */
  lemma {:induction false} DrainTerminates<T(!new)>(s: State<T>, sched: seq<Action<T>>)
    requires Invariant(s) && s.stopMark.Some? && AllGo(s, sched)
    ensures var t := Exec(s, sched);
            && |sched| + Measure(t) <= Measure(s)
            && Invariant(t) && t.stopMark == s.stopMark && (NoneLate(s) ==> NoneLate(t))
            && (Complete(t) ==> Drained(t))
    decreases |sched|
  {
    if sched == [] {
      hide Invariant, CanGo, Measure, NoneLate;
      if Complete(s) {
        CompleteIsDone(s);
        DoneIsDrained(s);
      }
    } else {
      GoDecreases(s, sched[0]);
      GoKeeps(s, sched[0]);
      hide Invariant, Step, CanGo, Measure, NoneLate, Drained;
      DrainTerminates(Next(s, sched[0]), sched[1..]);
    }
  }

  /** One step towards that, and what it keeps. */
  lemma DrainStep<T>(s: State<T>, spare: nat) returns (a: Action<T>, t: State<T>)
    requires Invariant(s) && s.stopMark.Some? && Spared(s, spare) && !OthersDone(s, spare)
    ensures !a.Spurious? && CanGo(s, a) && t == Next(s, a)
    ensures Invariant(t) && t.stopMark == s.stopMark && SameShape(s, t) && Spared(t, spare)
    ensures Measure(t) < Measure(s)
  {
    SomeoneGoes(s, spare);
    hide Invariant, Step, Measure, OthersDone, Spared;
    a :| !a.Spurious? && CanGo(s, a) && !(a.Serve? && a.c == spare);
    t := Next(s, a);
    GoDecreases(s, a);
    GoKeeps(s, a);
    GoSpares(s, a, spare);
  }

  /** A run that leaves the spared client where it is, without spurious wakeups. */
  lemma {:induction false} DrainAllBut<T>(s: State<T>, spare: nat) returns (sched: seq<Action<T>>)
    requires Invariant(s) && s.stopMark.Some? && Spared(s, spare)
    ensures AllGo(s, sched) && (forall k :: 0 <= k < |sched| ==> !sched[k].Spurious?)
    ensures var t := Exec(s, sched);
            Invariant(t) && t.stopMark == s.stopMark && OthersDone(t, spare) && SameShape(s, t) && Spared(t, spare)
    decreases Measure(s)
  {
    hide Invariant, Step, CanGo, Measure, OthersDone;
    if OthersDone(s, spare) {
      sched := [];
    } else {
      var a, t := DrainStep(s, spare);
      var rest := DrainAllBut(t, spare);
      sched := [a] + rest;
    }
  }

  /** A complete run exists, without the help of spurious wakeups: Wait returns. */
  lemma DrainExists<T(!new)>(s: State<T>) returns (sched: seq<Action<T>>)
    requires Invariant(s) && s.stopMark.Some?
    ensures AllGo(s, sched) && (forall k :: 0 <= k < |sched| ==> !sched[k].Spurious?)
    ensures Complete(Exec(s, sched)) && Drained(Exec(s, sched)) && SameShape(s, Exec(s, sched))
  {
    hide Invariant, OthersDone, Drained, Complete;
    sched := DrainAllBut(s, |s.clients|);
    CompleteIsDone(Exec(s, sched));
    DoneIsDrained(Exec(s, sched));
  }

  // ---------- Which pools execute everything ----------

  /** Every task ever enqueued has been executed exactly as often. */
  predicate AllExecuted<T(==)>(s: State<T>) {
    multiset(s.executed) == multiset(s.enqueued)
  }

  lemma {:induction false} AllGoAppend<T>(s: State<T>, a: seq<Action<T>>, b: seq<Action<T>>)
    requires AllGo(s, a) && AllGo(Exec(s, a), b)
    ensures AllGo(s, a + b)
    decreases |a|
  {
    hide Next, CanGo;
    if a == [] {
      assert a + b == b;
    } else {
      assert (a + b)[1..] == a[1..] + b;
      AllGoAppend(Next(s, a[0]), a[1..], b);
    }
  }

  /** A task that is still queued when all workers are gone is executed by no run. */
  lemma QueuedIsLost<T(!new)>(s: State<T>) returns (sched: seq<Action<T>>)
    requires Invariant(s) && s.stopMark.Some? && AllExited(s) && s.tasks != []
    ensures AllGo(s, sched) && Complete(Exec(s, sched)) && !AllExecuted(Exec(s, sched))
  {
    sched := DrainExists(s);
    ExitedWereStarted(s);
    ExitedForever(s, sched);
    var t := Exec(s, sched);
    hide Invariant, AllExited, AllStarted, Exec, AllGo, Complete;
    assert t.tasks != [] && |t.dequeued| < |t.enqueued|;
    assert |multiset(t.executed)| == |multiset(t.dequeued)|;
  }

  /** A client that holds the mutex when all workers are gone pushes a task that is lost. */
  lemma PushedIsLost<T(!new)>(s: State<T>, c: nat) returns (sched: seq<Action<T>>)
    requires Invariant(s) && s.stopMark.Some? && AllExited(s) && c < |s.clients| && s.clients[c].EHolding?
    ensures AllGo(s, sched) && Complete(Exec(s, sched)) && !AllExecuted(Exec(s, sched))
  {
    var a: Action<T> := Serve(c, {});
    assert CanGo(s, a) && AllExited(Next(s, a)) && Next(s, a).tasks != [];
    GoKeeps(s, a);
    hide Invariant, Step, CanGo, AllExited, AllExecuted, Complete;
    var rest := QueuedIsLost(Next(s, a));
    sched := [a] + rest;
  }

  lemma NobodyHolds<T>(s: State<T>, spare: nat)
    requires Invariant(s) && OthersDone(s, spare) && Spared(s, spare)
    ensures s.owner.Free?
  {
    hide Sum, Handled;
  }

  /** When all others are done the spared client gets the mutex. */
  lemma SparedLocks<T>(s: State<T>, c: nat)
    requires Invariant(s) && s.stopMark.Some? && c < |s.clients| && OthersDone(s, c) && Spared(s, c)
    ensures var a: Action<T>, t := Serve(c, {}), Next(s, Serve(c, {}));
            && CanGo(s, a) && Invariant(t) && t.stopMark.Some?
            && AllExited(t) && c < |t.clients| && t.clients[c].EHolding?
  {
    NobodyHolds(s, c);
    var a: Action<T> := Serve(c, {});
    assert CanGo(s, a);
    GoKeeps(s, a);
    hide Invariant;
  }

  /** A client still waiting for the mutex can be overtaken by all workers. */
  lemma OvertakenIsLost<T(!new)>(s: State<T>, c: nat) returns (sched: seq<Action<T>>)
    requires Invariant(s) && s.stopMark.Some? && c < |s.clients| && s.clients[c].EAtLock?
    ensures AllGo(s, sched) && Complete(Exec(s, sched)) && !AllExecuted(Exec(s, sched))
  {
    hide Invariant, Step, CanGo, AllExited, OthersDone, AllExecuted, Complete, Measure;
    var first := DrainAllBut(s, c);
    var t := Exec(s, first);
    SparedLocks(t, c);
    var a: Action<T> := Serve(c, {});
    var rest := PushedIsLost(Next(t, a), c);
    assert ([a] + rest)[1..] == rest;
    AllGoAppend(s, first, [a] + rest);
    ExecAppend(s, first, [a] + rest);
    sched := first + ([a] + rest);
  }

  ghost predicate AlwaysExecutesAll<T(!new)>(s: State<T>) {
    forall sched: seq<Action<T>> :: AllGo(s, sched) && Complete(Exec(s, sched)) ==> AllExecuted(Exec(s, sched))
  }

  /** Exactly when every complete run executes everything that was enqueued: no
      task is late. A caller of Enqueue that may wait for the mutex until all
      workers have left, or that pushes after that, can lose its task. */
  lemma ExecutesAllIff<T(!new)>(s: State<T>)
    requires Invariant(s) && s.stopMark.Some?
    ensures AlwaysExecutesAll(s) <==> NoneLate(s)
  {
    hide Invariant, AllGo, Complete, AllExecuted;
    if NoneLate(s) {
      forall sched: seq<Action<T>> | AllGo(s, sched) && Complete(Exec(s, sched)) ensures AllExecuted(Exec(s, sched)) {
        DrainTerminates(s, sched);
        DrainedInTime(Exec(s, sched));
      }
    } else {
      var sched: seq<Action<T>>;
      if c :| 0 <= c < |s.clients| && s.clients[c].EAtLock? {
        sched := OvertakenIsLost(s, c);
      } else if s.tasks != [] {
        sched := QueuedIsLost(s);
      } else {
        var c :| 0 <= c < |s.clients| && s.clients[c].EHolding?;
        sched := PushedIsLost(s, c);
      }
    }
  }

  lemma DrainedInTime<T>(s: State<T>)
    requires Drained(s) && NoneLate(s)
    ensures AllExecuted(s)
  {
    assert s.enqueued == s.dequeued;
  }

  /** Enqueue after the last worker has left: the task is accepted, and however
      the program goes on it stays in the queue and is never executed. */
  lemma EnqueueAfterExitIsLost<T>(s: State<T>, c: nat, task: T, later: seq<Action<T>>)
    requires Invariant(s) && AllExited(s)
    requires s.owner.Free? && c < |s.clients| && s.clients[c].CIdle?
    ensures var call := [CallEnqueue(c, task), Serve(c, {}), Serve(c, {}), Serve(c, {}), Serve(c, {})];
            var t := Exec(s, call);
            && t.tasks == s.tasks + [task] && t.enqueued == s.enqueued + [task] && t.clients == s.clients
            && t.tasks <= Exec(t, later).tasks && Exec(t, later).executed == s.executed
  {
    hide Exec, Handled;
    ExitedWereStarted(s);
    SumZero(s.workers, Asleep);
    var b: Action<T> := Serve(c, {});
    var call := [CallEnqueue(c, task), b, b, b, b];
    var t1 := s.(clients := s.clients[c := EAtLock(task)]);
    var t2 := t1.(owner := ByClient(c), clients := t1.clients[c := EHolding(task)]);
    var t3 := t2.(tasks := s.tasks + [task], enqueued := s.enqueued + [task], clients := t2.clients[c := EPushed]);
    var t4 := t3.(clients := t3.clients[c := ESignalled]);
    var t5 := t4.(owner := Free, clients := t4.clients[c := CIdle]);
    assert Next(s, call[0]) == t1 && Next(t1, b) == t2 && Next(t2, b) == t3 && Next(t3, b) == t4 && Next(t4, b) == t5;
    ExecFive(s, call, t1, t2, t3, t4, t5);
    assert t5.clients == s.clients;
    ExitedForever(t5, later);
  }

  lemma ExecFive<T>(s: State<T>, a: seq<Action<T>>, t1: State<T>, t2: State<T>,
                     t3: State<T>, t4: State<T>, t5: State<T>)
    requires |a| == 5
    requires Next(s, a[0]) == t1 && Next(t1, a[1]) == t2 && Next(t2, a[2]) == t3
    requires Next(t3, a[3]) == t4 && Next(t4, a[4]) == t5
    ensures Exec(s, a) == t5
  {
    hide Next;
    assert Exec(t4, a[4..]) == Exec(t5, []) == t5;
    assert Exec(t3, a[3..]) == Exec(t4, a[4..]) by { assert a[3..][1..] == a[4..]; }
    assert Exec(t2, a[2..]) == Exec(t3, a[3..]) by { assert a[2..][1..] == a[3..]; }
    assert Exec(t1, a[1..]) == Exec(t2, a[2..]) by { assert a[1..][1..] == a[2..]; }
  }

  /** Start, run by itself: one flag, then one step for each worker. */
  lemma {:induction false} StartsAll<T>(s: State<T>) returns (sched: seq<Action<T>>)
    requires Invariant(s) && s.startCalled && s.owner.Free? && forall c :: 0 <= c < |s.clients| ==> s.clients[c].CIdle?
    ensures var t := Exec(s, sched);
            Invariant(t) && t.startCalled && AllStarted(t) && t.owner.Free?
            && t.clients == s.clients && |t.workers| == |s.workers|
    decreases if s.started <= |s.workers| then |s.workers| - s.started else 0
  {
    assert s.started <= |s.workers|;
    if AllStarted(s) {
      sched := [];
    } else {
      var a: Action<T> := StartSlaver;
      StepKeepsInvariant(s, a);
      hide Invariant;
      var rest := StartsAll(Next(s, a));
      sched := [a] + rest;
    }
  }

  /** Stop, uncontended, up to the clearing of _isrunning. */
  lemma StopClears<T>(s: State<T>, c: nat)
    requires Invariant(s) && s.startCalled && AllStarted(s) && s.owner.Free? && c < |s.clients| && s.clients[c].CIdle?
    ensures var t := Exec(s, [CallStop(c), Serve(c, {}), Serve(c, {})]);
            Invariant(t) && t.stopMark.Some? && |t.workers| == |s.workers| && |t.clients| == |s.clients|
  {
    hide Handled;
    var b: Action<T> := Serve(c, {});
    var call := [CallStop(c), b, b];
    RunKeepsInvariant(s, call);
    var t1 := s.(clients := s.clients[c := SAtLock]);
    var t2 := t1.(owner := ByClient(c), clients := t1.clients[c := SHolding]);
    assert Next(s, call[0]) == t1 && Next(t1, b) == t2;
    var t3 := Next(t2, b);
    assert Exec(t2, [b]) == t3 by { assert [b][1..] == []; }
    assert Exec(t1, [b, b]) == Exec(t2, [b]) by { assert [b, b][1..] == [b]; }
    assert Exec(s, call) == Exec(t1, [b, b]) by { assert call[1..] == [b, b]; }
  }

  /** Such states are reached, with any number of workers: Start, one Stop, and a drain. */
  lemma AllExitedIsReached<T(!new)>(slaverNum: nat, clients: nat) returns (sched: seq<Action<T>>)
    requires clients > 0
    ensures var s := Exec(Init(slaverNum, clients), sched);
            && Invariant(s) && AllExited(s) && s.owner.Free?
            && |s.workers| == slaverNum && |s.clients| == clients && s.clients[0].CIdle?
  {
    var s0: State<T> := Init(slaverNum, clients);
    AlwaysInvariant<T>(slaverNum, clients, []);
    var flagged := FlagSet(s0);
    var first := StartsAll(flagged);
    var started := Exec(flagged, first);
    var second: seq<Action<T>> := [CallStop(0), Serve(0, {}), Serve(0, {})];
    StopClears(started, 0);
    var stopped := Exec(started, second);
    var third := DrainExists(stopped);
    hide Exec, Invariant, Complete, AllGo;
    sched := [StartFlag] + first + second + third;
    ExecAppend(s0, [StartFlag] + first + second, third);
    ExecAppend(s0, [StartFlag] + first, second);
    ExecAppend(s0, [StartFlag], first);
    RunKeepsInvariant(stopped, third);
    NobodyHolds(Exec(s0, sched), clients);
  }

  /** So every pool can lose a task. */
  lemma TasksCanBeLost<T(!new)>(slaverNum: nat, clients: nat, task: T) returns (before: seq<Action<T>>)
    requires clients > 0
    ensures var s := Exec(Init(slaverNum, clients), before);
            var t := Exec(s, [CallEnqueue(0, task), Serve(0, {}), Serve(0, {}), Serve(0, {}), Serve(0, {})]);
            && |s.workers| == slaverNum && |s.clients| == clients && t.clients == s.clients
            && s.clients[0].CIdle? && t.enqueued == s.enqueued + [task]
            && forall later: seq<Action<T>> ::
                 s.tasks + [task] <= Exec(t, later).tasks && Exec(t, later).executed == s.executed
  {
    before := AllExitedIsReached(slaverNum, clients);
    hide Exec, Invariant, AllExited;
    var s := Exec(Init(slaverNum, clients), before);
    forall later: seq<Action<T>> {
      EnqueueAfterExitIsLost(s, 0, task, later);
    }
    EnqueueAfterExitIsLost(s, 0, task, []);
  }

  lemma FlagSet<T>(s: State<T>) returns (t: State<T>)
    requires Invariant(s) && !s.startCalled
    ensures t == Exec(s, [StartFlag]) == s.(startCalled := true, isrunning := true) && Invariant(t)
  {
    RunKeepsInvariant(s, [StartFlag]);
    t := s.(startCalled := true, isrunning := true);
    var call: seq<Action<T>> := [StartFlag];
    assert call[1..] == [];
  }
}
