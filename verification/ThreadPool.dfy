/** The class of 4_EchoTcpServer/ThreadPool.hpp, run by many threads.

    The real fields are the source's; `exited` is what pthread_join can observe
    and `log` is the schedule that led here, so every state is one the protocol
    reaches. Wherever a thread may be preempted or blocked it calls `Block`,
    whose contract lets the other threads take any steps they can. */
module ThreadPoolClass {
  import opened ThreadPoolProtocol
  import opened ThreadPoolShutdown
  import opened Tally
  import opened Wrappers

  datatype Thread = TWorker(i: nat) | TClient(c: nat) | TStarter | TJoiner

  /** The actions that are a thread's own: nobody else takes them. */
  predicate Own<T>(a: Action<T>, who: Thread) {
    match who
    case TWorker(i) => a.Work? && a.i == i
    case TClient(c) => (a.CallEnqueue? && a.c == c) || (a.CallStop? && a.c == c) || (a.Serve? && a.c == c)
    case TStarter => a.StartFlag? || a.StartSlaver?
    case TJoiner => false
  }

  ghost predicate Foreign<T>(sched: seq<Action<T>>, who: Thread) {
    forall k :: 0 <= k < |sched| ==> !Own(sched[k], who)
  }

  /** The task that this action executes (a worker's) or puts into the queue (a client's), if any. */
  function Effect<T>(s: State<T>, a: Action<T>, who: Thread): seq<T> {
    match who
    case TWorker(i) => if a == Work(i) && i < |s.workers| && s.workers[i].WRunning? then [s.workers[i].task] else []
    case TClient(c) =>
      if a.Serve? && a.c == c && c < |s.clients| && s.clients[c].EHolding? then [s.clients[c].task] else []
    case _ => []
  }

  /** The tasks that worker i executes, or that client c enqueues, along a schedule. */
  function DoneBy<T>(s: State<T>, sched: seq<Action<T>>, who: Thread): seq<T>
    decreases |sched|
  {
    if sched == [] then [] else Effect(s, sched[0], who) + DoneBy(Next(s, sched[0]), sched[1..], who)
  }

  lemma {:induction false} DoneByAppend<T>(s: State<T>, a: seq<Action<T>>, b: seq<Action<T>>, who: Thread)
    ensures DoneBy(s, a + b, who) == DoneBy(s, a, who) + DoneBy(Exec(s, a), b, who)
    decreases |a|
  {
    hide Next, Effect;
    if a == [] {
      assert a + b == b;
    } else {
      assert (a + b)[1..] == a[1..] + b;
      DoneByAppend(Next(s, a[0]), a[1..], b, who);
      assert DoneBy(s, a + b, who) ==
             Effect(s, a[0], who) + (DoneBy(Next(s, a[0]), a[1..], who) + DoneBy(Exec(s, a), b, who));
    }
  }

  /** How many actions of a schedule are the thread's own. */
  ghost function Turns<T>(sched: seq<Action<T>>, who: Thread): nat
    decreases |sched|
  {
    if sched == [] then 0
    else Turns(sched[..|sched| - 1], who) + if Own(sched[|sched| - 1], who) then 1 else 0
  }

  lemma {:induction false} ForeignTurns<T>(before: seq<Action<T>>, steps: seq<Action<T>>, who: Thread)
    requires Foreign(steps, who)
    ensures Turns(before + steps, who) == Turns(before, who)
    decreases |steps|
  {
    if steps == [] {
      assert before + steps == before;
    } else {
      assert (before + steps)[..|before + steps| - 1] == before + steps[..|steps| - 1];
      ForeignTurns(before, steps[..|steps| - 1], who);
    }
  }

  /** Nothing the thread could do next is possible. */
  ghost predicate Blocked<T>(s: State<T>, who: Thread) {
    match who
    case TWorker(i) => Step(s, Work(i)).None?
    case TClient(c) => forall woken :: Step(s, Serve(c, woken)).None?
    case _ => false
  }

  lemma WorkerBlocked<T>(s: State<T>, i: nat)
    requires i < |s.workers|
    requires var w := s.workers[i]; w.WWaiting? || (s.owner != Free && (w.WAtLock? || w.WWoken?))
    ensures Blocked(s, TWorker(i))
  {}

  lemma ClientBlocked<T>(s: State<T>, c: nat)
    requires c < |s.clients| && s.owner != Free && (s.clients[c].EAtLock? || s.clients[c].SAtLock?)
    ensures Blocked(s, TClient(c))
  {
    hide Wake, Waiting, Signals;
  }

  /** What the other threads can do to a thread: wake it, and nothing else. */
  ghost predicate Untouched<T>(s: State<T>, t: State<T>, who: Thread) {
    && |t.workers| == |s.workers| && |t.clients| == |s.clients|
    && (forall k :: 0 <= k < |s.workers| && s.workers[k].WExited? ==> t.workers[k].WExited?)
    && match who
       case TWorker(i) =>
         i < |s.workers| && !s.workers[i].WNew? ==>
           t.workers[i] == s.workers[i] || (s.workers[i].WWaiting? && t.workers[i].WWoken?)
       case TClient(c) => c < |s.clients| ==> t.clients[c] == s.clients[c]
       case TStarter => t.startCalled == s.startCalled && t.started == s.started
       case TJoiner => true
  }

  lemma WorkLeaves<T>(s: State<T>, i: nat, who: Thread)
    requires Lifecycle(s) && !Own<T>(Work(i), who)
    ensures Untouched(s, Next(s, Work(i)), who)
  {}

  lemma ServeLeaves<T>(s: State<T>, c: nat, woken: set<nat>, who: Thread)
    requires Lifecycle(s) && !Own<T>(Serve(c, woken), who)
    ensures Untouched(s, Next(s, Serve(c, woken)), who)
  {
    WakeLeaves(s.workers, if c < |s.clients| && s.clients[c].SCleared? then Waiting(s.workers) else woken);
    hide Wake, Waiting, Signals;
  }

  lemma OtherStepLeaves<T>(s: State<T>, a: Action<T>, who: Thread)
    requires Lifecycle(s) && !Own(a, who)
    ensures Untouched(s, Next(s, a), who)
  {
    match a {
      case Work(i) => WorkLeaves(s, i, who);
      case Serve(c, woken) => ServeLeaves(s, c, woken, who);
      case _ =>
        hide WorkerStep, ClientStep;
    }
  }

  lemma UntouchedTwice<T>(s: State<T>, t: State<T>, u: State<T>, who: Thread)
    requires Lifecycle(t) && Untouched(s, t, who) && Untouched(t, u, who)
    ensures Untouched(s, u, who)
  {}

  lemma {:induction false} OthersLeave<T>(s: State<T>, sched: seq<Action<T>>, who: Thread)
    requires Invariant(s) && Foreign(sched, who)
    ensures Invariant(Exec(s, sched)) && Untouched(s, Exec(s, sched), who)
    ensures DoneBy(s, sched, who) == []
    decreases |sched|
  {
    if sched != [] {
      var t := Next(s, sched[0]);
      assert Invariant(t) && Untouched(s, t, who) by {
        hide Step;
        OtherStepLeaves(s, sched[0], who);
        if Step(s, sched[0]).Some? {
          StepKeepsInvariant(s, sched[0]);
        }
      }
      OthersLeave(t, sched[1..], who);
      RunKeepsInvariant(t, sched[1..]);
      hide Step, Untouched, Locks, Lifecycle, Wakeups, Conservation;
      UntouchedTwice(s, t, Exec(t, sched[1..]), who);
    }
  }

  /** The task that this action lets worker i take out of the queue, if any. */
  function Taken<T>(s: State<T>, a: Action<T>, i: nat): seq<T> {
    if a == Work(i) && i < |s.workers| && s.workers[i].WTest? && s.tasks != [] then [s.tasks[0]] else []
  }

  /** The tasks that worker i takes along a schedule. */
  function TakenBy<T>(s: State<T>, sched: seq<Action<T>>, i: nat): seq<T>
    decreases |sched|
  {
    if sched == [] then [] else Taken(s, sched[0], i) + TakenBy(Next(s, sched[0]), sched[1..], i)
  }

  function Holding<T>(w: Worker<T>): seq<T> {
    match Hand(w) case Some(t) => [t] case None => []
  }

  /** Along any schedule a worker executes exactly what it takes, in that order,
      up to the one task in its hand. */
  lemma {:induction false} TakenIsExecuted<T>(s: State<T>, sched: seq<Action<T>>, i: nat)
    requires Invariant(s) && i < |s.workers|
    ensures |Exec(s, sched).workers| == |s.workers|
    ensures Holding(s.workers[i]) + TakenBy(s, sched, i) ==
            DoneBy(s, sched, TWorker(i)) + Holding(Exec(s, sched).workers[i])
    decreases |sched|
  {
    if sched != [] {
      var a, t := sched[0], Next(s, sched[0]);
      assert Invariant(t) by {
        hide Invariant, Step;
        if Step(s, a).Some? {
          StepKeepsInvariant(s, a);
        }
      }
      TakenStep(s, a, i);
      hide Invariant, Next, Taken, Effect, Holding;
      TakenIsExecuted(t, sched[1..], i);
      Regroup(Holding(s.workers[i]), Taken(s, a, i), TakenBy(t, sched[1..], i), Effect(s, a, TWorker(i)),
              Holding(t.workers[i]), DoneBy(t, sched[1..], TWorker(i)), Holding(Exec(s, sched).workers[i]));
    }
  }

  lemma SameStart<A>(h: seq<A>, a: seq<A>, b: seq<A>)
    requires h + a == h + b
    ensures a == b
  {
    assert (h + a)[|h|..] == a && (h + b)[|h|..] == b;
  }

  /** Between two moments at which its hands are empty, a worker takes what it executes. */
  lemma TakesWhatItRuns<T>(s: State<T>, before: seq<Action<T>>, after: seq<Action<T>>, i: nat, ran: seq<T>)
    requires Invariant(s) && i < |s.workers| && |Exec(s, before).workers| == |Exec(s, after).workers| == |s.workers|
    requires Hand(Exec(s, before).workers[i]).None? && Hand(Exec(s, after).workers[i]).None?
    requires DoneBy(s, after, TWorker(i)) == DoneBy(s, before, TWorker(i)) + ran
    ensures TakenBy(s, after, i) == TakenBy(s, before, i) + ran
  {
    hide Invariant, Exec, DoneBy, TakenBy;
    TakenIsExecuted(s, before, i);
    TakenIsExecuted(s, after, i);
    var h := Holding(s.workers[i]);
    assert h + (TakenBy(s, before, i) + ran) == (h + TakenBy(s, before, i)) + ran;
    SameStart(h, TakenBy(s, after, i), TakenBy(s, before, i) + ran);
  }

  lemma TakenStep<T>(s: State<T>, a: Action<T>, i: nat)
    requires Invariant(s) && i < |s.workers|
    ensures |Next(s, a).workers| == |s.workers|
    ensures Holding(s.workers[i]) + Taken(s, a, i) == Effect(s, a, TWorker(i)) + Holding(Next(s, a).workers[i])
  {
    hide Sum, Handled, Wakeups;
    if a == Work(i) {
      OwnStepTakes(s, i);
    } else if s.workers[i].WNew? {
      NewStaysEmptyHanded(s, a, i);
      OtherStepLeaves(s, a, TWorker(i));
    } else {
      OtherStepLeaves(s, a, TWorker(i));
    }
    hide Next, Step;
  }

  lemma OwnStepTakes<T>(s: State<T>, i: nat)
    requires i < |s.workers|
    ensures |Next(s, Work(i)).workers| == |s.workers|
    ensures Holding(s.workers[i]) + Taken(s, Work(i), i) ==
            Effect(s, Work(i), TWorker(i)) + Holding(Next(s, Work(i)).workers[i])
  {
    match s.workers[i] {
      case WTest =>
      case WTook(_) =>
      case WRunning(_) =>
      case _ =>
    }
  }

  lemma NewStaysEmptyHanded<T>(s: State<T>, a: Action<T>, i: nat)
    requires i < |s.workers| && s.workers[i].WNew?
    ensures i < |Next(s, a).workers| && (Next(s, a).workers[i].WNew? || Next(s, a).workers[i].WAtLock?)
  {
    if a.Serve? {
      WakeLeaves(s.workers, a.woken);
      WakeLeaves(s.workers, Waiting(s.workers));
    }
    hide Wake, Waiting, Signals;
  }

  /** The task with which this action begins a call of Enqueue by client c, if any. */
  function Called<T>(s: State<T>, a: Action<T>, c: nat): seq<T> {
    if a.CallEnqueue? && a.c == c && c < |s.clients| && s.clients[c].CIdle? then [a.task] else []
  }

  function CalledBy<T>(s: State<T>, sched: seq<Action<T>>, c: nat): seq<T>
    decreases |sched|
  {
    if sched == [] then [] else Called(s, sched[0], c) + CalledBy(Next(s, sched[0]), sched[1..], c)
  }

  function ToBePushed<T>(c: Client<T>): seq<T> {
    if c.EAtLock? || c.EHolding? then [c.task] else []
  }

  /** Along any schedule a client puts exactly the tasks of its calls into the
      queue, in that order, up to the one call under way. */
  lemma {:induction false} CalledIsPushed<T>(s: State<T>, sched: seq<Action<T>>, c: nat)
    requires Invariant(s) && c < |s.clients|
    ensures |Exec(s, sched).clients| == |s.clients|
    ensures ToBePushed(s.clients[c]) + CalledBy(s, sched, c) ==
            DoneBy(s, sched, TClient(c)) + ToBePushed(Exec(s, sched).clients[c])
    decreases |sched|
  {
    if sched != [] {
      var a, t := sched[0], Next(s, sched[0]);
      assert Invariant(t) by {
        hide Invariant, Step;
        if Step(s, a).Some? {
          StepKeepsInvariant(s, a);
        }
      }
      CalledStep(s, a, c);
      hide Invariant, Next, Called, Effect, ToBePushed;
      CalledIsPushed(t, sched[1..], c);
      Regroup(ToBePushed(s.clients[c]), Called(s, a, c), CalledBy(t, sched[1..], c), Effect(s, a, TClient(c)),
              ToBePushed(t.clients[c]), DoneBy(t, sched[1..], TClient(c)), ToBePushed(Exec(s, sched).clients[c]));
    }
  }

  lemma CalledStep<T>(s: State<T>, a: Action<T>, c: nat)
    requires Lifecycle(s) && c < |s.clients|
    ensures |Next(s, a).clients| == |s.clients|
    ensures ToBePushed(s.clients[c]) + Called(s, a, c) ==
            Effect(s, a, TClient(c)) + ToBePushed(Next(s, a).clients[c])
  {
    if Own(a, TClient(c)) {
      if a.Serve? {
        OwnServePushes(s, c, a.woken);
      }
      hide ClientStep;
    } else {
      OtherStepLeaves(s, a, TClient(c));
      hide Next;
    }
  }

  lemma OwnServePushes<T>(s: State<T>, c: nat, woken: set<nat>)
    requires c < |s.clients|
    ensures |Next(s, Serve(c, woken)).clients| == |s.clients|
    ensures ToBePushed(s.clients[c]) ==
            Effect(s, Serve(c, woken), TClient(c)) + ToBePushed(Next(s, Serve(c, woken)).clients[c])
  {
    hide Wake, Waiting, Signals;
    match s.clients[c] {
      case EPushed =>
      case SCleared =>
      case _ =>
    }
  }

  /** Lines 35 and 36: counted, then waiting without the mutex. */
  lemma FallsAsleep<T>(s: State<T>, i: nat)
    requires i < |s.workers| && s.workers[i].WTest? && s.isrunning && s.tasks == []
    ensures var a: Action<T> := Work(i);
            && Step(s, a).Some? && Step(Next(s, a), a).Some?
            && Effect(s, a, TWorker(i)) == Effect(Next(s, a), a, TWorker(i)) == []
            && Next(Next(s, a), a) ==
               s.(slaverSleepCount := s.slaverSleepCount + 1, owner := Free, workers := s.workers[i := WWaiting])
  {
    assert s.workers[i := WCounted][i := WWaiting] == s.workers[i := WWaiting];
  }

  /** Back from Wait with the mutex, and line 37. */
  lemma WakesUp<T>(s: State<T>, i: nat)
    requires Invariant(s) && i < |s.workers| && s.workers[i].WWoken? && s.owner == Free
    ensures var a: Action<T> := Work(i);
            && s.slaverSleepCount > 0
            && Step(s, a).Some? && Step(Next(s, a), a).Some?
            && Effect(s, a, TWorker(i)) == Effect(Next(s, a), a, TWorker(i)) == []
            && Next(Next(s, a), a) ==
               s.(slaverSleepCount := s.slaverSleepCount - 1, owner := ByWorker(i), workers := s.workers[i := WTest])
  {
    hide Sum, Handled;
    SumAtLeast(s.workers, i, Asleep);
    assert s.workers[i := WReacquired][i := WTest] == s.workers[i := WTest];
  }

  lemma Leaves<T>(s: State<T>, i: nat)
    requires i < |s.workers| && s.workers[i].WTest? && !s.isrunning && s.tasks == []
    ensures var a: Action<T> := Work(i);
            && Step(s, a).Some? && Step(Next(s, a), a).Some?
            && Effect(s, a, TWorker(i)) == Effect(Next(s, a), a, TWorker(i)) == []
            && Next(Next(s, a), a) == s.(owner := Free, workers := s.workers[i := WExited])
  {
    assert s.workers[i := WLeaving][i := WExited] == s.workers[i := WExited];
  }

  lemma Takes<T>(s: State<T>, i: nat)
    requires i < |s.workers| && s.workers[i].WTest? && s.tasks != []
    ensures var a: Action<T> := Work(i);
            && Step(s, a).Some? && Step(Next(s, a), a).Some?
            && Effect(s, a, TWorker(i)) == Effect(Next(s, a), a, TWorker(i)) == []
            && Next(Next(s, a), a) ==
               s.(tasks := s.tasks[1..], dequeued := s.dequeued + [s.tasks[0]], owner := Free,
                  workers := s.workers[i := WRunning(s.tasks[0])])
  {
    assert s.workers[i := WTook(s.tasks[0])][i := WRunning(s.tasks[0])] == s.workers[i := WRunning(s.tasks[0])];
  }

  lemma WakesByItself<T>(s: State<T>, i: nat)
    requires i < |s.workers| && s.workers[i].WWaiting?
    ensures Step(s, Spurious(i)).Some?
    ensures var t := Step(s, Spurious(i)).value;
            && t == s.(workers := t.workers) && |t.workers| == |s.workers| && t.workers[i].WWoken?
            && forall k :: 0 <= k < |s.workers| ==> t.workers[k].WExited? == s.workers[k].WExited?
  {}

  /** Push, signal if someone is counted asleep, unlock. */
  lemma PushTrace<T>(s: State<T>, c: nat)
    requires Invariant(s) && c < |s.clients| && s.clients[c].EHolding?
    ensures var a: Action<T> := Serve(c, Waiting(s.workers));
            var task, t, u := s.clients[c].task, Next(s, a), Next(Next(s, a), a);
            && Step(s, a).Some? && Step(t, a).Some? && Step(u, a).Some?
            && Effect(s, a, TClient(c)) == [task]
            && Effect(t, a, TClient(c)) == Effect(u, a, TClient(c)) == []
            && Next(u, a) == s.(tasks := s.tasks + [task], enqueued := s.enqueued + [task], owner := Free,
                                workers := Next(u, a).workers, clients := s.clients[c := CIdle])
            && |Next(u, a).workers| == |s.workers|
            && forall k :: 0 <= k < |s.workers| ==> s.workers[k].WExited? == Next(u, a).workers[k].WExited?
  {
    hide Sum, Handled;
    var a: Action<T> := Serve(c, Waiting(s.workers));
    SignalsWaiting(s.workers);
    WakeLeaves(s.workers, Waiting(s.workers));
    hide Wake, Waiting;
    var t := s.(tasks := s.tasks + [s.clients[c].task], enqueued := s.enqueued + [s.clients[c].task],
                clients := s.clients[c := EPushed]);
    assert Step(s, a) == Some(t);
    assert s.clients[c := EPushed][c := ESignalled][c := CIdle] == s.clients[c := CIdle];
  }

  /** Clear _isrunning, broadcast if someone is counted asleep, unlock. */
  lemma StopTrace<T>(s: State<T>, c: nat)
    requires Invariant(s) && c < |s.clients| && s.clients[c].SHolding?
    ensures var a: Action<T> := Serve(c, Waiting(s.workers));
            var t, u := Next(s, a), Next(Next(s, a), a);
            && Step(s, a).Some? && Step(t, a).Some? && Step(u, a).Some?
            && Next(u, a) == s.(isrunning := false, stopMark := t.stopMark, owner := Free,
                                workers := Next(u, a).workers, clients := s.clients[c := CIdle])
            && t.stopMark.Some? && |Next(u, a).workers| == |s.workers|
            && (forall k :: 0 <= k < |s.workers| ==> s.workers[k].WExited? == Next(u, a).workers[k].WExited?)
            && forall k :: 0 <= k < |s.clients| ==> !Next(u, a).clients[k].SCleared?
  {
    hide Sum, Handled;
    var a: Action<T> := Serve(c, Waiting(s.workers));
    WakeLeaves(s.workers, Waiting(s.workers));
    hide Wake, Waiting;
    var t := s.(isrunning := false, stopMark := if s.stopMark.None? then Some(|s.enqueued|) else s.stopMark,
                clients := s.clients[c := SCleared]);
    assert Step(s, a) == Some(t);
    assert s.clients[c := SCleared][c := SNotified][c := CIdle] == s.clients[c := CIdle];
  }

  lemma Running<T>(s: State<T>)
    requires Invariant(s)
    ensures s.isrunning ==> s.startCalled
  {}

  lemma NotStarted<T>(s: State<T>)
    requires Invariant(s)
    ensures !s.startCalled ==> s.started == 0
  {}

  lemma NothingInHand<T>(s: State<T>)
    requires Invariant(s) && AllExited(s)
    ensures multiset(s.executed) == multiset(s.dequeued)
  {
    hide Sum, Bag;
    BagEmpty(s.workers, InHand);
  }

  /** What the critical section of HandlerTask ends with: a task, the worker's
      exit, a wait that is not over, or as many wakeups for nothing as the caller allows. */
  datatype Turn<T> = Task(task: T) | Quit | Stuck | Tired

  /** How a call of HandlerTask ends: the same, or with as many tasks as the caller allows. */
  datatype End = HasQuit | IsStuck | IsTired | RanEnough

  class ThreadPool<T(0)> {
    const slaverNum: nat
    var isrunning: bool
    var tasks: seq<T>
    var slaverSleepCount: nat
    var locked: bool
    var exited: seq<bool>
    ghost const start: State<T>
    ghost var log: seq<Action<T>>

    ghost function Now(): State<T>
      reads this
    {
      Exec(start, log)
    }

    ghost predicate Valid()
      reads this
    {
      && Invariant(start)
      && Invariant(Now())
      && |start.workers| == |Now().workers| == slaverNum == |exited|
      && Now().isrunning == isrunning && Now().tasks == tasks && locked == !Now().owner.Free?
      && Now().slaverSleepCount == slaverSleepCount
      && forall k :: 0 <= k < |exited| ==> exited[k] == Now().workers[k].WExited?
    }

    constructor (slaverNum: nat, clients: nat)
      ensures Valid() && this.slaverNum == slaverNum && log == [] && start == Init(slaverNum, clients)
    {
      this.slaverNum := slaverNum;
      isrunning, tasks, slaverSleepCount, locked := false, [], 0, false;
      exited := seq(slaverNum, _ => false);
      start, log := Init(slaverNum, clients), [];
      new;
      AlwaysInvariant<T>(slaverNum, clients, []);
    }

    /** One atomic action of the protocol, beside the assignment that makes it happen. */
    ghost method Move(a: Action<T>, who: Thread)
      requires Invariant(start) && Invariant(Now()) && Step(Now(), a).Some?
      modifies this`log
      ensures log == old(log) + [a] && Now() == Step(old(Now()), a).value && Invariant(Now())
      ensures DoneBy(start, log, who) == DoneBy(start, old(log), who) + Effect(old(Now()), a, who)
      ensures Turns(log, who) == Turns(old(log), who) + if Own(a, who) then 1 else 0
    {
      hide Invariant, Step, Effect;
      ExecAppend(start, log, [a]);
      DoneByAppend(start, log, [a], who);
      StepKeepsInvariant(Now(), a);
      log := log + [a];
      assert [a][1..] == [];
    }

    /** The other threads run: any steps of theirs may happen here. `resumed`
        says that the thread may go on with the mutex: it is out of the wait set
        and the mutex is free. The last two clauses follow from the first. */
    method Block(who: Thread) returns (resumed: bool)
      requires Valid()
      modifies this
      ensures Valid() && old(log) <= log && Foreign(log[|old(log)|..], who)
      ensures resumed <==> !locked && (who.TWorker? && who.i < slaverNum ==> !Now().workers[who.i].WWaiting?)
      ensures Untouched(old(Now()), Now(), who)
      ensures DoneBy(start, log, who) == DoneBy(start, old(log), who) && Turns(log, who) == Turns(old(log), who)
    {
      hide Invariant, Step, Effect, DoneBy, Turns;
      ghost var before := log;
      if who.TWorker? && who.i < slaverNum && Now().workers[who.i].WWaiting? {
        WakesByItself(Now(), who.i);
        Move(Spurious(who.i), who);
      }
      resumed := !locked;
      ghost var steps := log[|before|..];
      assert log == before + steps;
      ExecAppend(start, before, steps);
      DoneByAppend(start, before, steps, who);
      ForeignTurns(before, steps, who);
      OthersLeave(Exec(start, before), steps, who);
    }

    ghost method MoveTwice(a: Action<T>, who: Thread)
      requires Invariant(start) && Invariant(Now()) && Step(Now(), a).Some? && Step(Next(Now(), a), a).Some?
      requires Effect(Now(), a, who) == Effect(Next(Now(), a), a, who) == []
      modifies this`log
      ensures old(log) <= log && Now() == Next(Next(old(Now()), a), a) && Invariant(Now())
      ensures DoneBy(start, log, who) == DoneBy(start, old(log), who)
      ensures Turns(log, who) == Turns(old(log), who) + if Own(a, who) then 2 else 0
    {
      hide Invariant, Step, Effect, DoneBy;
      Move(a, who);
      Move(a, who);
    }

    ghost method MoveThrice(a: Action<T>, who: Thread)
      requires Invariant(start) && Invariant(Now()) && Step(Now(), a).Some?
      requires Step(Next(Now(), a), a).Some? && Step(Next(Next(Now(), a), a), a).Some?
      modifies this`log
      ensures old(log) <= log && Now() == Next(Next(Next(old(Now()), a), a), a) && Invariant(Now())
      ensures DoneBy(start, log, who) ==
              DoneBy(start, old(log), who) + Effect(old(Now()), a, who)
              + Effect(Next(old(Now()), a), a, who) + Effect(Next(Next(old(Now()), a), a), a, who)
    {
      hide Invariant, Step, Effect, DoneBy;
      Move(a, who);
      Move(a, who);
      Move(a, who);
    }

    /** Lines 35 to 37; false if the worker cannot go on yet. */
    method Sleep(i: nat) returns (resumed: bool)
      requires Valid() && i < slaverNum && Now().workers[i].WTest? && isrunning && tasks == []
      modifies this
      ensures Valid() && old(log) <= log
      ensures DoneBy(start, log, TWorker(i)) == DoneBy(start, old(log), TWorker(i))
      ensures if resumed then Now().workers[i].WTest? && Turns(log, TWorker(i)) == Turns(old(log), TWorker(i)) + 4
              else Blocked(Now(), TWorker(i)) && Hand(Now().workers[i]).None?
    {
      hide DoneBy, Invariant, Step, Blocked, Turns, Effect, Next;
      FallsAsleep(Now(), i);
      slaverSleepCount := slaverSleepCount + 1;
      locked := false;
      MoveTwice(Work(i), TWorker(i));
      resumed := Block(TWorker(i));
      if resumed {
        WakesUp(Now(), i);
        locked := true;
        slaverSleepCount := slaverSleepCount - 1;
        MoveTwice(Work(i), TWorker(i));
      } else {
        WorkerBlocked(Now(), i);
      }
    }

    /** Line 41 taken: unlock and leave. */
    method Leave(i: nat)
      requires Valid() && i < slaverNum && Now().workers[i].WTest? && !isrunning && tasks == []
      modifies this
      ensures Valid() && old(log) <= log && exited == old(exited)[i := true]
      ensures DoneBy(start, log, TWorker(i)) == DoneBy(start, old(log), TWorker(i))
    {
      hide DoneBy, Invariant;
      Leaves(Now(), i);
      locked := false;
      exited := exited[i := true];
      MoveTwice(Work(i), TWorker(i));
    }

    /** Lines 44 to 46: the task becomes the worker's own and the mutex is released. */
    method Take(i: nat) returns (task: T)
      requires Valid() && i < slaverNum && Now().workers[i].WTest? && tasks != []
      modifies this
      ensures Valid() && old(log) <= log && old(tasks) == [task] + tasks
      ensures DoneBy(start, log, TWorker(i)) == DoneBy(start, old(log), TWorker(i))
      ensures Now().workers[i] == WRunning(task) && Turns(log, TWorker(i)) == Turns(old(log), TWorker(i)) + 2
    {
      hide DoneBy, Invariant;
      Takes(Now(), i);
      task := tasks[0];
      tasks := tasks[1..];
      locked := false;
      MoveTwice(Work(i), TWorker(i));
    }

    /** Line 31; false if the mutex is not free. */
    method Acquire(i: nat) returns (ok: bool)
      requires Valid() && i < slaverNum && Now().workers[i].WAtLock?
      modifies this
      ensures Valid() && old(log) <= log
      ensures DoneBy(start, log, TWorker(i)) == DoneBy(start, old(log), TWorker(i))
      ensures if ok then Now().workers[i].WTest? && Turns(log, TWorker(i)) == Turns(old(log), TWorker(i)) + 1
              else Blocked(Now(), TWorker(i)) && Hand(Now().workers[i]).None?
    {
      hide DoneBy, Invariant, Turns;
      ok := Block(TWorker(i));
      if ok {
        locked := true;
        Move(Work(i), TWorker(i));
      } else {
        WorkerBlocked(Now(), i);
      }
    }

    /** Lines 28 to 46: lock, sleep while there is nothing to do, then leave or take a task. */
    method NextTask(i: nat, patience: nat) returns (turn: Turn<T>)
      requires Valid() && i < slaverNum && Now().workers[i].WAtLock?
      modifies this
      ensures Valid() && old(log) <= log
      ensures DoneBy(start, log, TWorker(i)) == DoneBy(start, old(log), TWorker(i))
      ensures match turn
              case Quit => exited[i]
              case Task(task) =>
                Now().workers[i] == WRunning(task) && Turns(log, TWorker(i)) >= Turns(old(log), TWorker(i))
              case Stuck => Blocked(Now(), TWorker(i)) && Hand(Now().workers[i]).None?
              case Tired =>
                && Now().workers[i].WTest? && isrunning && tasks == []
                && Turns(log, TWorker(i)) == Turns(old(log), TWorker(i)) + 1 + 4 * patience
    {
      hide DoneBy, Invariant, Step, Blocked, Turns;
      var resumed := Acquire(i);
      if !resumed {
        return Stuck;
      }
      var left := patience;
      while isrunning && tasks == []
        invariant Valid() && old(log) <= log && Now().workers[i].WTest?
        invariant DoneBy(start, log, TWorker(i)) == DoneBy(start, old(log), TWorker(i))
        invariant 0 <= left <= patience
        invariant Turns(log, TWorker(i)) == Turns(old(log), TWorker(i)) + 1 + 4 * (patience - left)
        decreases left
      {
        if left == 0 {
          return Tired;
        }
        left := left - 1;
        resumed := Sleep(i);
        if !resumed {
          return Stuck;
        }
      }
      if !isrunning && tasks == [] {
        Leave(i);
        return Quit;
      }
      var task := Take(i);
      return Task(task);
    }

    /** Line 49: the task runs, outside the mutex and beside the other threads. */
    method RunTask(i: nat, task: T)
      requires Valid() && i < slaverNum && Now().workers[i] == WRunning(task)
      modifies this
      ensures Valid() && old(log) <= log && Now().workers[i].WAtLock?
      ensures DoneBy(start, log, TWorker(i)) == DoneBy(start, old(log), TWorker(i)) + [task]
      ensures Turns(log, TWorker(i)) == Turns(old(log), TWorker(i)) + 1
    {
      hide DoneBy, Invariant;
      var _ := Block(TWorker(i));
      Move(Work(i), TWorker(i));
    }

    /** HandlerTask, for at most `patience` tasks: the worker executes exactly the
        tasks that it takes out of the queue, in that order, whatever the other
        threads do meanwhile; these are the tasks it reports. It ends by exiting,
        after `patience` tasks, where it cannot go on, or after `patience`
        wakeups in a row with nothing to do. */
    method HandlerTask(i: nat, patience: nat) returns (end: End, ran: seq<T>)
      requires Valid() && i < slaverNum && Now().workers[i].WAtLock?
      modifies this
      ensures Valid() && old(log) <= log
      ensures DoneBy(start, log, TWorker(i)) == DoneBy(start, old(log), TWorker(i)) + ran
      ensures TakenBy(start, log, i) == TakenBy(start, old(log), i) + ran
      ensures match end
              case HasQuit => exited[i]
              case RanEnough => |ran| == patience
              case IsStuck => Blocked(Now(), TWorker(i))
              case IsTired =>
                && Now().workers[i].WTest? && isrunning && tasks == []
                && Turns(log, TWorker(i)) >= Turns(old(log), TWorker(i)) + 1 + 4 * patience
    {
      hide DoneBy, TakenBy, Invariant, Blocked, Turns;
      end, ran := RanEnough, [];
      while |ran| < patience
        invariant Valid() && old(log) <= log && end.RanEnough? && |ran| <= patience
        invariant Now().workers[i].WAtLock?
        invariant DoneBy(start, log, TWorker(i)) == DoneBy(start, old(log), TWorker(i)) + ran
        invariant Turns(log, TWorker(i)) >= Turns(old(log), TWorker(i))
      {
        var turn := NextTask(i, patience);
        match turn {
          case Stuck =>
            end := IsStuck;
            break;
          case Tired =>
            end := IsTired;
            break;
          case Quit =>
            end := HasQuit;
            break;
          case Task(task) =>
            RunTask(i, task);
            ran := ran + [task];
        }
      }
      TakesWhatItRuns(start, old(log), log, i, ran);
    }

    /** The call and line 131; false if the mutex is not free. */
    method AcquireToPush(c: nat, task: T) returns (ok: bool)
      requires Valid() && c < |Now().clients| && Now().clients[c].CIdle?
      modifies this
      ensures Valid() && old(log) <= log && c < |Now().clients|
      ensures DoneBy(start, log, TClient(c)) == DoneBy(start, old(log), TClient(c))
      ensures Now().clients[c] == if ok then EHolding(task) else EAtLock(task)
      ensures !ok ==> Blocked(Now(), TClient(c))
    {
      hide DoneBy, Invariant, Turns;
      Move(CallEnqueue(c, task), TClient(c));
      ok := Block(TClient(c));
      if ok {
        locked := true;
        Move(Serve(c, {}), TClient(c));
      } else {
        ClientBlocked(Now(), c);
      }
    }

    /** Lines 131 to 136. `done` is false if the mutex is not free yet. */
    method Enqueue(c: nat, task: T) returns (done: bool)
      requires Valid() && c < |Now().clients| && Now().clients[c].CIdle?
      modifies this
      ensures Valid() && old(log) <= log
      ensures DoneBy(start, log, TClient(c)) ==
              DoneBy(start, old(log), TClient(c)) + if done then [task] else []
      ensures c < |Now().clients|
      ensures if done then Now().clients[c].CIdle?
              else Now().clients[c] == EAtLock(task) && Blocked(Now(), TClient(c))
    {
      hide DoneBy, Invariant, Step, Blocked, Turns;
      done := AcquireToPush(c, task);
      if !done {
        return;
      }
      Push(c, task);
    }

    /** Lines 132 to 136. */
    method Push(c: nat, task: T)
      requires Valid() && c < |Now().clients| && Now().clients[c] == EHolding(task)
      modifies this
      ensures Valid() && old(log) <= log && tasks == old(tasks) + [task]
      ensures DoneBy(start, log, TClient(c)) == DoneBy(start, old(log), TClient(c)) + [task]
      ensures c < |Now().clients| && Now().clients[c].CIdle?
    {
      hide DoneBy, Invariant, Step, Wake, Waiting, Effect;
      PushTrace(Now(), c);
      tasks := tasks + [task];
      // lines 133 to 135: the signal changes no field of this class
      locked := false;
      MoveThrice(Serve(c, Waiting(Now().workers)), TClient(c));
    }

    /** The call and line 116; false if the mutex is not free. */
    method AcquireToStop(c: nat) returns (ok: bool)
      requires Valid() && c < |Now().clients| && Now().clients[c].CIdle?
      requires Now().startCalled && AllStarted(Now())
      modifies this
      ensures Valid() && old(log) <= log && c < |Now().clients|
      ensures if ok then Now().clients[c].SHolding? else Now().clients[c].SAtLock? && Blocked(Now(), TClient(c))
    {
      hide DoneBy, Invariant, Turns;
      Move(CallStop(c), TClient(c));
      ok := Block(TClient(c));
      if ok {
        locked := true;
        Move(Serve(c, {}), TClient(c));
      } else {
        ClientBlocked(Now(), c);
      }
    }

    /** Lines 116 to 121: afterwards the pool is stopped and nobody waits. */
    method Stop(c: nat) returns (done: bool)
      requires Valid() && c < |Now().clients| && Now().clients[c].CIdle?
      requires Now().startCalled && AllStarted(Now())
      modifies this
      ensures Valid() && old(log) <= log
      ensures c < |Now().clients|
      ensures if done then !isrunning && Stopped(Now()) && Now().clients[c].CIdle?
              else Now().clients[c].SAtLock? && Blocked(Now(), TClient(c))
    {
      hide DoneBy, Invariant, Step, Blocked, Stopped, Turns;
      done := AcquireToStop(c);
      if done {
        ClearAndBroadcast(c);
      }
    }

    /** Lines 117 to 121. */
    method ClearAndBroadcast(c: nat)
      requires Valid() && c < |Now().clients| && Now().clients[c].SHolding?
      modifies this
      ensures Valid() && old(log) <= log && !isrunning && tasks == old(tasks)
      ensures Stopped(Now()) && c < |Now().clients| && Now().clients[c].CIdle?
    {
      hide DoneBy, Invariant, Step, Wake, Waiting, Effect, Stopped;
      StopTrace(Now(), c);
      isrunning := false;
      // lines 118 to 120: the broadcast changes no field of this class
      locked := false;
      MoveThrice(Serve(c, Waiting(Now().workers)), TClient(c));
      StoppedAfterStop(Now());
    }

    /** Lines 92 to 99, once: every worker has been created afterwards. */
    method Start()
      requires Valid() && (isrunning || !Now().startCalled)
      requires isrunning ==> AllStarted(Now())
      modifies this
      ensures Valid() && old(log) <= log && AllStarted(Now()) && Now().startCalled
    {
      hide DoneBy, Invariant;
      if isrunning {
        Running(Now());
        return;
      }
      NotStarted(Now());
      Move(StartFlag, TStarter);
      isrunning := true;
      for k := 0 to slaverNum
        invariant Valid() && old(log) <= log && Now().startCalled && Now().started == k
      {
        StartsOne(Now());
        Move(StartSlaver, TStarter);
        var _ := Block(TStarter);
      }
    }

    /** pthread_join of worker k. */
    method Join(k: nat) returns (joined: bool)
      requires Valid() && k < slaverNum
      modifies this
      ensures Valid() && old(log) <= log
      ensures joined == exited[k]
      ensures forall m :: 0 <= m < slaverNum && old(exited)[m] ==> exited[m]
    {
      hide DoneBy, Invariant;
      var _ := Block(TJoiner);
      joined := exited[k];
    }

    /** Lines 125 to 127: if every join returns, all workers are gone and each
        task they ever took has been executed exactly once. */
    method Wait() returns (done: bool)
      requires Valid()
      modifies this
      ensures Valid() && old(log) <= log
      ensures done ==> AllExited(Now()) && multiset(Now().executed) == multiset(Now().dequeued)
      ensures done <==> forall k :: 0 <= k < slaverNum ==> exited[k]
    {
      hide DoneBy, Invariant;
      for k := 0 to slaverNum
        invariant Valid() && old(log) <= log
        invariant forall m :: 0 <= m < k ==> exited[m]
      {
        var joined := Join(k);
        if !joined {
          return false;
        }
      }
      done := true;
      NothingInHand(Now());
    }
  }
}
