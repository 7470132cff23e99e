/** The bounded blocking queue as a transition system: any number of producers
    and consumers around one mutex and two condition variables, with the two
    sleeper counters that guard the signals (test_thread11/BlockQueue.hpp:41-74).

    Wait releases the mutex and joins the wait set in one step; a waiting thread
    is woken by a signal of the other side or spuriously, and a woken thread must
    get the mutex back before it goes on. A signal wakes at least one waiting
    thread if there is one, possibly more: which ones is the scheduler's choice. */
module BlockQueueProtocol {
  import opened Tally
  import opened Wrappers

  datatype Producer<T> =
    | PIdle
    | PAtLock(item: T)      // line 43
    | PTest(item: T)        // owns the mutex, before line 44
    | PCounted(item: T)     // after line 45
    | PWaiting(item: T)     // inside Wait, in the wait set
    | PWoken(item: T)       // inside Wait, woken, without the mutex
    | PReacquired(item: T)  // before line 47
    | PPushed               // after line 50
    | PSignalled            // after line 53

  datatype Consumer<T> =
    | CIdle
    | CAtLock
    | CTest
    | CCounted
    | CWaiting
    | CWoken
    | CReacquired
    | CPopped(item: T)
    | CSignalled(item: T)

  datatype Owner = Free | ByProducer(i: nat) | ByConsumer(j: nat)

  datatype State<T> = State(
    cap: nat, bq: seq<T>, sleepProductorNum: nat, sleepComsumerNum: nat, owner: Owner,
    producers: seq<Producer<T>>, consumers: seq<Consumer<T>>,
    pushed: seq<T>, popped: seq<T>)

  /** `woken` is the scheduler's choice if this step turns out to signal. */
  datatype Action<T> =
    | Produce(i: nat, item: T, woken: set<nat>)
    | Consume(j: nat, woken: set<nat>)
    | SpuriousP(i: nat)
    | SpuriousC(j: nat)

  function Init<T>(cap: nat, producers: nat, consumers: nat): State<T> {
    State(cap, [], 0, 0, Free, seq(producers, _ => PIdle), seq(consumers, _ => CIdle), [], [])
  }

  function WakeP<T>(ps: seq<Producer<T>>, woken: set<nat>): (r: seq<Producer<T>>)
    ensures |r| == |ps|
  {
    seq(|ps|, i requires 0 <= i < |ps| =>
      if i in woken && ps[i].PWaiting? then PWoken(ps[i].item) else ps[i])
  }

  function WakeC<T>(cs: seq<Consumer<T>>, woken: set<nat>): (r: seq<Consumer<T>>)
    ensures |r| == |cs|
  {
    seq(|cs|, j requires 0 <= j < |cs| =>
      if j in woken && cs[j].CWaiting? then CWoken else cs[j])
  }

  /** pthread_cond_signal unblocks at least one of the blocked threads, if any. */
  predicate SignalsP<T>(ps: seq<Producer<T>>, woken: set<nat>) {
    (exists i :: 0 <= i < |ps| && ps[i].PWaiting?) ==> exists i :: 0 <= i < |ps| && ps[i].PWaiting? && i in woken
  }

  predicate SignalsC<T>(cs: seq<Consumer<T>>, woken: set<nat>) {
    (exists j :: 0 <= j < |cs| && cs[j].CWaiting?) ==> exists j :: 0 <= j < |cs| && cs[j].CWaiting? && j in woken
  }

  function WaitingP<T>(ps: seq<Producer<T>>): (r: set<nat>)
    ensures SignalsP(ps, r)
  {
    set i | 0 <= i < |ps| && ps[i].PWaiting?
  }

  function WaitingC<T>(cs: seq<Consumer<T>>): (r: set<nat>)
    ensures SignalsC(cs, r)
  {
    set j | 0 <= j < |cs| && cs[j].CWaiting?
  }

  function ProducerStep<T>(s: State<T>, i: nat, item: T, woken: set<nat>): Option<State<T>>
    requires i < |s.producers|
  {
    match s.producers[i]
    case PIdle => Some(s.(producers := s.producers[i := PAtLock(item)]))
    case PAtLock(x) =>
      if s.owner != Free then None
      else Some(s.(owner := ByProducer(i), producers := s.producers[i := PTest(x)]))
    case PTest(x) =>
      if |s.bq| == s.cap then
        Some(s.(sleepProductorNum := s.sleepProductorNum + 1, producers := s.producers[i := PCounted(x)]))
      else
        Some(s.(bq := s.bq + [x], pushed := s.pushed + [x], producers := s.producers[i := PPushed]))
    case PCounted(x) => Some(s.(owner := Free, producers := s.producers[i := PWaiting(x)]))
    case PWaiting(_) => None
    case PWoken(x) =>
      if s.owner != Free then None
      else Some(s.(owner := ByProducer(i), producers := s.producers[i := PReacquired(x)]))
    case PReacquired(x) =>
      if s.sleepProductorNum == 0 then None // below zero: never reached, by `Invariant`
      else Some(s.(sleepProductorNum := s.sleepProductorNum - 1, producers := s.producers[i := PTest(x)]))
    case PPushed =>
      if s.sleepComsumerNum == 0 then Some(s.(producers := s.producers[i := PSignalled]))
      else if !SignalsC(s.consumers, woken) then None
      else Some(s.(consumers := WakeC(s.consumers, woken), producers := s.producers[i := PSignalled]))
    case PSignalled => Some(s.(owner := Free, producers := s.producers[i := PIdle]))
  }

  function ConsumerStep<T>(s: State<T>, j: nat, woken: set<nat>): Option<State<T>>
    requires j < |s.consumers|
  {
    match s.consumers[j]
    case CIdle => Some(s.(consumers := s.consumers[j := CAtLock]))
    case CAtLock =>
      if s.owner != Free then None
      else Some(s.(owner := ByConsumer(j), consumers := s.consumers[j := CTest]))
    case CTest =>
      if s.bq == [] then
        Some(s.(sleepComsumerNum := s.sleepComsumerNum + 1, consumers := s.consumers[j := CCounted]))
      else
        Some(s.(bq := s.bq[1..], popped := s.popped + [s.bq[0]], consumers := s.consumers[j := CPopped(s.bq[0])]))
    case CCounted => Some(s.(owner := Free, consumers := s.consumers[j := CWaiting]))
    case CWaiting => None
    case CWoken =>
      if s.owner != Free then None
      else Some(s.(owner := ByConsumer(j), consumers := s.consumers[j := CReacquired]))
    case CReacquired =>
      if s.sleepComsumerNum == 0 then None
      else Some(s.(sleepComsumerNum := s.sleepComsumerNum - 1, consumers := s.consumers[j := CTest]))
    case CPopped(x) =>
      if s.sleepProductorNum == 0 then Some(s.(consumers := s.consumers[j := CSignalled(x)]))
      else if !SignalsP(s.producers, woken) then None
      else Some(s.(producers := WakeP(s.producers, woken), consumers := s.consumers[j := CSignalled(x)]))
    case CSignalled(_) => Some(s.(owner := Free, consumers := s.consumers[j := CIdle]))
  }

  function Step<T>(s: State<T>, a: Action<T>): Option<State<T>> {
    match a
    case Produce(i, item, woken) => if i < |s.producers| then ProducerStep(s, i, item, woken) else None
    case Consume(j, woken) => if j < |s.consumers| then ConsumerStep(s, j, woken) else None
    case SpuriousP(i) =>
      if i < |s.producers| && s.producers[i].PWaiting? then Some(s.(producers := WakeP(s.producers, {i}))) else None
    case SpuriousC(j) =>
      if j < |s.consumers| && s.consumers[j].CWaiting? then Some(s.(consumers := WakeC(s.consumers, {j}))) else None
  }

  function Next<T>(s: State<T>, a: Action<T>): State<T> {
    match Step(s, a) case Some(s') => s' case None => s
  }

  /** The state a scheduler's choices lead to; scheduling a blocked thread changes nothing. */
  function Exec<T>(s: State<T>, sched: seq<Action<T>>): State<T>
    decreases |sched|
  {
    if sched == [] then s else Exec(Next(s, sched[0]), sched[1..])
  }

  // ---------- What holds in every reachable state ----------

  predicate PHolds<T>(p: Producer<T>) { p.PTest? || p.PCounted? || p.PReacquired? || p.PPushed? || p.PSignalled? }
  predicate CHolds<T>(c: Consumer<T>) { c.CTest? || c.CCounted? || c.CReacquired? || c.CPopped? || c.CSignalled? }

  function PWaits<T>(p: Producer<T>): nat { if p.PWaiting? then 1 else 0 }
  function CWaits<T>(c: Consumer<T>): nat { if c.CWaiting? then 1 else 0 }
  /** Will look at the queue before it can sleep again. */
  function PAwake<T>(p: Producer<T>): nat { if p.PWoken? || p.PReacquired? || p.PTest? then 1 else 0 }
  function CAwake<T>(c: Consumer<T>): nat { if c.CWoken? || c.CReacquired? || c.CTest? then 1 else 0 }
  /** Counted by the sleeper counter. */
  function PAsleep<T>(p: Producer<T>): nat {
    if p.PCounted? || p.PWaiting? || p.PWoken? || p.PReacquired? then 1 else 0
  }
  function CAsleep<T>(c: Consumer<T>): nat {
    if c.CCounted? || c.CWaiting? || c.CWoken? || c.CReacquired? then 1 else 0
  }
  /** Has changed the queue and not signalled yet. */
  function POwes<T>(p: Producer<T>): nat { if p.PPushed? then 1 else 0 }
  function COwes<T>(c: Consumer<T>): nat { if c.CPopped? then 1 else 0 }

  ghost predicate Locks<T>(s: State<T>) {
    && (s.owner.ByProducer? ==> s.owner.i < |s.producers|)
    && (s.owner.ByConsumer? ==> s.owner.j < |s.consumers|)
    && (forall i :: 0 <= i < |s.producers| ==> (PHolds(s.producers[i]) <==> s.owner == ByProducer(i)))
    && (forall j :: 0 <= j < |s.consumers| ==> (CHolds(s.consumers[j]) <==> s.owner == ByConsumer(j)))
  }

  ghost predicate Counters<T>(s: State<T>) {
    && s.sleepProductorNum == Sum(s.producers, PAsleep)
    && s.sleepComsumerNum == Sum(s.consumers, CAsleep)
  }

  /** No lost wakeup, on either side: while a thread sleeps, every item (every
      free slot) is matched by a thread that is on its way to look, or by one
      that still owes the signal. */
  ghost predicate Wakeups<T>(s: State<T>) {
    && (Sum(s.consumers, CWaits) > 0 ==> Sum(s.consumers, CAwake) + Sum(s.producers, POwes) >= |s.bq|)
    && (Sum(s.producers, PWaits) > 0 ==> Sum(s.producers, PAwake) + Sum(s.consumers, COwes) >= s.cap - |s.bq|)
  }

  ghost predicate Queue<T>(s: State<T>) {
    && |s.bq| <= s.cap
    && s.pushed == s.popped + s.bq
    && (forall i :: 0 <= i < |s.producers| && s.producers[i].PCounted? ==> |s.bq| == s.cap)
    && (forall j :: 0 <= j < |s.consumers| && s.consumers[j].CCounted? ==> s.bq == [])
  }

  ghost predicate Invariant<T>(s: State<T>) {
    Locks(s) && Counters(s) && Wakeups(s) && Queue(s)
  }

  // ---------- Every step keeps the invariant ----------

  lemma ProducerSums<T>(ps: seq<Producer<T>>, i: nat, p: Producer<T>)
    requires i < |ps|
    ensures Sum(ps[i := p], PWaits) + PWaits(ps[i]) == Sum(ps, PWaits) + PWaits(p)
    ensures Sum(ps[i := p], PAwake) + PAwake(ps[i]) == Sum(ps, PAwake) + PAwake(p)
    ensures Sum(ps[i := p], PAsleep) + PAsleep(ps[i]) == Sum(ps, PAsleep) + PAsleep(p)
    ensures Sum(ps[i := p], POwes) + POwes(ps[i]) == Sum(ps, POwes) + POwes(p)
  {
    SumUpdate(ps, i, p, PWaits);
    SumUpdate(ps, i, p, PAwake);
    SumUpdate(ps, i, p, PAsleep);
    SumUpdate(ps, i, p, POwes);
  }

  lemma ConsumerSums<T>(cs: seq<Consumer<T>>, j: nat, c: Consumer<T>)
    requires j < |cs|
    ensures Sum(cs[j := c], CWaits) + CWaits(cs[j]) == Sum(cs, CWaits) + CWaits(c)
    ensures Sum(cs[j := c], CAwake) + CAwake(cs[j]) == Sum(cs, CAwake) + CAwake(c)
    ensures Sum(cs[j := c], CAsleep) + CAsleep(cs[j]) == Sum(cs, CAsleep) + CAsleep(c)
    ensures Sum(cs[j := c], COwes) + COwes(cs[j]) == Sum(cs, COwes) + COwes(c)
  {
    SumUpdate(cs, j, c, CWaits);
    SumUpdate(cs, j, c, CAwake);
    SumUpdate(cs, j, c, CAsleep);
    SumUpdate(cs, j, c, COwes);
  }

  /** A wake-up moves threads from the wait set to the woken ones, and at least one if it signals. */
  lemma WakePSums<T>(ps: seq<Producer<T>>, woken: set<nat>)
    ensures Sum(WakeP(ps, woken), PAsleep) == Sum(ps, PAsleep)
    ensures Sum(WakeP(ps, woken), POwes) == Sum(ps, POwes)
    ensures Sum(WakeP(ps, woken), PWaits) + Sum(WakeP(ps, woken), PAwake) == Sum(ps, PWaits) + Sum(ps, PAwake)
    ensures Sum(WakeP(ps, woken), PWaits) <= Sum(ps, PWaits) <= Sum(ps, PAsleep)
    ensures SignalsP(ps, woken) && Sum(ps, PWaits) > 0 ==> Sum(WakeP(ps, woken), PWaits) < Sum(ps, PWaits)
  {
    hide Sum;
    var qs := WakeP(ps, woken);
    SumSame(ps, qs, PAsleep);
    SumSame(ps, qs, POwes);
    SumMove(ps, qs, PWaits, PAwake);
    SumLess(ps, qs, PWaits);
    SumPositive(ps, PWaits);
    SumBelow(ps, PWaits, PAsleep);
    if SignalsP(ps, woken) && Sum(ps, PWaits) > 0 {
      var i :| 0 <= i < |ps| && ps[i].PWaiting? && i in woken;
      assert PWaits(qs[i]) < PWaits(ps[i]);
    }
  }

  lemma WakeCSums<T>(cs: seq<Consumer<T>>, woken: set<nat>)
    ensures Sum(WakeC(cs, woken), CAsleep) == Sum(cs, CAsleep)
    ensures Sum(WakeC(cs, woken), COwes) == Sum(cs, COwes)
    ensures Sum(WakeC(cs, woken), CWaits) + Sum(WakeC(cs, woken), CAwake) == Sum(cs, CWaits) + Sum(cs, CAwake)
    ensures Sum(WakeC(cs, woken), CWaits) <= Sum(cs, CWaits) <= Sum(cs, CAsleep)
    ensures SignalsC(cs, woken) && Sum(cs, CWaits) > 0 ==> Sum(WakeC(cs, woken), CWaits) < Sum(cs, CWaits)
  {
    hide Sum;
    var ds := WakeC(cs, woken);
    SumSame(cs, ds, CAsleep);
    SumSame(cs, ds, COwes);
    SumMove(cs, ds, CWaits, CAwake);
    SumLess(cs, ds, CWaits);
    SumPositive(cs, CWaits);
    SumBelow(cs, CWaits, CAsleep);
    if SignalsC(cs, woken) && Sum(cs, CWaits) > 0 {
      var j :| 0 <= j < |cs| && cs[j].CWaiting? && j in woken;
      assert CWaits(ds[j]) < CWaits(cs[j]);
    }
  }

  lemma ProducerKeepsLocks<T>(s: State<T>, i: nat, item: T, woken: set<nat>, s': State<T>)
    requires Locks(s) && i < |s.producers| && ProducerStep(s, i, item, woken) == Some(s')
    ensures Locks(s')
  {}

  lemma ConsumerKeepsLocks<T>(s: State<T>, j: nat, woken: set<nat>, s': State<T>)
    requires Locks(s) && j < |s.consumers| && ConsumerStep(s, j, woken) == Some(s')
    ensures Locks(s')
  {}

  lemma ProducerKeepsCounts<T>(s: State<T>, i: nat, item: T, woken: set<nat>, s': State<T>)
    requires Invariant(s) && i < |s.producers| && ProducerStep(s, i, item, woken) == Some(s')
    ensures Counters(s') && Wakeups(s')
  {
    hide Sum;
    ProducerSums(s.producers, i, s'.producers[i]);
    WakeCSums(s.consumers, woken);
  }

  lemma ConsumerKeepsCounts<T>(s: State<T>, j: nat, woken: set<nat>, s': State<T>)
    requires Invariant(s) && j < |s.consumers| && ConsumerStep(s, j, woken) == Some(s')
    ensures Counters(s') && Wakeups(s')
  {
    hide Sum;
    ConsumerSums(s.consumers, j, s'.consumers[j]);
    WakePSums(s.producers, woken);
  }

  lemma ProducerKeepsQueue<T>(s: State<T>, i: nat, item: T, woken: set<nat>, s': State<T>)
    requires Queue(s) && Locks(s) && i < |s.producers| && ProducerStep(s, i, item, woken) == Some(s')
    ensures Queue(s')
  {}

  lemma ConsumerKeepsQueue<T>(s: State<T>, j: nat, woken: set<nat>, s': State<T>)
    requires Queue(s) && Locks(s) && j < |s.consumers| && ConsumerStep(s, j, woken) == Some(s')
    ensures Queue(s')
  {}

  lemma StepKeepsInvariant<T>(s: State<T>, a: Action<T>)
    requires Invariant(s) && Step(s, a).Some?
    ensures Invariant(Step(s, a).value)
  {
    hide Sum, Counters, Wakeups;
    var s' := Step(s, a).value;
    match a {
      case Produce(i, item, woken) =>
        ProducerKeepsLocks(s, i, item, woken, s');
        ProducerKeepsCounts(s, i, item, woken, s');
        ProducerKeepsQueue(s, i, item, woken, s');
      case Consume(j, woken) =>
        ConsumerKeepsLocks(s, j, woken, s');
        ConsumerKeepsCounts(s, j, woken, s');
        ConsumerKeepsQueue(s, j, woken, s');
      case SpuriousP(i) => SpuriousKeepsCounts(s, a, s');
      case SpuriousC(j) => SpuriousKeepsCounts(s, a, s');
    }
  }

  lemma SpuriousKeepsCounts<T>(s: State<T>, a: Action<T>, s': State<T>)
    requires Invariant(s) && (a.SpuriousP? || a.SpuriousC?) && Step(s, a) == Some(s')
    ensures Counters(s') && Wakeups(s')
  {
    hide Sum;
    if a.SpuriousP? {
      WakePSums(s.producers, {a.i});
    } else {
      WakeCSums(s.consumers, {a.j});
    }
  }

  lemma {:induction false} RunKeepsInvariant<T>(s: State<T>, sched: seq<Action<T>>)
    requires Invariant(s)
    ensures Invariant(Exec(s, sched))
    decreases |sched|
  {
    hide Invariant, Step;
    if sched != [] {
      if Step(s, sched[0]).Some? {
        StepKeepsInvariant(s, sched[0]);
      }
      RunKeepsInvariant(Next(s, sched[0]), sched[1..]);
    }
  }

  /** Main result: the invariant holds after every schedule of any number of
      producers and consumers over any capacity. */
  lemma AlwaysInvariant<T>(cap: nat, producers: nat, consumers: nat, sched: seq<Action<T>>)
    ensures Invariant(Exec(Init(cap, producers, consumers), sched))
  {
    hide Sum;
    var s0: State<T> := Init(cap, producers, consumers);
    SumZero(s0.producers, PAsleep<T>);
    SumZero(s0.producers, PWaits<T>);
    SumZero(s0.consumers, CAsleep<T>);
    SumZero(s0.consumers, CWaits<T>);
    RunKeepsInvariant(s0, sched);
  }

  // ---------- What the invariant gives ----------

  /** Skipping a signal because the counter is zero loses nothing, and while the
      mutex is free every item has a woken consumer and every free slot a woken
      producer as long as one of them sleeps. */
  lemma NoLostWakeup<T>(s: State<T>)
    requires Invariant(s)
    ensures s.sleepComsumerNum == 0 ==> forall j :: 0 <= j < |s.consumers| ==> !s.consumers[j].CWaiting?
    ensures s.sleepProductorNum == 0 ==> forall i :: 0 <= i < |s.producers| ==> !s.producers[i].PWaiting?
    ensures s.owner.Free? ==>
              && s.sleepComsumerNum == Sum(s.consumers, CWaits) + Sum(s.consumers, CAwake)
              && s.sleepProductorNum == Sum(s.producers, PWaits) + Sum(s.producers, PAwake)
              && (Sum(s.consumers, CWaits) > 0 ==> Sum(s.consumers, CAwake) >= |s.bq|)
              && (Sum(s.producers, PWaits) > 0 ==> Sum(s.producers, PAwake) >= s.cap - |s.bq|)
  {
    hide Sum;
    SumPositive(s.consumers, CAsleep);
    SumPositive(s.producers, PAsleep);
    if s.owner.Free? {
      SumZero(s.producers, POwes);
      SumZero(s.consumers, COwes);
      SplitAsleep(s);
    }
  }

  /** With the mutex free, "counted asleep" is "waiting or woken". */
  lemma SplitAsleep<T>(s: State<T>)
    requires Locks(s) && s.owner.Free?
    ensures Sum(s.consumers, CAsleep) == Sum(s.consumers, CWaits) + Sum(s.consumers, CAwake)
    ensures Sum(s.producers, PAsleep) == Sum(s.producers, PWaits) + Sum(s.producers, PAwake)
  {
    hide Sum;
    SumSplit(s.consumers, CAsleep, CWaits, CAwake);
    SumSplit(s.producers, PAsleep, PWaits, PAwake);
  }

  /** Some thread can take a step of its own: not a spurious wakeup. */
  ghost predicate CanMove<T>(s: State<T>, a: Action<T>) {
    (a.Produce? || a.Consume?) && Step(s, a).Some?
  }

  ghost predicate Live<T(!new)>(s: State<T>) { exists a :: CanMove(s, a) }

  /** Deadlock freedom: with room for one item, one producer and one consumer,
      the threads are never all asleep or blocked together. */
  lemma NeverStuck<T(!new)>(s: State<T>, item: T)
    requires Invariant(s) && s.cap > 0 && |s.producers| > 0 && |s.consumers| > 0
    ensures Live(s)
  {
    hide Sum;
    match s.owner {
      case ByProducer(i) =>
        OwnerMoves(s, item);
        assert CanMove(s, Produce(i, item, WaitingC(s.consumers)));
      case ByConsumer(j) =>
        OwnerMoves(s, item);
        assert CanMove(s, Consume(j, WaitingP(s.producers)));
      case Free =>
        if i :| 0 <= i < |s.producers| && !s.producers[i].PWaiting? {
          assert CanMove(s, Produce(i, item, {}));
        } else if j :| 0 <= j < |s.consumers| && !s.consumers[j].CWaiting? {
          assert CanMove(s, Consume(j, {}));
        } else {
          EverybodyWaits(s);
          assert false;
        }
    }
  }

  lemma OwnerMoves<T>(s: State<T>, item: T)
    requires Invariant(s)
    ensures s.owner.ByProducer? ==> Step(s, Produce(s.owner.i, item, WaitingC(s.consumers))).Some?
    ensures s.owner.ByConsumer? ==> Step(s, Consume(s.owner.j, WaitingP(s.producers))).Some?
  {
    hide Sum;
    if s.owner.ByProducer? {
      SumAtLeast(s.producers, s.owner.i, PAsleep);
    } else if s.owner.ByConsumer? {
      SumAtLeast(s.consumers, s.owner.j, CAsleep);
    }
  }

  /** If all sleep, the queue is both empty and full. */
  lemma EverybodyWaits<T>(s: State<T>)
    requires Invariant(s) && |s.producers| > 0 && |s.consumers| > 0
    requires forall i :: 0 <= i < |s.producers| ==> s.producers[i].PWaiting?
    requires forall j :: 0 <= j < |s.consumers| ==> s.consumers[j].CWaiting?
    ensures s.cap == |s.bq| == 0
  {
    hide Sum;
    SumZero(s.producers, PAwake);
    SumZero(s.producers, POwes);
    SumZero(s.consumers, CAwake);
    SumZero(s.consumers, COwes);
    SumAtLeast(s.producers, 0, PWaits);
    SumAtLeast(s.consumers, 0, CWaits);
  }

  /** Refinement: a step puts the producer's item at the back of a queue with
      room, hands the front item to the consumer, or does not touch the queue. */
  lemma StepRefinesBoundedQueue<T>(s: State<T>, a: Action<T>, s': State<T>)
    requires Invariant(s) && Step(s, a) == Some(s')
    ensures
      if a.Produce? && s'.producers[a.i].PPushed? then
        && s.producers[a.i].PTest? && |s.bq| < s.cap
        && s'.bq == s.bq + [s.producers[a.i].item]
        && s'.pushed == s.pushed + [s.producers[a.i].item] && s'.popped == s.popped
      else if a.Consume? && s'.consumers[a.j].CPopped? then
        && s.consumers[a.j].CTest?
        && s.bq == [s'.consumers[a.j].item] + s'.bq
        && s'.popped == s.popped + [s'.consumers[a.j].item] && s'.pushed == s.pushed
      else
        s'.bq == s.bq && s'.pushed == s.pushed && s'.popped == s.popped
  {
    hide Sum;
  }

  /** After any schedule the items popped are the items pushed, in order, up to
      the at most cap that are still queued. */
  lemma DeliversInOrder<T>(cap: nat, producers: nat, consumers: nat, sched: seq<Action<T>>)
    ensures var s := Exec(Init(cap, producers, consumers), sched);
            s.pushed == s.popped + s.bq && |s.bq| <= s.cap
  {
    AlwaysInvariant(cap, producers, consumers, sched);
  }

  // ---------- Capacity zero ----------

  lemma {:induction false} ExecAppend<T>(s: State<T>, a: seq<Action<T>>, b: seq<Action<T>>)
    ensures Exec(s, a + b) == Exec(Exec(s, a), b)
    decreases |a|
  {
    hide Next;
    if a == [] {
      assert a + b == b;
    } else {
      assert (a + b)[1..] == a[1..] + b;
      ExecAppend(Next(s, a[0]), a[1..], b);
    }
  }

  lemma ExecFour<T>(s: State<T>, a: Action<T>)
    ensures Exec(s, [a, a, a, a]) == Next(Next(Next(Next(s, a), a), a), a)
  {
    hide Next;
    assert [a, a, a, a] == [a] + ([a] + ([a] + [a]));
    ExecAppend(s, [a], [a] + ([a] + [a]));
    ExecAppend(Next(s, a), [a], [a] + [a]);
    ExecAppend(Next(Next(s, a), a), [a], [a]);
    assert forall t: State<T> {:trigger Next(t, a)} :: Exec(t, [a]) == Next(t, a);
  }

  /** The producers from k on run into an empty queue without room. */
  lemma {:induction false} ProducersFallAsleep<T>(s: State<T>, k: nat, item: T) returns (sched: seq<Action<T>>)
    requires s.cap == 0 && s.bq == [] && s.owner == Free && k <= |s.producers|
    requires forall i :: 0 <= i < |s.producers| ==> s.producers[i] == if i < k then PWaiting(item) else PIdle
    ensures var t := Exec(s, sched);
            && t.bq == [] && t.owner == Free && t.consumers == s.consumers
            && |t.producers| == |s.producers|
            && forall i :: 0 <= i < |t.producers| ==> t.producers[i] == PWaiting(item)
    decreases |s.producers| - k
  {
    if k == |s.producers| {
      sched := [];
    } else {
      var a := Produce(k, item, {});
      var s4 := ProducerSleeps(s, k, item);
      var rest := ProducersFallAsleep(s4, k + 1, item);
      sched := [a, a, a, a] + rest;
      ExecAppend(s, [a, a, a, a], rest);
    }
  }

  lemma ProducerSleeps<T>(s: State<T>, k: nat, item: T) returns (s4: State<T>)
    requires s.cap == 0 && s.bq == [] && s.owner == Free && k < |s.producers| && s.producers[k] == PIdle
    ensures var a := Produce(k, item, {}); Exec(s, [a, a, a, a]) == s4
    ensures s4 == s.(producers := s4.producers, sleepProductorNum := s.sleepProductorNum + 1)
    ensures s4.producers == s.producers[k := PWaiting(item)]
  {
    hide Exec;
    var a := Produce(k, item, {});
    var s1 := s.(producers := s.producers[k := PAtLock(item)]);
    var s2 := s1.(owner := ByProducer(k), producers := s1.producers[k := PTest(item)]);
    var s3 := s2.(sleepProductorNum := s.sleepProductorNum + 1, producers := s2.producers[k := PCounted(item)]);
    s4 := s3.(owner := Free, producers := s3.producers[k := PWaiting(item)]);
    ExecFour(s, a);
    assert Next(s, a) == s1 && Next(s1, a) == s2 && Next(s2, a) == s3 && Next(s3, a) == s4;
  }

  lemma {:induction false} ConsumersFallAsleep<T>(s: State<T>, k: nat) returns (sched: seq<Action<T>>)
    requires s.bq == [] && s.owner == Free && k <= |s.consumers|
    requires forall j :: 0 <= j < |s.consumers| ==> s.consumers[j] == if j < k then CWaiting else CIdle
    ensures var t := Exec(s, sched);
            && t.bq == [] && t.owner == Free && t.producers == s.producers
            && |t.consumers| == |s.consumers|
            && forall j :: 0 <= j < |t.consumers| ==> t.consumers[j] == CWaiting
    decreases |s.consumers| - k
  {
    if k == |s.consumers| {
      sched := [];
    } else {
      var a: Action<T> := Consume(k, {});
      var s4 := ConsumerSleeps(s, k);
      var rest := ConsumersFallAsleep(s4, k + 1);
      sched := [a, a, a, a] + rest;
      ExecAppend(s, [a, a, a, a], rest);
    }
  }

  lemma ConsumerSleeps<T>(s: State<T>, k: nat) returns (s4: State<T>)
    requires s.bq == [] && s.owner == Free && k < |s.consumers| && s.consumers[k] == CIdle
    ensures var a: Action<T> := Consume(k, {}); Exec(s, [a, a, a, a]) == s4
    ensures s4 == s.(consumers := s4.consumers, sleepComsumerNum := s.sleepComsumerNum + 1)
    ensures s4.consumers == s.consumers[k := CWaiting]
  {
    hide Exec;
    var a: Action<T> := Consume(k, {});
    var s1 := s.(consumers := s.consumers[k := CAtLock]);
    var s2 := s1.(owner := ByConsumer(k), consumers := s1.consumers[k := CTest]);
    var s3 := s2.(sleepComsumerNum := s.sleepComsumerNum + 1, consumers := s2.consumers[k := CCounted]);
    s4 := s3.(owner := Free, consumers := s3.consumers[k := CWaiting]);
    ExecFour(s, a);
    assert Next(s, a) == s1 && Next(s1, a) == s2 && Next(s2, a) == s3 && Next(s3, a) == s4;
  }

  /** The queue is free of deadlock exactly when its capacity is positive. */
  lemma DeadlockFreeIff<T(!new)>(cap: nat, producers: nat, consumers: nat, item: T)
    requires producers > 0 && consumers > 0
    ensures (forall sched: seq<Action<T>> :: Live(Exec(Init(cap, producers, consumers), sched))) <==> cap > 0
  {
    var s0: State<T> := Init(cap, producers, consumers);
    if cap > 0 {
      forall sched: seq<Action<T>> ensures Live(Exec(s0, sched)) {
        AlwaysInvariant(cap, producers, consumers, sched);
        ExecKeepsShape(s0, sched);
        NeverStuck(Exec(s0, sched), item);
      }
    } else {
      var first := ProducersFallAsleep(s0, 0, item);
      var second := ConsumersFallAsleep(Exec(s0, first), 0);
      ExecAppend(s0, first, second);
      assert !Live(Exec(s0, first + second));
    }
  }

  lemma {:induction false} ExecKeepsShape<T>(s: State<T>, sched: seq<Action<T>>)
    ensures var t := Exec(s, sched);
            t.cap == s.cap && |t.producers| == |s.producers| && |t.consumers| == |s.consumers|
    decreases |sched|
  {
    if sched != [] {
      NextKeepsShape(s, sched[0]);
      ExecKeepsShape(Next(s, sched[0]), sched[1..]);
    }
  }

  lemma NextKeepsShape<T>(s: State<T>, a: Action<T>)
    ensures var t := Next(s, a);
            t.cap == s.cap && |t.producers| == |s.producers| && |t.consumers| == |s.consumers|
  {}
}
