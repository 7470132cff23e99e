/** The ring queue as a transition system: any number of producers and
    consumers, each between two of the atomic actions of Enqueue and Pop
    (test_sem01/RingQueue.hpp:26-52).

    A semaphore is its permit count and a mutex its owner; P with no permit and
    Lock on a held mutex are blocked (None). The store of line 33 and the load
    of line 47 are split into "index taken, step advanced" and "element
    copied", so two threads may be inside an element copy at the same time. */
module RingProtocol {
  import opened Modular
  import opened Tally
  import opened Wrappers

  datatype Producer<T> =
    | PIdle                        // before _blank_sem.P()
    | PAtLock(item: T)             // has a blank permit, before Lock
    | PHolding(item: T)            // owns _pmutex, before line 33
    | PStoring(item: T, slot: nat) // step advanced, slot not assigned yet
    | PStored                      // slot assigned, before line 34
    | PWrapped                     // before UnLock
    | PLeaving                     // before _data_sem.V()

  datatype Consumer<T> =
    | CIdle                        // before _data_sem.P()
    | CAtLock
    | CHolding                     // owns _cmutex, before line 47
    | CLoading(slot: nat)          // step advanced, element not copied yet
    | CLoaded(item: T)             // element copied, before line 48
    | CWrapped(item: T)            // before UnLock
    | CLeaving(item: T)            // before _blank_sem.V()

  /** The fields of RingQueue, the threads, and two history logs: the items
      stored and the items loaded so far. */
  datatype State<T> = State(
    cap: nat, rq: seq<T>, productorStep: nat, consumerStep: nat,
    blank: nat, data: nat, pOwner: Option<nat>, cOwner: Option<nat>,
    producers: seq<Producer<T>>, consumers: seq<Consumer<T>>,
    written: seq<T>, read: seq<T>)

  datatype Action<T> = Produce(i: nat, item: T) | Consume(j: nat)

  /** The constructor, with all threads outside; `fill` is what vector puts in the slots. */
  function Init<T>(cap: nat, fill: T, producers: nat, consumers: nat): State<T> {
    State(cap, seq(cap, _ => fill), 0, 0, cap, 0, None, None,
          seq(producers, _ => PIdle), seq(consumers, _ => CIdle), [], [])
  }

  function ProducerStep<T>(s: State<T>, i: nat, item: T): Option<State<T>>
    requires i < |s.producers|
  {
    match s.producers[i]
    case PIdle =>
      if s.blank == 0 then None
      else Some(s.(blank := s.blank - 1, producers := s.producers[i := PAtLock(item)]))
    case PAtLock(x) =>
      if s.pOwner.Some? then None
      else Some(s.(pOwner := Some(i), producers := s.producers[i := PHolding(x)]))
    case PHolding(x) =>
      Some(s.(productorStep := s.productorStep + 1,
              producers := s.producers[i := PStoring(x, s.productorStep)]))
    case PStoring(x, k) =>
      if k >= |s.rq| then None // out of bounds: never reached, by `Invariant`
      else Some(s.(rq := s.rq[k := x], written := s.written + [x],
                   producers := s.producers[i := PStored]))
    case PStored =>
      if s.cap == 0 then None
      else Some(s.(productorStep := s.productorStep % s.cap, producers := s.producers[i := PWrapped]))
    case PWrapped =>
      Some(s.(pOwner := None, producers := s.producers[i := PLeaving]))
    case PLeaving =>
      Some(s.(data := s.data + 1, producers := s.producers[i := PIdle]))
  }

  function ConsumerStep<T>(s: State<T>, j: nat): Option<State<T>>
    requires j < |s.consumers|
  {
    match s.consumers[j]
    case CIdle =>
      if s.data == 0 then None
      else Some(s.(data := s.data - 1, consumers := s.consumers[j := CAtLock]))
    case CAtLock =>
      if s.cOwner.Some? then None
      else Some(s.(cOwner := Some(j), consumers := s.consumers[j := CHolding]))
    case CHolding =>
      Some(s.(consumerStep := s.consumerStep + 1,
              consumers := s.consumers[j := CLoading(s.consumerStep)]))
    case CLoading(k) =>
      if k >= |s.rq| then None
      else Some(s.(read := s.read + [s.rq[k]], consumers := s.consumers[j := CLoaded(s.rq[k])]))
    case CLoaded(x) =>
      if s.cap == 0 then None
      else Some(s.(consumerStep := s.consumerStep % s.cap, consumers := s.consumers[j := CWrapped(x)]))
    case CWrapped(x) =>
      Some(s.(cOwner := None, consumers := s.consumers[j := CLeaving(x)]))
    case CLeaving(_) =>
      Some(s.(blank := s.blank + 1, consumers := s.consumers[j := CIdle]))
  }

  function Step<T>(s: State<T>, a: Action<T>): Option<State<T>> {
    match a
    case Produce(i, item) => if i < |s.producers| then ProducerStep(s, i, item) else None
    case Consume(j) => if j < |s.consumers| then ConsumerStep(s, j) else None
  }

  function Next<T>(s: State<T>, a: Action<T>): State<T> {
    match Step(s, a) case Some(s') => s' case None => s
  }

  /** The state a scheduler's choices lead to; scheduling a blocked thread changes nothing. */
  function Exec<T>(s: State<T>, sched: seq<Action<T>>): State<T>
    decreases |sched|
  {
    if sched == [] then s else Exec(Next(s, sched[0]), sched[1..])
  }

  // ---------- What holds in every reachable state ----------

  function PreWrite<T>(p: Producer<T>): nat { if p.PAtLock? || p.PHolding? || p.PStoring? then 1 else 0 }
  function PostWrite<T>(p: Producer<T>): nat { if p.PStored? || p.PWrapped? || p.PLeaving? then 1 else 0 }
  function PreRead<T>(c: Consumer<T>): nat { if c.CAtLock? || c.CHolding? || c.CLoading? then 1 else 0 }
  function PostRead<T>(c: Consumer<T>): nat { if c.CLoaded? || c.CWrapped? || c.CLeaving? then 1 else 0 }

  predicate PInside<T>(p: Producer<T>) { p.PHolding? || p.PStoring? || p.PStored? || p.PWrapped? }
  predicate CInside<T>(c: Consumer<T>) { c.CHolding? || c.CLoading? || c.CLoaded? || c.CWrapped? }

  ghost predicate Locks<T>(s: State<T>) {
    && (s.pOwner.Some? ==> s.pOwner.value < |s.producers|)
    && (s.cOwner.Some? ==> s.cOwner.value < |s.consumers|)
    && (forall i :: 0 <= i < |s.producers| ==> (PInside(s.producers[i]) <==> s.pOwner == Some(i)))
    && (forall j :: 0 <= j < |s.consumers| ==> (CInside(s.consumers[j]) <==> s.cOwner == Some(j)))
  }

  /** Where the step index is while the thread at p is inside its mutex (n = items stored so far). */
  ghost predicate PStepOk<T>(p: Producer<T>, step: nat, n: nat, cap: nat)
    requires cap > 0
  {
    match p
    case PStoring(_, slot) => slot == n % cap && step == slot + 1
    case PStored => n > 0 && step == (n - 1) % cap + 1
    case _ => step == n % cap
  }

  ghost predicate CStepOk<T>(c: Consumer<T>, step: nat, n: nat, cap: nat)
    requires cap > 0
  {
    match c
    case CLoading(slot) => slot == n % cap && step == slot + 1
    case CLoaded(_) => n > 0 && step == (n - 1) % cap + 1
    case _ => step == n % cap
  }

  ghost predicate Steps<T>(s: State<T>)
    requires s.cap > 0 && Locks(s)
  {
    && (if s.pOwner.Some? then PStepOk(s.producers[s.pOwner.value], s.productorStep, |s.written|, s.cap)
        else s.productorStep == |s.written| % s.cap)
    && (if s.cOwner.Some? then CStepOk(s.consumers[s.cOwner.value], s.consumerStep, |s.read|, s.cap)
        else s.consumerStep == |s.read| % s.cap)
  }

  /** Every permit is in a semaphore or in one thread's hands, and the data
      permits are the items stored but not loaded, minus those in transit. */
  ghost predicate Permits<T>(s: State<T>) {
    && s.blank + s.data + Sum(s.producers, PreWrite) + Sum(s.producers, PostWrite)
       + Sum(s.consumers, PreRead) + Sum(s.consumers, PostRead) == s.cap
    && |s.written| == |s.read| + s.data + Sum(s.producers, PostWrite) + Sum(s.consumers, PreRead)
  }

  /** The last cap items stored are still in their slots, so in particular all unread ones. */
  ghost predicate Contents<T>(s: State<T>)
    requires s.cap > 0
  {
    && |s.rq| == s.cap
    && s.read <= s.written
    && |s.written| <= |s.read| + s.cap
    && forall k {:trigger s.written[k]} ::
         0 <= k < |s.written| && |s.written| - s.cap <= k ==> s.rq[k % s.cap] == s.written[k]
  }

  ghost predicate Invariant<T>(s: State<T>) {
    s.cap > 0 && Locks(s) && Steps(s) && Permits(s) && Contents(s)
  }

  // ---------- Every step keeps the invariant ----------

  lemma ProducerCounts<T>(s: State<T>, i: nat, p: Producer<T>)
    requires i < |s.producers|
    ensures Sum(s.producers[i := p], PreWrite) + PreWrite(s.producers[i]) == Sum(s.producers, PreWrite) + PreWrite(p)
    ensures Sum(s.producers[i := p], PostWrite) + PostWrite(s.producers[i]) ==
            Sum(s.producers, PostWrite) + PostWrite(p)
    ensures PreWrite(s.producers[i]) <= Sum(s.producers, PreWrite)
    ensures PostWrite(s.producers[i]) <= Sum(s.producers, PostWrite)
  {
    SumUpdate(s.producers, i, p, PreWrite);
    SumUpdate(s.producers, i, p, PostWrite);
    SumAtLeast(s.producers, i, PreWrite);
    SumAtLeast(s.producers, i, PostWrite);
  }

  lemma ConsumerCounts<T>(s: State<T>, j: nat, c: Consumer<T>)
    requires j < |s.consumers|
    ensures Sum(s.consumers[j := c], PreRead) + PreRead(s.consumers[j]) == Sum(s.consumers, PreRead) + PreRead(c)
    ensures Sum(s.consumers[j := c], PostRead) + PostRead(s.consumers[j]) == Sum(s.consumers, PostRead) + PostRead(c)
    ensures PreRead(s.consumers[j]) <= Sum(s.consumers, PreRead)
    ensures PostRead(s.consumers[j]) <= Sum(s.consumers, PostRead)
  {
    SumUpdate(s.consumers, j, c, PreRead);
    SumUpdate(s.consumers, j, c, PostRead);
    SumAtLeast(s.consumers, j, PreRead);
    SumAtLeast(s.consumers, j, PostRead);
  }

  /** While a producer is about to store, fewer than cap items are unread. */
  lemma RoomToStore<T>(s: State<T>, i: nat)
    requires Invariant(s) && i < |s.producers| && PreWrite(s.producers[i]) == 1
    ensures |s.written| < |s.read| + s.cap
  {
    SumAtLeast(s.producers, i, PreWrite);
  }

  /** While a consumer is about to load, some item is unread. */
  lemma ItemToLoad<T>(s: State<T>, j: nat)
    requires Invariant(s) && j < |s.consumers| && PreRead(s.consumers[j]) == 1
    ensures |s.read| < |s.written|
  {
    SumAtLeast(s.consumers, j, PreRead);
  }

  /** Storing into the slot of the next item moves no item that must stay. */
  lemma StoreKeepsContents<T>(s: State<T>, i: nat)
    requires Invariant(s) && i < |s.producers| && s.producers[i].PStoring?
    ensures s.producers[i].slot < |s.rq| && Contents(ProducerStep(s, i, s.producers[i].item).value)
  {
    hide Sum;
    RoomToStore(s, i);
    var s' := ProducerStep(s, i, s.producers[i].item).value;
    forall k {:trigger s'.written[k]} | 0 <= k < |s.written| && |s'.written| - s.cap <= k
      ensures s'.rq[k % s.cap] == s'.written[k]
    {
      DistinctResidues(k, |s.written|, s.cap);
      assert s.rq[k % s.cap] == s.written[k];
    }
  }

  lemma ProducerKeepsPermits<T>(s: State<T>, i: nat, item: T, s': State<T>)
    requires Permits(s) && i < |s.producers| && ProducerStep(s, i, item) == Some(s')
    ensures Permits(s')
  {
    hide Sum;
    ProducerCounts(s, i, s'.producers[i]);
  }

  lemma ProducerKeepsLocks<T>(s: State<T>, i: nat, item: T, s': State<T>)
    requires Locks(s) && i < |s.producers| && ProducerStep(s, i, item) == Some(s')
    ensures Locks(s')
  {}

  lemma ProducerKeepsSteps<T>(s: State<T>, i: nat, item: T, s': State<T>)
    requires Invariant(s) && i < |s.producers| && ProducerStep(s, i, item) == Some(s')
    requires Locks(s')
    ensures Steps(s')
  {
    hide Sum, Permits, Contents;
    if s.producers[i].PStored? {
      NextResidue(|s.written| - 1, s.cap);
    }
  }

  lemma ProducerKeepsContents<T>(s: State<T>, i: nat, item: T, s': State<T>)
    requires Invariant(s) && i < |s.producers| && ProducerStep(s, i, item) == Some(s')
    ensures Contents(s')
  {
    hide Sum;
    if s.producers[i].PStoring? {
      StoreKeepsContents(s, i);
    }
  }

  lemma ProducerKeepsInvariant<T>(s: State<T>, i: nat, item: T, s': State<T>)
    requires Invariant(s) && i < |s.producers| && ProducerStep(s, i, item) == Some(s')
    ensures Invariant(s')
  {
    hide Sum, Permits, Contents;
    ProducerKeepsPermits(s, i, item, s');
    ProducerKeepsLocks(s, i, item, s');
    ProducerKeepsSteps(s, i, item, s');
    ProducerKeepsContents(s, i, item, s');
  }

  lemma ConsumerKeepsPermits<T>(s: State<T>, j: nat, s': State<T>)
    requires Permits(s) && j < |s.consumers| && ConsumerStep(s, j) == Some(s')
    ensures Permits(s')
  {
    hide Sum;
    ConsumerCounts(s, j, s'.consumers[j]);
  }

  lemma ConsumerKeepsLocks<T>(s: State<T>, j: nat, s': State<T>)
    requires Locks(s) && j < |s.consumers| && ConsumerStep(s, j) == Some(s')
    ensures Locks(s')
  {}

  lemma ConsumerKeepsSteps<T>(s: State<T>, j: nat, s': State<T>)
    requires Invariant(s) && j < |s.consumers| && ConsumerStep(s, j) == Some(s')
    requires Locks(s')
    ensures Steps(s')
  {
    hide Sum, Permits, Contents;
    if s.consumers[j].CLoaded? {
      NextResidue(|s.read| - 1, s.cap);
    }
  }

  lemma ConsumerKeepsContents<T>(s: State<T>, j: nat, s': State<T>)
    requires Invariant(s) && j < |s.consumers| && ConsumerStep(s, j) == Some(s')
    ensures Contents(s')
  {
    hide Sum;
    if s.consumers[j].CLoading? {
      ItemToLoad(s, j);
      assert s.consumers[j].slot == |s.read| % s.cap;
      assert s.rq[|s.read| % s.cap] == s.written[|s.read|];
    }
  }

  lemma ConsumerKeepsInvariant<T>(s: State<T>, j: nat, s': State<T>)
    requires Invariant(s) && j < |s.consumers| && ConsumerStep(s, j) == Some(s')
    ensures Invariant(s')
  {
    hide Permits, Sum, Contents;
    ConsumerKeepsPermits(s, j, s');
    ConsumerKeepsLocks(s, j, s');
    ConsumerKeepsSteps(s, j, s');
    ConsumerKeepsContents(s, j, s');
  }

  lemma StepKeepsInvariant<T>(s: State<T>, a: Action<T>)
    requires Invariant(s) && Step(s, a).Some?
    ensures Invariant(Step(s, a).value)
  {
    hide Invariant;
    match a {
      case Produce(i, item) => ProducerKeepsInvariant(s, i, item, Step(s, a).value);
      case Consume(j) => ConsumerKeepsInvariant(s, j, Step(s, a).value);
    }
  }

  lemma {:induction false} RunKeepsInvariant<T>(s: State<T>, sched: seq<Action<T>>)
    requires Invariant(s)
    ensures Invariant(Exec(s, sched))
    decreases |sched|
  {
    hide Invariant, Step;
    if sched != [] {
      if Step(s, sched[0]).Some? {
        StepKeepsInvariant(s, sched[0]);
      }
      RunKeepsInvariant(Next(s, sched[0]), sched[1..]);
    }
  }

  lemma AllIdle<T>(n: nat, p: T, w: T -> nat)
    requires w(p) == 0
    ensures Sum(seq(n, _ => p), w) == 0
  {
    SumPositive(seq(n, _ => p), w);
  }

  /** Main result: the invariant holds after every schedule of any number of
      producers and consumers over any capacity. */
  lemma AlwaysInvariant<T>(cap: nat, fill: T, producers: nat, consumers: nat, sched: seq<Action<T>>)
    requires cap > 0
    ensures Invariant(Exec(Init(cap, fill, producers, consumers), sched))
  {
    var s0 := Init(cap, fill, producers, consumers);
    assert Permits(s0) by {
      hide Sum;
      AllIdle(producers, PIdle, PreWrite<T>);
      AllIdle(producers, PIdle, PostWrite<T>);
      AllIdle(consumers, CIdle, PreRead<T>);
      AllIdle(consumers, CIdle, PostRead<T>);
    }
    assert Invariant(s0) by { hide Permits; }
    RunKeepsInvariant(s0, sched);
  }

  // ---------- What the invariant gives ----------

  /** The slot a consumer is copying from holds the oldest unread item. */
  lemma LoadsOldest<T>(s: State<T>, j: nat)
    requires Invariant(s) && j < |s.consumers| && s.consumers[j].CLoading?
    ensures |s.read| < |s.written| && s.consumers[j].slot < |s.rq|
    ensures s.rq[s.consumers[j].slot] == s.written[|s.read|]
  {
    hide Sum;
    ItemToLoad(s, j);
    assert s.rq[|s.read| % s.cap] == s.written[|s.read|];
  }

  /** The slot that comes next holds the item stored cap items ago, if there is one. */
  lemma OverwritesOldest<T>(s: State<T>)
    requires s.cap > 0 && Contents(s) && |s.written| >= s.cap
    ensures s.rq[|s.written| % s.cap] == s.written[|s.written| - s.cap]
  {
    var last := |s.written| - s.cap;
    DivMod(|s.written|, last / s.cap + 1, last % s.cap, s.cap);
    assert s.rq[last % s.cap] == s.written[last];
  }

  /** A producer copying into a slot and a consumer copying out of one are never
      at the same slot; the consumer's slot holds the oldest unread item, and the
      item that the producer overwrites, if any, has been read. */
  lemma SlotExclusion<T>(s: State<T>, i: nat, j: nat)
    requires Invariant(s) && i < |s.producers| && j < |s.consumers|
    ensures s.producers[i].PStoring? ==>
              var slot := s.producers[i].slot;
              && slot < |s.rq|
              && (|s.written| >= s.cap ==>
                    |s.written| - s.cap < |s.read| && s.rq[slot] == s.written[|s.written| - s.cap])
    ensures s.consumers[j].CLoading? ==>
              var slot := s.consumers[j].slot;
              && slot < |s.rq| && |s.read| < |s.written| && s.rq[slot] == s.written[|s.read|]
    ensures s.producers[i].PStoring? && s.consumers[j].CLoading? ==>
              s.producers[i].slot != s.consumers[j].slot
  {
    hide Sum, Permits;
    if s.producers[i].PStoring? {
      RoomToStore(s, i);
      if |s.written| >= s.cap {
        OverwritesOldest(s);
      }
    }
    if s.consumers[j].CLoading? {
      LoadsOldest(s, j);
      if s.producers[i].PStoring? {
        DistinctResidues(|s.read|, |s.written|, s.cap);
      }
    }
  }

  /** The unbounded FIFO queue the ring queue stands for. */
  function Pending<T>(s: State<T>): seq<T>
    requires |s.read| <= |s.written|
  {
    s.written[|s.read|..]
  }

  /** Refinement: a step appends the producer's item to the abstract queue, or
      hands its first item to the consumer, or does not touch it. */
  lemma StepRefinesFifo<T>(s: State<T>, a: Action<T>, s': State<T>)
    requires Invariant(s) && Step(s, a) == Some(s')
    ensures |s.read| <= |s.written| && |s'.read| <= |s'.written|
    ensures
      if a.Produce? && s.producers[a.i].PStoring? then
        Pending(s') == Pending(s) + [s.producers[a.i].item] && s'.read == s.read
      else if a.Consume? && s.consumers[a.j].CLoading? then
        && s'.consumers[a.j].CLoaded?
        && Pending(s) == [s'.consumers[a.j].item] + Pending(s')
        && s'.written == s.written && s'.read == s.read + [s'.consumers[a.j].item]
      else
        s'.written == s.written && s'.read == s.read
  {
    if a.Consume? && s.consumers[a.j].CLoading? {
      LoadsOldest(s, a.j);
    } else if a.Produce? && s.producers[a.i].PStoring? {
      RoomToStore(s, a.i);
    }
    assert |s.read| <= |s.written|;
    hide Invariant;
  }

  /** A producer stores the item its Enqueue was called with, and a consumer's
      Pop returns the item it copied: other steps change neither. */
  lemma ItemsAreKept<T>(s: State<T>, a: Action<T>, s': State<T>, i: nat, j: nat)
    requires Step(s, a) == Some(s') && i < |s.producers| && j < |s.consumers|
    ensures |s'.producers| == |s.producers| && |s'.consumers| == |s.consumers|
    ensures PreWrite(s'.producers[i]) == 1 ==>
              if PreWrite(s.producers[i]) == 1 then s'.producers[i].item == s.producers[i].item
              else a == Produce(i, s'.producers[i].item) && s.producers[i].PIdle?
    ensures PostRead(s.consumers[j]) == 1 ==>
              if PostRead(s'.consumers[j]) == 1 then s'.consumers[j].item == s.consumers[j].item
              else a == Consume(j) && s'.consumers[j].CIdle?
  {}

  /** Every Pop returns what was stored, in order: after any schedule the k-th
      item loaded is the k-th item stored, at most cap are in between, and each
      of these is in the slot that the consumers will reach for it. */
  lemma DeliversInOrder<T>(cap: nat, fill: T, producers: nat, consumers: nat, sched: seq<Action<T>>)
    requires cap > 0
    ensures var s := Exec(Init(cap, fill, producers, consumers), sched);
            && |s.read| <= |s.written| <= |s.read| + s.cap == |s.read| + |s.rq|
            && (forall k :: 0 <= k < |s.read| ==> s.read[k] == s.written[k])
            && (forall k :: 0 <= k < |Pending(s)| ==> Pending(s)[k] == s.rq[(|s.read| + k) % s.cap])
  {
    AlwaysInvariant(cap, fill, producers, consumers, sched);
    var s := Exec(Init(cap, fill, producers, consumers), sched);
    forall k | 0 <= k < |Pending(s)| ensures Pending(s)[k] == s.rq[(|s.read| + k) % s.cap] {
      assert s.rq[(|s.read| + k) % s.cap] == s.written[|s.read| + k];
    }
  }

  /** Both step indices are counts modulo cap whenever their mutex is free, and
      reach cap only between the increment and the `%=`. */
  lemma StepIndices<T>(s: State<T>)
    requires Invariant(s)
    ensures s.pOwner.None? ==> s.productorStep == |s.written| % s.cap
    ensures s.cOwner.None? ==> s.consumerStep == |s.read| % s.cap
    ensures s.productorStep <= s.cap && s.consumerStep <= s.cap
    ensures s.productorStep == s.cap ==>
              s.pOwner.Some? && (var p := s.producers[s.pOwner.value]; p.PStored? || p.PStoring?)
    ensures s.consumerStep == s.cap ==>
              s.cOwner.Some? && (var c := s.consumers[s.cOwner.value]; c.CLoaded? || c.CLoading?)
  {
    hide Sum;
  }

  /** With nobody inside Enqueue or Pop the semaphores count the free and the filled slots. */
  lemma QuietPermits<T>(s: State<T>)
    requires Invariant(s)
    requires forall i :: 0 <= i < |s.producers| ==> s.producers[i].PIdle?
    requires forall j :: 0 <= j < |s.consumers| ==> s.consumers[j].CIdle?
    ensures s.data == |Pending(s)| && s.blank == s.cap - |Pending(s)|
  {
    hide Sum;
    SumPositive(s.producers, PreWrite<T>);
    SumPositive(s.producers, PostWrite<T>);
    SumPositive(s.consumers, PreRead<T>);
    SumPositive(s.consumers, PostRead<T>);
  }

  ghost predicate CanMove<T>(s: State<T>, a: Action<T>) { Step(s, a).Some? }

  /** Deadlock freedom: with at least one producer and one consumer some thread
      can always take a step, whatever the others are doing. */
  lemma NeverStuck<T>(s: State<T>, item: T)
    requires Invariant(s) && |s.producers| > 0 && |s.consumers| > 0
    ensures exists a :: CanMove(s, a)
  {
    hide Sum;
    if s.pOwner.Some? {
      assert CanMove(s, Produce(s.pOwner.value, item)) by { OwnerMoves(s, item); }
    } else if s.cOwner.Some? {
      assert CanMove(s, Consume(s.cOwner.value)) by { OwnerMoves(s, item); }
    } else if i :| 0 <= i < |s.producers| && !s.producers[i].PIdle? {
      assert CanMove(s, Produce(i, item));
    } else if j :| 0 <= j < |s.consumers| && !s.consumers[j].CIdle? {
      assert CanMove(s, Consume(j));
    } else {
      QuietPermits(s);
      if s.blank > 0 {
        assert CanMove(s, Produce(0, item));
      } else {
        assert CanMove(s, Consume(0));
      }
    }
  }

  ghost predicate Live<T(!new)>(s: State<T>) { exists a :: CanMove(s, a) }

  /** The ring queue is free of deadlock exactly when its capacity is positive. */
  lemma DeadlockFreeIff<T(!new)>(cap: nat, fill: T, producers: nat, consumers: nat)
    requires producers > 0 && consumers > 0
    ensures (forall sched: seq<Action<T>> :: Live(Exec(Init(cap, fill, producers, consumers), sched))) <==> cap > 0
  {
    var s0 := Init(cap, fill, producers, consumers);
    if cap > 0 {
      forall sched: seq<Action<T>> ensures Live(Exec(s0, sched)) {
        hide Step, Invariant, Init;
        AlwaysInvariant(cap, fill, producers, consumers, sched);
        ExecKeepsThreads(s0, sched);
        NeverStuck(Exec(s0, sched), fill);
      }
    } else {
      assert !Live(s0);
      assert exists sched: seq<Action<T>> :: !Live(Exec(s0, sched)) by { assert Exec(s0, []) == s0; }
    }
  }

  lemma {:induction false} ExecKeepsThreads<T>(s: State<T>, sched: seq<Action<T>>)
    ensures |Exec(s, sched).producers| == |s.producers| && |Exec(s, sched).consumers| == |s.consumers|
    decreases |sched|
  {
    if sched != [] {
      NextKeepsThreads(s, sched[0]);
      hide Next;
      ExecKeepsThreads(Next(s, sched[0]), sched[1..]);
    }
  }

  lemma NextKeepsThreads<T>(s: State<T>, a: Action<T>)
    ensures |Next(s, a).producers| == |s.producers| && |Next(s, a).consumers| == |s.consumers|
  {}

  lemma OwnerMoves<T>(s: State<T>, item: T)
    requires Invariant(s)
    ensures s.pOwner.Some? ==> Step(s, Produce(s.pOwner.value, item)).Some?
    ensures s.cOwner.Some? ==> Step(s, Consume(s.cOwner.value)).Some?
  {
    hide Sum;
    if s.pOwner.Some? && s.producers[s.pOwner.value].PStoring? {
      StoreKeepsContents(s, s.pOwner.value);
    }
  }
}
