/** Liveness of the blocking queue: the calls under way, without new ones, come to
    an end after a bounded number of steps, unless the queue keeps them waiting
    (test_thread11/BlockQueue.hpp:41-74). */
module BlockQueueProgress {
  import opened BlockQueueProtocol
  import opened Tally
  import opened Wrappers

  // ---------- Who is kept waiting, and by what ----------

  /** A producer is kept from its next action only by being asleep or by the mutex. */
  lemma ProducerBlockedIff<T>(s: State<T>, i: nat, item: T)
    requires Invariant(s) && i < |s.producers|
    ensures Step(s, Produce(i, item, WaitingC(s.consumers))).None? <==>
            s.producers[i].PWaiting? || ((s.producers[i].PAtLock? || s.producers[i].PWoken?) && s.owner != Free)
  {
    hide Sum;
    SumAtLeast(s.producers, i, PAsleep);
  }

  /** So is a consumer. */
  lemma ConsumerBlockedIff<T>(s: State<T>, j: nat)
    requires Invariant(s) && j < |s.consumers|
    ensures Step(s, Consume(j, WaitingP(s.producers))).None? <==>
            s.consumers[j].CWaiting? || ((s.consumers[j].CAtLock? || s.consumers[j].CWoken?) && s.owner != Free)
  {
    hide Sum;
    SumAtLeast(s.consumers, j, CAsleep);
  }

  ghost predicate WokenC<T>(cs: seq<Consumer<T>>, ds: seq<Consumer<T>>, who: set<nat>) {
    |ds| == |cs| && forall k :: 0 <= k < |cs| ==> ds[k] == if cs[k].CWaiting? && k in who then CWoken else cs[k]
  }

  ghost predicate WokenP<T>(ps: seq<Producer<T>>, qs: seq<Producer<T>>, who: set<nat>) {
    |qs| == |ps| && forall k :: 0 <= k < |ps| ==>
      qs[k] == if ps[k].PWaiting? && k in who then PWoken(ps[k].item) else ps[k]
  }

  /** Whom a push or a pop wakes: nobody if the counter of the other side is zero;
      otherwise any choice that, if anybody waits, includes one who does. And any
      waiting thread may wake by itself. */
  lemma WhoIsWoken<T>(s: State<T>, i: nat, j: nat, item: T, woken: set<nat>)
    requires Invariant(s) && i < |s.producers| && j < |s.consumers|
    ensures s.producers[i].PPushed? ==>
              var t := Step(s, Produce(i, item, woken));
              && (t.None? <==> s.sleepComsumerNum > 0 && !SignalsC(s.consumers, woken))
              && (t.Some? ==> WokenC(s.consumers, t.value.consumers, if s.sleepComsumerNum > 0 then woken else {}))
    ensures s.consumers[j].CPopped? ==>
              var t := Step(s, Consume(j, woken));
              && (t.None? <==> s.sleepProductorNum > 0 && !SignalsP(s.producers, woken))
              && (t.Some? ==> WokenP(s.producers, t.value.producers, if s.sleepProductorNum > 0 then woken else {}))
    ensures s.producers[i].PWaiting? ==>
              Step(s, SpuriousP(i)).Some? && WokenP(s.producers, Step(s, SpuriousP(i)).value.producers, {i})
    ensures s.consumers[j].CWaiting? ==>
              Step(s, SpuriousC(j)).Some? && WokenC(s.consumers, Step(s, SpuriousC(j)).value.consumers, {j})
  {
    hide Invariant, SignalsC, SignalsP;
  }

  // ---------- Progress of the calls under way ----------

  /** The next action of a thread that is inside Enqueue or Pop: no new call and no spurious wakeup. */
  predicate CanGo<T>(s: State<T>, a: Action<T>) {
    && Step(s, a).Some?
    && match a
       case Produce(i, _, _) => !s.producers[i].PIdle?
       case Consume(j, _) => !s.consumers[j].CIdle?
       case _ => false
  }

  ghost predicate AllGo<T>(s: State<T>, sched: seq<Action<T>>)
    decreases |sched|
  {
    sched == [] || (CanGo(s, sched[0]) && AllGo(Next(s, sched[0]), sched[1..]))
  }

  /** In Enqueue and has not pushed yet; in Pop and has not popped yet. */
  predicate ToPush<T>(p: Producer<T>) { !p.PIdle? && !p.PPushed? && !p.PSignalled? }
  predicate ToPop<T>(c: Consumer<T>) { !c.CIdle? && !c.CPopped? && !c.CSignalled? }

  function PSteps<T>(p: Producer<T>): nat {
    match p
    case PReacquired(_) => 4
    case PTest(_) => 3
    case PPushed => 2
    case PCounted(_) => 1
    case PSignalled => 1
    case _ => 0
  }

  function CSteps<T>(c: Consumer<T>): nat {
    match c
    case CReacquired => 4
    case CTest => 3
    case CPopped(_) => 2
    case CCounted => 1
    case CSignalled(_) => 1
    case _ => 0
  }

  /** Steps until the mutex is released. */
  function ToRelease<T>(s: State<T>): nat {
    match s.owner
    case Free => 0
    case ByProducer(i) => if i < |s.producers| then PSteps(s.producers[i]) else 0
    case ByConsumer(j) => if j < |s.consumers| then CSteps(s.consumers[j]) else 0
  }

  predicate OwnerPushes<T>(s: State<T>) {
    s.owner.ByProducer? && s.owner.i < |s.producers| && ToPush(s.producers[s.owner.i])
  }

  predicate OwnerPops<T>(s: State<T>) {
    s.owner.ByConsumer? && s.owner.j < |s.consumers| && ToPop(s.consumers[s.owner.j])
  }

  /** What the owner's step leaves of the calls under way. */
  ghost predicate Forward<T>(s: State<T>, t: State<T>) {
    && t.cap == s.cap && |t.producers| == |s.producers| && |t.consumers| == |s.consumers|
    && ((t.popped == s.popped && s.bq <= t.bq) || (s.bq != [] && t.popped == s.popped + [s.bq[0]]))
    && ((t.pushed == s.pushed && |t.bq| <= |s.bq|)
        || (|s.bq| < s.cap && |t.pushed| == |s.pushed| + 1 && s.pushed <= t.pushed))
    && (t.popped == s.popped ==>
        forall j :: 0 <= j < |s.consumers| && ToPop(s.consumers[j]) ==> ToPop(t.consumers[j]))
    && (t.pushed == s.pushed ==>
        forall i :: 0 <= i < |s.producers| && ToPush(s.producers[i]) ==> ToPush(t.producers[i]))
    && ((t.owner == s.owner && ToRelease(t) < ToRelease(s)) || t.owner == Free)
    && (OwnerPops(s) && s.bq != [] && t.popped == s.popped ==> t.owner == s.owner)
    && (OwnerPushes(s) && |s.bq| < s.cap && t.pushed == s.pushed ==> t.owner == s.owner)
  }

  lemma ProducerForward<T>(s: State<T>, item: T) returns (a: Action<T>, t: State<T>)
    requires Invariant(s) && s.owner.ByProducer?
    ensures CanGo(s, a) && Step(s, a) == Some(t) && Forward(s, t)
  {
    hide Sum;
    a := Produce(s.owner.i, item, WaitingC(s.consumers));
    SumAtLeast(s.producers, s.owner.i, PAsleep);
    t := Step(s, a).value;
  }

  lemma ConsumerForward<T>(s: State<T>) returns (a: Action<T>, t: State<T>)
    requires Invariant(s) && s.owner.ByConsumer?
    ensures CanGo(s, a) && Step(s, a) == Some(t) && Forward(s, t)
  {
    hide Sum;
    a := Consume(s.owner.j, WaitingP(s.producers));
    SumAtLeast(s.consumers, s.owner.j, CAsleep);
    t := Step(s, a).value;
  }

  lemma OwnerForward<T>(s: State<T>, item: T) returns (a: Action<T>, t: State<T>)
    requires Invariant(s) && s.owner != Free
    ensures CanGo(s, a) && Step(s, a) == Some(t) && Forward(s, t) && Invariant(t)
  {
    hide Invariant, Forward, CanGo, Step;
    if s.owner.ByProducer? {
      a, t := ProducerForward(s, item);
    } else {
      a, t := ConsumerForward(s);
    }
    StepKeepsInvariant(s, a);
  }

  /** With the mutex free and an item queued, a consumer that sleeps is matched by one that can take the mutex. */
  lemma AwakeConsumer<T>(s: State<T>, j: nat) returns (k: nat)
    requires Invariant(s) && s.owner == Free && s.bq != [] && j < |s.consumers| && ToPop(s.consumers[j])
    ensures k < |s.consumers| && (s.consumers[k].CAtLock? || s.consumers[k].CWoken?)
  {
    hide Sum;
    k := j;
    if s.consumers[j].CWaiting? {
      SumAtLeast(s.consumers, j, CWaits);
      NoLostWakeup(s);
      SumPositive(s.consumers, CAwake);
      k :| 0 <= k < |s.consumers| && CAwake(s.consumers[k]) > 0;
    }
  }

  lemma AwakeProducer<T>(s: State<T>, i: nat) returns (k: nat)
    requires Invariant(s) && s.owner == Free && |s.bq| < s.cap && i < |s.producers| && ToPush(s.producers[i])
    ensures k < |s.producers| && (s.producers[k].PAtLock? || s.producers[k].PWoken?)
  {
    hide Sum;
    k := i;
    if s.producers[i].PWaiting? {
      SumAtLeast(s.producers, i, PWaits);
      NoLostWakeup(s);
      SumPositive(s.producers, PAwake);
      k :| 0 <= k < |s.producers| && PAwake(s.producers[k]) > 0;
    }
  }

  lemma ConsumerLocks<T>(s: State<T>, k: nat) returns (a: Action<T>, t: State<T>)
    requires Invariant(s) && s.owner == Free && k < |s.consumers| && (s.consumers[k].CAtLock? || s.consumers[k].CWoken?)
    ensures CanGo(s, a) && Step(s, a) == Some(t) && Invariant(t)
    ensures OwnerPops(t) && t.owner == ByConsumer(k) && t.bq == s.bq && t.popped == s.popped
  {
    hide Sum;
    a := Consume(k, {});
    t := Step(s, a).value;
    StepKeepsInvariant(s, a);
  }

  lemma ProducerLocks<T>(s: State<T>, k: nat, item: T) returns (a: Action<T>, t: State<T>)
    requires Invariant(s) && s.owner == Free && k < |s.producers| && (s.producers[k].PAtLock? || s.producers[k].PWoken?)
    ensures CanGo(s, a) && Step(s, a) == Some(t) && Invariant(t)
    ensures OwnerPushes(t) && t.owner == ByProducer(k) && t.bq == s.bq && t.cap == s.cap && t.pushed == s.pushed
  {
    hide Sum;
    a := Produce(k, item, {});
    t := Step(s, a).value;
    StepKeepsInvariant(s, a);
  }

  /** No lost wakeup, as progress: while an item is queued and some call of Pop
      has not got one, the calls under way can be run, without any new call or
      spurious wakeup, until one of them pops that item. */
  lemma {:induction false} CanPop<T>(s: State<T>, j: nat, item: T) returns (sched: seq<Action<T>>)
    requires Invariant(s) && s.bq != [] && j < |s.consumers| && ToPop(s.consumers[j])
    ensures AllGo(s, sched) && Exec(s, sched).popped == s.popped + [s.bq[0]]
    decreases if OwnerPops(s) then 0 else if s.owner == Free then 1 else 2, ToRelease(s)
  {
    var a, t, k;
    if s.owner == Free {
      k := AwakeConsumer(s, j);
      a, t := ConsumerLocks(s, k);
    } else {
      k := j;
      a, t := OwnerForward(s, item);
    }
    hide Invariant, Step, CanGo, ToRelease;
    if t.popped != s.popped {
      sched := [a];
      assert Exec(s, sched) == Exec(t, []);
    } else {
      var rest := CanPop(t, k, item);
      sched := [a] + rest;
    }
  }

  /** And while there is room and some call of Enqueue has not pushed yet, one of them can be run to push. */
  lemma {:induction false} CanPush<T>(s: State<T>, i: nat, item: T) returns (sched: seq<Action<T>>)
    requires Invariant(s) && |s.bq| < s.cap && i < |s.producers| && ToPush(s.producers[i])
    ensures AllGo(s, sched)
    ensures var t := Exec(s, sched); |t.pushed| == |s.pushed| + 1 && s.pushed <= t.pushed
    decreases if OwnerPushes(s) then 0 else if s.owner == Free then 1 else 2, ToRelease(s)
  {
    var a, t, k;
    if s.owner == Free {
      k := AwakeProducer(s, i);
      a, t := ProducerLocks(s, k, item);
    } else {
      k := i;
      a, t := OwnerForward(s, item);
    }
    hide Invariant, Step, CanGo, ToRelease;
    if t.pushed != s.pushed {
      sched := [a];
      assert Exec(s, sched) == Exec(t, []);
    } else {
      var rest := CanPush(t, k, item);
      sched := [a] + rest;
    }
  }

  // ---------- Every run ends ----------

  predicate PNotifies<T>(p: Producer<T>) { !p.PIdle? && !p.PSignalled? }
  predicate CNotifies<T>(c: Consumer<T>) { !c.CIdle? && !c.CSignalled? }

  function PRank<T>(p: Producer<T>): nat {
    match p
    case PIdle => 0
    case PSignalled => 1
    case PPushed => 2
    case PWaiting(_) => 3
    case PCounted(_) => 4
    case PTest(_) => 5
    case PReacquired(_) => 6
    case PAtLock(_) => 6
    case PWoken(_) => 7
  }

  function CRank<T>(c: Consumer<T>): nat {
    match c
    case CIdle => 0
    case CSignalled(_) => 1
    case CPopped(_) => 2
    case CWaiting => 3
    case CCounted => 4
    case CTest => 5
    case CReacquired => 6
    case CAtLock => 6
    case CWoken => 7
  }

  /** The signal that a call has yet to send can cost each of n threads of the other side four steps. */
  function PEffort<T>(n: nat): (w: Producer<T> -> nat) { p => PRank(p) + if PNotifies(p) then 4 * n else 0 }
  function CEffort<T>(n: nat): (w: Consumer<T> -> nat) { c => CRank(c) + if CNotifies(c) then 4 * n else 0 }

  function WorkLeft<T>(s: State<T>): nat {
    Sum(s.producers, PEffort(|s.consumers|)) + Sum(s.consumers, CEffort(|s.producers|))
  }

  lemma ProducerAdvances<T>(s: State<T>, i: nat, item: T, woken: set<nat>)
    requires i < |s.producers| && !s.producers[i].PIdle? && ProducerStep(s, i, item, woken).Some?
    ensures var t := ProducerStep(s, i, item, woken).value;
            && |t.producers| == |s.producers| && t.producers == s.producers[i := t.producers[i]]
            && PRank(t.producers[i]) < PRank(s.producers[i])
            && (PNotifies(t.producers[i]) ==> PNotifies(s.producers[i]))
            && (t.consumers == s.consumers
                || (t.consumers == WakeC(s.consumers, woken)
                    && PNotifies(s.producers[i]) && !PNotifies(t.producers[i])))
  {
    hide WakeC, SignalsC;
  }

  lemma ConsumerAdvances<T>(s: State<T>, j: nat, woken: set<nat>)
    requires j < |s.consumers| && !s.consumers[j].CIdle? && ConsumerStep(s, j, woken).Some?
    ensures var t := ConsumerStep(s, j, woken).value;
            && |t.consumers| == |s.consumers| && t.consumers == s.consumers[j := t.consumers[j]]
            && CRank(t.consumers[j]) < CRank(s.consumers[j])
            && (CNotifies(t.consumers[j]) ==> CNotifies(s.consumers[j]))
            && (t.producers == s.producers
                || (t.producers == WakeP(s.producers, woken)
                    && CNotifies(s.consumers[j]) && !CNotifies(t.consumers[j])))
  {
    hide WakeP, SignalsP;
  }

  lemma ProducerLessWork<T>(s: State<T>, i: nat, item: T, woken: set<nat>)
    requires i < |s.producers| && !s.producers[i].PIdle? && ProducerStep(s, i, item, woken).Some?
    ensures WorkLeft(ProducerStep(s, i, item, woken).value) < WorkLeft(s)
  {
    ProducerAdvances(s, i, item, woken);
    var t := ProducerStep(s, i, item, woken).value;
    hide ProducerStep, Sum, PRank;
    SumUpdate(s.producers, i, t.producers[i], PEffort(|s.consumers|));
    FourMoreEach(s.consumers, WakeC(s.consumers, woken), CEffort(|s.producers|));
  }

  lemma ConsumerLessWork<T>(s: State<T>, j: nat, woken: set<nat>)
    requires j < |s.consumers| && !s.consumers[j].CIdle? && ConsumerStep(s, j, woken).Some?
    ensures WorkLeft(ConsumerStep(s, j, woken).value) < WorkLeft(s)
  {
    ConsumerAdvances(s, j, woken);
    var t := ConsumerStep(s, j, woken).value;
    hide ConsumerStep, Sum, CRank;
    SumUpdate(s.consumers, j, t.consumers[j], CEffort(|s.producers|));
    FourMoreEach(s.producers, WakeP(s.producers, woken), PEffort(|s.consumers|));
  }

  lemma LessWork<T>(s: State<T>, a: Action<T>)
    requires CanGo(s, a)
    ensures WorkLeft(Next(s, a)) < WorkLeft(s)
  {
    match a {
      case Produce(i, item, woken) => ProducerLessWork(s, i, item, woken);
      case Consume(j, woken) => ConsumerLessWork(s, j, woken);
    }
    hide WorkLeft, ProducerStep, ConsumerStep;
  }

  // ---------- Where it comes to rest ----------

  ghost predicate AtRest<T(!new)>(s: State<T>) {
    forall a: Action<T> :: !CanGo(s, a)
  }

  /** The calls that are left are those that the queue keeps waiting. */
  ghost predicate OnlyWaiting<T>(s: State<T>) {
    && (s.bq != [] ==> forall j :: 0 <= j < |s.consumers| ==> s.consumers[j].CIdle?)
    && (|s.bq| < s.cap ==> forall i :: 0 <= i < |s.producers| ==> s.producers[i].PIdle?)
  }

  lemma RestIsFree<T(!new)>(s: State<T>, item: T)
    requires Invariant(s) && AtRest(s)
    ensures s.owner == Free
    ensures forall j :: 0 <= j < |s.consumers| && !s.consumers[j].CIdle? ==> ToPop(s.consumers[j])
    ensures forall i :: 0 <= i < |s.producers| && !s.producers[i].PIdle? ==> ToPush(s.producers[i])
  {
    hide Sum;
    if s.owner != Free {
      var a, t := OwnerForward(s, item);
      assert false;
    }
  }

  lemma RestWaits<T(!new)>(s: State<T>, item: T)
    requires Invariant(s) && AtRest(s)
    ensures OnlyWaiting(s)
  {
    RestIsFree(s, item);
    hide Invariant, CanGo, Step;
    if s.bq != [] {
      forall j | 0 <= j < |s.consumers| ensures s.consumers[j].CIdle? {
        if !s.consumers[j].CIdle? {
          var sched := CanPop(s, j, item);
          assert false;
        }
      }
    }
    if |s.bq| < s.cap {
      forall i | 0 <= i < |s.producers| ensures s.producers[i].PIdle? {
        if !s.producers[i].PIdle? {
          var sched := CanPush(s, i, item);
          assert false;
        }
      }
    }
  }

  /** Main result on liveness: from any reachable state, whichever threads the
      scheduler prefers, at most WorkLeft(s) steps can be taken without a new call,
      and a run that cannot go on has left no call of Pop unless the queue is
      empty, and no call of Enqueue unless it is full. */
  lemma {:induction false} CallsEnd<T(!new)>(s: State<T>, sched: seq<Action<T>>, item: T)
    requires Invariant(s) && AllGo(s, sched)
    ensures var t := Exec(s, sched);
            |sched| + WorkLeft(t) <= WorkLeft(s) && Invariant(t) && (AtRest(t) ==> OnlyWaiting(t))
    decreases |sched|
  {
    if sched == [] {
      if AtRest(s) {
        RestWaits(s, item);
      }
    } else {
      LessWork(s, sched[0]);
      StepKeepsInvariant(s, sched[0]);
      hide Invariant, Step, CanGo, WorkLeft, AtRest, OnlyWaiting;
      CallsEnd(Next(s, sched[0]), sched[1..], item);
    }
  }
}
