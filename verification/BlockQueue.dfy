/** The class of test_thread11/BlockQueue.hpp, run by one of many threads.

    The real fields are the source's; `log` is the schedule that led here, so
    every state is one the protocol reaches. Between two of its own actions a
    thread calls `Block`, whose contract lets the other threads take any steps
    they can. */
module BlockQueueClass {
  import opened BlockQueueProtocol
  import opened Tally
  import opened Wrappers

  /** The items that producer i puts into the queue along a schedule. */
  function PushedBy<T>(s: State<T>, sched: seq<Action<T>>, i: nat): seq<T>
    decreases |sched|
  {
    if sched == [] then []
    else (if Pushes(s, sched[0], i) then [s.producers[i].item] else []) + PushedBy(Next(s, sched[0]), sched[1..], i)
  }

  predicate Pushes<T>(s: State<T>, a: Action<T>, i: nat) {
    a.Produce? && a.i == i && i < |s.producers| && s.producers[i].PTest? && |s.bq| != s.cap
  }

  /** The items that consumer j takes out of the queue along a schedule. */
  function PoppedBy<T>(s: State<T>, sched: seq<Action<T>>, j: nat): seq<T>
    decreases |sched|
  {
    if sched == [] then []
    else (if Pops(s, sched[0], j) then [s.bq[0]] else []) + PoppedBy(Next(s, sched[0]), sched[1..], j)
  }

  predicate Pops<T>(s: State<T>, a: Action<T>, j: nat) {
    a.Consume? && a.j == j && j < |s.consumers| && s.consumers[j].CTest? && s.bq != []
  }

  /** No step in the schedule is one of producer i's (consumer j's) own. */
  ghost predicate ForeignP<T>(sched: seq<Action<T>>, i: nat) {
    forall k :: 0 <= k < |sched| ==> !(sched[k].Produce? && sched[k].i == i)
  }

  ghost predicate ForeignC<T>(sched: seq<Action<T>>, j: nat) {
    forall k :: 0 <= k < |sched| ==> !(sched[k].Consume? && sched[k].j == j)
  }

  /** How many steps of a schedule are producer i's (consumer j's) own. */
  ghost function TurnsP<T>(sched: seq<Action<T>>, i: nat): nat
    decreases |sched|
  {
    if sched == [] then 0
    else
      var a := sched[|sched| - 1];
      TurnsP(sched[..|sched| - 1], i) + if a.Produce? && a.i == i then 1 else 0
  }

  ghost function TurnsC<T>(sched: seq<Action<T>>, j: nat): nat
    decreases |sched|
  {
    if sched == [] then 0
    else
      var a := sched[|sched| - 1];
      TurnsC(sched[..|sched| - 1], j) + if a.Consume? && a.j == j then 1 else 0
  }

  lemma {:induction false} ForeignTurnsP<T>(before: seq<Action<T>>, steps: seq<Action<T>>, i: nat)
    requires ForeignP(steps, i)
    ensures TurnsP(before + steps, i) == TurnsP(before, i)
    decreases |steps|
  {
    if steps == [] {
      assert before + steps == before;
    } else {
      assert (before + steps)[..|before + steps| - 1] == before + steps[..|steps| - 1];
      ForeignTurnsP(before, steps[..|steps| - 1], i);
    }
  }

  lemma {:induction false} ForeignTurnsC<T>(before: seq<Action<T>>, steps: seq<Action<T>>, j: nat)
    requires ForeignC(steps, j)
    ensures TurnsC(before + steps, j) == TurnsC(before, j)
    decreases |steps|
  {
    if steps == [] {
      assert before + steps == before;
    } else {
      assert (before + steps)[..|before + steps| - 1] == before + steps[..|steps| - 1];
      ForeignTurnsC(before, steps[..|steps| - 1], j);
    }
  }

  /** Nothing the thread could do next is possible. */
  ghost predicate BlockedP<T>(s: State<T>, i: nat, item: T) {
    forall woken :: Step(s, Produce(i, item, woken)).None?
  }

  ghost predicate BlockedC<T>(s: State<T>, j: nat) {
    forall woken :: Step(s, Consume(j, woken)).None?
  }

  lemma ProducerBlocked<T>(s: State<T>, i: nat, item: T)
    requires i < |s.producers|
    requires var p := s.producers[i]; p.PWaiting? || (s.owner != Free && (p.PAtLock? || p.PWoken?))
    ensures BlockedP(s, i, item)
  {}

  lemma ConsumerBlocked<T>(s: State<T>, j: nat)
    requires j < |s.consumers|
    requires var c := s.consumers[j]; c.CWaiting? || (s.owner != Free && (c.CAtLock? || c.CWoken?))
    ensures BlockedC(s, j)
  {}

  /** The item with which this action begins a call of Enqueue by producer i, if any. */
  function Called<T>(s: State<T>, a: Action<T>, i: nat): seq<T> {
    if a.Produce? && a.i == i && i < |s.producers| && s.producers[i].PIdle? then [a.item] else []
  }

  function CalledBy<T>(s: State<T>, sched: seq<Action<T>>, i: nat): seq<T>
    decreases |sched|
  {
    if sched == [] then [] else Called(s, sched[0], i) + CalledBy(Next(s, sched[0]), sched[1..], i)
  }

  function ToBePushed<T>(p: Producer<T>): seq<T> {
    if p.PIdle? || p.PPushed? || p.PSignalled? then [] else [p.item]
  }

  /** Along any schedule a producer puts exactly the items of its calls into the
      queue, in that order, up to the one call under way. */
  lemma {:induction false} CalledIsPushed<T>(s: State<T>, sched: seq<Action<T>>, i: nat)
    requires i < |s.producers|
    ensures i < |Exec(s, sched).producers|
    ensures ToBePushed(s.producers[i]) + CalledBy(s, sched, i) ==
            PushedBy(s, sched, i) + ToBePushed(Exec(s, sched).producers[i])
    decreases |sched|
  {
    if sched != [] {
      var a, t := sched[0], Next(s, sched[0]);
      StepPushes(s, a, i);
      hide Next, Called, Pushes, ToBePushed;
      CalledIsPushed(t, sched[1..], i);
      Regroup(ToBePushed(s.producers[i]), Called(s, a, i), CalledBy(t, sched[1..], i),
              if Pushes(s, a, i) then [s.producers[i].item] else [],
              ToBePushed(t.producers[i]), PushedBy(t, sched[1..], i), ToBePushed(Exec(s, sched).producers[i]));
    }
  }

  lemma StepPushes<T>(s: State<T>, a: Action<T>, i: nat)
    requires i < |s.producers|
    ensures i < |Next(s, a).producers|
    ensures ToBePushed(s.producers[i]) + Called(s, a, i) ==
            (if Pushes(s, a, i) then [s.producers[i].item] else []) + ToBePushed(Next(s, a).producers[i])
  {
    if a.Produce? && a.i == i {
      hide WakeC, SignalsC;
    } else {
      OtherStepLeavesProducer(s, a, i);
      hide Next;
    }
  }

  /** The item that this action returns to the caller of Pop, if it is consumer j's. */
  function Returned<T>(s: State<T>, a: Action<T>, j: nat): seq<T> {
    if a.Consume? && a.j == j && j < |s.consumers| && s.consumers[j].CSignalled? then [s.consumers[j].item] else []
  }

  function ReturnedBy<T>(s: State<T>, sched: seq<Action<T>>, j: nat): seq<T>
    decreases |sched|
  {
    if sched == [] then [] else Returned(s, sched[0], j) + ReturnedBy(Next(s, sched[0]), sched[1..], j)
  }

  function ToReturn<T>(c: Consumer<T>): seq<T> {
    if c.CPopped? || c.CSignalled? then [c.item] else []
  }

  /** Along any schedule a consumer's calls of Pop return exactly the items that it
      takes out of the queue, in that order, up to the one call under way. */
  lemma {:induction false} PoppedIsReturned<T>(s: State<T>, sched: seq<Action<T>>, j: nat)
    requires j < |s.consumers|
    ensures j < |Exec(s, sched).consumers|
    ensures ToReturn(s.consumers[j]) + PoppedBy(s, sched, j) ==
            ReturnedBy(s, sched, j) + ToReturn(Exec(s, sched).consumers[j])
    decreases |sched|
  {
    if sched != [] {
      var a, t := sched[0], Next(s, sched[0]);
      StepReturns(s, a, j);
      hide Next, Returned, Pops, ToReturn;
      PoppedIsReturned(t, sched[1..], j);
      Regroup(ToReturn(s.consumers[j]), if Pops(s, a, j) then [s.bq[0]] else [], PoppedBy(t, sched[1..], j),
              Returned(s, a, j), ToReturn(t.consumers[j]), ReturnedBy(t, sched[1..], j),
              ToReturn(Exec(s, sched).consumers[j]));
    }
  }

  lemma StepReturns<T>(s: State<T>, a: Action<T>, j: nat)
    requires j < |s.consumers|
    ensures j < |Next(s, a).consumers|
    ensures ToReturn(s.consumers[j]) + (if Pops(s, a, j) then [s.bq[0]] else []) ==
            Returned(s, a, j) + ToReturn(Next(s, a).consumers[j])
  {
    if a.Consume? && a.j == j {
      hide WakeP, SignalsP;
    } else {
      OtherStepLeavesConsumer(s, a, j);
      hide Next;
    }
  }

  lemma {:induction false} PushedByAppend<T>(s: State<T>, a: seq<Action<T>>, b: seq<Action<T>>, i: nat)
    ensures PushedBy(s, a + b, i) == PushedBy(s, a, i) + PushedBy(Exec(s, a), b, i)
    decreases |a|
  {
    hide Next, Pushes;
    if a == [] {
      assert a + b == b;
    } else {
      assert (a + b)[1..] == a[1..] + b;
      PushedByAppend(Next(s, a[0]), a[1..], b, i);
    }
  }

  lemma {:induction false} PoppedByAppend<T>(s: State<T>, a: seq<Action<T>>, b: seq<Action<T>>, j: nat)
    ensures PoppedBy(s, a + b, j) == PoppedBy(s, a, j) + PoppedBy(Exec(s, a), b, j)
    decreases |a|
  {
    hide Next, Pops;
    if a == [] {
      assert a + b == b;
    } else {
      assert (a + b)[1..] == a[1..] + b;
      PoppedByAppend(Next(s, a[0]), a[1..], b, j);
    }
  }

  /** Others can wake a thread but not move it, and push or pop nothing in its name. */
  lemma {:induction false} OthersLeaveProducer<T>(s: State<T>, sched: seq<Action<T>>, i: nat)
    requires ForeignP(sched, i) && i < |s.producers|
    ensures var t := Exec(s, sched);
            && |t.producers| == |s.producers| && PushedBy(s, sched, i) == []
            && (t.producers[i] == s.producers[i]
                || (s.producers[i].PWaiting? && t.producers[i] == PWoken(s.producers[i].item)))
    decreases |sched|
  {
    if sched != [] {
      OtherStepLeavesProducer(s, sched[0], i);
      hide Next;
      OthersLeaveProducer(Next(s, sched[0]), sched[1..], i);
    }
  }

  lemma OtherStepLeavesProducer<T>(s: State<T>, a: Action<T>, i: nat)
    requires !(a.Produce? && a.i == i) && i < |s.producers|
    ensures var t := Next(s, a);
            && |t.producers| == |s.producers|
            && (t.producers[i] == s.producers[i]
                || (s.producers[i].PWaiting? && t.producers[i] == PWoken(s.producers[i].item)))
  {}

  lemma {:induction false} OthersLeaveConsumer<T>(s: State<T>, sched: seq<Action<T>>, j: nat)
    requires ForeignC(sched, j) && j < |s.consumers|
    ensures var t := Exec(s, sched);
            && |t.consumers| == |s.consumers| && PoppedBy(s, sched, j) == []
            && (t.consumers[j] == s.consumers[j] || (s.consumers[j].CWaiting? && t.consumers[j].CWoken?))
    decreases |sched|
  {
    if sched != [] {
      OtherStepLeavesConsumer(s, sched[0], j);
      hide Next;
      OthersLeaveConsumer(Next(s, sched[0]), sched[1..], j);
    }
  }

  lemma OtherStepLeavesConsumer<T>(s: State<T>, a: Action<T>, j: nat)
    requires !(a.Consume? && a.j == j) && j < |s.consumers|
    ensures var t := Next(s, a);
            && |t.consumers| == |s.consumers|
            && (t.consumers[j] == s.consumers[j] || (s.consumers[j].CWaiting? && t.consumers[j].CWoken?))
  {}

  /** Counted, then waiting without the mutex. */
  lemma ProducerFallsAsleep<T>(s: State<T>, i: nat, item: T)
    requires i < |s.producers| && s.producers[i] == PTest(item) && |s.bq| == s.cap
    ensures var a := Produce(i, item, {});
            && Step(s, a).Some? && Step(Next(s, a), a).Some?
            && !Pushes(s, a, i) && !Pushes(Next(s, a), a, i)
            && Next(Next(s, a), a) ==
               s.(sleepProductorNum := s.sleepProductorNum + 1, owner := Free,
                  producers := s.producers[i := PWaiting(item)])
  {
    assert s.producers[i := PCounted(item)][i := PWaiting(item)] == s.producers[i := PWaiting(item)];
  }

  /** Back from Wait with the mutex, and no longer counted. */
  lemma ProducerWakesUp<T>(s: State<T>, i: nat, item: T)
    requires Invariant(s) && i < |s.producers| && s.producers[i] == PWoken(item) && s.owner == Free
    ensures var a := Produce(i, item, {});
            && s.sleepProductorNum > 0
            && Step(s, a).Some? && Step(Next(s, a), a).Some?
            && !Pushes(s, a, i) && !Pushes(Next(s, a), a, i)
            && Next(Next(s, a), a) ==
               s.(sleepProductorNum := s.sleepProductorNum - 1, owner := ByProducer(i),
                  producers := s.producers[i := PTest(item)])
  {
    hide Sum;
    SumAtLeast(s.producers, i, PAsleep);
    assert s.producers[i := PReacquired(item)][i := PTest(item)] == s.producers[i := PTest(item)];
  }

  lemma ConsumerFallsAsleep<T>(s: State<T>, j: nat)
    requires j < |s.consumers| && s.consumers[j].CTest? && s.bq == []
    ensures var a: Action<T> := Consume(j, {});
            && Step(s, a).Some? && Step(Next(s, a), a).Some?
            && !Pops(s, a, j) && !Pops(Next(s, a), a, j)
            && Next(Next(s, a), a) ==
               s.(sleepComsumerNum := s.sleepComsumerNum + 1, owner := Free, consumers := s.consumers[j := CWaiting])
  {
    assert s.consumers[j := CCounted][j := CWaiting] == s.consumers[j := CWaiting];
  }

  lemma ConsumerWakesUp<T>(s: State<T>, j: nat)
    requires Invariant(s) && j < |s.consumers| && s.consumers[j].CWoken? && s.owner == Free
    ensures var a: Action<T> := Consume(j, {});
            && s.sleepComsumerNum > 0
            && Step(s, a).Some? && Step(Next(s, a), a).Some?
            && !Pops(s, a, j) && !Pops(Next(s, a), a, j)
            && Next(Next(s, a), a) ==
               s.(sleepComsumerNum := s.sleepComsumerNum - 1, owner := ByConsumer(j),
                  consumers := s.consumers[j := CTest])
  {
    hide Sum;
    SumAtLeast(s.consumers, j, CAsleep);
    assert s.consumers[j := CReacquired][j := CTest] == s.consumers[j := CTest];
  }

  /** How a call ends: its work is done, it cannot go on, or it has been woken as
      often as the caller allows and the queue still keeps it waiting. */
  datatype Ending = Done | Stuck | Tired

  class BlockQueue<T> {
    const cap: nat
    var bq: seq<T>
    var sleepComsumerNum: nat
    var sleepProductorNum: nat
    var locked: bool
    ghost const start: State<T>
    ghost var log: seq<Action<T>>

    ghost function Now(): State<T>
      reads this
    {
      Exec(start, log)
    }

    ghost predicate Valid()
      reads this
    {
      && Invariant(start)
      && Invariant(Now())
      && Now().cap == cap && Now().bq == bq && locked == !Now().owner.Free?
      && Now().sleepComsumerNum == sleepComsumerNum && Now().sleepProductorNum == sleepProductorNum
    }

    /** `cap` is an int; IsFull compares it with an unsigned 64-bit size, so a
        negative one is as good as none. */
    constructor (cap: int, producers: nat, consumers: nat)
      requires -0x8000_0000 <= cap < 0x8000_0000
      ensures Valid() && log == [] && start == Init(this.cap, producers, consumers)
      ensures if cap < 0 then this.cap > 0xFFFF_FFFF_0000_0000 else this.cap == cap
    {
      this.cap := if cap < 0 then cap + 0x1_0000_0000_0000_0000 else cap;
      bq, sleepComsumerNum, sleepProductorNum, locked := [], 0, 0, false;
      start, log := Init(if cap < 0 then cap + 0x1_0000_0000_0000_0000 else cap, producers, consumers), [];
      new;
      AlwaysInvariant<T>(this.cap, producers, consumers, []);
    }

    /** One atomic action of the protocol, beside the assignment that makes it happen. */
    ghost method Move(a: Action<T>)
      requires Invariant(start) && Invariant(Now()) && Step(Now(), a).Some?
      modifies this`log
      ensures log == old(log) + [a] && Now() == Step(old(Now()), a).value && Invariant(Now())
      ensures a.Produce? ==>
                PushedBy(start, log, a.i) == PushedBy(start, old(log), a.i)
                  + if Pushes(old(Now()), a, a.i) then [old(Now()).producers[a.i].item] else []
      ensures a.Consume? ==>
                PoppedBy(start, log, a.j) == PoppedBy(start, old(log), a.j)
                  + if Pops(old(Now()), a, a.j) then [old(Now()).bq[0]] else []
      ensures a.Produce? ==> TurnsP(log, a.i) == TurnsP(old(log), a.i) + 1
      ensures a.Consume? ==> TurnsC(log, a.j) == TurnsC(old(log), a.j) + 1
    {
      hide Invariant, Step, Pushes, Pops;
      ExecAppend(start, log, [a]);
      if a.Produce? {
        PushedByAppend(start, log, [a], a.i);
      } else if a.Consume? {
        PoppedByAppend(start, log, [a], a.j);
      }
      StepKeepsInvariant(Now(), a);
      log := log + [a];
      assert Exec(Exec(start, old(log)), [a]) == Next(Exec(start, old(log)), a);
    }

    /** The other threads run: any steps of theirs may happen here. `resumed`
        says that producer i may go on, being out of the wait set with the
        mutex free. The last two clauses follow from the first. */
    method BlockProducer(i: nat) returns (resumed: bool)
      requires Valid() && i < |Now().producers|
      modifies this
      ensures Valid() && old(log) <= log && ForeignP(log[|old(log)|..], i)
      ensures |Now().producers| == |old(Now()).producers|
      ensures resumed <==> !locked && !Now().producers[i].PWaiting?
      ensures Now().producers[i] == old(Now()).producers[i]
              || (old(Now()).producers[i].PWaiting? && Now().producers[i] == PWoken(old(Now()).producers[i].item))
      ensures PushedBy(start, log, i) == PushedBy(start, old(log), i) && TurnsP(log, i) == TurnsP(old(log), i)
    {
      hide Invariant;
      ghost var before := log;
      if Now().producers[i].PWaiting? {
        Move(SpuriousP(i));
      }
      resumed := !locked;
      ghost var steps := log[|before|..];
      assert log == before + steps;
      ExecAppend(start, before, steps);
      PushedByAppend(start, before, steps, i);
      ForeignTurnsP(before, steps, i);
      OthersLeaveProducer(Exec(start, before), steps, i);
    }

    method BlockConsumer(j: nat) returns (resumed: bool)
      requires Valid() && j < |Now().consumers|
      modifies this
      ensures Valid() && old(log) <= log && ForeignC(log[|old(log)|..], j)
      ensures |Now().consumers| == |old(Now()).consumers|
      ensures resumed <==> !locked && !Now().consumers[j].CWaiting?
      ensures Now().consumers[j] == old(Now()).consumers[j]
              || (old(Now()).consumers[j].CWaiting? && Now().consumers[j].CWoken?)
      ensures PoppedBy(start, log, j) == PoppedBy(start, old(log), j) && TurnsC(log, j) == TurnsC(old(log), j)
    {
      hide Invariant;
      ghost var before := log;
      if Now().consumers[j].CWaiting? {
        Move(SpuriousC(j));
      }
      resumed := !locked;
      ghost var steps := log[|before|..];
      assert log == before + steps;
      ExecAppend(start, before, steps);
      PoppedByAppend(start, before, steps, j);
      ForeignTurnsC(before, steps, j);
      OthersLeaveConsumer(Exec(start, before), steps, j);
    }

    ghost method MoveTwice(a: Action<T>)
      requires Invariant(start) && Invariant(Now()) && Step(Now(), a).Some? && Step(Next(Now(), a), a).Some?
      requires a.Produce? ==> !Pushes(Now(), a, a.i) && !Pushes(Next(Now(), a), a, a.i)
      requires a.Consume? ==> !Pops(Now(), a, a.j) && !Pops(Next(Now(), a), a, a.j)
      modifies this`log
      ensures old(log) <= log && Now() == Next(Next(old(Now()), a), a) && Invariant(Now())
      ensures a.Produce? ==>
                && PushedBy(start, log, a.i) == PushedBy(start, old(log), a.i)
                && TurnsP(log, a.i) == TurnsP(old(log), a.i) + 2
      ensures a.Consume? ==>
                && PoppedBy(start, log, a.j) == PoppedBy(start, old(log), a.j)
                && TurnsC(log, a.j) == TurnsC(old(log), a.j) + 2
    {
      hide Invariant, Step, Pushes, Pops, PushedBy, PoppedBy;
      Move(a);
      Move(a);
    }

    /** Lines 45 to 47; false if the thread cannot go on yet. */
    method SleepWhileFull(i: nat, item: T) returns (resumed: bool)
      requires Valid() && i < |Now().producers| && Now().producers[i] == PTest(item)
      requires |bq| == cap
      modifies this
      ensures Valid() && old(log) <= log
      ensures PushedBy(start, log, i) == PushedBy(start, old(log), i)
      ensures i < |Now().producers|
      ensures if resumed then Now().producers[i] == PTest(item) && TurnsP(log, i) == TurnsP(old(log), i) + 4
              else BlockedP(Now(), i, item)
    {
      hide PushedBy, Invariant, Step, Pushes, TurnsP, TurnsC, BlockedP;
      ghost var a := Produce(i, item, {});
      ProducerFallsAsleep(Now(), i, item);
      sleepProductorNum := sleepProductorNum + 1;
      locked := false;
      MoveTwice(a);
      resumed := BlockProducer(i);
      if resumed {
        ProducerWakesUp(Now(), i, item);
        locked := true;
        sleepProductorNum := sleepProductorNum - 1;
        MoveTwice(a);
      } else {
        ProducerBlocked(Now(), i, item);
      }
    }

    /** Lines 50 to 54. */
    method PutAndSignal(i: nat, item: T)
      requires Valid() && i < |Now().producers| && Now().producers[i] == PTest(item)
      requires |bq| != cap
      modifies this
      ensures Valid() && old(log) <= log
      ensures PushedBy(start, log, i) == PushedBy(start, old(log), i) + [item]
      ensures i < |Now().producers| && Now().producers[i].PIdle? && Now().owner.Free?
      ensures bq == old(bq) + [item]
    {
      hide PushedBy, PoppedBy, Invariant, TurnsP, TurnsC;
      ghost var a := Produce(i, item, {});
      bq := bq + [item];
      Move(a);
      if sleepComsumerNum > 0 {
        ghost var woken := WaitingC(Now().consumers);
        Move(Produce(i, item, woken));
      } else {
        Move(a);
      }
      HolderOwns(Now());
      locked := false;
      Move(a);
    }

    /** The call and line 43; false if the mutex is not free. */
    method AcquireToPush(i: nat, item: T) returns (ok: bool)
      requires Valid() && i < |Now().producers| && Now().producers[i].PIdle?
      modifies this
      ensures Valid() && old(log) <= log
      ensures PushedBy(start, log, i) == PushedBy(start, old(log), i)
      ensures i < |Now().producers|
      ensures if ok then Now().producers[i] == PTest(item) && TurnsP(log, i) == TurnsP(old(log), i) + 2
              else BlockedP(Now(), i, item)
    {
      hide Invariant, PushedBy, TurnsP;
      ghost var a := Produce(i, item, {});
      Move(a);
      ok := BlockProducer(i);
      if ok {
        locked := true;
        Move(a);
      }
    }

    /** Whatever the other threads do meanwhile, an Enqueue that is done has put
        its item into the queue exactly once. One that is not has not put it there:
        the mutex or its sleep keeps it, or after `patience` sleeps the queue is full. */
    method Enqueue(i: nat, item: T, patience: nat) returns (end: Ending)
      requires Valid() && i < |Now().producers| && Now().producers[i].PIdle?
      modifies this
      ensures Valid() && old(log) <= log
      ensures PushedBy(start, log, i) == PushedBy(start, old(log), i) + if end.Done? then [item] else []
      ensures i < |Now().producers|
      ensures match end
              case Done => Now().producers[i].PIdle?
              case Stuck => BlockedP(Now(), i, item)
              case Tired =>
                && Now().producers[i] == PTest(item) && |bq| == cap
                && TurnsP(log, i) == TurnsP(old(log), i) + 2 + 4 * patience
    {
      hide Invariant, PushedBy, TurnsP, BlockedP, Step;
      var resumed := AcquireToPush(i, item);
      if !resumed {
        return Stuck;
      }
      var left := patience;
      while |bq| == cap
        invariant Valid() && old(log) <= log && 0 <= left <= patience
        invariant i < |Now().producers| && Now().producers[i] == PTest(item)
        invariant PushedBy(start, log, i) == PushedBy(start, old(log), i)
        invariant TurnsP(log, i) == TurnsP(old(log), i) + 2 + 4 * (patience - left)
        decreases left
      {
        if left == 0 {
          return Tired;
        }
        left := left - 1;
        resumed := SleepWhileFull(i, item);
        if !resumed {
          return Stuck;
        }
      }
      PutAndSignal(i, item);
      end := Done;
    }

    /** Lines 63 to 65; false if the thread cannot go on yet. */
    method SleepWhileEmpty(j: nat) returns (resumed: bool)
      requires Valid() && j < |Now().consumers| && Now().consumers[j].CTest?
      requires bq == []
      modifies this
      ensures Valid() && old(log) <= log
      ensures PoppedBy(start, log, j) == PoppedBy(start, old(log), j)
      ensures j < |Now().consumers|
      ensures if resumed then Now().consumers[j].CTest? && TurnsC(log, j) == TurnsC(old(log), j) + 4
              else BlockedC(Now(), j)
    {
      hide PoppedBy, Invariant, Step, Pops, TurnsP, TurnsC, BlockedC;
      ghost var a: Action<T> := Consume(j, {});
      ConsumerFallsAsleep(Now(), j);
      sleepComsumerNum := sleepComsumerNum + 1;
      locked := false;
      MoveTwice(a);
      resumed := BlockConsumer(j);
      if resumed {
        ConsumerWakesUp(Now(), j);
        locked := true;
        sleepComsumerNum := sleepComsumerNum - 1;
        MoveTwice(a);
      } else {
        ConsumerBlocked(Now(), j);
      }
    }

    /** Lines 67 to 73. */
    method TakeAndSignal(j: nat) returns (out: T)
      requires Valid() && j < |Now().consumers| && Now().consumers[j].CTest?
      requires bq != []
      modifies this
      ensures Valid() && old(log) <= log
      ensures PoppedBy(start, log, j) == PoppedBy(start, old(log), j) + [out]
      ensures j < |Now().consumers| && Now().consumers[j].CIdle? && Now().owner.Free?
      ensures old(bq) == [out] + bq
    {
      hide PushedBy, PoppedBy, Invariant, TurnsP, TurnsC;
      ghost var a: Action<T> := Consume(j, {});
      out := bq[0];
      bq := bq[1..];
      Move(a);
      if sleepProductorNum > 0 {
        ghost var woken := WaitingP(Now().producers);
        Move(Consume(j, woken));
      } else {
        Move(a);
      }
      HolderOwns(Now());
      locked := false;
      Move(a);
    }

    /** The call and line 61; false if the mutex is not free. */
    method AcquireToPop(j: nat) returns (ok: bool)
      requires Valid() && j < |Now().consumers| && Now().consumers[j].CIdle?
      modifies this
      ensures Valid() && old(log) <= log
      ensures PoppedBy(start, log, j) == PoppedBy(start, old(log), j)
      ensures j < |Now().consumers|
      ensures if ok then Now().consumers[j].CTest? && TurnsC(log, j) == TurnsC(old(log), j) + 2
              else BlockedC(Now(), j)
    {
      hide Invariant, PoppedBy, TurnsC;
      ghost var a: Action<T> := Consume(j, {});
      Move(a);
      ok := BlockConsumer(j);
      if ok {
        locked := true;
        Move(a);
      }
    }

    /** Whatever the other threads do meanwhile, a Pop that is done has taken the
        item it returns exactly once. One that is not has taken nothing: the mutex
        or its sleep keeps it, or after `patience` sleeps the queue is empty. */
    method Pop(j: nat, patience: nat) returns (out: Option<T>, end: Ending)
      requires Valid() && j < |Now().consumers| && Now().consumers[j].CIdle?
      modifies this
      ensures Valid() && old(log) <= log
      ensures PoppedBy(start, log, j) ==
              PoppedBy(start, old(log), j) + if out.Some? then [out.value] else []
      ensures j < |Now().consumers| && (out.Some? <==> end.Done?)
      ensures match end
              case Done => Now().consumers[j].CIdle?
              case Stuck => BlockedC(Now(), j)
              case Tired =>
                && Now().consumers[j].CTest? && bq == []
                && TurnsC(log, j) == TurnsC(old(log), j) + 2 + 4 * patience
    {
      hide Invariant, PoppedBy, TurnsC, BlockedC, Step;
      var resumed := AcquireToPop(j);
      if !resumed {
        return None, Stuck;
      }
      var left := patience;
      while bq == []
        invariant Valid() && old(log) <= log && 0 <= left <= patience
        invariant j < |Now().consumers| && Now().consumers[j].CTest?
        invariant PoppedBy(start, log, j) == PoppedBy(start, old(log), j)
        invariant TurnsC(log, j) == TurnsC(old(log), j) + 2 + 4 * (patience - left)
        decreases left
      {
        if left == 0 {
          return None, Tired;
        }
        left := left - 1;
        resumed := SleepWhileEmpty(j);
        if !resumed {
          return None, Stuck;
        }
      }
      var item := TakeAndSignal(j);
      return Some(item), Done;
    }
  }

  /** A thread inside its critical section owns the mutex and, before it counts
      itself awake again, is counted. */
  lemma HolderOwns<T>(s: State<T>)
    requires Invariant(s)
    ensures forall i :: 0 <= i < |s.producers| && PHolds(s.producers[i]) ==> s.owner == ByProducer(i)
    ensures forall j :: 0 <= j < |s.consumers| && CHolds(s.consumers[j]) ==> s.owner == ByConsumer(j)
    ensures s.owner.ByProducer? && s.owner.i < |s.producers| && s.producers[s.owner.i].PReacquired? ==>
              s.sleepProductorNum > 0
    ensures s.owner.ByConsumer? && s.owner.j < |s.consumers| && s.consumers[s.owner.j].CReacquired? ==>
              s.sleepComsumerNum > 0
  {
    hide Sum;
    if s.owner.ByProducer? {
      SumAtLeast(s.producers, s.owner.i, PAsleep);
    } else if s.owner.ByConsumer? {
      SumAtLeast(s.consumers, s.owner.j, CAsleep);
    }
  }
}
