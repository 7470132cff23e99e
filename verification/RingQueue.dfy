/** The class of test_sem01/RingQueue.hpp, one uncontended caller at a time:
    Enqueue and Pop run the seven atomic actions of the protocol in order. */
module RingQueueClass {
  import opened RingProtocol
  import opened Tally
  import opened Wrappers

  class RingQueue<T(0)> {
    const cap: nat
    const rq: array<T>
    var consumerStep: nat
    var productorStep: nat
    var blankSem: nat
    var dataSem: nat
    ghost var written: seq<T>
    ghost var read: seq<T>

    /** This object as a protocol state with one producer and one consumer, both outside. */
    ghost function View(): State<T>
      reads this, rq
    {
      State(cap, rq[..], productorStep, consumerStep, blankSem, dataSem, None, None,
            [PIdle], [CIdle], written, read)
    }

    /** A queue without capacity stays as it was built. */
    ghost predicate Valid()
      reads this, rq
    {
      if cap == 0 then View() == Empty() else Invariant(View())
    }

    ghost function Empty(): State<T> {
      State(0, [], 0, 0, 0, 0, None, None, [PIdle], [CIdle], [], [])
    }

    ghost function Items(): seq<T>
      reads this, rq
      requires Valid()
    {
      Pending(View())
    }

    constructor (cap: nat, fill: T)
      ensures Valid() && fresh(rq)
      ensures View() == Init(cap, fill, 1, 1) && Items() == []
    {
      this.cap := cap;
      rq := new T[cap](_ => fill);
      consumerStep, productorStep := 0, 0;
      blankSem, dataSem := cap, 0;
      written, read := [], [];
      new;
      assert View() == Init(cap, fill, 1, 1);
      if cap > 0 {
        AlwaysInvariant(cap, fill, 1, 1, []);
      }
    }

    /** ok is false when P() on the blank semaphore would block; nothing has changed then. */
    method Enqueue(item: T) returns (ok: bool)
      requires Valid()
      modifies this, rq
      ensures Valid()
      ensures View() == Exec(old(View()), Seven(Produce(0, item)))
      ensures ok <==> |old(Items())| < cap
      ensures Items() == if ok then old(Items()) + [item] else old(Items())
    {
      hide Exec, Invariant;
      ghost var s := View();
      if cap > 0 {
        QuietState(s);
        RunKeepsInvariant(s, Seven(Produce(0, item)));
      }
      EnqueueTrace(s, item);
      if blankSem == 0 {
        return false;
      }
      blankSem := blankSem - 1;
      var slot := productorStep;
      productorStep := productorStep + 1;
      rq[slot] := item;
      written := written + [item];
      productorStep := productorStep % cap;
      dataSem := dataSem + 1;
      ok := true;
    }

    /** None when P() on the data semaphore would block. */
    method Pop() returns (out: Option<T>)
      requires Valid()
      modifies this
      ensures Valid()
      ensures View() == Exec(old(View()), Seven(Consume(0)))
      ensures out.None? <==> old(Items()) == []
      ensures out.None? ==> Items() == old(Items())
      ensures out.Some? ==> old(Items()) == [out.value] + Items()
    {
      hide Exec, Invariant;
      ghost var s := View();
      if cap > 0 {
        QuietState(s);
        RunKeepsInvariant(s, Seven(Consume(0)));
      }
      PopTrace(s);
      if dataSem == 0 {
        return None;
      }
      dataSem := dataSem - 1;
      var slot := consumerStep;
      consumerStep := consumerStep + 1;
      out := Some(rq[slot]);
      read := read + [rq[slot]];
      consumerStep := consumerStep % cap;
      blankSem := blankSem + 1;
    }
  }

  /** With nobody inside, the fields determine the queue. */
  lemma QuietState<T>(s: State<T>)
    requires Invariant(s) && s.producers == [PIdle] && s.consumers == [CIdle]
    requires s.pOwner.None? && s.cOwner.None?
    ensures s.cap == |s.rq| > 0 && s.productorStep < s.cap && s.consumerStep < s.cap
    ensures |s.read| <= |s.written| && s.data == |Pending(s)| && s.blank == s.cap - |Pending(s)|
    ensures Pending(s) != [] ==> s.rq[s.consumerStep] == Pending(s)[0]
  {
    hide Sum;
    QuietPermits(s);
    StepIndices(s);
    if Pending(s) != [] {
      assert s.rq[|s.read| % s.cap] == s.written[|s.read|];
    }
  }

  function Seven<T>(a: Action<T>): seq<Action<T>> { [a, a, a, a, a, a, a] }

  lemma ExecSeven<T>(s: State<T>, a: Action<T>)
    ensures Exec(s, Seven(a)) == Next(Next(Next(Next(Next(Next(Next(s, a), a), a), a), a), a), a)
  {
    hide Step;
    ExecFirst(s, a, [a, a, a, a, a, a]);
    var s := Next(s, a);
    ExecFirst(s, a, [a, a, a, a, a]);
    s := Next(s, a);
    ExecFirst(s, a, [a, a, a, a]);
    s := Next(s, a);
    ExecFirst(s, a, [a, a, a]);
    s := Next(s, a);
    ExecFirst(s, a, [a, a]);
    s := Next(s, a);
    ExecFirst(s, a, [a]);
    s := Next(s, a);
    ExecFirst(s, a, []);
  }

  lemma ExecFirst<T>(s: State<T>, a: Action<T>, rest: seq<Action<T>>)
    ensures Exec(s, [a] + rest) == Exec(Next(s, a), rest)
  {
    assert ([a] + rest)[1..] == rest;
  }

  /** The first four of a producer's steps, up to the store. */
  lemma StoresItem<T>(s: State<T>, item: T)
    requires s.producers == [PIdle] && s.pOwner.None? && s.blank > 0 && s.productorStep < |s.rq|
    ensures var a := Produce(0, item);
            Next(Next(Next(Next(s, a), a), a), a) ==
            s.(blank := s.blank - 1, pOwner := Some(0), producers := s.producers[0 := PStored],
               productorStep := s.productorStep + 1, rq := s.rq[s.productorStep := item],
               written := s.written + [item])
  {
    var a, k := Produce(0, item), s.productorStep;
    var t1 := s.(blank := s.blank - 1, producers := s.producers[0 := PAtLock(item)]);
    var t2 := t1.(pOwner := Some(0), producers := t1.producers[0 := PHolding(item)]);
    var t3 := t2.(productorStep := k + 1, producers := t2.producers[0 := PStoring(item, k)]);
    assert Next(s, a) == t1 && Next(t1, a) == t2 && Next(t2, a) == t3;
    assert t3.producers[0 := PStored] == s.producers[0 := PStored];
  }

  /** The last three: wrap around, unlock, give the data permit. */
  lemma LeavesEnqueue<T>(s: State<T>, item: T)
    requires |s.producers| == 1 && s.producers[0] == PStored && s.cap > 0
    ensures var a := Produce(0, item);
            Next(Next(Next(s, a), a), a) ==
            s.(productorStep := s.productorStep % s.cap, pOwner := None, data := s.data + 1,
               producers := [PIdle])
  {
    var a := Produce(0, item);
    var t1 := s.(productorStep := s.productorStep % s.cap, producers := s.producers[0 := PWrapped]);
    var t2 := t1.(pOwner := None, producers := t1.producers[0 := PLeaving]);
    assert Next(s, a) == t1 && Next(t1, a) == t2;
    assert t2.producers[0 := PIdle] == [PIdle];
  }

  /** The seven steps of one uncontended Enqueue. */
  lemma EnqueueTrace<T>(s: State<T>, item: T)
    requires s.producers == [PIdle] && s.pOwner.None?
    requires s.blank > 0 ==> s.cap > 0 && s.productorStep < |s.rq|
    ensures Exec(s, Seven(Produce(0, item))) ==
            if s.blank == 0 then s
            else s.(blank := s.blank - 1, rq := s.rq[s.productorStep := item],
                    written := s.written + [item], productorStep := (s.productorStep + 1) % s.cap,
                    data := s.data + 1)
  {
    var a := Produce(0, item);
    ExecSeven(s, a);
    assert s.blank == 0 ==> Next(s, a) == s;
    hide Exec, Next, Step;
    if s.blank > 0 {
      StoresItem(s, item);
      var t := Next(Next(Next(Next(s, a), a), a), a);
      LeavesEnqueue(t, item);
      assert t.cap == s.cap && t.productorStep == s.productorStep + 1;
    }
  }

  lemma LoadsItem<T>(s: State<T>)
    requires s.consumers == [CIdle] && s.cOwner.None? && s.data > 0 && s.consumerStep < |s.rq|
    ensures var a: Action<T> := Consume(0);
            Next(Next(Next(Next(s, a), a), a), a) ==
            s.(data := s.data - 1, cOwner := Some(0),
               consumers := s.consumers[0 := CLoaded(s.rq[s.consumerStep])],
               consumerStep := s.consumerStep + 1, read := s.read + [s.rq[s.consumerStep]])
  {
    var a: Action<T>, k := Consume(0), s.consumerStep;
    var t1 := s.(data := s.data - 1, consumers := s.consumers[0 := CAtLock]);
    var t2 := t1.(cOwner := Some(0), consumers := t1.consumers[0 := CHolding]);
    var t3 := t2.(consumerStep := k + 1, consumers := t2.consumers[0 := CLoading(k)]);
    assert Next(s, a) == t1 && Next(t1, a) == t2 && Next(t2, a) == t3;
    assert t3.consumers[0 := CLoaded(s.rq[k])] == s.consumers[0 := CLoaded(s.rq[k])];
  }

  lemma LeavesPop<T>(s: State<T>)
    requires |s.consumers| == 1 && s.consumers[0].CLoaded? && s.cap > 0
    ensures var a: Action<T> := Consume(0);
            Next(Next(Next(s, a), a), a) ==
            s.(consumerStep := s.consumerStep % s.cap, cOwner := None, blank := s.blank + 1,
               consumers := [CIdle])
  {
    var a: Action<T>, x := Consume(0), s.consumers[0].item;
    var t1 := s.(consumerStep := s.consumerStep % s.cap, consumers := s.consumers[0 := CWrapped(x)]);
    var t2 := t1.(cOwner := None, consumers := t1.consumers[0 := CLeaving(x)]);
    assert Next(s, a) == t1 && Next(t1, a) == t2;
    assert t2.consumers[0 := CIdle] == [CIdle];
  }

  /** The seven steps of one uncontended Pop. */
  lemma PopTrace<T>(s: State<T>)
    requires s.consumers == [CIdle] && s.cOwner.None?
    requires s.data > 0 ==> s.cap > 0 && s.consumerStep < |s.rq|
    ensures Exec(s, Seven(Consume(0))) ==
            if s.data == 0 then s
            else s.(data := s.data - 1, read := s.read + [s.rq[s.consumerStep]],
                    consumerStep := (s.consumerStep + 1) % s.cap, blank := s.blank + 1)
  {
    var a: Action<T> := Consume(0);
    ExecSeven(s, a);
    assert s.data == 0 ==> Next(s, a) == s;
    hide Exec, Next, Step;
    if s.data > 0 {
      LoadsItem(s);
      var x := s.rq[s.consumerStep];
      var t := s.(data := s.data - 1, cOwner := Some(0), consumers := s.consumers[0 := CLoaded(x)],
                  consumerStep := s.consumerStep + 1, read := s.read + [x]);
      assert Next(Next(Next(Next(s, a), a), a), a) == t;
      LeavesPop(t);
    }
  }
}
