/** ThreadPool::Instance with its double check, called by any number of threads
    under sequential consistency (4_EchoTcpServer/ThreadPool.hpp:75-88). Pools
    are numbered in the order of their construction. */
module PoolSingleton {
  import opened Tally
  import opened Wrappers

  datatype Caller =
    | Called                       // before the test of line 77
    | AtLock                       // saw null, before line 78
    | Second                       // owns _lock, before the test of line 79
    | Building                     // before line 81
    | Built(pool: nat)             // constructed, not assigned to _instance yet
    | Starting                     // before line 82
    | Unlocking                    // before the LockGuard releases _lock
    | Returning                    // before line 87
    | Returned(result: Option<nat>)

  datatype State = State(
    instance: Option<nat>, lock: Option<nat>, callers: seq<Caller>,
    constructed: nat, starts: nat)

  function Init(callers: nat): State {
    State(None, None, seq(callers, _ => Called), 0, 0)
  }

  function Step(s: State, i: nat): Option<State>
    requires i < |s.callers|
  {
    match s.callers[i]
    case Called =>
      Some(s.(callers := s.callers[i := if s.instance.None? then AtLock else Returning]))
    case AtLock =>
      if s.lock.Some? then None
      else Some(s.(lock := Some(i), callers := s.callers[i := Second]))
    case Second =>
      Some(s.(callers := s.callers[i := if s.instance.None? then Building else Unlocking]))
    case Building =>
      Some(s.(constructed := s.constructed + 1, callers := s.callers[i := Built(s.constructed)]))
    case Built(p) =>
      Some(s.(instance := Some(p), callers := s.callers[i := Starting]))
    case Starting =>
      Some(s.(starts := s.starts + 1, callers := s.callers[i := Unlocking]))
    case Unlocking =>
      Some(s.(lock := None, callers := s.callers[i := Returning]))
    case Returning =>
      Some(s.(callers := s.callers[i := Returned(s.instance)]))
    case Returned(_) => None
  }

  function Exec(s: State, sched: seq<nat>): State
    decreases |sched|
  {
    if sched == [] then s
    else if sched[0] < |s.callers| && Step(s, sched[0]).Some? then Exec(Step(s, sched[0]).value, sched[1..])
    else Exec(s, sched[1..])
  }

  predicate Inside(c: Caller) { c.Second? || c.Building? || c.Built? || c.Starting? || c.Unlocking? }

  ghost predicate CallerOk(s: State, c: Caller) {
    match c
    case Building => s.instance.None? && s.constructed == 0
    case Built(p) => s.instance.None? && p == 0 && s.constructed == 1
    case Starting => s.instance == Some(0) && s.starts == 0
    case Unlocking => s.instance == Some(0) && s.starts == 1
    case Returning => s.instance == Some(0)
    case Returned(p) => p == s.instance == Some(0)
    case _ => true
  }

  ghost predicate Invariant(s: State) {
    && (s.lock.Some? ==> s.lock.value < |s.callers|)
    && (forall i :: 0 <= i < |s.callers| ==> (Inside(s.callers[i]) <==> s.lock == Some(i)))
    && (forall i :: 0 <= i < |s.callers| ==> CallerOk(s, s.callers[i]))
    && (s.instance.Some? ==> s.instance.value == 0 && s.constructed == 1)
    && (s.instance.None? ==> s.starts == 0)
    && (s.instance.None? && s.constructed > 0 ==> s.lock.Some? && s.callers[s.lock.value].Built?)
    && (s.instance.Some? ==>
          if s.lock.Some? && s.callers[s.lock.value].Starting? then s.starts == 0 else s.starts == 1)
  }

  lemma StepKeepsInvariant(s: State, i: nat)
    requires Invariant(s) && i < |s.callers| && Step(s, i).Some?
    ensures Invariant(Step(s, i).value)
  {}

  lemma {:induction false} RunKeepsInvariant(s: State, sched: seq<nat>)
    requires Invariant(s)
    ensures Invariant(Exec(s, sched)) && |Exec(s, sched).callers| == |s.callers|
    decreases |sched|
  {
    if sched != [] {
      if sched[0] < |s.callers| && Step(s, sched[0]).Some? {
        StepKeepsInvariant(s, sched[0]);
        RunKeepsInvariant(Step(s, sched[0]).value, sched[1..]);
      } else {
        RunKeepsInvariant(s, sched[1..]);
      }
    }
  }

  /** Main result: however the callers interleave, at most one pool is ever
      constructed and it is started at most once, and all who return hold the
      same pool, never null. That pool has been started unless its creator is
      still between lines 81 and 82. */
  lemma OnePool(callers: nat, sched: seq<nat>)
    ensures var s := Exec(Init(callers), sched);
            && s.constructed <= 1 && s.starts <= 1
            && (forall i :: 0 <= i < |s.callers| && s.callers[i].Returned? ==>
                  s.callers[i].result == s.instance == Some(0) && s.constructed == 1)
            && ((exists i :: 0 <= i < |s.callers| && s.callers[i].Returned?) ==>
                  (s.starts == 0 <==> exists i :: 0 <= i < |s.callers| && s.callers[i].Starting?))
  {
    RunKeepsInvariant(Init(callers), sched);
    var s := Exec(Init(callers), sched);
    if i :| 0 <= i < |s.callers| && s.callers[i].Returned? {
      assert CallerOk(s, s.callers[i]);
      if s.starts == 0 {
        assert s.callers[s.lock.value].Starting?;
      }
      if j :| 0 <= j < |s.callers| && s.callers[j].Starting? {
        assert CallerOk(s, s.callers[j]);
      }
    }
  }

  /** Nobody is left hanging: until all have returned, some caller can step. */
  lemma SomeCallerMoves(s: State)
    requires Invariant(s)
    requires exists i :: 0 <= i < |s.callers| && !s.callers[i].Returned?
    ensures exists i :: 0 <= i < |s.callers| && Step(s, i).Some?
  {
    var i :| 0 <= i < |s.callers| && !s.callers[i].Returned?;
    var j := if s.lock.Some? then s.lock.value else i;
    assert Inside(s.callers[j]) <==> s.lock == Some(j);
    assert Step(s, j).Some?;
  }

  /** A caller is kept waiting only by the lock, and only if it saw no pool. */
  lemma CallerBlockedIff(s: State, i: nat)
    requires i < |s.callers|
    ensures Step(s, i).None? <==> s.callers[i].Returned? || (s.callers[i].AtLock? && s.lock.Some?)
  {}

  /** The longest way from here to the return. */
  function Rank(c: Caller): nat {
    match c
    case Called => 8
    case AtLock => 7
    case Second => 6
    case Building => 5
    case Built(_) => 4
    case Starting => 3
    case Unlocking => 2
    case Returning => 1
    case Returned(_) => 0
  }

  ghost predicate AllStep(s: State, sched: seq<nat>)
    decreases |sched|
  {
    sched == [] ||
    (sched[0] < |s.callers| && Step(s, sched[0]).Some? && AllStep(Step(s, sched[0]).value, sched[1..]))
  }

  lemma StepDecreases(s: State, i: nat)
    requires i < |s.callers| && Step(s, i).Some?
    ensures Sum(Step(s, i).value.callers, Rank) < Sum(s.callers, Rank)
    ensures |Step(s, i).value.callers| == |s.callers|
  {
    hide Sum;
    SumUpdate(s.callers, i, Step(s, i).value.callers[i], Rank);
  }

  ghost predicate AllReturned(s: State) {
    forall i :: 0 <= i < |s.callers| ==> s.callers[i] == Returned(Some(0))
  }

  /** Every call of Instance returns: any run of the callers is bounded, and one
      that cannot go on has handed the one pool, constructed and started once, to
      every caller. */
  lemma {:induction false} EveryCallerReturns(s: State, sched: seq<nat>)
    requires Invariant(s) && AllStep(s, sched) && |s.callers| > 0
    ensures var t := Exec(s, sched);
            && |sched| + Sum(t.callers, Rank) <= Sum(s.callers, Rank) && |t.callers| == |s.callers|
            && ((forall i :: 0 <= i < |t.callers| ==> Step(t, i).None?) ==>
                  AllReturned(t) && t.instance == Some(0) && t.constructed == t.starts == 1 && t.lock.None?)
    decreases |sched|
  {
    hide Sum;
    if sched == [] {
      if forall i :: 0 <= i < |s.callers| ==> Step(s, i).None? {
        if exists i :: 0 <= i < |s.callers| && !s.callers[i].Returned? {
          SomeCallerMoves(s);
        }
        assert CallerOk(s, s.callers[0]);
        assert s.lock.Some? ==> Inside(s.callers[s.lock.value]);
      }
    } else {
      StepDecreases(s, sched[0]);
      StepKeepsInvariant(s, sched[0]);
      hide Invariant, Step;
      EveryCallerReturns(Step(s, sched[0]).value, sched[1..]);
    }
  }

  /** A caller can hold the pool before it is started: the pointer is published first. */
  lemma ReturnedBeforeStart()
    ensures var s := Exec(Init(2), [0, 0, 0, 0, 0, 1, 1]);
            s.callers[1] == Returned(Some(0)) && s.starts == 0
  {
    var s0 := Init(2);
    assert s0.callers == [Called, Called];
    var s1 := s0.(callers := s0.callers[0 := AtLock]);
    var s2 := s1.(lock := Some(0), callers := s1.callers[0 := Second]);
    var s3 := s2.(callers := s2.callers[0 := Building]);
    var s4 := s3.(constructed := 1, callers := s3.callers[0 := Built(0)]);
    var s5 := s4.(instance := Some(0), callers := s4.callers[0 := Starting]);
    var s6 := s5.(callers := s5.callers[1 := Returning]);
    var s7 := s6.(callers := s6.callers[1 := Returned(Some(0))]);
    calc {
      Exec(s0, [0, 0, 0, 0, 0, 1, 1]);
      { assert [0, 0, 0, 0, 0, 1, 1][1..] == [0, 0, 0, 0, 1, 1]; }
      Exec(s1, [0, 0, 0, 0, 1, 1]);
      { assert [0, 0, 0, 0, 1, 1][1..] == [0, 0, 0, 1, 1]; }
      Exec(s2, [0, 0, 0, 1, 1]);
      { assert [0, 0, 0, 1, 1][1..] == [0, 0, 1, 1]; }
      Exec(s3, [0, 0, 1, 1]);
      { assert [0, 0, 1, 1][1..] == [0, 1, 1]; }
      Exec(s4, [0, 1, 1]);
      { assert [0, 1, 1][1..] == [1, 1]; }
      Exec(s5, [1, 1]);
      { assert [1, 1][1..] == [1]; }
      Exec(s6, [1]);
      Exec(s7, []);
    }
  }
}
