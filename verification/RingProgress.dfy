/** What a call of Enqueue or Pop on the ring queue waits for, that it ends, and
    that it does exactly its own work (test_sem01/RingQueue.hpp:26-52). */
module RingProgress {
  import opened RingProtocol
  import opened Tally
  import opened Wrappers

  // ---------- Who is kept waiting, and by what ----------

  /** A producer waits for a blank permit or for its mutex, and for nothing else. */
  lemma ProducerBlockedIff<T>(s: State<T>, i: nat, item: T)
    requires Invariant(s) && i < |s.producers|
    ensures Step(s, Produce(i, item)).None? <==>
            (s.producers[i].PIdle? && s.blank == 0) || (s.producers[i].PAtLock? && s.pOwner.Some?)
  {
    if s.producers[i].PStoring? {
      StoreKeepsContents(s, i);
    }
    hide Sum;
  }

  /** A consumer waits for a data permit or for its mutex, and for nothing else. */
  lemma ConsumerBlockedIff<T>(s: State<T>, j: nat)
    requires Invariant(s) && j < |s.consumers|
    ensures Step(s, Consume(j)).None? <==>
            (s.consumers[j].CIdle? && s.data == 0) || (s.consumers[j].CAtLock? && s.cOwner.Some?)
  {
    if s.consumers[j].CLoading? {
      LoadsOldest(s, j);
    }
    hide Sum;
  }

  // ---------- Each call does its work once ----------

  /** The item with which this action begins a call of Enqueue by producer i, if any. */
  function Called<T>(s: State<T>, a: Action<T>, i: nat): seq<T> {
    if a.Produce? && a.i == i && i < |s.producers| && s.producers[i].PIdle? && s.blank > 0 then [a.item] else []
  }

  /** What this action stores if it is producer i's. */
  function Stored<T>(s: State<T>, a: Action<T>, i: nat): seq<T> {
    if a.Produce? && a.i == i && |s.written| <= |Next(s, a).written| then Next(s, a).written[|s.written|..] else []
  }

  function CalledBy<T>(s: State<T>, sched: seq<Action<T>>, i: nat): seq<T>
    decreases |sched|
  {
    if sched == [] then [] else Called(s, sched[0], i) + CalledBy(Next(s, sched[0]), sched[1..], i)
  }

  function StoredBy<T>(s: State<T>, sched: seq<Action<T>>, i: nat): seq<T>
    decreases |sched|
  {
    if sched == [] then [] else Stored(s, sched[0], i) + StoredBy(Next(s, sched[0]), sched[1..], i)
  }

  function ToStore<T>(p: Producer<T>): seq<T> {
    if p.PAtLock? || p.PHolding? || p.PStoring? then [p.item] else []
  }

  /** Along any schedule a producer stores exactly the items of its calls, in that
      order, up to the one call under way. */
  lemma {:induction false} CalledIsStored<T>(s: State<T>, sched: seq<Action<T>>, i: nat)
    requires Invariant(s) && i < |s.producers|
    ensures i < |Exec(s, sched).producers|
    ensures ToStore(s.producers[i]) + CalledBy(s, sched, i) ==
            StoredBy(s, sched, i) + ToStore(Exec(s, sched).producers[i])
    decreases |sched|
  {
    if sched != [] {
      var a, t := sched[0], Next(s, sched[0]);
      StepStores(s, a, i);
      hide Next, Called, Stored, ToStore, Invariant;
      CalledIsStored(t, sched[1..], i);
      Regroup(ToStore(s.producers[i]), Called(s, a, i), CalledBy(t, sched[1..], i), Stored(s, a, i),
              ToStore(t.producers[i]), StoredBy(t, sched[1..], i), ToStore(Exec(s, sched).producers[i]));
    }
  }

  lemma StepStores<T>(s: State<T>, a: Action<T>, i: nat)
    requires Invariant(s) && i < |s.producers|
    ensures Invariant(Next(s, a)) && i < |Next(s, a).producers|
    ensures ToStore(s.producers[i]) + Called(s, a, i) == Stored(s, a, i) + ToStore(Next(s, a).producers[i])
  {
    hide Invariant, Next, ToStore;
    NextKeepsInvariant(s, a);
    if a.Produce? && a.i == i {
      OwnStepStores(s, i, a.item);
    } else {
      OtherStepLeaves(s, a, i, 0);
      assert Stored(s, a, i) == Called(s, a, i) == [];
    }
  }

  /** Nobody moves a thread but itself. */
  lemma OtherStepLeaves<T>(s: State<T>, a: Action<T>, i: nat, j: nat)
    ensures |Next(s, a).producers| == |s.producers| && |Next(s, a).consumers| == |s.consumers|
    ensures i < |s.producers| && !(a.Produce? && a.i == i) ==> Next(s, a).producers[i] == s.producers[i]
    ensures j < |s.consumers| && !(a.Consume? && a.j == j) ==> Next(s, a).consumers[j] == s.consumers[j]
  {}

  lemma NextKeepsInvariant<T>(s: State<T>, a: Action<T>)
    requires Invariant(s)
    ensures Invariant(Next(s, a))
  {
    hide Step, Invariant;
    if Step(s, a).Some? {
      StepKeepsInvariant(s, a);
    }
  }

  lemma OwnStepStores<T>(s: State<T>, i: nat, item: T)
    requires i < |s.producers|
    ensures i < |Next(s, Produce(i, item)).producers|
    ensures ToStore(s.producers[i]) + Called(s, Produce(i, item), i) ==
            Stored(s, Produce(i, item), i) + ToStore(Next(s, Produce(i, item)).producers[i])
  {}

  /** What this action loads if it is consumer j's, and what it returns to the caller of Pop. */
  function Loaded<T>(s: State<T>, a: Action<T>, j: nat): seq<T> {
    if a.Consume? && a.j == j && |s.read| <= |Next(s, a).read| then Next(s, a).read[|s.read|..] else []
  }

  function Returned<T>(s: State<T>, a: Action<T>, j: nat): seq<T> {
    if a.Consume? && a.j == j && j < |s.consumers| && s.consumers[j].CLeaving? then [s.consumers[j].item] else []
  }

  function LoadedBy<T>(s: State<T>, sched: seq<Action<T>>, j: nat): seq<T>
    decreases |sched|
  {
    if sched == [] then [] else Loaded(s, sched[0], j) + LoadedBy(Next(s, sched[0]), sched[1..], j)
  }

  function ReturnedBy<T>(s: State<T>, sched: seq<Action<T>>, j: nat): seq<T>
    decreases |sched|
  {
    if sched == [] then [] else Returned(s, sched[0], j) + ReturnedBy(Next(s, sched[0]), sched[1..], j)
  }

  function ToReturn<T>(c: Consumer<T>): seq<T> {
    if c.CLoaded? || c.CWrapped? || c.CLeaving? then [c.item] else []
  }

  /** Along any schedule a consumer's calls of Pop return exactly the items that it
      loads, in that order, up to the one call under way. */
  lemma {:induction false} LoadedIsReturned<T>(s: State<T>, sched: seq<Action<T>>, j: nat)
    requires Invariant(s) && j < |s.consumers|
    ensures j < |Exec(s, sched).consumers|
    ensures ToReturn(s.consumers[j]) + LoadedBy(s, sched, j) ==
            ReturnedBy(s, sched, j) + ToReturn(Exec(s, sched).consumers[j])
    decreases |sched|
  {
    if sched != [] {
      var a, t := sched[0], Next(s, sched[0]);
      StepReturns(s, a, j);
      hide Next, Loaded, Returned, ToReturn, Invariant;
      LoadedIsReturned(t, sched[1..], j);
      Regroup(ToReturn(s.consumers[j]), Loaded(s, a, j), LoadedBy(t, sched[1..], j), Returned(s, a, j),
              ToReturn(t.consumers[j]), ReturnedBy(t, sched[1..], j), ToReturn(Exec(s, sched).consumers[j]));
    }
  }

  lemma StepReturns<T>(s: State<T>, a: Action<T>, j: nat)
    requires Invariant(s) && j < |s.consumers|
    ensures Invariant(Next(s, a)) && j < |Next(s, a).consumers|
    ensures ToReturn(s.consumers[j]) + Loaded(s, a, j) == Returned(s, a, j) + ToReturn(Next(s, a).consumers[j])
  {
    hide Invariant, Next, ToReturn;
    NextKeepsInvariant(s, a);
    if a.Consume? && a.j == j {
      OwnStepReturns(s, j);
    } else {
      OtherStepLeaves(s, a, 0, j);
      assert Loaded(s, a, j) == Returned(s, a, j) == [];
    }
  }

  lemma OwnStepReturns<T>(s: State<T>, j: nat)
    requires j < |s.consumers|
    ensures j < |Next(s, Consume(j)).consumers|
    ensures ToReturn(s.consumers[j]) + Loaded(s, Consume(j), j) ==
            Returned(s, Consume(j), j) + ToReturn(Next(s, Consume(j)).consumers[j])
  {}

  // ---------- Every call ends ----------

  /** The next action of a thread that is inside Enqueue or Pop. */
  predicate CanGo<T>(s: State<T>, a: Action<T>) {
    && Step(s, a).Some?
    && match a
       case Produce(i, _) => !s.producers[i].PIdle?
       case Consume(j) => !s.consumers[j].CIdle?
  }

  ghost predicate AllGo<T>(s: State<T>, sched: seq<Action<T>>)
    decreases |sched|
  {
    sched == [] || (CanGo(s, sched[0]) && AllGo(Next(s, sched[0]), sched[1..]))
  }

  function PRank<T>(p: Producer<T>): nat {
    match p
    case PIdle => 0
    case PLeaving => 1
    case PWrapped => 2
    case PStored => 3
    case PStoring(_, _) => 4
    case PHolding(_) => 5
    case PAtLock(_) => 6
  }

  function CRank<T>(c: Consumer<T>): nat {
    match c
    case CIdle => 0
    case CLeaving(_) => 1
    case CWrapped(_) => 2
    case CLoaded(_) => 3
    case CLoading(_) => 4
    case CHolding => 5
    case CAtLock => 6
  }

  function WorkLeft<T>(s: State<T>): nat { Sum(s.producers, PRank) + Sum(s.consumers, CRank) }

  /** A step inside a call uses up exactly one unit; a new call brings six. */
  lemma StepWork<T>(s: State<T>, a: Action<T>)
    requires Step(s, a).Some?
    ensures CanGo(s, a) ==> WorkLeft(Next(s, a)) + 1 == WorkLeft(s)
    ensures !CanGo(s, a) ==> WorkLeft(Next(s, a)) == WorkLeft(s) + 6
  {
    hide Sum;
    match a {
      case Produce(i, item) => SumUpdate(s.producers, i, Next(s, a).producers[i], PRank);
      case Consume(j) => SumUpdate(s.consumers, j, Next(s, a).consumers[j], CRank);
    }
  }

  ghost predicate AtRest<T(!new)>(s: State<T>) {
    forall a: Action<T> :: !CanGo(s, a)
  }

  ghost predicate NobodyInside<T>(s: State<T>) {
    && (forall i :: 0 <= i < |s.producers| ==> s.producers[i].PIdle?)
    && (forall j :: 0 <= j < |s.consumers| ==> s.consumers[j].CIdle?)
  }

  lemma OwnerGoes<T>(s: State<T>, item: T)
    requires Invariant(s) && (s.pOwner.Some? || s.cOwner.Some?)
    ensures exists a: Action<T> :: CanGo(s, a)
  {
    hide Sum;
    OwnerMoves(s, item);
    if s.pOwner.Some? {
      assert CanGo(s, Produce(s.pOwner.value, item));
    } else {
      assert CanGo(s, Consume(s.cOwner.value));
    }
  }

  lemma RestIsEmpty<T(!new)>(s: State<T>, item: T)
    requires Invariant(s) && AtRest(s)
    ensures NobodyInside(s)
  {
    if s.pOwner.Some? || s.cOwner.Some? {
      OwnerGoes(s, item);
    }
    forall i | 0 <= i < |s.producers| ensures s.producers[i].PIdle? {
      assert !CanGo(s, Produce(i, item));
      ProducerBlockedIff(s, i, item);
    }
    forall j | 0 <= j < |s.consumers| ensures s.consumers[j].CIdle? {
      assert !CanGo(s, Consume(j));
      ConsumerBlockedIff(s, j);
    }
  }

  /** Main result on liveness: once past its semaphore every call ends. From any
      reachable state each run of the calls under way takes exactly its share of
      WorkLeft, and one that cannot go on has left nobody inside and the
      semaphores counting the free and the filled slots. */
  lemma {:induction false} CallsEnd<T(!new)>(s: State<T>, sched: seq<Action<T>>, item: T)
    requires Invariant(s) && AllGo(s, sched)
    ensures var t := Exec(s, sched);
            && |sched| + WorkLeft(t) == WorkLeft(s) && Invariant(t)
            && (AtRest(t) ==> NobodyInside(t) && t.data == |Pending(t)| && t.blank == t.cap - |Pending(t)|)
    decreases |sched|
  {
    if sched == [] {
      if AtRest(s) {
        RestIsEmpty(s, item);
        QuietPermits(s);
      }
    } else {
      StepWork(s, sched[0]);
      StepKeepsInvariant(s, sched[0]);
      hide Invariant, Step, CanGo, WorkLeft, AtRest, NobodyInside;
      CallsEnd(Next(s, sched[0]), sched[1..], item);
    }
  }
}
