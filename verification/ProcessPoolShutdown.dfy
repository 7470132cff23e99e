/** What the process pool achieves: every pipe end has one owner, nobody
    deadlocks, every run ends with all children reaped and every dispatched code
    executed by the chosen child (test_ProcessPool/code.cpp:137-163, 204-253). */
module ProcessPoolShutdown {
  import opened ProcessPoolProtocol
  import opened ProcessPoolTraffic
  import opened Wrappers
  import opened Tally

  /** The first pipe whose write end child k still holds: of the ones it inherited
      and its own, those it has not closed yet. From its callback on it holds none. */
  function FirstHeld(c: Child, k: nat): nat {
    match c.pc
    case CClosing(m) => m
    case CCloseOwn => k
    case _ => k + 1
  }

  /** Which process holds which pipe end, in every reachable state. The parent
      holds the write end of pipe i from its creation until Quit closes it, under
      channel i's number, and the read end only around the fork; child k holds its
      own read end until it exits, and write ends only in its closing loop. */
  lemma DescriptorOwnership(s: State, i: nat, k: nat)
    requires Invariant(s) && i < |s.wfds| && k < |s.children|
    ensures i < |s.channels| ==> s.channels[i].wfd == s.wfds[i]
    ensures Closed(s) <= i ==> s.wfds[i] in s.fds
    ensures forall fd :: fd in s.fds ==> (s.fds[fd] == WriteEnd(i) <==> Closed(s) <= i && fd == s.wfds[i])
    ensures forall fd :: fd in s.fds ==>
              (s.fds[fd] == ReadEnd(i) ==> (s.pc.PFork? || s.pc.PCloseRead?) && i == |s.channels|)
    ensures !s.children[k].pc.CExited? ==> ReadFd(s.base) in s.children[k].fds
    ensures FirstHeld(s.children[k], k) <= i <= k ==> s.wfds[i] in s.children[k].fds
    ensures var c := s.children[k];
            forall fd :: fd in c.fds ==>
              && (c.fds[fd] == WriteEnd(i) <==> FirstHeld(c, k) <= i <= k && fd == s.wfds[i])
              && (c.fds[fd] == ReadEnd(i) <==> i == k && fd == ReadFd(s.base))
  {
    hide Traffic, Dispatched, Reaped;
    var c := s.children[k];
    assert ChildShape(s.base, s.wfds, c, k) && ChildTable(s.base, s.wfds, c, k);
    OwnsExactly(s.fds, s.base, s.wfds, Closed(s), |s.wfds|,
                if s.pc.PFork? || s.pc.PCloseRead? then Some(|s.channels|) else None, i);
    if Closed(s) <= i {
      ParentHolds(s, i);
    }
    hide Owns, Numbers, Children;
    ChildHoldsExactly(s.base, s.wfds, c, k, i);
    if !c.pc.CExited? {
      ChildReads(s, k);
    }
  }

  lemma ParentHolds(s: State, i: nat)
    requires Descriptors(s) && Closed(s) <= i < |s.wfds|
    ensures s.wfds[i] in s.fds
  {}

  lemma ChildHoldsExactly(base: Table, ws: seq<nat>, c: Child, k: nat, i: nat)
    requires Numbers(base, ws) && k < |ws| && ChildShape(base, ws, c, k) && ChildTable(base, ws, c, k)
    requires i < |ws|
    ensures FirstHeld(c, k) <= i <= k ==> ws[i] in c.fds
    ensures forall fd :: fd in c.fds ==>
              && (c.fds[fd] == WriteEnd(i) <==> FirstHeld(c, k) <= i <= k && fd == ws[i])
              && (c.fds[fd] == ReadEnd(i) <==> i == k && fd == ReadFd(base))
  {
    hide Owns, Numbers;
    if !c.pc.CExited? {
      OwnsExactly(c.fds, base, ws, FirstHeld(c, k), k + 1, Some(k), i);
    }
  }

  /** A child at the read of its empty, closed channel is kept from end of file
      exactly by the younger children that have not closed its write end yet. */
  lemma BlockedIff(s: State, i: nat)
    requires Invariant(s) && i < |s.children| && i < Closed(s)
    requires s.children[i].pc.CReading? && s.pipes[i] == []
    ensures Step(s, Sub(i)).None? <==>
            exists k :: i < k < |s.children| && s.children[k].pc.CClosing? && s.children[k].pc.k <= i
  {
    hide Traffic, Dispatched, Reaped;
    var c := s.children[i];
    assert ChildShape(s.base, s.wfds, c, i) && ChildTable(s.base, s.wfds, c, i);
    assert c.fds[c.rfd] == ReadEnd(i);
    assert Step(s, Sub(i)).None? <==> HasWriter(s, i);
    if k :| i < k < |s.children| && s.children[k].pc.CClosing? && s.children[k].pc.k <= i {
      var d := s.children[k];
      assert ChildTable(s.base, s.wfds, d, k);
      assert d.fds[s.wfds[i]] == WriteEnd(i);
    }
    if HasWriter(s, i) {
      var k := Holder(s, i);
    }
  }

  /** After its channel is closed, only a younger child in its closing loop, or
      the child itself before it has closed its own end, still writes to pipe i. */
  lemma Holder(s: State, i: nat) returns (k: nat)
    requires Descriptors(s) && i < Closed(s) && HasWriter(s, i)
    ensures i <= k < |s.children|
    ensures var pc := s.children[k].pc;
            (pc.CClosing? && pc.k <= i) || (pc.CCloseOwn? && k == i)
  {
    OwnsExactly(s.fds, s.base, s.wfds, Closed(s), |s.wfds|,
                if s.pc.PFork? || s.pc.PCloseRead? then Some(|s.channels|) else None, i);
    hide Owns, Numbers;
    k :| 0 <= k < |s.children| && WriteEnd(i) in s.children[k].fds.Values;
    ChildHolds(s.base, s.wfds, s.children[k], k, i);
  }

  lemma ChildHolds(base: Table, ws: seq<nat>, c: Child, k: nat, i: nat)
    requires Numbers(base, ws) && k < |ws| && ChildShape(base, ws, c, k) && ChildTable(base, ws, c, k)
    requires WriteEnd(i) in c.fds.Values
    ensures i <= k && ((c.pc.CClosing? && c.pc.k <= i) || (c.pc.CCloseOwn? && k == i))
  {
    hide Owns, Numbers;
    match c.pc {
      case CClosing(m) => OwnsExactly(c.fds, base, ws, m, k + 1, Some(k), i);
      case CCloseOwn => OwnsExactly(c.fds, base, ws, k, k + 1, Some(k), i);
      case CExited =>
      case _ => OwnsExactly(c.fds, base, ws, k + 1, k + 1, Some(k), i);
    }
  }

  lemma ChildReads(s: State, k: nat)
    requires Descriptors(s) && k < |s.children| && !s.children[k].pc.CExited?
    ensures s.children[k].rfd == ReadFd(s.base) && s.children[k].rfd in s.children[k].fds
    ensures s.children[k].fds[s.children[k].rfd] == ReadEnd(k)
  {
    var c := s.children[k];
    assert ChildShape(s.base, s.wfds, c, k) && ChildTable(s.base, s.wfds, c, k);
  }

  predicate CanMove(s: State, a: Action) { Step(s, a).Some? }

  /** A child is blocked only at the read of an empty pipe that has a writer. */
  lemma ChildMoves(s: State, i: nat)
    requires Descriptors(s) && i < |s.children| && !s.children[i].pc.CExited?
    requires s.children[i].pc.CReading? ==> s.pipes[i] != [] || !HasWriter(s, i)
    ensures CanMove(s, Sub(i))
  {
    var c := s.children[i];
    assert ChildShape(s.base, s.wfds, c, i) && ChildTable(s.base, s.wfds, c, i);
    if c.pc.CReading? {
      assert c.fds[c.rfd] == ReadEnd(i);
    }
  }

  /** No deadlock: until Quit is through, the parent or a child can step. In
      particular Quit waiting for a child never waits for ever. */
  lemma SomeoneMoves(s: State)
    requires Invariant(s) && !s.pc.PDone?
    ensures exists a :: CanMove(s, a)
  {
    match s.pc {
      case PRun(left) => DispatcherMoves(s);
      case PWait(j) => WaiterMoves(s, j);
      case PPipe => assert CanMove(s, Parent(0));
      case PFork(r, w) => assert CanMove(s, Parent(0));
      case PCloseRead(r, w) => assert CanMove(s, Parent(0));
      case PAdd(w) => assert CanMove(s, Parent(0));
      case PClose(j) => assert CanMove(s, Parent(0));
    }
  }

  lemma DispatcherMoves(s: State)
    requires Invariant(s) && s.pc.PRun?
    ensures exists a :: CanMove(s, a)
  {
    if Step(s, Parent(0)).None? {
      var j := s.index % s.n;
      ChannelNamesPipe(s, j);
      assert |s.pipes[j]| >= s.pipeCap > 0;
      assert ChildTraffic(s.children[j], s.pipes[j], s.sent[j]);
      ChildMoves(s, j);
    } else {
      assert CanMove(s, Parent(0));
    }
  }

  lemma WaiterMoves(s: State, j: nat)
    requires Invariant(s) && s.pc == PWait(j)
    ensures exists a :: CanMove(s, a)
  {
    var c := s.children[j];
    if c.pc.CExited? {
      assert j !in s.reaped;
      assert CanMove(s, Parent(0));
    } else if c.pc.CReading? && s.pipes[j] == [] && HasWriter(s, j) {
      var k := Holder(s, j);
      ChildMoves(s, k);
    } else {
      ChildMoves(s, j);
    }
  }

  // ---------- Who is kept waiting, and by what ----------

  /** The parent waits for room in the chosen pipe and for the exit of the child it
      reaps, and stops at the end; nothing else keeps it. */
  lemma ParentBlockedIff(s: State, rand: nat)
    requires Invariant(s)
    ensures Step(s, Parent(rand)).None? <==>
            match s.pc
            case PRun(left) => left > 0 && s.index % s.n < |s.pipes| && |s.pipes[s.index % s.n]| >= s.pipeCap
            case PWait(j) => j < |s.children| && !s.children[j].pc.CExited?
            case PDone => true
            case _ => false
  {
    hide ParentTable, Children, Numbers, Traffic, Dispatched, LowestFree, ReadFd;
    if s.pc.PRun? && s.pc.left > 0 {
      DispatchBlockedIff(s, rand);
    }
    hide SendTaskToChannel;
  }

  lemma DispatchBlockedIff(s: State, rand: nat)
    requires Descriptors(s) && s.pc.PRun? && s.pc.left > 0
    ensures ParentStep(s, rand).None? <==> |s.pipes[s.index % s.n]| >= s.pipeCap
  {
    ChannelNamesPipe(s, s.index % s.n);
    hide ParentTable, Children, Numbers;
  }

  /** A child waits only at the read of its empty pipe, for as long as a process
      holds that pipe's write end: the parent until Quit closes it, then younger
      children in their closing loop. */
  lemma ChildBlockedIff(s: State, i: nat)
    requires Invariant(s) && i < |s.children|
    ensures Step(s, Sub(i)).None? <==>
            || s.children[i].pc.CExited?
            || (&& s.children[i].pc.CReading? && i < |s.pipes| && s.pipes[i] == []
                && (Closed(s) <= i
                    || exists k :: i < k < |s.children| && s.children[k].pc.CClosing? && s.children[k].pc.k <= i))
  {
    if s.children[i].pc.CReading? && s.pipes[i] == [] {
      if i < Closed(s) {
        BlockedIff(s, i);
      } else {
        ParentIsWriter(s, i);
        EmptyWaits(s, i);
      }
    } else if !s.children[i].pc.CExited? {
      ChildMoves(s, i);
    }
    hide Invariant;
  }

  lemma EmptyWaits(s: State, i: nat)
    requires Descriptors(s) && i < |s.children| && s.children[i].pc.CReading? && s.pipes[i] == [] && HasWriter(s, i)
    ensures Step(s, Sub(i)).None?
  {
    ChildReads(s, i);
    hide ParentTable, Children, Numbers, HasWriter;
  }

  /** SendTaskToChannel refuses everything but the four task codes and the existing
      channels, and a child skips any other code that it reads. */
  lemma InvalidIsRefused(s: State, code: int, index: int, i: nat)
    ensures code !in {0, 1, 2, 3} || index < 0 || index >= |s.channels| ==> SendTaskToChannel(s, code, index) == Some(s)
    ensures i < |s.children| && s.children[i].pc == CRunning(code) ==>
              var c := s.children[i];
              ChildStep(s, i) == Some(s.(children := s.children[i :=
                c.(pc := CReading, ran := if code in {0, 1, 2, 3} then c.ran + [code] else c.ran)]))
  {
    hide Write;
  }

  // ---------- Termination ----------

  /** What a child still has to do besides reading. */
  function Budget(c: Child): nat {
    match c.pc
    case CClosing(k) => (if k <= |c.inherited| then |c.inherited| - k else 0) + 4
    case CCloseOwn => 3
    case CRunning(_) => 3
    case CReading => 2
    case CExiting => 1
    case CExited => 0
  }

  function Unread(pipe: seq<int>): nat { 2 * |pipe| }

  /** What the parent still has to do, with m channels created of n, and with room
      for the children still to be forked and the codes still to be sent. */
  function Remaining(pc: ParentPc, m: nat, n: nat, dispatches: nat): nat {
    var tail := 3 * dispatches + 2 * n + 2;
    match pc
    case PPipe => Rounds(Minus(n, m), n) + tail
    case PFork(_, _) => Rounds(Minus(n, m + 1), n) + n + 8 + tail
    case PCloseRead(_, _) => Rounds(Minus(n, m + 1), n) + 3 + tail
    case PAdd(_) => Rounds(Minus(n, m + 1), n) + 2 + tail
    case PRun(left) => 3 * left + 2 * n + 2
    case PClose(j) => 2 * Minus(n, j) + 1
    case PWait(j) => 2 * Minus(n, j)
    case PDone => 0
  }

  function Minus(a: nat, b: nat): nat { if b <= a then a - b else 0 }

  function Rounds(count: nat, n: nat): nat {
    if count == 0 then 0 else n + 9 + Rounds(count - 1, n)
  }

  function Measure(s: State): nat {
    Remaining(s.pc, |s.channels|, s.n, s.dispatches) + Sum(s.children, Budget) + Sum(s.pipes, Unread)
  }

  lemma CreationDecreases(s: State, rand: nat, s': State)
    requires Shape(s) && Creating(s.pc) && ParentStep(s, rand) == Some(s')
    ensures Measure(s') < Measure(s)
  {
    hide Sum, LowestFree, ReadFd;
    match s.pc {
      case PPipe => SumSnoc(s.pipes, [], Unread);
      case PFork(r, w) => SumSnoc(s.children, s'.children[|s.children|], Budget);
      case _ =>
    }
  }

  lemma ParentDecreases(s: State, rand: nat, s': State)
    requires Invariant(s) && ParentStep(s, rand) == Some(s')
    ensures Measure(s') < Measure(s)
  {
    hide Sum, ParentTable, Children, Numbers, Traffic, Reaped, Shares, LowestFree, ReadFd, SendTaskToChannel;
    if Creating(s.pc) {
      CreationDecreases(s, rand, s');
    } else if s.pc.PRun? && s.pc.left > 0 {
      SendDecreases(s, rand, s');
    }
  }

  lemma SendDecreases(s: State, rand: nat, s': State)
    requires Invariant(s) && s.pc.PRun? && s.pc.left > 0 && ParentStep(s, rand) == Some(s')
    ensures Measure(s') < Measure(s)
  {
    DispatchSends(s, rand, s');
    hide Sum, ParentTable, Children, Numbers, Traffic, Reaped, Dispatched, ParentStep;
    var j := s.index % s.n;
    SumUpdate(s.pipes, j, s'.pipes[j], Unread);
  }

  lemma ChildBudget(s: State, i: nat, s': State)
    requires Descriptors(s) && i < |s.children| && ChildStep(s, i) == Some(s')
    ensures i < |s'.pipes| && Budget(s'.children[i]) + Unread(s'.pipes[i]) < Budget(s.children[i]) + Unread(s.pipes[i])
  {
    ChildEffect(s, i, s');
    hide ParentTable, Numbers, Owns;
    assert ChildShape(s.base, s.wfds, s.children[i], i) && ChildTable(s.base, s.wfds, s.children[i], i);
  }

  lemma ChildDecreases(s: State, i: nat, s': State)
    requires Invariant(s) && i < |s.children| && ChildStep(s, i) == Some(s')
    ensures Measure(s') < Measure(s)
  {
    ChildEffect(s, i, s');
    ChildBudget(s, i, s');
    hide Sum, Invariant, ChildStep, Budget, Unread, Remaining;
    SumUpdate(s.children, i, s'.children[i], Budget);
    SumUpdate(s.pipes, i, s'.pipes[i], Unread);
    assert s'.pipes == s.pipes[i := s'.pipes[i]];
  }

  /** Every step of the schedule is one that its process can take. */
  ghost predicate AllMove(s: State, sched: seq<Action>)
    decreases |sched|
  {
    sched == [] || (CanMove(s, sched[0]) && AllMove(Next(s, sched[0]), sched[1..]))
  }

  /** Main result on Quit: every run of the whole program is bounded by Measure,
      and one that cannot go on has ended with each child reaped once, in the
      order of the channels, and each child has executed exactly what was sent to it. */
  lemma {:induction false} EveryRunEnds(s: State, sched: seq<Action>)
    requires Invariant(s) && AllMove(s, sched)
    ensures var t := Exec(s, sched);
            && Invariant(t) && t.n == s.n && t.dispatches == s.dispatches
            && |sched| + Measure(t) <= Measure(s)
            && ((forall a :: !CanMove(t, a)) ==> Finished(t))
    decreases |sched|
  {
    if sched == [] {
      if forall a :: !CanMove(s, a) {
        if !s.pc.PDone? {
          SomeoneMoves(s);
        }
        DoneIsFinished(s);
      }
    } else {
      var a, t := sched[0], Next(s, sched[0]);
      assert Invariant(t) && t.n == s.n && t.dispatches == s.dispatches && Measure(t) < Measure(s) by {
        OneStep(s, a);
      }
      hide Invariant, Step, Measure, Finished;
      EveryRunEnds(t, sched[1..]);
    }
  }

  lemma OneStep(s: State, a: Action)
    requires Invariant(s) && CanMove(s, a)
    ensures var t := Next(s, a);
            Invariant(t) && t.n == s.n && t.dispatches == s.dispatches && Measure(t) < Measure(s)
  {
    hide ParentTable, Children, Numbers, Traffic, Reaped, Dispatched, Measure;
    StepKeepsInvariant(s, a);
    match a {
      case Parent(rand) => ParentDecreases(s, rand, Next(s, a));
      case Sub(i) => ChildDecreases(s, i, Next(s, a));
    }
  }

  ghost predicate Finished(s: State) {
    && s.pc.PDone? && |s.children| == |s.sent| == |s.pipes| == |s.reaped| == s.n > 0
    && forall i :: 0 <= i < s.n ==>
         && s.reaped[i] == i && s.children[i].pc.CExited? && s.pipes[i] == []
         && s.children[i].ran == s.sent[i] && |s.sent[i]| == Share(s.dispatches, s.n, i)
  }

  lemma DoneIsFinished(s: State)
    requires Invariant(s) && s.pc.PDone?
    ensures Finished(s)
  {
    hide ParentTable, Children, Numbers, Share;
    forall i | 0 <= i < s.n ensures s.children[i].ran == s.sent[i] && s.pipes[i] == [] {
      assert s.reaped[i] == i;
      assert ChildTraffic(s.children[i], s.pipes[i], s.sent[i]);
    }
  }

  /** The whole program, from main's first line: it cannot run for ever, and
      wherever it stops it has finished. */
  lemma PoolTerminates(n: nat, pipeCap: nat, base: Table, dispatches: nat, sched: seq<Action>)
    requires n > 0 && pipeCap > 0 && forall fd :: fd in base ==> base[fd].Other?
    requires AllMove(Init(n, pipeCap, base, dispatches), sched)
    ensures var s, t := Init(n, pipeCap, base, dispatches), Exec(Init(n, pipeCap, base, dispatches), sched);
            && |sched| <= Measure(s)
            && ((forall a :: !CanMove(t, a)) ==> Finished(t))
  {
    AlwaysInvariant(n, pipeCap, base, dispatches, []);
    hide Measure, Finished, CanMove;
    EveryRunEnds(Init(n, pipeCap, base, dispatches), sched);
  }

  /** Fairness of the round robin: at any time two channels' shares of the
      dispatches differ by at most one, and the lower-numbered is not behind. */
  lemma RoundRobin(s: State, i: nat, j: nat)
    requires Invariant(s) && i <= j < |s.sent|
    ensures |s.sent[j]| <= |s.sent[i]| <= |s.sent[j]| + 1
    ensures |s.sent[i]| == s.index / s.n + if i < s.index % s.n then 1 else 0
  {
    hide ParentTable, Children, Numbers, Traffic, Reaped;
  }

  /** At any time, what a child has executed is a prefix of what was sent to it. */
  lemma ExecutesPrefix(s: State, i: nat)
    requires Invariant(s) && i < |s.children|
    ensures s.children[i].ran <= s.sent[i]
    ensures s.children[i].pc.CExited? ==> s.children[i].ran == s.sent[i]
  {
    hide ParentTable, Children, Numbers, Reaped, Dispatched;
    assert ChildTraffic(s.children[i], s.pipes[i], s.sent[i]);
  }
}
