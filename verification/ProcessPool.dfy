/** The class of test_ProcessPool/code.cpp, run by the parent beside its children.

    The real fields are the parent's table, its channels and counter, and what
    the kernel lets it observe: how full the pipes are and which children have
    exited. `log` is the schedule that led here, so every state is one the
    protocol reaches; `Others` lets the children take any steps they can. */
module ProcessPoolClass {
  import opened Modular
  import opened ProcessPoolProtocol
  import opened ProcessPoolTraffic
  import opened ProcessPoolShutdown

  ghost predicate ChildrenOnly(sched: seq<Action>) {
    forall k :: 0 <= k < |sched| ==> sched[k].Sub?
  }

  /** What the children cannot change: everything of the parent's. */
  ghost predicate SameParent(s: State, t: State) {
    && t.n == s.n && t.pipeCap == s.pipeCap && t.base == s.base && t.fds == s.fds && t.pc == s.pc
    && t.channels == s.channels && t.index == s.index && t.dispatches == s.dispatches
    && |t.children| == |s.children| && t.wfds == s.wfds && t.sent == s.sent && t.reaped == s.reaped
    && |t.pipes| == |s.pipes|
  }

  lemma {:induction false} ExecAppend(s: State, a: seq<Action>, b: seq<Action>)
    ensures Exec(s, a + b) == Exec(Exec(s, a), b)
    decreases |a|
  {
    hide Next;
    if a == [] {
      assert a + b == b;
    } else {
      assert (a + b)[1..] == a[1..] + b;
      ExecAppend(Next(s, a[0]), a[1..], b);
    }
  }

  lemma {:induction false} ChildrenLeaveParent(s: State, sched: seq<Action>)
    requires ChildrenOnly(sched)
    ensures SameParent(s, Exec(s, sched))
    decreases |sched|
  {
    if sched != [] {
      assert SameParent(s, Next(s, sched[0]));
      hide Next;
      ChildrenLeaveParent(Next(s, sched[0]), sched[1..]);
    }
  }

  /** Whose turn the p-th dispatch is, and in which round. */
  function Turn(p: nat, n: nat): (j: nat)
    requires n > 0
    ensures j < n
  {
    p % n
  }

  function Round(p: nat, n: nat): nat
    requires n > 0
  {
    p / n
  }

  /** The codes for channel j, if the random numbers are dealt out in turn. */
  function Assigned(rands: seq<nat>, n: nat, j: nat): seq<int>
    requires n > 0
    decreases |rands|
  {
    if rands == [] then []
    else
      var last := |rands| - 1;
      Assigned(rands[..last], n, j) + if Turn(last, n) == j then [rands[last] % TASKS] else []
  }

  lemma ShareSoFar(p: nat, n: nat, j: nat)
    requires j < n
    ensures Share(0, n, j) == 0
    ensures Share(p + 1, n, j) == Share(p, n, j) + if Turn(p, n) == j then 1 else 0
    ensures Turn(p, n) == j ==> Share(p, n, j) == Round(p, n)
  {
    ShareNext(p, n, j);
  }

  /** Channel j gets its share of the numbers, and of those of its turns each in its round. */
  lemma {:induction false} AssignedAt(rands: seq<nat>, n: nat, j: nat)
    requires j < n
    ensures |Assigned(rands, n, j)| == Share(|rands|, n, j)
    ensures forall p :: 0 <= p < |rands| && Turn(p, n) == j ==>
              Round(p, n) < |Assigned(rands, n, j)| && Assigned(rands, n, j)[Round(p, n)] == rands[p] % 4
    decreases |rands|
  {
    hide Turn, Round, Share;
    if rands == [] {
      ShareSoFar(0, n, j);
    } else {
      var last := |rands| - 1;
      var before := Assigned(rands[..last], n, j);
      AssignedAt(rands[..last], n, j);
      ShareSoFar(last, n, j);
      forall p | 0 <= p < |rands| && Turn(p, n) == j
        ensures Round(p, n) < |Assigned(rands, n, j)| && Assigned(rands, n, j)[Round(p, n)] == rands[p] % 4
      {
        if p < last {
          assert Round(p, n) < |before| && before[Round(p, n)] == rands[..last][p] % 4;
        }
      }
    }
  }

  class ProcessPool {
    const n: nat
    const pipeCap: nat
    var fds: Table
    var channels: seq<Channel>
    var index: nat
    var forked: nat
    var pipes: seq<seq<int>>
    var exited: seq<bool>
    ghost const start: State
    ghost var log: seq<Action>

    ghost function Now(): State
      reads this
    {
      Exec(start, log)
    }

    ghost predicate Valid()
      reads this
    {
      && Invariant(Now()) && Now().n == n && Now().pipeCap == pipeCap
      && Now().fds == fds && Now().channels == channels && Now().index == index && |Now().children| == forked
      && Now().pipes == pipes && |exited| == forked
      && forall i :: 0 <= i < forked ==> exited[i] == Now().children[i].pc.CExited?
    }

    constructor (n: nat, pipeCap: nat, base: Table, ghost dispatches: nat)
      requires n > 0 && pipeCap > 0 && forall fd :: fd in base ==> base[fd].Other?
      ensures Valid() && this.n == n && start == Init(n, pipeCap, base, dispatches) && log == []
    {
      this.n, this.pipeCap := n, pipeCap;
      fds, channels, index, forked, pipes, exited := base, [], 0, 0, [], [];
      start, log := Init(n, pipeCap, base, dispatches), [];
      new;
      AlwaysInvariant(n, pipeCap, base, dispatches, []);
    }

    /** One system call or assignment of the parent. */
    ghost method Move(a: Action)
      requires Invariant(Now()) && CanMove(Now(), a)
      modifies this`log
      ensures log == old(log) + [a] && Now() == Step(old(Now()), a).value && Invariant(Now())
    {
      hide Invariant, Step;
      ExecAppend(start, log, [a]);
      StepKeepsInvariant(Now(), a);
      log := log + [a];
      assert [a][1..] == [];
    }

    /** The children run: any steps of theirs may happen here. The last clause follows from the others. */
    method Others()
      requires Valid()
      modifies this
      ensures Valid() && old(log) <= log && ChildrenOnly(log[|old(log)|..])
      ensures SameParent(old(Now()), Now())
    {
      ChildrenLeaveParent(Now(), []);
    }

    /** pipe(pipefd): the two lowest free descriptors. */
    method Pipe() returns (r: nat, w: nat)
      requires Valid() && Now().pc.PPipe?
      modifies this
      ensures Valid() && old(log) <= log && channels == old(channels)
      ensures Now().pc == PFork(r, w) && Now().dispatches == old(Now().dispatches)
    {
      hide Invariant, Step;
      Creation(Now());
      r := LowestFree(fds.Keys, 0);
      w := LowestFree(fds.Keys + {r}, 0);
      fds := fds[r := ReadEnd(|pipes|)][w := WriteEnd(|pipes|)];
      pipes := pipes + [[]];
      Move(Parent(0));
    }

    /** fork(), as the parent sees it. */
    method Fork(ghost r: nat, ghost w: nat) returns (pid: nat)
      requires Valid() && Now().pc == PFork(r, w)
      modifies this
      ensures Valid() && old(log) <= log && channels == old(channels)
      ensures Now().pc == PCloseRead(r, w) && Now().dispatches == old(Now().dispatches)
      ensures pid + 1 == forked
    {
      hide Invariant, Step;
      Creation(Now());
      pid := forked;
      forked := forked + 1;
      exited := exited + [false];
      Move(Parent(0));
    }

    /** One iteration of the creation loop, in the parent. */
    method CreateChannel()
      requires Valid() && Now().pc.PPipe?
      modifies this
      ensures Valid() && old(log) <= log && |channels| == |old(channels)| + 1 && old(channels) <= channels
      ensures Now().pc == (if |channels| < n then PPipe else PRun(Now().dispatches))
      ensures Now().dispatches == old(Now().dispatches)
    {
      hide Invariant, Step, LowestFree;
      var r, w := Pipe();
      Others();
      var pid := Fork(r, w);
      Others();
      Creation(Now());
      fds := fds - {r};
      Move(Parent(0));
      Others();
      Creation(Now());
      channels := channels + [Channel(w, pid)];
      Move(Parent(0));
    }

    /** CreatProcessChannel: afterwards channel j leads to child j. */
    method CreatProcessChannel()
      requires Valid() && channels == [] && Now().pc.PPipe?
      modifies this
      ensures Valid() && old(log) <= log
      ensures |channels| == n && Now().pc == PRun(Now().dispatches) && Now().dispatches == old(Now().dispatches)
      ensures forall j :: 0 <= j < n ==>
                channels[j].subPid == j && channels[j].wfd in fds && fds[channels[j].wfd] == WriteEnd(j)
    {
      hide Invariant, Step;
      StillCreating(Now());
      for i := 0 to n
        invariant Valid() && old(log) <= log && |channels| == i && Now().dispatches == old(Now().dispatches)
        invariant Now().pc == if i < n then PPipe else PRun(Now().dispatches)
      {
        CreateChannel();
        Others();
      }
      Created(Now());
    }

    /** The round-robin choice: an existing channel, and the next call will choose its cyclic successor. */
    method SelectChannel() returns (selected: nat)
      requires channels != []
      modifies this`index
      ensures selected == old(index) % |channels| && index == old(index) + 1
      ensures selected < |channels|
      ensures index % |channels| == if selected + 1 < |channels| then selected + 1 else 0
    {
      selected := index % |channels|;
      Successor(index, |channels|);
      index := index + 1;
    }

    /** One iteration of Run with the random number `rand`; false while the chosen pipe is full. */
    method Dispatch(rand: nat) returns (done: bool)
      requires Valid() && Now().pc.PRun? && Now().pc.left > 0
      modifies this
      ensures Valid() && old(log) <= log && (done || index == old(index))
      ensures !done ==> Now().pc == old(Now()).pc && index % n < |pipes| && |pipes[index % n]| >= pipeCap
      ensures done ==> Now().pc == PRun(old(Now()).pc.left - 1) && index == old(index) + 1
      ensures !done ==> Now().sent == old(Now()).sent
      ensures done ==> var j := old(index) % n;
                       j < |old(Now()).sent| && Now().sent == old(Now()).sent[j := old(Now()).sent[j] + [rand % TASKS]]
    {
      hide Invariant, Step;
      Others();
      Created(Now());
      var itask := rand % TASKS;
      var j := index % |channels|;
      if |pipes[j]| >= pipeCap {
        return false;
      }
      SendsTo(Now(), rand);
      j := SelectChannel();
      pipes := pipes[j := pipes[j] + [itask]];
      Move(Parent(rand));
      done := true;
    }

    /** Run: `rands` are the values of rand() in its iterations. If it gets
        through, each channel has received the codes of its turns, in order; if
        not, the pipe of the channel whose turn it is is full. */
    method Run(rands: seq<nat>) returns (done: bool)
      requires Valid() && Now().pc == PRun(|rands|) && index == 0
      modifies this
      ensures Valid() && old(log) <= log && |Now().sent| == n > 0
      ensures done ==> Now().pc == PClose(0) && forall j :: 0 <= j < n ==> Now().sent[j] == Assigned(rands, n, j)
      ensures !done ==>
                && index < |rands| && Now().pc == PRun(|rands| - index) && index % n < |pipes|
                && |pipes[index % n]| >= pipeCap
                && forall j :: 0 <= j < n ==> Now().sent[j] == Assigned(rands[..index], n, j)
    {
      hide Invariant, Step;
      NothingSent(Now());
      for k := 0 to |rands|
        invariant Valid() && old(log) <= log && Now().pc == PRun(|rands| - k) && index == k
        invariant |Now().sent| == n > 0
        invariant forall j :: 0 <= j < n ==> Now().sent[j] == Assigned(rands[..k], n, j)
      {
        done := Dispatch(rands[k]);
        if !done {
          return;
        }
        assert rands[..k + 1][..k] == rands[..k];
      }
      assert rands[..|rands|] == rands;
      RunsOut(Now());
      Move(Parent(0));
      done := true;
    }

    /** ClosePipe on channel j. */
    method ClosePipe(j: nat)
      requires Valid() && Now().pc == PClose(j)
      modifies this
      ensures Valid() && old(log) <= log && Now().pc == PWait(j) && channels == old(channels)
    {
      hide Invariant, Step;
      Closes(Now());
      fds := fds - {channels[j].wfd};
      Move(Parent(0));
    }

    /** waitpid for the child of channel j; false while it is still running. */
    method Wait(j: nat) returns (done: bool)
      requires Valid() && Now().pc == PWait(j)
      modifies this
      ensures Valid() && old(log) <= log && channels == old(channels)
      ensures j < |exited| && done == exited[j]
      ensures Now().pc == if !done then PWait(j) else if j + 1 < n then PClose(j + 1) else PDone
    {
      hide Invariant, Step;
      Others();
      WaitsFor(Now());
      done := exited[channels[j].subPid];
      if done {
        Move(Parent(0));
      }
    }

    /** Quit: if it gets through, every child has been reaped in order after
        executing exactly the codes sent to it. */
    method Quit() returns (done: bool)
      requires Valid() && Now().pc == PClose(0)
      modifies this
      ensures Valid() && old(log) <= log
      ensures done ==> Finished(Now())
      ensures !done ==> Now().pc.PWait? && Now().pc.j < |exited| && !exited[Now().pc.j]
    {
      hide Invariant, Step, Finished;
      WaitsFor(Now());
      for j := 0 to |channels|
        invariant Valid() && old(log) <= log && |channels| == n
        invariant Now().pc == if j < n then PClose(j) else PDone
      {
        ClosePipe(j);
        done := Wait(j);
        if !done {
          return;
        }
      }
      DoneIsFinished(Now());
      done := true;
    }
  }

  lemma Successor(k: nat, n: nat)
    requires n > 0
    ensures (k + 1) % n == if k % n + 1 < n then k % n + 1 else 0
  {
    if k % n + 1 < n {
      DivMod(k + 1, k / n, k % n + 1, n);
    } else {
      DivMod(k + 1, k / n + 1, 0, n);
    }
  }

  lemma StillCreating(s: State)
    requires Invariant(s) && s.pc.PPipe?
    ensures |s.channels| < s.n
  {}

  /** The parent's creation steps, each from the state before it. */
  lemma Creation(s: State)
    requires Invariant(s) && Creating(s.pc)
    ensures CanMove(s, Parent(0)) && |s.pipes| == |s.wfds|
    ensures var t := Step(s, Parent(0)).value;
            match s.pc
            case PPipe =>
              var r := LowestFree(s.fds.Keys, 0);
              var w := LowestFree(s.fds.Keys + {r}, 0);
              t == s.(fds := s.fds[r := ReadEnd(|s.pipes|)][w := WriteEnd(|s.pipes|)], pipes := s.pipes + [[]],
                      sent := s.sent + [[]], wfds := s.wfds + [w], pc := PFork(r, w))
            case PFork(r, w) =>
              && |t.children| == |s.children| + 1 && t.children[..|s.children|] == s.children
              && t.children[|s.children|].pc.CClosing?
              && t == s.(children := t.children, pc := PCloseRead(r, w)) && |s.children| == |s.channels|
            case PCloseRead(r, w) => t == s.(fds := s.fds - {r}, pc := PAdd(w))
            case PAdd(w) =>
              && t == s.(channels := s.channels + [Channel(w, |s.children| - 1)], pc := AfterAdd(s, |s.channels| + 1))
              && |s.children| == |s.channels| + 1
            case _ => false
  {
    hide Owns, Numbers, Children, Traffic, Dispatched, Reaped;
  }

  lemma Created(s: State)
    requires Invariant(s) && s.pc.PRun?
    ensures |s.channels| == |s.pipes| == |s.children| == s.n > 0
    ensures forall j :: 0 <= j < s.n ==>
              s.channels[j].subPid == j && s.channels[j].wfd in s.fds && s.fds[s.channels[j].wfd] == WriteEnd(j)
  {
    hide Traffic, Dispatched, Reaped;
  }

  lemma SendsTo(s: State, rand: nat)
    requires Invariant(s) && s.pc.PRun? && s.pc.left > 0
    requires |s.channels| == |s.pipes| == s.n > 0
    requires |s.pipes[s.index % s.n]| < s.pipeCap
    ensures CanMove(s, Parent(rand)) && s.index % s.n < |s.sent|
    ensures var j := s.index % s.n;
            Step(s, Parent(rand)).value ==
              s.(pipes := s.pipes[j := s.pipes[j] + [rand % TASKS]],
                 sent := s.sent[j := s.sent[j] + [rand % TASKS]],
                 pc := PRun(s.pc.left - 1), index := s.index + 1)
  {
    ChannelNamesPipe(s, s.index % s.n);
    DispatchSends(s, rand, Step(s, Parent(rand)).value);
  }

  lemma RunsOut(s: State)
    requires s.pc == PRun(0)
    ensures CanMove(s, Parent(0)) && Step(s, Parent(0)).value == s.(pc := PClose(0))
  {}

  lemma NothingSent(s: State)
    requires Invariant(s) && s.pc.PRun? && s.index == 0
    ensures |s.sent| == s.n > 0 && forall j :: 0 <= j < s.n ==> s.sent[j] == []
  {
    hide Owns, Numbers, Children, Traffic, Reaped, Share;
    forall j | 0 <= j < s.n ensures s.sent[j] == [] {
      ShareNext(0, s.n, j);
    }
  }

  lemma Closes(s: State)
    requires Invariant(s) && s.pc.PClose?
    ensures s.pc.j < |s.channels| && CanMove(s, Parent(0))
    ensures Step(s, Parent(0)).value == s.(fds := s.fds - {s.channels[s.pc.j].wfd}, pc := PWait(s.pc.j))
  {
    hide Owns, Numbers, Children, Traffic, Reaped, Dispatched;
  }

  lemma WaitsFor(s: State)
    requires Invariant(s) && (s.pc.PWait? || s.pc.PClose?)
    ensures |s.channels| == |s.children| == s.n && s.pc.j < s.n && s.channels[s.pc.j].subPid == s.pc.j
    ensures s.pc.PWait? && s.children[s.pc.j].pc.CExited? ==>
              && CanMove(s, Parent(0))
              && Step(s, Parent(0)).value ==
                 s.(reaped := s.reaped + [s.pc.j], pc := if s.pc.j + 1 < s.n then PClose(s.pc.j + 1) else PDone)
  {
    hide Owns, Numbers, Children, Traffic, Dispatched;
  }
}
