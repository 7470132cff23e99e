/** What travels through the pipes of the process pool, and how it ends: exact
    delivery, round-robin shares, no deadlock, termination
    (test_ProcessPool/code.cpp:46-68, 137-163, 190-253). */
module ProcessPoolTraffic {
  import opened Modular
  import opened ProcessPoolProtocol
  import opened Wrappers

  /** Channel j's share of the first k dispatches to n channels. */
  function Share(k: nat, n: nat, j: nat): nat
    requires n > 0
  {
    k / n + if j < k % n then 1 else 0
  }

  /** A child has read, in order, what was sent into its pipe and is not in there
      any more, and has executed all of it but the code in its hand. */
  ghost predicate ChildTraffic(c: Child, pipe: seq<int>, sent: seq<int>) {
    && sent == c.got + pipe
    && c.got == (if c.pc.CRunning? then c.ran + [c.pc.code] else c.ran)
    && (c.pc.CExiting? || c.pc.CExited? ==> pipe == [])
  }

  ghost predicate Codes(sent: seq<int>) {
    forall k :: 0 <= k < |sent| ==> 0 <= sent[k] < TASKS
  }

  /** The children reaped so far: those of the first |reaped| channels, in order. */
  ghost predicate Reaped(s: State) {
    && |s.reaped| == (match s.pc case PClose(j) => j case PWait(j) => j case PDone => s.n case _ => 0)
    && |s.reaped| <= |s.children|
    && forall k :: 0 <= k < |s.reaped| ==> s.reaped[k] == k && s.children[k].pc.CExited?
  }

  ghost predicate Dispatched(s: State)
    requires s.n > 0
  {
    && s.index == (match s.pc case PRun(left) => s.dispatches - left
                              case PPipe => 0 case PFork(_, _) => 0 case PCloseRead(_, _) => 0 case PAdd(_) => 0
                              case _ => s.dispatches)
    && Shares(s.index, s.n, s.sent)
  }

  /** Every channel has got its share of the dispatches so far, all of them valid codes. */
  ghost predicate Shares(index: nat, n: nat, sent: seq<seq<int>>)
    requires n > 0
  {
    forall i :: 0 <= i < |sent| ==> |sent[i]| == Share(index, n, i) && Codes(sent[i])
  }

  ghost predicate Traffic(s: State)
    requires |s.children| <= |s.pipes| == |s.sent|
  {
    && Pipes(s.children, s.pipes, s.sent)
    && (forall i :: 0 <= i < |s.children| && (s.children[i].pc.CExiting? || s.children[i].pc.CExited?) ==>
          i < Closed(s))
  }

  ghost predicate Pipes(children: seq<Child>, pipes: seq<seq<int>>, sent: seq<seq<int>>)
    requires |children| <= |pipes| == |sent|
  {
    && (forall i :: 0 <= i < |children| ==> ChildTraffic(children[i], pipes[i], sent[i]))
    && (forall i :: |children| <= i < |pipes| ==> pipes[i] == sent[i] == [])
  }

  ghost predicate Invariant(s: State) {
    Descriptors(s) && Traffic(s) && Dispatched(s) && Reaped(s)
  }

  lemma ShareNext(k: nat, n: nat, j: nat)
    requires j < n
    ensures Share(k + 1, n, j) == Share(k, n, j) + if j == k % n then 1 else 0
    ensures Share(0, n, j) == 0
  {
    if k % n + 1 < n {
      DivMod(k + 1, k / n, k % n + 1, n);
    } else {
      assert k + 1 == (k / n + 1) * n;
      DivMod(k + 1, k / n + 1, 0, n);
    }
  }

  // ---------- Every step keeps the invariant ----------

  /** The parent's descriptor for channel j names pipe j until Quit closes it. */
  lemma ChannelNamesPipe(s: State, j: nat)
    requires Descriptors(s) && j < |s.channels| && Closed(s) <= j
    ensures s.channels[j].wfd in s.fds && s.fds[s.channels[j].wfd] == WriteEnd(j)
  {}

  /** One dispatch: the code arrives at the end of the selected channel's pipe and nowhere else. */
  lemma DispatchSends(s: State, rand: nat, s': State)
    requires Invariant(s) && s.pc.PRun? && s.pc.left > 0 && ParentStep(s, rand) == Some(s')
    ensures var j := s.index % s.n;
            && s' == s.(pipes := s.pipes[j := s.pipes[j] + [rand % TASKS]],
                        sent := s.sent[j := s.sent[j] + [rand % TASKS]],
                        pc := PRun(s.pc.left - 1), index := s.index + 1)
  {
    hide Children, Traffic, Dispatched, Reaped;
    assert |s.channels| == s.n;
    ChannelNamesPipe(s, s.index % s.n);
  }

  lemma SendKeepsShares(index: nat, n: nat, sent: seq<seq<int>>, code: int)
    requires n > 0 && |sent| == n && Shares(index, n, sent) && 0 <= code < TASKS
    ensures var j := index % n;
            Shares(index + 1, n, sent[j := sent[j] + [code]])
  {
    hide Share;
    var j := index % n;
    var sent' := sent[j := sent[j] + [code]];
    forall i | 0 <= i < |sent'| ensures |sent'[i]| == Share(index + 1, n, i) && Codes(sent'[i]) {
      ShareNext(index, n, i);
      assert Codes(sent[i]);
    }
  }

  /** A code sent to a child that is still reading. */
  lemma SendKeepsPipes(children: seq<Child>, pipes: seq<seq<int>>, sent: seq<seq<int>>, j: nat, code: int)
    requires j < |children| == |pipes| == |sent| && Pipes(children, pipes, sent)
    requires !children[j].pc.CExiting? && !children[j].pc.CExited?
    ensures Pipes(children, pipes[j := pipes[j] + [code]], sent[j := sent[j] + [code]])
  {
    assert ChildTraffic(children[j], pipes[j], sent[j]);
    assert sent[j] + [code] == children[j].got + (pipes[j] + [code]);
  }

  lemma DispatchKeeps(s: State, rand: nat, s': State)
    requires Invariant(s) && s.pc.PRun? && s.pc.left > 0 && ParentStep(s, rand) == Some(s')
    ensures |s'.children| <= |s'.pipes| == |s'.sent| && Traffic(s') && Reaped(s')
    ensures s'.n > 0 && Dispatched(s')
  {
    hide ParentStep, ParentTable, Children, Numbers, Pipes, Shares;
    DispatchSends(s, rand, s');
    SendKeepsShares(s.index, s.n, s.sent, rand % TASKS);
    SendKeepsPipes(s.children, s.pipes, s.sent, s.index % s.n, rand % TASKS);
  }

  lemma ParentKeepsShares(s: State, rand: nat, s': State)
    requires Shape(s) && Dispatched(s) && !(s.pc.PRun? && s.pc.left > 0) && ParentStep(s, rand) == Some(s')
    ensures s'.n > 0 && Dispatched(s')
  {
    if s.pc.PPipe? {
      ShareNext(0, s.n, |s.sent|);
    }
    hide Share, SendTaskToChannel, Write;
  }

  lemma ParentKeepsReaped(s: State, rand: nat, s': State)
    requires Shape(s) && Reaped(s) && !(s.pc.PRun? && s.pc.left > 0) && ParentStep(s, rand) == Some(s')
    ensures Reaped(s')
  {
    hide SendTaskToChannel, Write;
  }

  lemma ParentKeepsTraffic(s: State, rand: nat, s': State)
    requires Shape(s) && Traffic(s) && !(s.pc.PRun? && s.pc.left > 0) && ParentStep(s, rand) == Some(s')
    ensures |s'.children| <= |s'.pipes| == |s'.sent| && Traffic(s')
  {
    hide SendTaskToChannel, Write, ChildTraffic, LowestFree, ReadFd;
    match s.pc {
      case PFork(r, w) =>
        var m := |s.children|;
        NewChildTraffic(s'.children[m]);
        assert s.pipes[m] == s.sent[m] == [];
      case _ =>
    }
  }

  lemma NewChildTraffic(c: Child)
    requires c.pc.CClosing? && c.got == c.ran == []
    ensures ChildTraffic(c, [], [])
  {}

  /** Until Quit closes channel i, the parent itself keeps pipe i from ending. */
  lemma ParentIsWriter(s: State, i: nat)
    requires Descriptors(s) && Closed(s) <= i < |s.wfds|
    ensures HasWriter(s, i)
  {
    assert s.fds[s.wfds[i]] == WriteEnd(i);
  }

  /** What a child's step does to the pipes: a read takes the first code of its own
      pipe, and end of file means that pipe is empty and its channel closed. */
  lemma ChildEffect(s: State, i: nat, s': State)
    requires Descriptors(s) && i < |s.children| && ChildStep(s, i) == Some(s')
    ensures var c, c' := s.children[i], s'.children[i];
            if c.pc.CReading? && s.pipes[i] != [] then
              && s'.pipes == s.pipes[i := s.pipes[i][1..]]
              && c'.pc == CRunning(s.pipes[i][0]) && c'.got == c.got + [s.pipes[i][0]] && c'.ran == c.ran
            else
              && s'.pipes == s.pipes && c'.got == c.got && !c'.pc.CRunning?
              && (c.pc.CRunning? <==> c'.pc.CReading? && c.pc != CCloseOwn)
              && c'.ran == (if c.pc.CRunning? && 0 <= c.pc.code < TASKS then c.ran + [c.pc.code] else c.ran)
              && (c'.pc.CExiting? ==> c.pc.CReading? && i < Closed(s))
              && (c'.pc.CExited? ==> c.pc.CExiting?)
    ensures s' == s.(children := s.children[i := s'.children[i]], pipes := s'.pipes)
  {
    var c := s.children[i];
    assert ChildTable(s.base, s.wfds, c, i);
    if c.pc.CReading? {
      assert c.fds[c.rfd] == ReadEnd(i);
      if s.pipes[i] == [] && Closed(s) <= i {
        ParentIsWriter(s, i);
      }
    }
    hide ParentTable, Children, Numbers, HasWriter;
  }

  lemma OneChildKeepsPipes(children: seq<Child>, pipes: seq<seq<int>>, sent: seq<seq<int>>,
                           i: nat, c: Child, pipe: seq<int>)
    requires i < |children| <= |pipes| == |sent| && Pipes(children, pipes, sent)
    requires ChildTraffic(c, pipe, sent[i])
    ensures Pipes(children[i := c], pipes[i := pipe], sent)
  {}

  /** Reading moves a code from the pipe to the child's hand; running executes it,
      as all codes that were sent are valid. */
  lemma ChildTrafficStep(c: Child, c': Child, pipe: seq<int>, pipe': seq<int>, sent: seq<int>)
    requires ChildTraffic(c, pipe, sent) && Codes(sent)
    requires if c.pc.CReading? && pipe != [] then
               pipe' == pipe[1..] && c'.pc == CRunning(pipe[0]) && c'.got == c.got + [pipe[0]] && c'.ran == c.ran
             else
               && pipe' == pipe && c'.got == c.got && !c'.pc.CRunning?
               && c'.ran == (if c.pc.CRunning? && 0 <= c.pc.code < TASKS then c.ran + [c.pc.code] else c.ran)
               && (c'.pc.CExiting? ==> c.pc.CReading?) && (c'.pc.CExited? ==> c.pc.CExiting?)
    ensures ChildTraffic(c', pipe', sent)
  {
    if c.pc.CRunning? {
      assert sent[|c.got| - 1] == c.pc.code;
    }
  }

  lemma ChildKeepsTraffic(s: State, i: nat, s': State)
    requires Invariant(s) && i < |s.children| && ChildStep(s, i) == Some(s')
    ensures |s'.children| <= |s'.pipes| == |s'.sent| && Traffic(s')
  {
    ChildEffect(s, i, s');
    hide ChildStep, ParentTable, Children, Numbers, Share, Reaped, ChildTraffic, Codes;
    assert ChildTraffic(s.children[i], s.pipes[i], s.sent[i]);
    assert Codes(s.sent[i]);
    ChildTrafficStep(s.children[i], s'.children[i], s.pipes[i], s'.pipes[i], s.sent[i]);
    hide Pipes, Shares;
    OneChildKeepsPipes(s.children, s.pipes, s.sent, i, s'.children[i], s'.pipes[i]);
    assert s'.pipes == s.pipes[i := s'.pipes[i]];
  }

  lemma ChildKeepsRest(s: State, i: nat, s': State)
    requires Invariant(s) && i < |s.children| && ChildStep(s, i) == Some(s')
    ensures s'.n > 0 && Dispatched(s') && Reaped(s')
  {
    ChildEffect(s, i, s');
    hide ParentTable, Children, Numbers, Share, Traffic;
  }

  lemma StepKeepsInvariant(s: State, a: Action)
    requires Invariant(s) && Step(s, a).Some?
    ensures Invariant(Step(s, a).value)
  {
    var s' := Step(s, a).value;
    hide ParentStep, ChildStep, ParentTable, Children, Numbers, Traffic, Dispatched, Reaped;
    match a {
      case Sub(i) =>
        ChildKeepsDescriptors(s, i, s');
        ChildKeepsTraffic(s, i, s');
        ChildKeepsRest(s, i, s');
      case Parent(rand) =>
        ParentKeepsDescriptors(s, rand, s');
        if s.pc.PRun? && s.pc.left > 0 {
          DispatchKeeps(s, rand, s');
        } else {
          ParentKeepsTraffic(s, rand, s');
          ParentKeepsShares(s, rand, s');
          ParentKeepsReaped(s, rand, s');
        }
    }
  }

  lemma {:induction false} RunKeepsInvariant(s: State, sched: seq<Action>)
    requires Invariant(s)
    ensures Invariant(Exec(s, sched))
    decreases |sched|
  {
    hide Invariant, Step;
    if sched != [] {
      if Step(s, sched[0]).Some? {
        StepKeepsInvariant(s, sched[0]);
      }
      RunKeepsInvariant(Next(s, sched[0]), sched[1..]);
    }
  }

  /** Main result: the invariant holds in every interleaving, for any number of
      channels and dispatches, any pipe capacity and any descriptors open before. */
  lemma AlwaysInvariant(n: nat, pipeCap: nat, base: Table, dispatches: nat, sched: seq<Action>)
    requires n > 0 && pipeCap > 0 && forall fd :: fd in base ==> base[fd].Other?
    ensures Invariant(Exec(Init(n, pipeCap, base, dispatches), sched))
  {
    RunKeepsInvariant(Init(n, pipeCap, base, dispatches), sched);
  }
}
