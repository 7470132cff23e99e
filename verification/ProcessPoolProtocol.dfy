/** The process pool as a transition system: a parent that forks n children,
    dispatches task codes to them over pipes and then closes and reaps them one
    by one, and the children, in any interleaving (test_ProcessPool/code.cpp:46-68,
    91-94, 137-163, 190-247).

    Every process has its own descriptor table; fork copies it, pipe takes the two
    lowest free numbers and exit empties it. A pipe is a FIFO sequence that holds
    at most pipeCap codes; a read of an empty pipe returns end of file once no
    process holds its write end, and blocks before. Child i has process id i.
    pipe, fork, read and write do not fail. */
module ProcessPoolProtocol {
  import opened Wrappers

  const TASKS := 4

  datatype End = Other | ReadEnd(pipe: nat) | WriteEnd(pipe: nat)

  type Table = map<nat, End>

  datatype Channel = Channel(wfd: nat, subPid: nat)

  datatype ParentPc =
    | PPipe                   // line 220
    | PFork(r: nat, w: nat)   // line 226
    | PCloseRead(r: nat, w: nat)
    | PAdd(w: nat)            // line 246
    | PRun(left: nat)         // line 139, with `left` iterations to go
    | PClose(j: nat)          // line 156-160, ClosePipe on channel j
    | PWait(j: nat)           // Wait on channel j
    | PDone

  datatype ChildPc =
    | CClosing(k: nat)        // lines 233-237, at inherited channel k
    | CCloseOwn               // line 238
    | CReading                // line 49
    | CRunning(code: int)     // lines 59-64
    | CExiting                // line 240
    | CExited

  datatype Child = Child(fds: Table, inherited: seq<Channel>, rfd: nat, wfd: nat, pc: ChildPc,
                         got: seq<int>, ran: seq<int>)

  /** Besides the processes and pipes: the length of the static counter `index`,
      and history: the write descriptor of each pipe, the codes sent into each,
      and the children reaped, in order. */
  datatype State = State(
    n: nat, pipeCap: nat, base: Table,
    fds: Table, pc: ParentPc, channels: seq<Channel>, index: nat, dispatches: nat,
    children: seq<Child>, pipes: seq<seq<int>>,
    wfds: seq<nat>, sent: seq<seq<int>>, reaped: seq<nat>)

  /** `rand` is the value that rand() returns if this step calls it. */
  datatype Action = Parent(rand: nat) | Sub(i: nat)

  function Init(n: nat, pipeCap: nat, base: Table, dispatches: nat): State {
    State(n, pipeCap, base, base, PPipe, [], 0, dispatches, [], [], [], [], [])
  }

  /** The lowest descriptor from `from` on that is not in use. */
  function LowestFree(used: set<nat>, from: nat): (r: nat)
    ensures from <= r && r !in used
    ensures forall k :: from <= k < r ==> k in used
    decreases |used|
  {
    if from !in used then from
    else
      var r := LowestFree(used - {from}, from + 1);
      assert forall k :: from <= k < r ==> k in used by {
        forall k | from <= k < r ensures k in used {
          assert k == from || k in used - {from};
        }
      }
      r
  }

  predicate HasWriter(s: State, p: nat) {
    WriteEnd(p) in s.fds.Values || exists i :: 0 <= i < |s.children| && WriteEnd(p) in s.children[i].fds.Values
  }

  /** After one iteration of the creation loop. */
  function AfterAdd(s: State, created: nat): ParentPc {
    if created < s.n then PPipe else PRun(s.dispatches)
  }

  /** write(_wfd, &code): into the pipe that the descriptor names, None if it is full. */
  function Write(s: State, wfd: nat, code: int): Option<State> {
    if wfd in s.fds && s.fds[wfd].WriteEnd? && s.fds[wfd].pipe < |s.pipes| && s.fds[wfd].pipe < |s.sent| then
      var p := s.fds[wfd].pipe;
      if |s.pipes[p]| < s.pipeCap
      then Some(s.(pipes := s.pipes[p := s.pipes[p] + [code]], sent := s.sent[p := s.sent[p] + [code]]))
      else None
    else Some(s) // the result of write is ignored (line 93)
  }

  /** SendTaskToChannel: both checks, then the write. */
  function SendTaskToChannel(s: State, itask: int, index: int): Option<State> {
    if itask < 0 || itask >= TASKS then Some(s)
    else if index < 0 || index >= |s.channels| then Some(s)
    else Write(s, s.channels[index].wfd, itask)
  }

  function ParentStep(s: State, rand: nat): Option<State> {
    match s.pc
    case PPipe =>
      var r := LowestFree(s.fds.Keys, 0);
      var w := LowestFree(s.fds.Keys + {r}, 0);
      var p := |s.pipes|;
      Some(s.(fds := s.fds[r := ReadEnd(p)][w := WriteEnd(p)], pipes := s.pipes + [[]], sent := s.sent + [[]],
              wfds := s.wfds + [w], pc := PFork(r, w)))
    case PFork(r, w) =>
      Some(s.(children := s.children + [Child(s.fds, s.channels, r, w, CClosing(0), [], [])], pc := PCloseRead(r, w)))
    case PCloseRead(r, w) => Some(s.(fds := s.fds - {r}, pc := PAdd(w)))
    case PAdd(w) =>
      if s.children == [] then None // fork has returned, so there is a child
      else Some(s.(channels := s.channels + [Channel(w, |s.children| - 1)], pc := AfterAdd(s, |s.channels| + 1)))
    case PRun(left) =>
      if left == 0 then Some(s.(pc := PClose(0)))
      else if s.channels == [] then None // index % 0: undefined
      else
        var written := SendTaskToChannel(s, rand % TASKS, s.index % |s.channels|);
        if written.None? then None
        else Some(written.value.(pc := PRun(left - 1), index := s.index + 1))
    case PClose(j) =>
      if j >= |s.channels| then None
      else Some(s.(fds := s.fds - {s.channels[j].wfd}, pc := PWait(j)))
    case PWait(j) =>
      if j >= |s.channels| || s.channels[j].subPid >= |s.children|
         || !s.children[s.channels[j].subPid].pc.CExited? || s.channels[j].subPid in s.reaped then None
      else Some(s.(reaped := s.reaped + [s.channels[j].subPid],
                   pc := if j + 1 < |s.channels| then PClose(j + 1) else PDone))
    case PDone => None
  }

  function ChildStep(s: State, i: nat): Option<State>
    requires i < |s.children|
  {
    var c := s.children[i];
    match c.pc
    case CClosing(k) =>
      if k < |c.inherited|
      then Some(s.(children := s.children[i := c.(fds := c.fds - {c.inherited[k].wfd}, pc := CClosing(k + 1))]))
      else Some(s.(children := s.children[i := c.(pc := CCloseOwn)]))
    case CCloseOwn =>
      Some(s.(children := s.children[i := c.(fds := c.fds - {c.wfd}, pc := CReading)]))
    case CReading =>
      if c.rfd in c.fds && c.fds[c.rfd].ReadEnd? && c.fds[c.rfd].pipe < |s.pipes| then
        var p := c.fds[c.rfd].pipe;
        if s.pipes[p] != [] then
          var code := s.pipes[p][0];
          Some(s.(pipes := s.pipes[p := s.pipes[p][1..]],
                  children := s.children[i := c.(pc := CRunning(code), got := c.got + [code])]))
        else if HasWriter(s, p) then None
        else Some(s.(children := s.children[i := c.(pc := CExiting)]))
      else Some(s.(children := s.children[i := c.(pc := CExiting)])) // read error
    case CRunning(code) =>
      Some(s.(children := s.children[i :=
        c.(pc := CReading, ran := if 0 <= code < TASKS then c.ran + [code] else c.ran)]))
    case CExiting => Some(s.(children := s.children[i := c.(fds := map[], pc := CExited)]))
    case CExited => None
  }

  function Step(s: State, a: Action): Option<State> {
    match a
    case Parent(rand) => ParentStep(s, rand)
    case Sub(i) => if i < |s.children| then ChildStep(s, i) else None
  }

  function Next(s: State, a: Action): State {
    match Step(s, a) case Some(s') => s' case None => s
  }

  /** The state a scheduler's choices lead to; scheduling a blocked process changes nothing. */
  function Exec(s: State, sched: seq<Action>): State
    decreases |sched|
  {
    if sched == [] then s else Exec(Next(s, sched[0]), sched[1..])
  }

  // ---------- Who holds which descriptor ----------

  /** The table holds exactly: the descriptors open before the pool, the write
      ends of pipes lo to hi - 1 under their numbers, and possibly a read end. */
  ghost predicate Owns(fds: Table, base: Table, ws: seq<nat>, lo: nat, hi: nat, rfd: nat, read: Option<nat>)
  {
    && lo <= hi <= |ws|
    && (forall fd :: fd in base ==> fd in fds && fds[fd] == base[fd])
    && (forall p :: lo <= p < hi ==> ws[p] in fds && fds[ws[p]] == WriteEnd(p))
    && (read.Some? ==> rfd in fds && fds[rfd] == ReadEnd(read.value))
    && (forall fd :: fd in fds ==>
          fd in base || match fds[fd]
                        case Other => false
                        case ReadEnd(p) => read == Some(p) && fd == rfd
                        case WriteEnd(p) => lo <= p < hi && ws[p] == fd)
  }

  /** The number every read end gets: closing it frees it for the next pipe. */
  ghost function ReadFd(base: Table): nat { LowestFree(base.Keys, 0) }

  /** The write ends have distinct numbers, none of them used before the pool or for reading. */
  ghost predicate Numbers(base: Table, ws: seq<nat>) {
    && (forall fd :: fd in base ==> base[fd].Other?)
    && (forall p :: 0 <= p < |ws| ==> ws[p] !in base && ws[p] > ReadFd(base))
    && (forall p, q :: 0 <= p < q < |ws| ==> ws[p] != ws[q])
  }

  predicate Creating(pc: ParentPc) { pc.PPipe? || pc.PFork? || pc.PCloseRead? || pc.PAdd? }

  /** How many write ends the parent has closed again. */
  function Closed(s: State): nat {
    match s.pc
    case PClose(j) => j
    case PWait(j) => j + 1
    case PDone => s.n
    case _ => 0
  }

  ghost predicate ParentTable(s: State) {
    Owns(s.fds, s.base, s.wfds, Closed(s), |s.wfds|, ReadFd(s.base),
         if s.pc.PFork? || s.pc.PCloseRead? then Some(|s.channels|) else None)
  }

  ghost predicate ChildTable(base: Table, ws: seq<nat>, c: Child, i: nat) {
    match c.pc
    case CClosing(k) => k <= i && Owns(c.fds, base, ws, k, i + 1, c.rfd, Some(i))
    case CCloseOwn => Owns(c.fds, base, ws, i, i + 1, c.rfd, Some(i))
    case CExited => c.fds == map[]
    case _ => Owns(c.fds, base, ws, i + 1, i + 1, c.rfd, Some(i))
  }

  /** The bookkeeping of the parent: how far creation is, and what the channels say. */
  ghost predicate Shape(s: State) {
    && s.n > 0 && s.pipeCap > 0
    && |s.pipes| == |s.sent| == |s.wfds|
    && |s.channels| <= |s.children| <= |s.wfds| <= s.n
    && (forall j :: 0 <= j < |s.channels| ==> s.channels[j] == Channel(s.wfds[j], j))
    && (match s.pc
        case PPipe => |s.wfds| == |s.channels| < s.n
        case PFork(r, w) =>
          |s.wfds| == |s.channels| + 1 && |s.children| == |s.channels|
          && r == ReadFd(s.base) && w == s.wfds[|s.channels|]
        case PCloseRead(r, w) =>
          |s.children| == |s.wfds| == |s.channels| + 1 && r == ReadFd(s.base) && w == s.wfds[|s.channels|]
        case PAdd(w) => |s.children| == |s.wfds| == |s.channels| + 1 && w == s.wfds[|s.channels|]
        case PClose(j) => |s.channels| == s.n && j < s.n
        case PWait(j) => |s.channels| == s.n && j < s.n
        case _ => |s.channels| == s.n)
  }

  ghost predicate ChildShape(base: Table, ws: seq<nat>, c: Child, i: nat)
    requires i < |ws|
  {
    && c.rfd == ReadFd(base) && c.wfd == ws[i]
    && |c.inherited| == i && (forall k :: 0 <= k < i ==> c.inherited[k].wfd == ws[k])
  }

  ghost predicate Children(s: State)
    requires |s.children| <= |s.wfds|
  {
    forall i :: 0 <= i < |s.children| ==>
      ChildShape(s.base, s.wfds, s.children[i], i) && ChildTable(s.base, s.wfds, s.children[i], i)
  }

  ghost predicate Descriptors(s: State) {
    && Shape(s) && Numbers(s.base, s.wfds) && ParentTable(s)
    && Children(s)
  }

  // ---------- Table operations ----------

  /** Exactly which pipe ends a table holds, and under which numbers. */
  lemma OwnsExactly(fds: Table, base: Table, ws: seq<nat>, lo: nat, hi: nat, read: Option<nat>, p: nat)
    requires Owns(fds, base, ws, lo, hi, ReadFd(base), read) && Numbers(base, ws)
    ensures WriteEnd(p) in fds.Values <==> lo <= p < hi
    ensures ReadEnd(p) in fds.Values <==> read == Some(p)
    ensures forall fd :: fd in fds ==> (fds[fd] == WriteEnd(p) <==> lo <= p < hi && fd == ws[p])
    ensures forall fd :: fd in fds ==> (fds[fd] == ReadEnd(p) <==> read == Some(p) && fd == ReadFd(base))
  {
    assert lo <= p < hi ==> fds[ws[p]] == WriteEnd(p);
    assert read == Some(p) ==> fds[ReadFd(base)] == ReadEnd(p);
  }

  lemma OwnsClose(fds: Table, base: Table, ws: seq<nat>, lo: nat, hi: nat, rfd: nat, read: Option<nat>)
    requires Owns(fds, base, ws, lo, hi, rfd, read) && Numbers(base, ws) && lo < hi && rfd == ReadFd(base)
    ensures Owns(fds - {ws[lo]}, base, ws, lo + 1, hi, rfd, read)
  {}

  /** Later pipes do not matter to a table. */
  lemma OwnsLonger(fds: Table, base: Table, ws: seq<nat>, vs: seq<nat>, lo: nat, hi: nat, rfd: nat, read: Option<nat>)
    requires Owns(fds, base, ws, lo, hi, rfd, read) && ws <= vs
    ensures Owns(fds, base, vs, lo, hi, rfd, read)
  {}

  lemma OwnsCloseRead(fds: Table, base: Table, ws: seq<nat>, lo: nat, hi: nat, rfd: nat, p: nat)
    requires Owns(fds, base, ws, lo, hi, rfd, Some(p)) && Numbers(base, ws) && rfd == ReadFd(base)
    ensures Owns(fds - {rfd}, base, ws, lo, hi, rfd, None)
  {}

  /** While write ends 0..m-1 are all open, pipe gives the read end the same number
      as every time before and the write end a new one. */
  lemma PipeNumbers(fds: Table, base: Table, ws: seq<nat>)
    requires Owns(fds, base, ws, 0, |ws|, ReadFd(base), None) && Numbers(base, ws)
    ensures var r := LowestFree(fds.Keys, 0);
            var w := LowestFree(fds.Keys + {r}, 0);
            && r == ReadFd(base) && Numbers(base, ws + [w])
            && Owns(fds[r := ReadEnd(|ws|)][w := WriteEnd(|ws|)], base, ws + [w], 0, |ws| + 1, r, Some(|ws|))
  {
    var r := LowestFree(fds.Keys, 0);
    var w := LowestFree(fds.Keys + {r}, 0);
    FreeNumbers(fds, base, ws);
    hide LowestFree, ReadFd;
    assert w !in ws by {
      assert forall p :: 0 <= p < |ws| ==> ws[p] in fds;
    }
  }

  lemma FreeNumbers(fds: Table, base: Table, ws: seq<nat>)
    requires Owns(fds, base, ws, 0, |ws|, ReadFd(base), None) && Numbers(base, ws)
    ensures var r := LowestFree(fds.Keys, 0);
            r == ReadFd(base) && LowestFree(fds.Keys + {r}, 0) > r
  {
    var r0 := ReadFd(base);
    assert forall k :: 0 <= k < r0 ==> k in base.Keys;
    assert forall k :: 0 <= k < r0 ==> k in fds.Keys;
    assert r0 !in fds.Keys;
    hide Owns, Numbers;
  }

  // ---------- Every step keeps the descriptors ----------

  /** Later pipes do not matter to a child. */
  lemma ChildLonger(base: Table, ws: seq<nat>, vs: seq<nat>, c: Child, i: nat)
    requires i < |ws| && ws <= vs && ChildShape(base, ws, c, i) && ChildTable(base, ws, c, i)
    ensures ChildShape(base, vs, c, i) && ChildTable(base, vs, c, i)
  {
    hide Owns;
    match c.pc {
      case CClosing(k) => OwnsLonger(c.fds, base, ws, vs, k, i + 1, c.rfd, Some(i));
      case CCloseOwn => OwnsLonger(c.fds, base, ws, vs, i, i + 1, c.rfd, Some(i));
      case CExited =>
      case _ => OwnsLonger(c.fds, base, ws, vs, i + 1, i + 1, c.rfd, Some(i));
    }
  }

  lemma PipeKeepsDescriptors(s: State, rand: nat, s': State)
    requires Descriptors(s) && s.pc.PPipe? && ParentStep(s, rand) == Some(s')
    ensures Descriptors(s')
  {
    hide Owns, Numbers, ChildTable, ChildShape;
    PipeNumbers(s.fds, s.base, s.wfds);
    forall i | 0 <= i < |s.children|
      ensures ChildShape(s.base, s'.wfds, s.children[i], i) && ChildTable(s.base, s'.wfds, s.children[i], i)
    {
      ChildLonger(s.base, s.wfds, s'.wfds, s.children[i], i);
    }
  }

  /** The new child starts with a copy of the parent's table. */
  lemma ForkKeepsDescriptors(s: State, rand: nat, s': State)
    requires Descriptors(s) && s.pc.PFork? && ParentStep(s, rand) == Some(s')
    ensures Descriptors(s')
  {
    hide Owns, Numbers;
  }

  lemma CloseReadKeepsDescriptors(s: State, rand: nat, s': State)
    requires Descriptors(s) && s.pc.PCloseRead? && ParentStep(s, rand) == Some(s')
    ensures Descriptors(s')
  {
    hide Owns, Numbers, ChildShape, ChildTable, LowestFree, ReadFd;
    OwnsCloseRead(s.fds, s.base, s.wfds, 0, |s.wfds|, s.pc.r, |s.channels|);
  }

  lemma CloseKeepsDescriptors(s: State, rand: nat, s': State)
    requires Descriptors(s) && s.pc.PClose? && ParentStep(s, rand) == Some(s')
    ensures Descriptors(s')
  {
    hide Owns, Numbers, ChildShape, ChildTable, LowestFree, ReadFd;
    OwnsClose(s.fds, s.base, s.wfds, s.pc.j, |s.wfds|, ReadFd(s.base), None);
  }

  lemma OtherKeepsDescriptors(s: State, rand: nat, s': State)
    requires Descriptors(s) && (s.pc.PAdd? || s.pc.PRun? || s.pc.PWait?) && ParentStep(s, rand) == Some(s')
    ensures Descriptors(s')
  {
    hide Owns, Numbers, ChildShape, ChildTable, LowestFree, ReadFd;
  }

  lemma ParentKeepsDescriptors(s: State, rand: nat, s': State)
    requires Descriptors(s) && ParentStep(s, rand) == Some(s')
    ensures Descriptors(s')
  {
    hide Descriptors;
    match s.pc {
      case PPipe => PipeKeepsDescriptors(s, rand, s');
      case PFork(_, _) => ForkKeepsDescriptors(s, rand, s');
      case PCloseRead(_, _) => CloseReadKeepsDescriptors(s, rand, s');
      case PClose(_) => CloseKeepsDescriptors(s, rand, s');
      case _ => OtherKeepsDescriptors(s, rand, s');
    }
  }

  /** A child's own step: closing an inherited write end closes the one it means to close. */
  lemma ChildKeepsTable(s: State, i: nat, s': State)
    requires Descriptors(s) && i < |s.children| && ChildStep(s, i) == Some(s')
    ensures s' == s.(children := s.children[i := s'.children[i]], pipes := s'.pipes) && |s'.pipes| == |s.pipes|
    ensures ChildShape(s.base, s.wfds, s'.children[i], i) && ChildTable(s.base, s.wfds, s'.children[i], i)
  {
    hide Owns, Numbers, ParentTable;
    var c := s.children[i];
    match c.pc {
      case CClosing(k) =>
        if k < i {
          OwnsClose(c.fds, s.base, s.wfds, k, i + 1, c.rfd, Some(i));
        }
      case CCloseOwn => OwnsClose(c.fds, s.base, s.wfds, i, i + 1, c.rfd, Some(i));
      case _ =>
    }
  }

  lemma ChildKeepsDescriptors(s: State, i: nat, s': State)
    requires Descriptors(s) && i < |s.children| && ChildStep(s, i) == Some(s')
    ensures Descriptors(s')
  {
    hide Owns, Numbers, ChildTable, ChildShape, ChildStep;
    ChildKeepsTable(s, i, s');
  }
}
