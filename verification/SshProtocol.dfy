/** The reconnecting client of RemoteSSH/SSH_Client.cpp:10-166 as functions of its
    state. What the network does is an oracle: one answer for each Connect and
    one for each round of Process. A run is followed for as long as the oracle
    has answers. */
module SshProtocol {
  import opened Tally

  datatype Status = NEW | CONNECTING | CONNECTED | DISCONNECTED | CLOSED

  const DEFAULT_SOCKFD := -1
  const DEFAULT_MAX_RETRIES := 5

  /** socket() fails, or returns fd and connect() then fails or succeeds. */
  datatype Dial = NoSocket | Refused(fd: nat) | Accepted(fd: nat)

  /** write() of a line fails or sends nothing, or read() then returns data, end of file or an error. */
  datatype Talk = WriteFailed | ReadOk | ReadEof | ReadFailed

  /** The connection's fields, and history: sockets opened and closed, ReConnects
      entered while a descriptor was still held, Processes that ended
      DISCONNECTED, and the current and longest streak of failed connects. */
  datatype Conn = Conn(sockfd: int, status: Status, openCount: nat, closeCount: nat,
                       dropped: nat, hangups: nat, streak: nat, longest: nat)

  const FRESH := Conn(DEFAULT_SOCKFD, NEW, 0, 0, 0, 0, 0, 0)

  /** How a call ends: it returns, the program exits, or the oracle has no answer left. */
  datatype Ending<A> = Returned(conn: Conn, rest: seq<A>) | Exited(conn: Conn, rest: seq<A>) | Cut(conn: Conn)

  // ---------- The specification of each method ----------

  function DisConnect(c: Conn): Conn {
    if c.sockfd > DEFAULT_SOCKFD
    then c.(sockfd := DEFAULT_SOCKFD, status := CLOSED, closeCount := c.closeCount + 1)
    else c
  }

  function Max(a: nat, b: nat): nat { if a < b then b else a }

  function Connect(c: Conn, d: Dial): Conn {
    match d
    case NoSocket => c.(sockfd := -1)
    case Refused(fd) =>
      DisConnect(c.(sockfd := fd, openCount := c.openCount + 1, streak := c.streak + 1,
                    longest := Max(c.longest, c.streak + 1)))
        .(status := DISCONNECTED)
    case Accepted(fd) => c.(sockfd := fd, openCount := c.openCount + 1, status := CONNECTED, streak := 0)
  }

  /** The loop of ReConnect with `cnt` failures so far. */
  function Retry(c: Conn, dials: seq<Dial>, cnt: nat, max: nat): Ending<Dial>
    decreases |dials|
  {
    if dials == [] then Cut(c)
    else
      var c' := Connect(c, dials[0]);
      if dials[0].NoSocket? then Exited(c', dials[1..])
      else if c'.status == CONNECTED then Returned(c', dials[1..])
      else if cnt + 1 > max then Returned(c'.(status := CLOSED), dials[1..])
      else Retry(c', dials[1..], cnt + 1, max)
  }

  /** The state in which ReConnect enters its loop. */
  function Reconnecting(c: Conn): Conn {
    c.(status := CONNECTING, dropped := c.dropped + if c.sockfd >= 0 then 1 else 0)
  }

  function ReConnect(c: Conn, dials: seq<Dial>, max: nat): (r: Ending<Dial>)
    ensures r.Returned? ==> |r.rest| < |dials|
  {
    RetryConsumes(Reconnecting(c), dials, 0, max);
    Retry(Reconnecting(c), dials, 0, max)
  }

  function Process(c: Conn, talks: seq<Talk>): (r: Ending<Talk>)
    ensures r.Returned? ==> |r.rest| < |talks|
    decreases |talks|
  {
    if talks == [] then Cut(c)
    else match talks[0]
      case ReadOk => Process(c, talks[1..])
      case WriteFailed => Returned(c.(status := CLOSED), talks[1..])
      case _ => Returned(c.(status := DISCONNECTED, hangups := c.hangups + 1), talks[1..])
  }

  /** How Execute ends, and the answers it has not used: it returns, the program
      exits, the oracle has no answer left, or the switch takes `default` for ever. */
  datatype Outcome =
    | Done(conn: Conn, dials: seq<Dial>, talks: seq<Talk>)
    | Quit(conn: Conn, dials: seq<Dial>, talks: seq<Talk>)
    | Unfinished(conn: Conn, dials: seq<Dial>, talks: seq<Talk>)
    | Spinning(conn: Conn, dials: seq<Dial>, talks: seq<Talk>)

  function Execute(c: Conn, dials: seq<Dial>, talks: seq<Talk>, max: nat): Outcome
    decreases |dials| + |talks|
  {
    match c.status
    case NEW =>
      if dials == [] then Unfinished(c, dials, talks)
      else if dials[0].NoSocket? then Quit(Connect(c, dials[0]), dials[1..], talks)
      else Execute(Connect(c, dials[0]), dials[1..], talks, max)
    case CONNECTED =>
      (match Process(c, talks)
       case Returned(c', rest) => Execute(c', dials, rest, max)
       case Exited(c', rest) => Quit(c', dials, rest)
       case Cut(c') => Unfinished(c', dials, []))
    case DISCONNECTED =>
      (match ReConnect(c, dials, max)
       case Returned(c', rest) => Execute(c', rest, talks, max)
       case Exited(c', rest) => Quit(c', rest, talks)
       case Cut(c') => Unfinished(c', [], talks))
    case CLOSED => Done(DisConnect(c), dials, talks)
    case CONNECTING => Spinning(c, dials, talks)
  }

  lemma {:induction false} RetryConsumes(c: Conn, dials: seq<Dial>, cnt: nat, max: nat)
    ensures Retry(c, dials, cnt, max).Returned? ==> |Retry(c, dials, cnt, max).rest| < |dials|
    decreases |dials|
  {
    if dials != [] {
      RetryConsumes(Connect(c, dials[0]), dials[1..], cnt + 1, max);
    }
  }

  // ---------- The retry bound ----------

  /** ReConnect's result, from the oracle alone: if the first max + 1 answers are
      refusals it gives up after exactly these, CLOSED; otherwise the first other
      answer among them decides. It is never left undecided by max + 1 answers. */
  lemma {:induction false} ReConnectDecides(c: Conn, dials: seq<Dial>, cnt: nat, max: nat, k: nat)
    requires cnt <= max && k <= |dials|
    requires forall i :: 0 <= i < k ==> dials[i].Refused?
    ensures var r := Retry(c, dials, cnt, max);
            if k > max - cnt then
              r.Returned? && r.conn.status == CLOSED && r.conn.sockfd == DEFAULT_SOCKFD
              && r.rest == dials[max - cnt + 1..]
            else if k == |dials| then r.Cut?
            else if dials[k].Accepted? then
              r.Returned? && r.conn.status == CONNECTED && r.conn.sockfd == dials[k].fd && r.rest == dials[k + 1..]
            else dials[k].NoSocket? ==> r.Exited?
    decreases |dials|
  {
    if k > 0 && cnt < max {
      ReConnectDecides(Connect(c, dials[0]), dials[1..], cnt + 1, max, k - 1);
    }
  }

  /** Process's result, from the answers alone: it goes on as long as data comes
      back, and the first other answer decides. */
  lemma {:induction false} ProcessDecides(c: Conn, talks: seq<Talk>, k: nat)
    requires k <= |talks| && forall i :: 0 <= i < k ==> talks[i].ReadOk?
    ensures k == |talks| ==> Process(c, talks) == Cut(c)
    ensures k < |talks| && talks[k].WriteFailed? ==>
              Process(c, talks) == Returned(c.(status := CLOSED), talks[k + 1..])
    ensures k < |talks| && (talks[k].ReadEof? || talks[k].ReadFailed?) ==>
              Process(c, talks) == Returned(c.(status := DISCONNECTED, hangups := c.hangups + 1), talks[k + 1..])
    decreases |talks|
  {
    if k > 0 {
      ProcessDecides(c, talks[1..], k - 1);
    }
  }

  /** It is cut short exactly if data comes back every time. */
  lemma {:induction false} ProcessCutIff(c: Conn, talks: seq<Talk>)
    ensures Process(c, talks).Cut? <==> forall i :: 0 <= i < |talks| ==> talks[i].ReadOk?
    decreases |talks|
  {
    if talks != [] && talks[0].ReadOk? {
      ProcessCutIff(c, talks[1..]);
      assert forall i :: 1 <= i < |talks| ==> talks[i] == talks[1..][i - 1];
      assert forall i :: 0 <= i < |talks| - 1 ==> talks[1..][i] == talks[i + 1];
    }
  }

  // ---------- What Execute does with the answers ----------

  /** The first `count` connects are refused. */
  predicate RefusedThroughout(dials: seq<Dial>, count: nat) {
    |dials| >= count && forall i :: 0 <= i < count ==> dials[i].Refused?
  }

  function Opens(d: Dial): nat { if d.NoSocket? then 0 else 1 }
  function FailsToOpen(d: Dial): nat { if d.NoSocket? then 1 else 0 }
  function HangsUp(t: Talk): nat { if t.ReadEof? || t.ReadFailed? then 1 else 0 }
  function FailsToWrite(t: Talk): nat { if t.WriteFailed? then 1 else 0 }

  /** A run that went through the answers ud and ut: every socket the network gave
      is counted as opened and every conversation it ended as hung up; a socket()
      that failed ended the program, and a write that failed ended the run; a run
      returned by a failed write or by max + 1 refusals in a row; and it was left
      unfinished only for want of the answer that it needed next. */
  ghost predicate Went(c: Conn, ud: seq<Dial>, ut: seq<Talk>, r: Outcome, max: nat) {
    && r.conn.openCount == c.openCount + Sum(ud, Opens)
    && r.conn.hangups == c.hangups + Sum(ut, HangsUp)
    && Sum(ud, FailsToOpen) == (if r.Quit? then 1 else 0)
    && Sum(ut, FailsToWrite) <= 1
    && (Sum(ut, FailsToWrite) == 1 ==> r.Done?)
    && (r.Done? && c.status != CLOSED ==>
          Sum(ut, FailsToWrite) == 1 || (|ud| > max && RefusedThroughout(ud[|ud| - max - 1..], max + 1)))
    && (r.Unfinished? ==> if r.conn.status == CONNECTED then r.talks == [] else r.dials == [])
  }

  /** What one conversation uses. */
  lemma {:induction false} ProcessGoes(c: Conn, talks: seq<Talk>) returns (ut: seq<Talk>)
    ensures var r := Process(c, talks);
            && !r.Exited? && talks == ut + (if r.Returned? then r.rest else [])
            && r.conn.openCount == c.openCount && r.conn.hangups == c.hangups + Sum(ut, HangsUp)
            && Sum(ut, FailsToWrite) == (if r.Returned? && r.conn.status == CLOSED then 1 else 0)
            && (r.Returned? ==> r.conn.status == CLOSED || r.conn.status == DISCONNECTED)
            && (r.Cut? ==> r.conn.status == c.status)
    decreases |talks|
  {
    if talks == [] {
      ut := [];
    } else if talks[0].ReadOk? {
      var rest := ProcessGoes(c, talks[1..]);
      ut := [talks[0]] + rest;
    } else {
      ut := [talks[0]];
    }
  }

  /** What one ReConnect uses. */
  lemma {:induction false} RetryGoes(c: Conn, dials: seq<Dial>, cnt: nat, max: nat) returns (ud: seq<Dial>)
    requires cnt <= max && c.status != CONNECTED
    ensures var r := Retry(c, dials, cnt, max);
            && dials == ud + (if r.Cut? then [] else r.rest)
            && r.conn.openCount == c.openCount + Sum(ud, Opens) && r.conn.hangups == c.hangups
            && Sum(ud, FailsToOpen) == (if r.Exited? then 1 else 0)
            && (r.Cut? ==> r.conn.status != CONNECTED)
            && (r.Returned? ==> r.conn.status == CLOSED || r.conn.status == CONNECTED)
            && (r.Returned? && r.conn.status == CLOSED ==> |ud| == max + 1 - cnt && RefusedThroughout(ud, |ud|))
    decreases |dials|
  {
    if dials == [] {
      ud := [];
    } else if dials[0].Refused? && cnt < max {
      var rest := RetryGoes(Connect(c, dials[0]), dials[1..], cnt + 1, max);
      ud := [dials[0]] + rest;
    } else {
      ud := [dials[0]];
    }
  }

  /** A turn of the switch that does not close the connection, and the rest of the run. */
  lemma GoesOn(c: Conn, c': Conn, d: seq<Dial>, t: seq<Talk>, ud: seq<Dial>, ut: seq<Talk>, r: Outcome, max: nat)
    requires Went(c', ud, ut, r, max) && c.status != CLOSED
    requires c'.openCount == c.openCount + Sum(d, Opens) && c'.hangups == c.hangups + Sum(t, HangsUp)
    requires Sum(d, FailsToOpen) == 0
    requires if c'.status == CLOSED then
               && r.Done? && ud == [] && ut == []
               && (Sum(t, FailsToWrite) == 1 || (|d| == max + 1 && RefusedThroughout(d, max + 1)))
               && Sum(t, FailsToWrite) <= 1
             else Sum(t, FailsToWrite) == 0
    ensures Went(c, d + ud, t + ut, r, max)
  {
    SumAppend(d, ud, Opens);
    SumAppend(d, ud, FailsToOpen);
    SumAppend(t, ut, HangsUp);
    SumAppend(t, ut, FailsToWrite);
    assert Sum<Talk>([], FailsToWrite) == 0;
    hide Sum;
    if r.Done? && |ud| > max {
      assert (d + ud)[|d + ud| - max - 1..] == ud[|ud| - max - 1..];
    }
    if ud == [] {
      assert d + ud == d && d[|d|..] == [];
      if |d| == max + 1 {
        assert d[0..] == d;
      }
    }
  }

  lemma NoAnswers<A>()
    ensures forall w: A -> nat {:trigger Sum([], w)} :: Sum([], w) == 0
  {}

  lemma FirstConnect(c: Conn, d: Dial)
    ensures Sum([d], Opens) == Opens(d) && Sum([d], FailsToOpen) == FailsToOpen(d)
    ensures Connect(c, d).openCount == c.openCount + Opens(d) && Connect(c, d).hangups == c.hangups
    ensures !d.NoSocket? ==> Connect(c, d).status != CLOSED
  {}

  /** The turns with which a run ends. */
  lemma Stops(c: Conn, dials: seq<Dial>, talks: seq<Talk>, ud: seq<Dial>, ut: seq<Talk>, max: nat)
    requires match c.status
             case NEW =>
               ut == [] && if dials == [] then ud == [] else dials[0].NoSocket? && ud == [dials[0]]
             case CONNECTED =>
               && Process(c, talks).Cut? && ud == [] && Process(c, talks).conn.status == CONNECTED
               && Process(c, talks).conn.openCount == c.openCount
               && Process(c, talks).conn.hangups == c.hangups + Sum(ut, HangsUp) && Sum(ut, FailsToWrite) == 0
             case DISCONNECTED =>
               var r := ReConnect(c, dials, max);
               && !r.Returned? && ut == [] && r.conn.openCount == c.openCount + Sum(ud, Opens)
               && r.conn.hangups == c.hangups && Sum(ud, FailsToOpen) == (if r.Exited? then 1 else 0)
               && (r.Cut? ==> r.conn.status != CONNECTED)
             case _ => ud == [] && ut == []
    ensures Went(c, ud, ut, Execute(c, dials, talks, max), max)
  {
    if c.status == NEW && dials != [] {
      FirstConnect(c, dials[0]);
    }
    hide Process, ReConnect, Retry, Connect;
  }

  /** Main result on the answers: Execute goes through both lists from the front,
      leaves none out, and stops only where it has to. */
  lemma {:induction false} ExecuteGoes(c: Conn, dials: seq<Dial>, talks: seq<Talk>, max: nat)
      returns (ud: seq<Dial>, ut: seq<Talk>)
    ensures var r := Execute(c, dials, talks, max);
            dials == ud + r.dials && talks == ut + r.talks && Went(c, ud, ut, r, max)
    decreases |dials| + |talks|
  {
    hide Went, Process, Retry, Connect, Sum, RefusedThroughout;
    NoAnswers<Dial>();
    NoAnswers<Talk>();
    match c.status {
      case NEW =>
        if dials == [] || dials[0].NoSocket? {
          ud, ut := if dials == [] then [] else [dials[0]], [];
          Stops(c, dials, talks, ud, ut, max);
        } else {
          var c' := Connect(c, dials[0]);
          FirstConnect(c, dials[0]);
          var ud', ut' := ExecuteGoes(c', dials[1..], talks, max);
          ud, ut := [dials[0]] + ud', [] + ut';
          GoesOn(c, c', [dials[0]], [], ud', ut', Execute(c', dials[1..], talks, max), max);
        }
      case CONNECTED =>
        ud := [];
        ut := ProcessGoes(c, talks);
        var r := Process(c, talks);
        if r.Returned? {
          var ud', ut' := ExecuteGoes(r.conn, dials, r.rest, max);
          GoesOn(c, r.conn, [], ut, ud', ut', Execute(r.conn, dials, r.rest, max), max);
          ud, ut := [] + ud', ut + ut';
        } else {
          Stops(c, dials, talks, ud, ut, max);
        }
      case DISCONNECTED =>
        ud := RetryGoes(Reconnecting(c), dials, 0, max);
        ut := [];
        var r := ReConnect(c, dials, max);
        if r.Returned? {
          var ud', ut' := ExecuteGoes(r.conn, r.rest, talks, max);
          GoesOn(c, r.conn, ud, [], ud', ut', Execute(r.conn, r.rest, talks, max), max);
          ud, ut := ud + ud', [] + ut';
        } else {
          Stops(c, dials, talks, ud, ut, max);
        }
      case _ =>
        ud, ut := [], [];
        Stops(c, dials, talks, ud, ut, max);
    }
  }

  // ---------- Socket accounting ----------

  function Held(c: Conn): nat { if c.sockfd >= 0 then 1 else 0 }

  /** Every socket opened is closed, held, or was overwritten by a ReConnect, and
      a ReConnect overwrites one for each conversation that ended DISCONNECTED. */
  predicate Accounted(c: Conn) {
    && c.openCount == c.closeCount + Held(c) + c.dropped
    && c.hangups == c.dropped + (if c.status == DISCONNECTED then Held(c) else 0)
  }

  predicate StatusFits(c: Conn) {
    && c.sockfd >= DEFAULT_SOCKFD
    && match c.status
       case NEW => c.sockfd == DEFAULT_SOCKFD
       case CONNECTING => false
       case CONNECTED => c.sockfd >= 0
       case _ => true
  }

  predicate StreakFits(c: Conn, max: nat) {
    && c.streak <= c.longest <= max + 2
    && match c.status
       case NEW => c.streak == 0
       case CONNECTED => c.streak == 0
       case DISCONNECTED => c.streak <= 1
       case _ => true
  }

  /** What holds at the switch of Execute. */
  predicate AtSwitch(c: Conn, max: nat) {
    Accounted(c) && StatusFits(c) && StreakFits(c, max)
  }

  lemma {:induction false} ProcessKeeps(c: Conn, talks: seq<Talk>, max: nat)
    requires AtSwitch(c, max) && c.status == CONNECTED
    ensures var r := Process(c, talks);
            && !r.Exited? && r.conn.longest <= max + 2
            && (r.Returned? ==> AtSwitch(r.conn, max) && (r.conn.status == DISCONNECTED || r.conn.status == CLOSED))
            && (r.Cut? ==> r.conn == c)
    decreases |talks|
  {
    if talks != [] {
      ProcessKeeps(c, talks[1..], max);
    }
  }

  lemma {:induction false} RetryKeeps(c: Conn, dials: seq<Dial>, cnt: nat, max: nat)
    requires cnt <= max
    requires c.openCount == c.closeCount + c.dropped + (if cnt == 0 then 0 else Held(c)) && c.hangups == c.dropped
    requires c.sockfd >= DEFAULT_SOCKFD && (cnt > 0 ==> c.sockfd == DEFAULT_SOCKFD)
    requires c.streak <= c.longest <= max + 2 && c.streak <= cnt + 1
    ensures var r := Retry(c, dials, cnt, max);
            && r.conn.longest <= max + 2
            && (r.Returned? ==> AtSwitch(r.conn, max) && (r.conn.status == CONNECTED || r.conn.status == CLOSED))
    decreases |dials|
  {
    if dials != [] && dials[0].Refused? && cnt < max {
      RetryKeeps(Connect(c, dials[0]), dials[1..], cnt + 1, max);
    }
  }

  ghost predicate EndsWell(r: Outcome, max: nat) {
    && !r.Spinning?
    && r.conn.longest <= max + 2
    && (r.Done? ==> r.conn.sockfd == DEFAULT_SOCKFD && r.conn.openCount == r.conn.closeCount + r.conn.hangups)
  }

  /** One turn of the switch, case by case. */
  lemma NewTurn(c: Conn, d: Dial, max: nat)
    requires AtSwitch(c, max) && c.status == NEW
    ensures Connect(c, d).longest <= max + 2 && (!d.NoSocket? ==> AtSwitch(Connect(c, d), max))
  {}

  lemma DisconnectedTurn(c: Conn, dials: seq<Dial>, max: nat)
    requires AtSwitch(c, max) && c.status == DISCONNECTED
    ensures var r := ReConnect(c, dials, max);
            && r.conn.longest <= max + 2
            && (r.Returned? ==> AtSwitch(r.conn, max) && (r.conn.status == CONNECTED || r.conn.status == CLOSED))
  {
    RetryKeeps(Reconnecting(c), dials, 0, max);
  }

  lemma ClosedTurn(c: Conn, dials: seq<Dial>, talks: seq<Talk>, max: nat)
    requires AtSwitch(c, max)
    ensures c.status != CONNECTING && c.longest <= max + 2
    ensures c.status == CLOSED ==> EndsWell(Done(DisConnect(c), dials, talks), max)
  {}

  /** Main result: over any oracle, Execute never spins on CONNECTING, no run has
      more than max + 2 failed connects in a row, and when Execute returns no
      descriptor is held and the sockets never closed are exactly as many as the
      conversations that ended DISCONNECTED. */
  lemma {:induction false} ExecuteEndsWell(c: Conn, dials: seq<Dial>, talks: seq<Talk>, max: nat)
    requires AtSwitch(c, max)
    ensures EndsWell(Execute(c, dials, talks, max), max)
    decreases |dials| + |talks|
  {
    hide AtSwitch, Connect, DisConnect, ReConnect, Process;
    ClosedTurn(c, dials, talks, max);
    match c.status {
      case NEW =>
        if dials != [] {
          NewTurn(c, dials[0], max);
          if !dials[0].NoSocket? {
            ExecuteEndsWell(Connect(c, dials[0]), dials[1..], talks, max);
          }
        }
      case CONNECTED =>
        ProcessKeeps(c, talks, max);
        var r := Process(c, talks);
        if r.Returned? {
          ExecuteEndsWell(r.conn, dials, r.rest, max);
        }
      case DISCONNECTED =>
        DisconnectedTurn(c, dials, max);
        var r := ReConnect(c, dials, max);
        if r.Returned? {
          ExecuteEndsWell(r.conn, r.rest, talks, max);
        }
      case CLOSED =>
    }
  }

  // ---------- Which runs close every socket ----------

  /** The first answer that is not data is a failed write. */
  predicate EndsByWrite(talks: seq<Talk>) {
    talks != [] && (talks[0].WriteFailed? || (talks[0].ReadOk? && EndsByWrite(talks[1..])))
  }

  lemma {:induction false} RetryKeepsHangups(c: Conn, dials: seq<Dial>, cnt: nat, max: nat)
    ensures Retry(c, dials, cnt, max).conn.hangups == c.hangups
    decreases |dials|
  {
    if dials != [] {
      RetryKeepsHangups(Connect(c, dials[0]), dials[1..], cnt + 1, max);
    }
  }

  /** A conversation that ends closes the connection exactly if a write ends it. */
  lemma {:induction false} ProcessHangups(c: Conn, talks: seq<Talk>)
    ensures var r := Process(c, talks);
            && r.conn.hangups >= c.hangups
            && (r.Returned? && EndsByWrite(talks) ==> r.conn == c.(status := CLOSED))
            && (r.Returned? && !EndsByWrite(talks) ==> r.conn.hangups > c.hangups)
    decreases |talks|
  {
    if talks != [] {
      ProcessHangups(c, talks[1..]);
    }
  }

  /** The count of hangups never goes back. */
  lemma {:induction false} HangupsGrow(c: Conn, dials: seq<Dial>, talks: seq<Talk>, max: nat)
    ensures Execute(c, dials, talks, max).conn.hangups >= c.hangups
    decreases |dials| + |talks|
  {
    match c.status {
      case NEW =>
        if dials != [] && !dials[0].NoSocket? {
          HangupsGrow(Connect(c, dials[0]), dials[1..], talks, max);
        }
      case CONNECTED =>
        ProcessHangups(c, talks);
        var r := Process(c, talks);
        if r.Returned? {
          HangupsGrow(r.conn, dials, r.rest, max);
        }
      case DISCONNECTED =>
        RetryKeepsHangups(Reconnecting(c), dials, 0, max);
        var r := ReConnect(c, dials, max);
        if r.Returned? {
          HangupsGrow(r.conn, r.rest, talks, max);
        }
      case _ =>
    }
  }

  /** From a connection that talks: no hangup is added exactly if a write ends the conversation. */
  lemma TalkHangups(c: Conn, dials: seq<Dial>, talks: seq<Talk>, max: nat)
    requires c.status == CONNECTED && Execute(c, dials, talks, max).Done?
    ensures Execute(c, dials, talks, max).conn.hangups == c.hangups <==> EndsByWrite(talks)
  {
    ProcessHangups(c, talks);
    var r := Process(c, talks);
    hide Process, EndsByWrite;
    HangupsGrow(r.conn, dials, r.rest, max);
  }

  /** ReConnect gives up exactly if the network refuses it max + 1 times. */
  lemma {:induction false} RetryGivesUp(c: Conn, dials: seq<Dial>, cnt: nat, max: nat)
    requires cnt <= max && Retry(c, dials, cnt, max).Returned?
    ensures var r := Retry(c, dials, cnt, max);
            r.conn.status == if RefusedThroughout(dials, max + 1 - cnt) then CLOSED else CONNECTED
    decreases |dials|
  {
    if dials[0].Refused? && cnt < max {
      RetryGivesUp(Connect(c, dials[0]), dials[1..], cnt + 1, max);
      assert forall i :: 0 <= i < |dials| - 1 ==> dials[1..][i] == dials[i + 1];
    }
  }

  lemma ReconnectHangups(c: Conn, dials: seq<Dial>, talks: seq<Talk>, max: nat)
    requires c.status == DISCONNECTED && Execute(c, dials, talks, max).Done?
    ensures Execute(c, dials, talks, max).conn.hangups == c.hangups <==>
            RefusedThroughout(dials, max + 1) || EndsByWrite(talks)
  {
    var r := ReConnect(c, dials, max);
    RetryKeepsHangups(Reconnecting(c), dials, 0, max);
    RetryGivesUp(Reconnecting(c), dials, 0, max);
    hide EndsByWrite, Retry, ReConnect;
    if r.conn.status == CONNECTED {
      TalkHangups(r.conn, r.rest, talks, max);
    }
  }

  lemma NewHangups(c: Conn, dials: seq<Dial>, talks: seq<Talk>, max: nat)
    requires c.status == NEW && Execute(c, dials, talks, max).Done?
    ensures Execute(c, dials, talks, max).conn.hangups == c.hangups <==>
            RefusedThroughout(dials, max + 2) || EndsByWrite(talks)
  {
    hide EndsByWrite, ReConnect, Process;
    var c', rest := Connect(c, dials[0]), dials[1..];
    assert Execute(c, dials, talks, max) == Execute(c', rest, talks, max);
    hide Execute;
    if c'.status == CONNECTED {
      TalkHangups(c', rest, talks, max);
    } else {
      ReconnectHangups(c', rest, talks, max);
      assert RefusedThroughout(dials, max + 2) <==> RefusedThroughout(rest, max + 1) by {
        assert forall i :: 0 <= i < |rest| ==> rest[i] == dials[i + 1];
        assert forall i :: 1 <= i < |dials| ==> dials[i] == rest[i - 1];
      }
    }
  }

  lemma FreshFits(max: nat)
    ensures AtSwitch(FRESH, max)
  {}

  /** When every socket gets closed, from the network's answers alone: of the
      programs that return, those that never reach the server, and those whose
      first conversation ends by a failed write. */
  lemma LeakFreeIff(dials: seq<Dial>, talks: seq<Talk>, max: nat)
    requires Execute(FRESH, dials, talks, max).Done?
    ensures var c := Execute(FRESH, dials, talks, max).conn;
            c.openCount == c.closeCount <==> RefusedThroughout(dials, max + 2) || EndsByWrite(talks)
  {
    FreshFits(max);
    hide AtSwitch, EndsByWrite, RefusedThroughout, Execute;
    var c := FRESH;
    ExecuteEndsWell(c, dials, talks, max);
    NewHangups(c, dials, talks, max);
  }

  /** Not every socket gets closed: a conversation the server ends, a successful
      reconnection and a failed write leave the first socket open. */
  lemma FirstSocketIsNeverClosed()
    ensures var r := Execute(FRESH, [Accepted(3), Accepted(4)], [ReadEof, WriteFailed], DEFAULT_MAX_RETRIES);
            r.Done? && r.conn.openCount == 2 && r.conn.closeCount == 1 && r.conn.hangups == 1
  {
    var c1 := Connect(FRESH, Accepted(3));
    var c2 := c1.(status := DISCONNECTED, hangups := 1);
    var c3 := Connect(c2.(status := CONNECTING, dropped := 1), Accepted(4));
    var c4 := c3.(status := CLOSED);
    assert [Accepted(3), Accepted(4)][1..] == [Accepted(4)];
    assert [ReadEof, WriteFailed][1..] == [WriteFailed];
    assert Process(c1, [ReadEof, WriteFailed]) == Returned(c2, [WriteFailed]);
    assert ReConnect(c2, [Accepted(4)], DEFAULT_MAX_RETRIES) == Returned(c3, []);
    assert Process(c3, [WriteFailed]) == Returned(c4, []);
    assert Execute(c4, [], [], DEFAULT_MAX_RETRIES) == Done(DisConnect(c4), [], []);
    assert Execute(c3, [], [WriteFailed], DEFAULT_MAX_RETRIES) == Done(DisConnect(c4), [], []);
    assert Execute(c2, [Accepted(4)], [WriteFailed], DEFAULT_MAX_RETRIES) == Done(DisConnect(c4), [], []);
    assert Execute(c1, [Accepted(4)], [ReadEof, WriteFailed], DEFAULT_MAX_RETRIES) == Done(DisConnect(c4), [], []);
  }

  datatype How = Returns | Exits | Cuts

  function HowEnds<A>(end: Ending<A>): How {
    match end
    case Returned(_, _) => Returns
    case Exited(_, _) => Exits
    case Cut(_) => Cuts
  }
}
