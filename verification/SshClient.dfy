/** The classes of RemoteSSH/SSH_Client.cpp:32-168, each method proved against its
    function in SshProtocol. */
module SshClient {
  import opened SshProtocol

  class ClientConnection {
    var sockfd: int
    var status: Status
    const maxRetries: nat
    ghost var openCount: nat
    ghost var closeCount: nat
    ghost var dropped: nat
    ghost var hangups: nat
    ghost var streak: nat
    ghost var longest: nat

    ghost function View(): Conn
      reads this
    {
      Conn(sockfd, status, openCount, closeCount, dropped, hangups, streak, longest)
    }

    constructor (maxRetries: nat := DEFAULT_MAX_RETRIES)
      ensures View() == FRESH && this.maxRetries == maxRetries
    {
      this.maxRetries := maxRetries;
      sockfd, status := DEFAULT_SOCKFD, NEW;
      openCount, closeCount, dropped, hangups, streak, longest := 0, 0, 0, 0, 0, 0;
    }

    /** Afterwards no descriptor is held, and one that was has been closed. */
    method DisConnect()
      modifies this
      ensures View() == SshProtocol.DisConnect(old(View()))
      ensures Held(View()) == 0 && closeCount == old(closeCount) + Held(old(View()))
    {
      if sockfd > DEFAULT_SOCKFD {
        closeCount := closeCount + 1;
        sockfd := DEFAULT_SOCKFD;
        status := CLOSED;
      }
    }

    /** exits is true when the program ends here with SOCKET_ERR. Otherwise a
        descriptor is held exactly if the connection stands, and no socket opened
        here is left open without being held. */
    method Connect(answer: Dial) returns (exits: bool)
      modifies this
      ensures View() == SshProtocol.Connect(old(View()), answer) && exits == answer.NoSocket?
      ensures !exits ==> (Held(View()) == 1 <==> status == CONNECTED) && (status == CONNECTED || status == DISCONNECTED)
      ensures openCount - closeCount == old(openCount - closeCount) + Held(View())
    {
      exits := false;
      match answer {
        case NoSocket =>
          sockfd := -1;
          exits := true;
        case Refused(fd) =>
          sockfd := fd;
          openCount := openCount + 1;
          streak, longest := streak + 1, Max(longest, streak + 1);
          DisConnect();
          status := DISCONNECTED;
        case Accepted(fd) =>
          sockfd := fd;
          openCount := openCount + 1;
          status := CONNECTED;
          streak := 0;
      }
    }

    /** Takes at most maxRetries + 1 answers and, given that many, decides. */
    method ReConnect(dials: seq<Dial>) returns (used: nat, how: How)
      modifies this
      ensures var end := SshProtocol.ReConnect(old(View()), dials, maxRetries);
              && end.conn == View() && how == HowEnds(end)
              && (end.Returned? ==> 0 < used <= |dials| && end.rest == dials[used..])
      ensures used <= maxRetries + 1
      ensures how.Returns? ==> status == CONNECTED || status == CLOSED
      ensures used <= |dials| && forall k :: 0 <= k < used - 1 ==> dials[k].Refused?
      ensures match how
              case Cuts => used == |dials| <= maxRetries && forall k :: 0 <= k < used ==> dials[k].Refused?
              case Exits => used > 0 && dials[used - 1].NoSocket?
              case Returns =>
                && used > 0
                && if dials[used - 1].Accepted? then status == CONNECTED && sockfd == dials[used - 1].fd
                   else dials[used - 1].Refused? && used == maxRetries + 1 && status == CLOSED && sockfd == -1
    {
      ghost var whole := SshProtocol.ReConnect(View(), dials, maxRetries);
      status := CONNECTING;
      if sockfd >= 0 {
        dropped := dropped + 1;
      }
      used := 0;
      var cnt: nat := 0;
      while used < |dials|
        invariant used == cnt <= maxRetries && used <= |dials|
        invariant forall k :: 0 <= k < used ==> dials[k].Refused?
        invariant whole == Retry(View(), dials[used..], cnt, maxRetries)
        decreases |dials| - used
      {
        var exits := Connect(dials[used]);
        used := used + 1;
        if exits {
          return used, Exits;
        }
        if status == CONNECTED {
          return used, Returns;
        }
        cnt := cnt + 1;
        if cnt > maxRetries {
          status := CLOSED;
          return used, Returns;
        }
      }
      how := Cuts;
    }

    method Process(talks: seq<Talk>) returns (used: nat, how: How)
      modifies this
      ensures var end := SshProtocol.Process(old(View()), talks);
              && end.conn == View() && how == HowEnds(end)
              && (end.Returned? ==> 0 < used <= |talks| && end.rest == talks[used..])
      ensures used <= |talks| && forall k :: 0 <= k < used - 1 ==> talks[k].ReadOk?
      ensures match how
              case Cuts => used == |talks| && status == old(status) && forall k :: 0 <= k < used ==> talks[k].ReadOk?
              case Exits => false
              case Returns =>
                && used > 0 && !talks[used - 1].ReadOk?
                && status == if talks[used - 1].WriteFailed? then CLOSED else DISCONNECTED
    {
      used := 0;
      while used < |talks|
        invariant used <= |talks| && View() == old(View())
        invariant forall k :: 0 <= k < used ==> talks[k].ReadOk?
        invariant SshProtocol.Process(old(View()), talks) == SshProtocol.Process(View(), talks[used..])
      {
        var answer := talks[used];
        used := used + 1;
        match answer {
          case ReadOk =>
          case WriteFailed =>
            status := CLOSED;
            return used, Returns;
          case _ =>
            status := DISCONNECTED;
            hangups := hangups + 1;
            return used, Returns;
        }
      }
      how := Cuts;
    }
  }

  class TcpClient {
    const connection: ClientConnection

    constructor ()
      ensures fresh(connection) && connection.View() == FRESH && connection.maxRetries == 5
      ensures connection.sockfd == -1 && connection.status == NEW
      ensures AtSwitch(connection.View(), connection.maxRetries)
    {
      connection := new ClientConnection();
    }

    /** The switch loop of Execute, for as long as the oracle has answers. */
    method Execute(dials: seq<Dial>, talks: seq<Talk>) returns (how: How)
      requires AtSwitch(connection.View(), connection.maxRetries)
      modifies connection
      ensures var end := SshProtocol.Execute(old(connection.View()), dials, talks, connection.maxRetries);
              && end.conn == connection.View() && EndsWell(end, connection.maxRetries)
              && how == if end.Done? then Returns else if end.Quit? then Exits else Cuts
    {
      hide AtSwitch, EndsWell, SshProtocol.Connect, SshProtocol.DisConnect, SshProtocol.ReConnect, SshProtocol.Process;
      var d, t := dials, talks;
      ghost var max := connection.maxRetries;
      ghost var whole := SshProtocol.Execute(connection.View(), dials, talks, max);
      ExecuteEndsWell(connection.View(), dials, talks, max);
      while true
        invariant AtSwitch(connection.View(), max)
        invariant whole == SshProtocol.Execute(connection.View(), d, t, max)
        decreases |d| + |t|
      {
        ghost var c := connection.View();
        ClosedTurn(c, d, t, max);
        match connection.status {
          case NEW =>
            if d == [] {
              return Cuts;
            }
            NewTurn(c, d[0], max);
            var exits := connection.Connect(d[0]);
            if exits {
              return Exits;
            }
            d := d[1..];
          case CONNECTED =>
            ProcessKeeps(c, t, max);
            var used, r := connection.Process(t);
            if r == Cuts {
              return Cuts;
            }
            t := t[used..];
          case DISCONNECTED =>
            DisconnectedTurn(c, d, max);
            var used, r := connection.ReConnect(d);
            if r != Returns {
              return r;
            }
            d := d[used..];
          case CLOSED =>
            connection.DisConnect();
            return Returns;
        }
      }
    }
  }
}
