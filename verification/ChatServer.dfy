/** The classes of the chat server, one caller at a time: UserManager.hpp:12-57,
    Route.hpp:8-38 and the loop of UdpServer.hpp:71-97 with the handlers that
    ChatServerMain.cpp:36-48 registers. */
module ChatServer {
  import opened ChatProtocol

  /** What recvfrom returns. */
  datatype Datagram = Failed | Empty | Data(msg: Message)

  /** The list without the first occurrence of a. */
  function Without(users: seq<Addr>, a: Addr): seq<Addr> {
    if users == [] then []
    else if users[0] == a then users[1..]
    else [users[0]] + Without(users[1..], a)
  }

  /** On a list without duplicates, deleting a user removes it and keeps all others
      in their order; adding it again puts it last. */
  lemma {:induction false} DelUserDeletes(users: seq<Addr>, a: Addr)
    requires NoDuplicates(users)
    ensures var r := Without(users, a);
            && NoDuplicates(r) && a !in r
            && (forall u :: u in r <==> u in users && u != a)
            && |r| == |users| - (if a in users then 1 else 0)
            && AddUser(r, a) == r + [a]
            && (a in users && users[|users| - 1] == a ==> AddUser(r, a) == users)
  {
    if users != [] {
      var first, rest := users[0], users[1..];
      assert users == [first] + rest && first !in rest;
      if first != a {
        DelUserDeletes(rest, a);
        assert forall u :: u in Without(users, a) <==> u == first || u in Without(rest, a);
        assert forall u :: u in users <==> u == first || u in rest;
        if a in users && users[|users| - 1] == a {
          assert rest[|rest| - 1] == a;
          assert AddUser(Without(users, a), a) == [first] + (Without(rest, a) + [a]);
        }
      } else {
        assert forall u :: u in users <==> u == first || u in rest;
      }
    }
  }

  lemma {:induction false} WithoutAt(users: seq<Addr>, a: Addr, k: nat)
    requires k < |users| && users[k] == a && forall i :: 0 <= i < k ==> users[i] != a
    ensures Without(users, a) == users[..k] + users[k + 1..]
  {
    if k > 0 {
      WithoutAt(users[1..], a, k - 1);
    }
  }

  lemma {:induction false} WithoutAbsent(users: seq<Addr>, a: Addr)
    requires a !in users
    ensures Without(users, a) == users
  {
    if users != [] {
      WithoutAbsent(users[1..], a);
    }
  }

  /** The messages handed over by a series of datagrams. */
  function Accepted(ds: seq<Datagram>): seq<Message>
    decreases |ds|
  {
    if ds == [] then []
    else Accepted(ds[..|ds| - 1]) + if ds[|ds| - 1].Data? then [ds[|ds| - 1].msg] else []
  }

  /** How many of the datagrams carry a message. */
  function Count(ds: seq<Datagram>): nat {
    if ds == [] then 0 else (if ds[0].Data? then 1 else 0) + Count(ds[1..])
  }

  lemma {:induction false} CountSnoc(ds: seq<Datagram>, d: Datagram)
    ensures Count(ds + [d]) == Count(ds) + if d.Data? then 1 else 0
  {
    if ds != [] {
      assert (ds + [d])[1..] == ds[1..] + [d];
      CountSnoc(ds[1..], d);
    }
  }

  /** Each datagram with a message is handed over, once and in its place, and nothing else is. */
  lemma {:induction false} AcceptedInOrder(ds: seq<Datagram>)
    ensures |Accepted(ds)| == Count(ds)
    ensures forall k :: 0 <= k < |ds| && ds[k].Data? ==>
              Count(ds[..k]) < |Accepted(ds)| && Accepted(ds)[Count(ds[..k])] == ds[k].msg
    decreases |ds|
  {
    if ds != [] {
      var n := |ds| - 1;
      AcceptedInOrder(ds[..n]);
      CountSnoc(ds[..n], ds[n]);
      assert ds[..n] + [ds[n]] == ds;
      forall k | 0 <= k < |ds| && ds[k].Data?
        ensures Count(ds[..k]) < |Accepted(ds)| && Accepted(ds)[Count(ds[..k])] == ds[k].msg
      {
        if k < n {
          assert ds[..n][..k] == ds[..k];
        }
      }
    }
  }

  class UserManager {
    var users: seq<Addr>

    constructor ()
      ensures users == []
    {
      users := [];
    }

    method SearchUser(a: Addr) returns (found: bool)
      ensures found <==> a in users
    {
      for i := 0 to |users|
        invariant a !in users[..i]
      {
        if users[i] == a {
          return true;
        }
      }
      found := false;
    }

    method AddUser(a: Addr)
      modifies this
      ensures users == ChatProtocol.AddUser(old(users), a)
    {
      var found := SearchUser(a);
      if found {
        return;
      }
      users := users + [a];
    }

    method DelUser(a: Addr)
      modifies this
      ensures users == Without(old(users), a)
    {
      for i := 0 to |users|
        invariant users == old(users) && a !in users[..i]
      {
        if users[i] == a {
          WithoutAt(users, a, i);
          users := users[..i] + users[i + 1..];
          return;
        }
      }
      WithoutAbsent(users, a);
    }
  }

  class Route {
    const uma: UserManager
    var log: seq<Send>

    constructor ()
      ensures fresh(uma) && uma.users == [] && log == []
    {
      uma := new UserManager();
      log := [];
    }

    /** The loop under the lock: one contiguous block of sends, one to each user. */
    method Broadcast(msg: Message)
      modifies this
      ensures log == old(log) + Sends(msg, uma.users)
      ensures NoDuplicates(uma.users) ==>
                forall u :: Received(log, u) == Received(old(log), u) + if u in uma.users then [msg] else []
    {
      var users := uma.users;
      for k := 0 to |users|
        invariant log == old(log) + Sends(msg, users[..k])
      {
        log := log + [Send(msg, users[k])];
      }
      assert users[..|users|] == users;
      forall u | NoDuplicates(users)
        ensures Received(log, u) == Received(old(log), u) + if u in users then [msg] else []
      {
        ReceivedAppend(old(log), Sends(msg, users), u);
        ReceivedOnce(msg, users, u);
      }
    }

    method CheckUser(a: Addr)
      modifies uma
      ensures uma.users == AddUser(old(uma.users), a)
    {
      uma.AddUser(a);
    }

    method OffLineUser(a: Addr)
      modifies uma
      ensures uma.users == Without(old(uma.users), a)
    {
      uma.DelUser(a);
    }
  }

  class UdpServer {
    const route: Route
    var queue: seq<Message>

    constructor (route: Route)
      ensures this.route == route && queue == []
    {
      this.route := route;
      queue := [];
    }

    /** The receive loop over the datagrams that arrive; `queue` is what has been
        handed to the pool. Each sender is registered before its message is handed over. */
    method Loop(ds: seq<Datagram>)
      requires NoDuplicates(route.uma.users)
      requires forall m :: m in queue ==> m.from in route.uma.users
      modifies this, route.uma
      ensures route.uma.users == RegisterAll(old(route.uma.users), Accepted(ds))
      ensures queue == old(queue) + Accepted(ds)
      ensures NoDuplicates(route.uma.users) && old(route.uma.users) <= route.uma.users
      ensures forall m :: m in queue ==> m.from in route.uma.users
    {
      hide RegisterAll, Accepted, First;
      assert RegisterAll(route.uma.users, []) == route.uma.users && Accepted(ds[..0]) == [] by {
        NothingYet(route.uma.users, ds);
      }
      for i := 0 to |ds|
        invariant route.uma.users == RegisterAll(old(route.uma.users), Accepted(ds[..i]))
        invariant queue == old(queue) + Accepted(ds[..i])
      {
        AcceptedSnoc(ds, i);
        match ds[i] {
          case Failed =>
          case Empty =>
          case Data(msg) =>
            RegisterSnoc(old(route.uma.users), Accepted(ds[..i]), msg);
            route.CheckUser(msg.from);
            queue := queue + [msg];
        }
      }
      assert ds[..|ds|] == ds;
      SendersOnce(old(route.uma.users), Accepted(ds));
      forall m | m in Accepted(ds) ensures m.from in route.uma.users {
        SenderIsIn(old(route.uma.users), Accepted(ds), m);
      }
    }
  }

  lemma NothingYet(users: seq<Addr>, ds: seq<Datagram>)
    ensures RegisterAll(users, []) == users && Accepted(ds[..0]) == []
  {}

  lemma AcceptedSnoc(ds: seq<Datagram>, i: nat)
    requires i < |ds|
    ensures ds[i].Data? ==> Accepted(ds[..i + 1]) == Accepted(ds[..i]) + [ds[i].msg]
    ensures !ds[i].Data? ==> Accepted(ds[..i + 1]) == Accepted(ds[..i])
  {
    assert ds[..i + 1][..i] == ds[..i];
  }

  lemma SenderIsIn(users: seq<Addr>, msgs: seq<Message>, m: Message)
    requires NoDuplicates(users) && m in msgs
    ensures m.from in RegisterAll(users, msgs)
  {
    SendersOnce(users, msgs);
    var k :| 0 <= k < |msgs| && msgs[k] == m;
    assert First(msgs, m.from) <= k;
  }
}
