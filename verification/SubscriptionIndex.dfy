/** The objects behind the subscription index: Client.subUserIDs and Subscription.userIDs, with the
    two phases of each operation as separate methods, proved against module Subscriptions. */
module SubscriptionIndex {
  import opened Common
  import opened Subscriptions

  class Client {
    const addr: Addr
    var subUserIDs: set<UserID>

    constructor (addr: Addr)
      ensures this.addr == addr && subUserIDs == {}
    {
      this.addr := addr;
      subUserIDs := {};
    }

    /** First phase of Sub, under the client's lock. */
    method BeginSub(adds: seq<UserID>, dels: seq<UserID>) returns (del: set<UserID>, add: set<UserID>)
      modifies this
      ensures subUserIDs == Forward(old(subUserIDs), adds, dels)
      ensures Pending(del, add) == Leftover(old(subUserIDs), adds, dels)
    {
      del, add := {}, {};
      for i := 0 to |dels|
        invariant subUserIDs == old(subUserIDs) - Elems(dels[..i])
        invariant del == old(subUserIDs) * Elems(dels[..i])
      {
        assert dels[..i + 1] == dels[..i] + [dels[i]];
        if dels[i] in subUserIDs {
          del := del + {dels[i]};
          subUserIDs := subUserIDs - {dels[i]};
        }
      }
      ghost var rest := subUserIDs;
      assert dels[..|dels|] == dels;
      for i := 0 to |adds|
        invariant subUserIDs == rest + Elems(adds[..i])
        invariant del == old(subUserIDs) * Elems(dels) - Elems(adds[..i])
        invariant add == Elems(adds[..i]) - rest
      {
        assert adds[..i + 1] == adds[..i] + [adds[i]];
        del := del - {adds[i]};
        if adds[i] !in subUserIDs {
          subUserIDs := subUserIDs + {adds[i]};
          add := add + {adds[i]};
        }
      }
      assert adds[..|adds|] == adds;
    }

    /** First phase of DelClient: take everything out. */
    method BeginDel() returns (del: set<UserID>)
      modifies this
      ensures subUserIDs == {} && del == old(subUserIDs)
    {
      del := subUserIDs;
      var left := del;
      while left != {}
        invariant left <= del && subUserIDs == left
      {
        var u :| u in left;
        subUserIDs := subUserIDs - {u};
        left := left - {u};
      }
    }
  }

  class Subscription {
    var userIDs: map<UserID, map<Addr, Client>>

    /** Every subscriber is filed under its own address, and no entry is empty. */
    ghost predicate Valid()
      reads this
    {
      forall u :: u in userIDs ==>
        userIDs[u] != map[] && forall a :: a in userIDs[u] ==> userIDs[u][a].addr == a
    }

    ghost function View(): (rev: Reverse)
      reads this
    {
      Files(userIDs)
    }

    constructor ()
      ensures Valid() && View() == map[]
    {
      userIDs := map[];
    }

    /** One deletion of the second phase. */
    method RemoveOne(user: UserID, addr: Addr)
      requires Valid()
      modifies this
      ensures Valid() && View() == RemoveAddr(old(View()), addr, {user})
    {
      RemoveAddrOne(View(), addr, user);
      if user in userIDs {
        var clients := userIDs[user] - {addr};
        FilesUpdate(userIDs, user, clients);
        FilesRemove(userIDs, user);
        assert clients.Keys == View()[user] - {addr};
        if clients == map[] {
          userIDs := userIDs - {user};
        } else {
          userIDs := userIDs[user := clients];
        }
      }
    }

    /** One addition of the second phase. */
    method AddOne(user: UserID, client: Client)
      requires Valid()
      modifies this
      ensures Valid() && View() == AddAddr(old(View()), client.addr, {user})
    {
      var clients: map<Addr, Client> := if user in userIDs then userIDs[user] else map[];
      ghost var before := View();
      var grown := clients[client.addr := client];
      FilesUpdate(userIDs, user, grown);
      AddAddrOne(before, client.addr, user);
      assert grown.Keys == Subscribers(before, user) + {client.addr};
      userIDs := userIDs[user := grown];
    }

    /** First loop of the second phase. */
    method RemoveEach(del: set<UserID>, addr: Addr)
      requires Valid()
      modifies this
      ensures Valid() && View() == RemoveAddr(old(View()), addr, del)
    {
      ghost var start := View();
      RemoveNothing(start, addr);
      var left := del;
      ghost var done := {};
      while left != {}
        invariant done + left == del && done !! left && Valid()
        invariant View() == RemoveAddr(start, addr, done)
      {
        var u :| u in left;
        RemoveMore(start, addr, done, u);
        RemoveOne(u, addr);
        left, done := left - {u}, done + {u};
      }
      assert done == del;
    }

    /** Second loop of the second phase. */
    method AddEach(add: set<UserID>, client: Client)
      requires Valid()
      modifies this
      ensures Valid() && View() == AddAddr(old(View()), client.addr, add)
    {
      ghost var start := View();
      AddNothing(start, client.addr);
      var left := add;
      ghost var done := {};
      while left != {}
        invariant done + left == add && done !! left && Valid()
        invariant View() == AddAddr(start, client.addr, done)
      {
        var u :| u in left;
        AddMore(start, client.addr, done, u);
        AddOne(u, client);
        left, done := left - {u}, done + {u};
      }
      assert done == add;
    }

    /** Second phase, under the server's lock. */
    method Commit(client: Client, del: set<UserID>, add: set<UserID>)
      requires Valid()
      modifies this
      ensures Valid() && View() == Subscriptions.Commit(old(View()), client.addr, Pending(del, add))
    {
      RemoveEach(del, client.addr);
      AddEach(add, client);
    }

    method Sub(client: Client, adds: seq<UserID>, dels: seq<UserID>)
      requires Valid()
      modifies this, client
      ensures Valid()
      ensures client.subUserIDs == Forward(old(client.subUserIDs), adds, dels)
      ensures View() == Subscriptions.Commit(old(View()), client.addr, Leftover(old(client.subUserIDs), adds, dels))
    {
      var del, add := client.BeginSub(adds, dels);
      if del + add == {} {
        CommitNothing(View(), client.addr);
      } else {
        Commit(client, del, add);
      }
    }

    method DelClient(client: Client)
      requires Valid()
      modifies this, client
      ensures Valid() && client.subUserIDs == {}
      ensures View() == Subscriptions.Commit(old(View()), client.addr, Pending(old(client.subUserIDs), {}))
    {
      var del := client.BeginDel();
      if del == {} {
        CommitNothing(View(), client.addr);
      } else {
        Commit(client, del, {});
      }
    }

    /** Exactly the subscribers of the user, each once, in any order. */
    method GetClient(user: UserID) returns (clients: seq<Client>)
      requires Valid()
      ensures Addrs(clients) == Subscribers(View(), user) && |clients| == |Subscribers(View(), user)|
    {
      clients := [];
      if user !in userIDs { return; }
      var left := userIDs[user].Keys;
      while left != {}
        invariant left <= userIDs[user].Keys && |clients| + |left| == |userIDs[user].Keys|
        invariant Addrs(clients) == userIDs[user].Keys - left
      {
        var a :| a in left;
        AddrsAppend(clients, userIDs[user][a]);
        clients := clients + [userIDs[user][a]];
        left := left - {a};
      }
    }
  }

  /** The addresses filed under each user. */
  ghost function Files(userIDs: map<UserID, map<Addr, Client>>): Reverse
  {
    map u | u in userIDs :: userIDs[u].Keys
  }

  lemma FilesUpdate(userIDs: map<UserID, map<Addr, Client>>, user: UserID, clients: map<Addr, Client>)
    ensures Files(userIDs[user := clients]) == Files(userIDs)[user := clients.Keys]
  {
  }

  lemma FilesRemove(userIDs: map<UserID, map<Addr, Client>>, user: UserID)
    ensures Files(userIDs - {user}) == Files(userIDs) - {user}
  {
  }

  lemma RemoveAddrOne(rev: Reverse, addr: Addr, user: UserID)
    ensures RemoveAddr(rev, addr, {user})
            == if user !in rev then rev
               else if rev[user] - {addr} == {} then rev - {user}
               else rev[user := rev[user] - {addr}]
  {
  }

  lemma AddAddrOne(rev: Reverse, addr: Addr, user: UserID)
    ensures AddAddr(rev, addr, {user}) == rev[user := Subscribers(rev, user) + {addr}]
  {
  }

  ghost function Addrs(clients: seq<Client>): set<Addr>
  {
    set c | c in clients :: c.addr
  }

  lemma AddrsAppend(clients: seq<Client>, c: Client)
    ensures Addrs(clients + [c]) == Addrs(clients) + {c.addr}
  {
    assert c in clients + [c];
    assert forall d :: d in clients ==> d in clients + [c];
  }

  // ---- The loops' steps -----------------------------------------------------------------------------

  lemma RemoveNothing(rev: Reverse, addr: Addr)
    ensures RemoveAddr(rev, addr, {}) == rev
  {
  }

  lemma AddNothing(rev: Reverse, addr: Addr)
    ensures AddAddr(rev, addr, {}) == rev
  {
  }

  lemma RemoveMore(rev: Reverse, addr: Addr, done: set<UserID>, user: UserID)
    requires user !in done
    ensures RemoveAddr(RemoveAddr(rev, addr, done), addr, {user}) == RemoveAddr(rev, addr, done + {user})
  {
  }

  lemma AddMore(rev: Reverse, addr: Addr, done: set<UserID>, user: UserID)
    requires user !in done
    ensures AddAddr(AddAddr(rev, addr, done), addr, {user}) == AddAddr(rev, addr, done + {user})
  {
  }

  lemma CommitNothing(rev: Reverse, addr: Addr)
    ensures Subscriptions.Commit(rev, addr, Pending({}, {})) == rev
  {
    RemoveNothing(rev, addr);
    AddNothing(rev, addr);
  }
}
