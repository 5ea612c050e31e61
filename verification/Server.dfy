/** The server object of the gateway (internal/msggateway/ws_server.go:258-284, 320-416 and
    client.go:290-300, 348-356): registration, the login checker, unregistration and kicks, proved
    against module Gateway. Logging, metrics, tokens and cross-node calls are left out. */
module Server {
  import opened Common
  import opened Presence
  import opened LoginPolicy
  import opened Gateway
  import opened UserMap
  import Platforms

  class WsServer {
    const policy: int
    const clients: Users
    var onlineUserNum: int
    var onlineUserConnNum: int
    var closed: set<Client>
    var unregisters: seq<Client>

    ghost predicate Valid()
      reads this, clients, clients.Repr
    {
      clients.Valid() && this !in clients.Repr
    }

    ghost function View(): Core
      requires Valid()
      reads this, clients, clients.Repr
    {
      Core(clients.View(), onlineUserNum, onlineUserConnNum, closed, unregisters)
    }

    constructor (policy: int)
      ensures Valid() && fresh(clients) && fresh(clients.Repr) && View() == INITIAL.core && this.policy == policy
    {
      this.policy := policy;
      this.clients := new Users();
      onlineUserNum, onlineUserConnNum, closed, unregisters := 0, 0, {}, [];
    }

    /** Client.close: only the first call queues the unregistration. */
    method CloseClient(c: Client)
      requires Valid()
      modifies this
      ensures Valid() && View() == Gateway.Close(old(View()), c)
    {
      if c in closed { return; }
      closed := closed + {c};
      unregisters := unregisters + [c];
    }

    /** KickOnlineMessage to each victim, which closes it. */
    method KickAll(victims: seq<Client>)
      requires Valid()
      modifies this
      ensures Valid() && View() == CloseAll(old(View()), victims)
    {
      for i := 0 to |victims|
        invariant Valid() && View() == CloseAll(old(View()), victims[..i])
      {
        assert victims[..i + 1][..i] == victims[..i];
        CloseClient(victims[i]);
      }
      assert victims[..|victims|] == victims;
    }

    /** A removal as it changes the server. */
    method Drop(user: UserID, victims: seq<Client>, now: int) returns (gone: bool)
      requires Valid()
      modifies clients.Repr
      ensures Valid() && clients.Repr == old(clients.Repr)
      ensures View() == old(View()).(users := Delete(old(View()).users, user, victims, now))
      ensures gone == DeletesUser(old(View()).users, user, victims)
    {
      gone := clients.DeleteClients(user, victims, now);
    }

    method RemoveAndKickAll(user: UserID, victims: seq<Client>, now: int)
      requires Valid()
      modifies this, clients.Repr
      ensures Valid() && clients.Repr == old(clients.Repr)
      ensures View() == RemoveAndKick(old(View()), user, victims, now)
    {
      var _ := Drop(user, victims, now);
      KickAll(victims);
    }

    /** KickUserConn, called from outside the event loop. A slice that the loop is reading shows the
        survivors written over its front, as function Compacted says. */
    method KickUserConn(c: Client, now: int)
      requires Valid()
      modifies this, clients.Repr
      ensures Valid() && clients.Repr == old(clients.Repr)
      ensures View() == RemoveAndKick(old(View()), c.user, [c], now)
      ensures old(c.user in clients.data) ==>
                old(clients.data)[c.user].Overwrote(old(Keep(Clients(clients.View(), c.user), Addrs([c]))))
    {
      var _ := clients.DeleteClients(c.user, [c], now);
      CloseAllOne(View(), c);
      CloseClient(c);
    }

    /** The scan of policies 4 and 5: it reads the entry's own array. Nothing else runs here; what a
        removal in between does to it is the subject of module LoginRace. */
    method Conflicting(user: UserID, platform: int) returns (victims: seq<Client>)
      requires Valid()
      ensures victims == Scan(policy, Clients(clients.View(), user), platform)
    {
      var all, n, ok := clients.GetAll(user);
      victims := [];
      if ok {
        for i := 0 to n
          invariant victims == Scan(policy, all[..i], platform)
        {
          assert all[..i + 1][..i] == all[..i];
          if Conflicts(policy, all[i].platform, platform) {
            victims := victims + [all[i]];
          }
        }
      }
    }

    method MultiTerminalLoginChecker(clientOK: bool, oldClients: seq<Client>, user: UserID, platform: int, now: int)
      requires Valid()
      modifies this, clients.Repr
      ensures Valid() && clients.Repr == old(clients.Repr)
      ensures View() == CheckLogin(old(View()), policy, clientOK, oldClients, user, platform, now)
    {
      if policy == SAME_TERMINAL_KICK {
        if !clientOK {
          RemoveNobody(View(), user, now);
          return;
        }
        RemoveAndKickAll(user, oldClients, now);
      } else if policy == SAME_CLASS_KICK || (policy == PC_AND_OTHER && !Platforms.IsPC(platform)) {
        var victims := Conflicting(user, platform);
        RemoveAndKickAll(user, victims, now);
      } else {
        RemoveNobody(View(), user, now);
      }
    }

    method RegisterClient(c: Client, t1: int, t2: int)
      requires Valid()
      modifies this, clients.Repr
      ensures Valid() && fresh(clients.Repr - old(clients.Repr))
      ensures View() == Register(old(View()), policy, c, t1, t2)
    {
      var oldClients, userOK, clientOK := clients.Get(c.user, c.platform);
      if !userOK {
        Store(c, true, t2);
      } else {
        MultiTerminalLoginChecker(clientOK, oldClients, c.user, c.platform, t1);
        Store(c, false, t2);
      }
    }

    method Insert(c: Client, now: int)
      requires Valid()
      modifies clients.Repr
      ensures Valid() && fresh(clients.Repr - old(clients.Repr))
      ensures View() == old(View()).(users := Presence.Set(old(View()).users, c, now))
    {
      clients.Set(c, now);
    }

    /** Put the connection in the map and count it, and its user if that is new. */
    method Store(c: Client, newUser: bool, now: int)
      requires Valid()
      modifies this, clients.Repr
      ensures Valid() && fresh(clients.Repr - old(clients.Repr))
      ensures View() == StoreClient(old(View()), c, newUser, now)
    {
      Insert(c, now);
      if newUser {
        onlineUserNum := onlineUserNum + 1;
      }
      onlineUserConnNum := onlineUserConnNum + 1;
    }

    method UnregisterClient(c: Client, now: int)
      requires Valid()
      modifies this, clients.Repr
      ensures Valid() && clients.Repr == old(clients.Repr)
      ensures View() == Unregister(old(View()), c, now)
    {
      var gone := Drop(c.user, [c], now);
      if gone {
        onlineUserNum := onlineUserNum - 1;
      }
      onlineUserConnNum := onlineUserConnNum - 1;
    }
  }

  lemma CloseAllOne(core: Core, c: Client)
    ensures CloseAll(core, [c]) == Gateway.Close(core, c)
  {
    assert [c][..0] == [] && CloseAll(core, []) == core;
  }

  lemma RemoveNobody(core: Core, user: UserID, now: int)
    ensures RemoveAndKick(core, user, [], now) == core
  {
  }
}
