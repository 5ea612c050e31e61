/** The multi-terminal login policy (internal/msggateway/ws_server.go:325-400): which connections
    a newcomer conflicts with, and which ones the checker removes. */
module LoginPolicy {
  import opened Common
  import opened Presence
  import Platforms

  const SAME_TERMINAL_KICK := 1
  const SAME_CLASS_KICK := 4
  const PC_AND_OTHER := 5

  /** Two connections of one user that the policy does not allow together. */
  predicate Conflicts(policy: int, p: int, q: int)
  {
    if policy == SAME_TERMINAL_KICK then p == q
    else if policy == SAME_CLASS_KICK then Platforms.ClassOf(p) == Platforms.ClassOf(q)
    else if policy == PC_AND_OTHER then !Platforms.IsPC(p) && !Platforms.IsPC(q)
    else false
  }

  ghost predicate Allowed(policy: int, clients: seq<Client>)
  {
    forall i, j :: 0 <= i < j < |clients| ==> !Conflicts(policy, clients[i].platform, clients[j].platform)
  }

  /** userMap.Get: the connections on one platform, in order. */
  function OnPlatform(clients: seq<Client>, platform: int): seq<Client>
  {
    if clients == [] then []
    else
      var last := clients[|clients| - 1];
      OnPlatform(clients[..|clients| - 1], platform) + if last.platform == platform then [last] else []
  }

  /** The checker's scan of the whole list for policies 4 and 5. */
  function Scan(policy: int, clients: seq<Client>, platform: int): seq<Client>
  {
    if clients == [] then []
    else
      var last := clients[|clients| - 1];
      Scan(policy, clients[..|clients| - 1], platform)
      + if Conflicts(policy, last.platform, platform) then [last] else []
  }

  /** Policies 4 and 5 read the user's list again. */
  predicate Scans(policy: int, platform: int)
  {
    policy == SAME_CLASS_KICK || (policy == PC_AND_OTHER && !Platforms.IsPC(platform))
  }

  /** Policy 1 trusts the caller's snapshot; the other cases without a scan remove nothing. */
  function FromSnapshot(policy: int, clientOK: bool, snapshot: seq<Client>): seq<Client>
  {
    if policy == SAME_TERMINAL_KICK && clientOK then snapshot else []
  }

  /** What the checker removes for a newcomer on `platform` if nothing falls into its scan. */
  function Victims(policy: int, clientOK: bool, snapshot: seq<Client>, clients: seq<Client>, platform: int): seq<Client>
  {
    if Scans(policy, platform) then Scan(policy, clients, platform) else FromSnapshot(policy, clientOK, snapshot)
  }

  lemma {:induction false} OnPlatformMembers(clients: seq<Client>, platform: int)
    ensures forall c :: c in OnPlatform(clients, platform) <==> c in clients && c.platform == platform
  {
    if clients != [] {
      var front, last := clients[..|clients| - 1], clients[|clients| - 1];
      OnPlatformMembers(front, platform);
      assert clients == front + [last];
    }
  }

  lemma {:induction false} OnPlatformConcat(a: seq<Client>, b: seq<Client>, platform: int)
    ensures OnPlatform(a + b, platform) == OnPlatform(a, platform) + OnPlatform(b, platform)
  {
    if b == [] {
      assert a + b == a;
    } else {
      OnPlatformConcat(a, b[..|b| - 1], platform);
      assert (a + b)[..|a + b| - 1] == a + b[..|b| - 1];
    }
  }

  lemma {:induction false} ScanMembers(policy: int, clients: seq<Client>, platform: int)
    ensures forall c :: c in Scan(policy, clients, platform)
                        <==> c in clients && Conflicts(policy, c.platform, platform)
  {
    if clients != [] {
      var front, last := clients[..|clients| - 1], clients[|clients| - 1];
      ScanMembers(policy, front, platform);
      assert clients == front + [last];
    }
  }

  lemma {:induction false} ScanConcat(policy: int, a: seq<Client>, b: seq<Client>, platform: int)
    ensures Scan(policy, a + b, platform) == Scan(policy, a, platform) + Scan(policy, b, platform)
  {
    if b == [] {
      assert a + b == a;
    } else {
      ScanConcat(policy, a, b[..|b| - 1], platform);
      assert (a + b)[..|a + b| - 1] == a + b[..|b| - 1];
    }
  }

  /** With a fresh snapshot the checker finds exactly the conflicting connections. */
  lemma {:induction false} VictimsAreConflicts(policy: int, clients: seq<Client>, platform: int)
    ensures var snapshot := OnPlatform(clients, platform);
            forall c :: c in Victims(policy, snapshot != [], snapshot, clients, platform)
                        <==> c in clients && Conflicts(policy, c.platform, platform)
  {
    OnPlatformMembers(clients, platform);
    ScanMembers(policy, clients, platform);
  }

  /** Removing connections never breaks the policy. */
  lemma {:induction false} KeepAllowed(policy: int, clients: seq<Client>, del: set<Addr>)
    requires Allowed(policy, clients)
    ensures Allowed(policy, Keep(clients, del))
  {
    if clients != [] {
      var front := clients[..|clients| - 1];
      KeepAllowed(policy, front, del);
      KeepMembers(front, del);
    }
  }

  lemma AppendAllowed(policy: int, clients: seq<Client>, c: Client)
    requires Allowed(policy, clients)
    requires forall d :: d in clients ==> !Conflicts(policy, d.platform, c.platform)
    ensures Allowed(policy, clients + [c])
  {
  }

  /** Distinct addresses. */
  ghost predicate DistinctAddrs(clients: seq<Client>)
  {
    forall i, j :: 0 <= i < j < |clients| ==> clients[i].addr != clients[j].addr
  }

  /** The connections of the list that do not conflict with a newcomer, in order. */
  function Compatible(policy: int, clients: seq<Client>, platform: int): seq<Client>
  {
    if clients == [] then []
    else
      var last := clients[|clients| - 1];
      Compatible(policy, clients[..|clients| - 1], platform)
      + if Conflicts(policy, last.platform, platform) then [] else [last]
  }

  lemma {:induction false} CompatibleMembers(policy: int, clients: seq<Client>, platform: int)
    ensures forall c :: c in Compatible(policy, clients, platform) <==> c in clients && !Conflicts(policy, c.platform, platform)
  {
    if clients != [] {
      var front, last := clients[..|clients| - 1], clients[|clients| - 1];
      CompatibleMembers(policy, front, platform);
      assert clients == front + [last];
    }
  }

  /** With distinct addresses, dropping a set of listed connections by address drops no other. */
  lemma {:induction false} KeepCompatible(policy: int, all: seq<Client>, clients: seq<Client>, victims: seq<Client>, platform: int)
    requires DistinctAddrs(all) && forall c :: c in clients ==> c in all
    requires forall c :: c in victims <==> c in all && Conflicts(policy, c.platform, platform)
    ensures Keep(clients, Addrs(victims)) == Compatible(policy, clients, platform)
  {
    if clients != [] {
      var front, last := clients[..|clients| - 1], clients[|clients| - 1];
      assert last in clients;
      assert forall c :: c in front ==> c in clients;
      KeepCompatible(policy, all, front, victims, platform);
      if last.addr in Addrs(victims) {
        var v :| v in victims && v.addr == last.addr;
        var i, j :| 0 <= i < |all| && 0 <= j < |all| && all[i] == v && all[j] == last;
        assert i == j;
      }
    }
  }
}
