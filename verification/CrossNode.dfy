/** Kicks from other nodes (internal/msggateway/hub_server.go:270-287 and ws_server.go:170-183, 325-400):
    what a login elsewhere queues, and what the loop does with it. */
module CrossNode {
  import opened Common
  import opened Presence
  import opened LoginPolicy
  import opened Gateway

  /** A login of a mapped user on another node queues one kick, behind the others, with exactly the
      user's connections on that platform at that moment; for other users nothing happens. */
  lemma RemoteLoginQueues(g: Gw, policy: int, user: UserID, platform: int)
    ensures var h := Next(g, policy, RemoteLogin(user, platform));
            && h == g.(kicks := h.kicks)
            && (user !in g.core.users.data ==> h.kicks == g.kicks)
            && (user in g.core.users.data ==>
                  |h.kicks| == |g.kicks| + 1 && h.kicks[..|g.kicks|] == g.kicks
                  && var k := h.kicks[|g.kicks|];
                     k.user == user && k.platform == platform && (k.clientOK <==> k.snapshot != [])
                     && forall c :: c in k.snapshot <==> c in g.core.users.data[user].clients && c.platform == platform)
  {
    OnPlatformMembers(Clients(g.core.users, user), platform);
  }

  /** The loop takes the first kick and carries it out on its own. */
  lemma UninterruptedKick(g: Gw, policy: int, t1: int, t2: int)
    requires Base(policy, g) && g.loop.Idle? && g.kicks != []
    ensures Base(policy, Next(g, policy, TakeKick))
    ensures var k, h := g.kicks[0], Alone(Next(g, policy, TakeKick), policy, t1, t2);
            && h.core == CheckLogin(g.core, policy, k.clientOK, k.snapshot, k.user, k.platform, t1)
            && h == g.(core := h.core, kicks := g.kicks[1..], discarded := h.discarded)
  {
    var k := g.kicks[0];
    BaseStep(policy, g, TakeKick);
    var h := Next(g, policy, TakeKick);
    AloneStep(h, policy, t1, t2);
    h := Next(h, policy, LoopCheck);
    if h.loop.Reading? {
      AloneReads(h, policy, t1, t2);
      assert h.loop.slice[0..] == h.loop.slice;
      var victims := Scan(policy, h.loop.slice, k.platform);
      assert [] + victims == victims;
      h := h.(loop := Remove(h.loop.task, victims));
    }
    AloneKicks(h, policy, t1, t2);
  }

  lemma AloneKicks(g: Gw, policy: int, t1: int, t2: int)
    requires Base(policy, g) && g.loop.Remove? && g.loop.task.CrossNode?
    ensures var h := Alone(g, policy, t1, t2);
            && h.core == RemoveAndKick(g.core, g.loop.task.u, g.loop.victims, t1)
            && h == g.(core := h.core, loop := Idle, discarded := h.discarded)
  {
    AloneStep(g, policy, t1, t2);
    var h := Next(g, policy, LoopRemove(t1));
    AloneCloses(h, policy, t1, t2);
    h := h.(core := CloseAll(h.core, h.loop.left), loop := Closing(h.loop.task, []));
    AloneStep(h, policy, t1, t2);
  }

  /** The victims are closed and nobody else, and those that were open are queued for unregistration. */
  lemma {:induction false} ClosedAre(core: Core, victims: seq<Client>)
    ensures var t := CloseAll(core, victims);
            && (forall c :: c in t.closed <==> c in core.closed || c in victims)
            && core.unregisters <= t.unregisters
            && (forall c :: c in t.unregisters <==> c in core.unregisters || (c in victims && c !in core.closed))
  {
    if victims != [] {
      var front, last := victims[..|victims| - 1], victims[|victims| - 1];
      ClosedAre(core, front);
      assert victims == front + [last];
    }
  }

  /** What changes nothing but one user's connections, and what it closes. */
  ghost predicate Kicked(core: Core, after: Core, user: UserID, kept: seq<Client>, victims: seq<Client>)
  {
    && Clients(after.users, user) == kept
    && (forall u :: u != user ==>
          (u in after.users.data <==> u in core.users.data) && (u in core.users.data ==> after.users.data[u] == core.users.data[u]))
    && (forall c :: c in after.closed <==> c in core.closed || c in victims)
    && (forall c :: c in after.unregisters <==> c in core.unregisters || (c in victims && c !in core.closed))
    && after.userNum == core.userNum && after.connNum == core.connNum
  }

  lemma RemovalKicks(core: Core, user: UserID, victims: seq<Client>, now: int)
    ensures Kicked(core, RemoveAndKick(core, user, victims, now), user, Keep(Clients(core.users, user), Addrs(victims)), victims)
  {
    ClosedAre(core.(users := Delete(core.users, user, victims, now)), victims);
    if victims == [] { KeepAll(Clients(core.users, user), Addrs(victims)); }
  }

  /** A kick from another node, taken from an idle loop and not interfered with, with distinct addresses.
      Under policies 4 and 5 (unless the newcomer is a PC under 5) exactly the connections that conflict
      with it are gone and closed, whatever the snapshot; the others stay in order. Under policy 1
      exactly the connections at an address of the snapshot are gone, and exactly those of the snapshot
      are closed. No other user changes, and neither counter. */
  lemma KickIsExact(g: Gw, policy: int, t1: int, t2: int)
    requires Base(policy, g) && g.loop.Idle? && g.kicks != []
    requires DistinctAddrs(Clients(g.core.users, g.kicks[0].user))
    ensures Base(policy, Next(g, policy, TakeKick))
    ensures var k, h := g.kicks[0], Alone(Next(g, policy, TakeKick), policy, t1, t2);
            var list := Clients(g.core.users, k.user);
            && h.loop.Idle? && h.kicks == g.kicks[1..]
            && (Scans(policy, k.platform) ==>
                  exists victims ::
                    && (forall c :: c in victims <==> c in list && Conflicts(policy, c.platform, k.platform))
                    && Kicked(g.core, h.core, k.user, Compatible(policy, list, k.platform), victims))
            && (policy == SAME_TERMINAL_KICK && k.clientOK ==>
                  Kicked(g.core, h.core, k.user, Keep(list, Addrs(k.snapshot)), k.snapshot))
            && (!Scans(policy, k.platform) && !(policy == SAME_TERMINAL_KICK && k.clientOK) ==> h.core == g.core)
  {
    var k := g.kicks[0];
    var list := Clients(g.core.users, k.user);
    var victims := Victims(policy, k.clientOK, k.snapshot, list, k.platform);
    UninterruptedKick(g, policy, t1, t2);
    RemovalKicks(g.core, k.user, victims, t1);
    if Scans(policy, k.platform) {
      ScanMembers(policy, list, k.platform);
      KeepCompatible(policy, list, list, victims, k.platform);
    }
  }
}
