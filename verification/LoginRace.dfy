/** A kick from outside that falls into the login checker's scan (internal/msggateway/ws_server.go:
    351-359, 386-397 against 320-323 and user_map.go:146-155). The scan reads, without the map's
    lock, a slice of the array that the kick compacts: what the kick moves to the left, over the
    place the scan is about to read, the scan never sees. */
module LoginRace {
  import opened Common
  import opened Presence
  import opened LoginPolicy
  import opened Gateway
  import Counters
  import Platforms

  // ---- When a kick makes the scan miss a connection ---------------------------------------------------

  /** The kicked connection has been read, and the next one to be read is not the last of the list
      and conflicts with the newcomer. */
  ghost predicate NextIsSkipped(policy: int, g: Gw, c: Client)
  {
    && SharesArray(g.core.users, g.loop, c.user) && g.loop.task.NewClient?
    && var list, next := g.core.users.data[c.user].clients, g.loop.next;
       && (exists q :: 0 <= q < next && q < |list| && list[q].addr == c.addr)
       && next + 1 < |list| && Conflicts(policy, list[next].platform, g.loop.task.c.platform)
  }

  /** Every connection ever accepted has its own address. */
  ghost predicate OwnAddrs(g: Gw)
  {
    forall c, d :: c in g.accepted && d in g.accepted && c.addr == d.addr ==> c == d
  }

  /** What is left to read of the list is not picked yet, and behind the list the slice shows of its
      connections only the last. */
  ghost predicate Orderly(g: Gw)
  {
    forall u :: SharesArray(g.core.users, g.loop, u) ==>
      InOrder(g.core.users.data[u].clients, g.loop.slice, g.loop.next, g.loop.picked)
  }

  ghost predicate InOrder(list: seq<Client>, slice: seq<Client>, next: nat, picked: seq<Client>)
  {
    && (forall p :: next <= p < |list| ==> list[p].addr !in Addrs(picked))
    && (forall j :: |list| <= j < |slice| && slice[j] in list ==> slice[j] == list[|list| - 1])
  }

  /** The list without its connection at position q, and what the slice shows after that removal: up
      to the list's end everything behind q is one place further left, the rest is as it was. */
  function Without(list: seq<Client>, q: nat): (kept: seq<Client>)
    requires q < |list|
    ensures |kept| == |list| - 1
    ensures forall j :: 0 <= j < |kept| ==> kept[j] == if j < q then list[j] else list[j + 1]
  {
    list[..q] + list[q + 1..]
  }

  lemma ShownAfter(list: seq<Client>, slice: seq<Client>, q: nat)
    requires q < |list| && list <= slice
    ensures var now := Overwritten(slice, Without(list, q));
            forall j {:trigger now[j]} :: 0 <= j < |slice| ==> now[j] == if q <= j < |list| - 1 then slice[j + 1] else slice[j]
  {
  }

  lemma AddrOfOne(c: Client)
    ensures Addrs([c]) == {c.addr}
  {
    assert [c][0] == c;
  }

  /** With distinct addresses, removing an address removes the one connection that has it. */
  lemma {:induction false} KeepButOne(list: seq<Client>, q: nat)
    requires DistinctAddrs(list) && q < |list|
    ensures Keep(list, {list[q].addr}) == Without(list, q)
  {
    var front, last := list[..|list| - 1], list[|list| - 1];
    if q == |list| - 1 {
      KeepAll(front, {last.addr});
    } else {
      KeepButOne(front, q);
      assert Without(list, q) == Without(front, q) + [last];
    }
  }

  lemma InOrderAfterKick(list: seq<Client>, slice: seq<Client>, next: nat, picked: seq<Client>, q: nat)
    requires DistinctAddrs(list) && q < |list| && list <= slice && InOrder(list, slice, next, picked)
    ensures InOrder(Without(list, q), Overwritten(slice, Without(list, q)), next, picked)
  {
    var kept := Without(list, q);
    var now := Overwritten(slice, kept);
    ShownAfter(list, slice, q);
    forall j | |kept| <= j < |slice| && now[j] in kept ensures now[j] == kept[|kept| - 1] {
      var x :| 0 <= x < |kept| && kept[x] == slice[j];
      var y := if x < q then x else x + 1;
      assert list[y] == slice[j] && y != q;
      assert slice[j] == list[|list| - 1] by {
        if j == |list| - 1 { assert slice[j] == list[j]; } else { assert slice[j] in list; }
      }
    }
  }

  /** With distinct addresses, a kick of the connection at position q, its compaction in one step, takes
      a connection out of the scan's sight exactly when q has been read and the next one to be read is
      not the last. */
  lemma SkippedExactly(list: seq<Client>, slice: seq<Client>, next: nat, picked: seq<Client>, q: nat, d: Client)
    requires DistinctAddrs(list) && q < |list| && list <= slice && next <= |slice| && InOrder(list, slice, next, picked)
    ensures (d in Without(list, q) && d.addr !in Addrs(picked) && d in slice[next..]
             && d !in Overwritten(slice, Without(list, q))[next..])
            <==> q < next && next + 1 < |list| && d == list[next]
  {
    var kept := Without(list, q);
    var now := Overwritten(slice, kept);
    ShownAfter(list, slice, q);
    if d in kept && d in slice[next..] && d !in now[next..] {
      OutOfSight(list, slice, next, now, q, d);
    }
    if q < next && next + 1 < |list| && d == list[next] {
      assert kept[next - 1] == d && slice[next..][0] == d;
      StaysHidden(list, slice, next, now, q);
    }
  }

  lemma OutOfSight(list: seq<Client>, slice: seq<Client>, next: nat, now: seq<Client>, q: nat, d: Client)
    requires DistinctAddrs(list) && q < |list| && list <= slice && next <= |slice| == |now|
    requires forall j {:trigger now[j]} :: 0 <= j < |slice| ==> now[j] == if q <= j < |list| - 1 then slice[j + 1] else slice[j]
    requires d in slice[next..] && d !in now[next..] && d in Without(list, q)
    ensures q < next && next + 1 < |list| && d == list[next]
  {
    var p :| next <= p < |slice| && slice[p] == d;
    var x :| 0 <= x < |list| - 1 && Without(list, q)[x] == d;
    InTail(now, next, p);
    assert q <= p < |list| - 1;
    assert p == if x < q then x else x + 1;
    if p > next { InTail(now, next, p - 1); }
  }

  lemma StaysHidden(list: seq<Client>, slice: seq<Client>, next: nat, now: seq<Client>, q: nat)
    requires DistinctAddrs(list) && list <= slice && q < next && next + 1 < |list| && |now| == |slice|
    requires forall j {:trigger now[j]} :: 0 <= j < |slice| ==> now[j] == if q <= j < |list| - 1 then slice[j + 1] else slice[j]
    requires forall j :: |list| <= j < |slice| && slice[j] in list ==> slice[j] == list[|list| - 1]
    ensures list[next] !in now[next..]
  {
    forall j | next <= j < |slice| ensures now[j] != list[next] {
      if j >= |list| {
        assert slice[j] in list ==> slice[j] == list[|list| - 1];
      } else if j == |list| - 1 {
        assert slice[j] == list[j];
      } else {
        assert slice[j + 1] == list[j + 1];
      }
    }
  }

  // ---- In every run -------------------------------------------------------------------------------------

  lemma DistinctLists(g: Gw)
    requires Counters.Inv(g) && OwnAddrs(g)
    ensures forall u :: DistinctAddrs(Clients(g.core.users, u))
  {
    forall u, i, j | 0 <= i < j < |Clients(g.core.users, u)|
      ensures Clients(g.core.users, u)[i].addr != Clients(g.core.users, u)[j].addr
    {
      var cs := Clients(g.core.users, u);
      Counters.ClientsAreMapped(g.core.users, u);
      assert cs[i] in cs && cs[j] in cs && cs[i] != cs[j];
    }
  }

  /** One kick, whoever it is for, leaves the scan in order. */
  lemma KickInOrder(policy: int, g: Gw, c: Client, now: int)
    requires Base(policy, g) && Orderly(g) && Enabled(g, OutsideKick(c, now))
    requires forall u :: DistinctAddrs(Clients(g.core.users, u))
    ensures Orderly(Next(g, policy, OutsideKick(c, now)))
  {
    if SharesArray(g.core.users, g.loop, c.user) {
      var list := Clients(g.core.users, c.user);
      KeptInOrder(list, g.loop.slice, g.loop.next, g.loop.picked, c);
      assert Delete(g.core.users, c.user, [c], now).data.Keys <= g.core.users.data.Keys;
    }
  }

  /** A removal by address takes out one connection of the list or none. */
  lemma KeptIs(list: seq<Client>, c: Client) returns (q: nat)
    requires DistinctAddrs(list)
    ensures q <= |list| && Keep(list, Addrs([c])) == if q < |list| then Without(list, q) else list
    ensures q < |list| ==> list[q].addr == c.addr
    ensures q == |list| ==> forall x :: x in list ==> x.addr != c.addr
  {
    AddrOfOne(c);
    if x :| 0 <= x < |list| && list[x].addr == c.addr {
      q := x;
      KeepButOne(list, q);
    } else {
      q := |list|;
      KeepAll(list, {c.addr});
    }
  }

  lemma KeptInOrder(list: seq<Client>, slice: seq<Client>, next: nat, picked: seq<Client>, c: Client)
    requires DistinctAddrs(list) && list <= slice && InOrder(list, slice, next, picked)
    ensures InOrder(Keep(list, Addrs([c])), Overwritten(slice, Keep(list, Addrs([c]))), next, picked)
  {
    var q := KeptIs(list, c);
    if q < |list| {
      InOrderAfterKick(list, slice, next, picked, q);
    } else {
      NothingOverwritten(list, slice);
    }
  }

  lemma NothingOverwritten(list: seq<Client>, slice: seq<Client>)
    requires list <= slice
    ensures Overwritten(slice, list) == slice
  {
  }

  lemma ReadInOrder(policy: int, g: Gw)
    requires Base(policy, g) && Orderly(g) && Enabled(g, LoopRead)
    requires forall u :: DistinctAddrs(Clients(g.core.users, u))
    ensures Orderly(Next(g, policy, LoopRead))
  {
    var u := g.loop.task.User();
    if u in g.core.users.data {
      var list, next := Clients(g.core.users, u), g.loop.next;
      assert next < |list| ==> g.loop.slice[next] == list[next];
    }
  }

  lemma OrderlyStep(policy: int, g: Gw, e: Event)
    requires Base(policy, g) && Orderly(g) && Enabled(g, e)
    requires forall u :: DistinctAddrs(Clients(g.core.users, u))
    ensures Orderly(Next(g, policy, e))
  {
    match e
    case OutsideKick(c, now) => KickInOrder(policy, g, c, now);
    case LoopRead => ReadInOrder(policy, g);
    case Report(users) => assert forall u :: Clients(users, u) == Clients(g.core.users, u);
    case _ =>
  }

  lemma {:induction false} OrderlyHolds(policy: int, run: seq<Gw>, events: seq<Event>, k: nat)
    requires IsRun(policy, run, events) && k < |run| && OwnAddrs(run[k])
    ensures Orderly(run[k])
  {
    if k > 0 {
      assert run[k - 1 + 1] == Next(run[k - 1], policy, events[k - 1]);
      assert run[k - 1].accepted <= run[k].accepted;
      OrderlyHolds(policy, run, events, k - 1);
      BaseHolds(policy, run, events, k - 1);
      Counters.RunKeeps(policy, run, events, k - 1);
      DistinctLists(run[k - 1]);
      OrderlyStep(policy, run[k - 1], events[k - 1]);
    }
  }

  /** In every run with distinct addresses, a kick from outside makes the scan miss a connection if
      and only if it removes one that has been read while the next to be read, not being the last of
      the list, conflicts with the newcomer. */
  lemma MissesExactly(policy: int, run: seq<Gw>, events: seq<Event>, k: nat, c: Client, now: int)
    requires IsRun(policy, run, events) && k < |run| && OwnAddrs(run[k])
    ensures Misses(policy, run[k], OutsideKick(c, now)) <==> NextIsSkipped(policy, run[k], c)
  {
    BaseHolds(policy, run, events, k);
    OrderlyHolds(policy, run, events, k);
    Counters.RunKeeps(policy, run, events, k);
    DistinctLists(run[k]);
    if SharesArray(run[k].core.users, run[k].loop, c.user) && run[k].loop.task.NewClient? {
      OneKickMisses(policy, run[k], c, now);
    }
  }

  lemma HiddenExactly(policy: int, g: Gw, c: Client, q: nat, d: Client)
    requires Base(policy, g) && Orderly(g) && SharesArray(g.core.users, g.loop, c.user) && g.loop.task.NewClient?
    requires var list := g.core.users.data[c.user].clients; DistinctAddrs(list) && q < |list| && list[q].addr == c.addr
    ensures var list, next := g.core.users.data[c.user].clients, g.loop.next;
            Hidden(policy, g, c, d)
            <==> q < next && next + 1 < |list| && d == list[next] && Conflicts(policy, d.platform, g.loop.task.c.platform)
  {
    AddrOfOne(c);
    KeepButOne(g.core.users.data[c.user].clients, q);
    SkippedExactly(g.core.users.data[c.user].clients, g.loop.slice, g.loop.next, g.loop.picked, q, d);
  }

  lemma NothingHidden(policy: int, g: Gw, c: Client, d: Client)
    requires Base(policy, g) && SharesArray(g.core.users, g.loop, c.user) && g.loop.task.NewClient?
    requires forall x :: x in g.core.users.data[c.user].clients ==> x.addr != c.addr
    ensures !Hidden(policy, g, c, d)
  {
    AddrOfOne(c);
    KeepAll(g.core.users.data[c.user].clients, {c.addr});
    NothingOverwritten(g.core.users.data[c.user].clients, g.loop.slice);
  }

  lemma OneKickMisses(policy: int, g: Gw, c: Client, now: int)
    requires Base(policy, g) && Orderly(g) && SharesArray(g.core.users, g.loop, c.user) && g.loop.task.NewClient?
    requires DistinctAddrs(g.core.users.data[c.user].clients)
    ensures Misses(policy, g, OutsideKick(c, now)) <==> NextIsSkipped(policy, g, c)
  {
    var list, next := g.core.users.data[c.user].clients, g.loop.next;
    if q :| 0 <= q < |list| && list[q].addr == c.addr {
      forall d { HiddenExactly(policy, g, c, q, d); }
      assert next + 1 < |list| ==> (Hidden(policy, g, c, list[next]) <==> NextIsSkipped(policy, g, c));
    } else {
      forall d { NothingHidden(policy, g, c, d); }
    }
  }

  // ---- What becomes of it -------------------------------------------------------------------------------

  lemma {:induction false} AlonePolicy(policy: int, g: Gw, t1: int, t2: int)
    requires Base(policy, g) && PolicyInv(policy, g)
    ensures PolicyInv(policy, Alone(g, policy, t1, t2))
    decreases Stage(g.loop), Work(g)
  {
    if !g.loop.Idle? {
      PolicyStep(policy, g, OwnStep(g, t1, t2));
      AloneStep(g, policy, t1, t2);
      AlonePolicy(policy, Next(g, policy, OwnStep(g, t1, t2)), t1, t2);
    }
  }

  /** The user's list when the loop has finished reading on its own and stored its newcomer. */
  lemma FinishedList(policy: int, g: Gw, t1: int, t2: int)
    requires Base(policy, g) && g.loop.Reading? && g.loop.task.NewClient?
    ensures var c := g.loop.task.c;
            var victims := g.loop.picked + Scan(policy, g.loop.slice[g.loop.next..], c.platform);
            Clients(Alone(g, policy, t1, t2).core.users, c.user) == Keep(Clients(g.core.users, c.user), Addrs(victims)) + [c]
  {
    var c := g.loop.task.c;
    var victims := g.loop.picked + Scan(policy, g.loop.slice[g.loop.next..], c.platform);
    AloneReads(g, policy, t1, t2);
    AloneRemoves(g.(loop := Remove(g.loop.task, victims)), policy, t1, t2);
    if victims == [] { KeepAll(Clients(g.core.users, c.user), Addrs(victims)); }
  }

  lemma NotPicked(policy: int, g: Gw, d: Client)
    requires Counters.Inv(g) && OwnAddrs(g) && g.loop.Reading? && g.loop.next <= |g.loop.slice|
    requires d in g.registered && d.addr !in Addrs(g.loop.picked) && d !in g.loop.slice[g.loop.next..]
    ensures d.addr !in Addrs(g.loop.picked + Scan(policy, g.loop.slice[g.loop.next..], g.loop.task.Platform()))
  {
    ScanMembers(policy, g.loop.slice[g.loop.next..], g.loop.task.Platform());
    forall e | e in Scan(policy, g.loop.slice[g.loop.next..], g.loop.task.Platform()) ensures e.addr != d.addr {
      assert e in g.loop.slice[g.loop.next..] && e in g.loop.slice;
    }
  }

  /** A connection that is neither picked nor shown any more is still there, next to the newcomer,
      when the loop is done. */
  lemma UnseenStays(policy: int, g: Gw, d: Client, t1: int, t2: int)
    requires Base(policy, g) && Counters.Inv(g) && OwnAddrs(g) && g.loop.Reading? && g.loop.task.NewClient?
    requires d in Clients(g.core.users, g.loop.task.c.user) && Conflicts(policy, d.platform, g.loop.task.c.platform)
    requires d.addr !in Addrs(g.loop.picked) && d !in g.loop.slice[g.loop.next..]
    ensures var list := Clients(Alone(g, policy, t1, t2).core.users, g.loop.task.c.user);
            d in list && list != [] && list[|list| - 1] == g.loop.task.c && !Allowed(policy, list)
  {
    var list, c := Clients(g.core.users, g.loop.task.c.user), g.loop.task.c;
    assert d in Counters.Mapped(g.core.users);
    NotPicked(policy, g, d);
    FinishedList(policy, g, t1, t2);
    var victims := g.loop.picked + Scan(policy, g.loop.slice[g.loop.next..], c.platform);
    KeepMembers(list, Addrs(victims));
    var kept := Keep(list, Addrs(victims));
    var i :| 0 <= i < |kept| && kept[i] == d;
    assert (kept + [c])[i] == d && (kept + [c])[|kept|] == c;
  }

  lemma OutOfSightNow(policy: int, g: Gw, c: Client, now: int, d: Client)
    requires Base(policy, g) && Enabled(g, OutsideKick(c, now))
    requires SharesArray(g.core.users, g.loop, c.user) && g.loop.task.NewClient? && Hidden(policy, g, c, d)
    ensures var h := Next(g, policy, OutsideKick(c, now));
            && h.loop.Reading? && h.loop.task == g.loop.task && h.loop.picked == g.loop.picked && h.loop.next == g.loop.next
            && |h.loop.slice| == |g.loop.slice| && d !in h.loop.slice[h.loop.next..]
            && d in Clients(h.core.users, c.user) && h.accepted == g.accepted
  {
  }

  /** A connection the scan misses is still there, next to the newcomer, when the loop is done. */
  lemma MissedStays(policy: int, g: Gw, c: Client, now: int, d: Client, t1: int, t2: int)
    requires Base(policy, g) && Counters.Inv(g) && OwnAddrs(g) && Enabled(g, OutsideKick(c, now))
    requires SharesArray(g.core.users, g.loop, c.user) && g.loop.task.NewClient? && Hidden(policy, g, c, d)
    ensures Base(policy, Next(g, policy, OutsideKick(c, now)))
    ensures var list := Clients(Alone(Next(g, policy, OutsideKick(c, now)), policy, t1, t2).core.users, c.user);
            d in list && !Allowed(policy, list)
  {
    BaseStep(policy, g, OutsideKick(c, now));
    Counters.StepKeeps(g, policy, OutsideKick(c, now));
    OutOfSightNow(policy, g, c, now, d);
    UnseenStays(policy, Next(g, policy, OutsideKick(c, now)), d, t1, t2);
  }

  /** In every run with distinct addresses, so far without a miss: if a kick from outside falls into
      the scan for a newcomer and nothing else does, the user ends with connections the policy
      forbids together if and only if the kicked connection has been read while the next to be read,
      not being the last of the list, conflicts with the newcomer. */
  lemma KickInScanDecides(policy: int, run: seq<Gw>, events: seq<Event>, k: nat, c: Client, now: int, t1: int, t2: int)
    requires IsRun(policy, run, events) && k < |run| && OwnAddrs(run[k]) && MissesNothing(policy, run, events, k)
    requires run[k].loop.Reading? && run[k].loop.task.NewClient? && Enabled(run[k], OutsideKick(c, now))
    ensures Base(policy, Next(run[k], policy, OutsideKick(c, now)))
    ensures Allowed(policy, Clients(Alone(Next(run[k], policy, OutsideKick(c, now)), policy, t1, t2).core.users,
                                    run[k].loop.task.c.user))
            <==> !NextIsSkipped(policy, run[k], c)
  {
    var g, e := run[k], OutsideKick(c, now);
    PolicyHolds(policy, run, events, k);
    BaseStep(policy, g, e);
    MissesExactly(policy, run, events, k, c, now);
    if Misses(policy, g, e) {
      Counters.RunKeeps(policy, run, events, k);
      var d :| Hidden(policy, g, c, d);
      MissedStays(policy, g, c, now, d, t1, t2);
    } else {
      PolicyStep(policy, g, e);
      AlonePolicy(policy, Next(g, policy, e), t1, t2);
    }
  }

  // ---- Any number of kicks in one scan --------------------------------------------------------------------

  /** The step is a kick that takes d out of the scan's sight. */
  ghost predicate Hides(policy: int, g: Gw, e: Event, d: Client)
  {
    && e.OutsideKick? && SharesArray(g.core.users, g.loop, e.c.user)
    && g.loop.task.NewClient? && g.loop.next <= |g.loop.slice| && Hidden(policy, g, e.c, d)
  }

  /** The loop is at the newcomer c, and will remove d unless d was hidden. */
  ghost predicate Known(g: Gw, c: Client, d: Client, hidden: bool)
  {
    match g.loop
    case Reading(t, slice, next, picked) =>
      t == NewClient(c) && next <= |slice| && (hidden || d.addr in Addrs(picked) || d in slice[next..])
    case Remove(t, victims) => t == NewClient(c) && (hidden || d.addr in Addrs(victims))
    case Closing(t, _) => t == NewClient(c) && hidden
    case Store(x, _) => x == c && hidden
    case _ => false
  }

  lemma KnownRead(policy: int, g: Gw, c: Client, d: Client, hidden: bool)
    requires Enabled(g, LoopRead) && Known(g, c, d, hidden) && Conflicts(policy, d.platform, c.platform)
    ensures Known(Next(g, policy, LoopRead), c, d, hidden)
  {
    var h, x := Next(g, policy, LoopRead), g.loop.slice[g.loop.next];
    assert g.loop.slice[g.loop.next..] == [x] + h.loop.slice[h.loop.next..];
    assert Addrs(h.loop.picked) >= Addrs(g.loop.picked);
    assert Conflicts(policy, x.platform, c.platform) ==> h.loop.picked[|g.loop.picked|] == x;
  }

  lemma KnownRemove(policy: int, g: Gw, c: Client, d: Client, hidden: bool, now: int)
    requires Enabled(g, LoopRemove(now)) && Known(g, c, d, hidden)
    requires d in Clients(Next(g, policy, LoopRemove(now)).core.users, c.user)
    ensures Known(Next(g, policy, LoopRemove(now)), c, d, hidden) && d in Clients(g.core.users, c.user)
  {
    KeepMembers(Clients(g.core.users, c.user), Addrs(g.loop.victims));
  }

  lemma KnownKick(policy: int, g: Gw, c: Client, d: Client, hidden: bool, k: Client, now: int)
    requires Base(policy, g) && Enabled(g, OutsideKick(k, now)) && Known(g, c, d, hidden) && Conflicts(policy, d.platform, c.platform)
    requires d in Clients(Next(g, policy, OutsideKick(k, now)).core.users, c.user)
    ensures Known(Next(g, policy, OutsideKick(k, now)), c, d, hidden || Hides(policy, g, OutsideKick(k, now), d))
    ensures d in Clients(g.core.users, c.user)
  {
    KeepMembers(Clients(g.core.users, k.user), Addrs([k]));
  }

  /** One step on the way from the check to the store. */
  lemma KnownStep(policy: int, g: Gw, e: Event, c: Client, d: Client, hidden: bool)
    requires Base(policy, g) && Enabled(g, e) && !e.LoopStore? && Known(g, c, d, hidden)
    requires Conflicts(policy, d.platform, c.platform) && d in Clients(Next(g, policy, e).core.users, c.user)
    ensures Known(Next(g, policy, e), c, d, hidden || Hides(policy, g, e, d)) && d in Clients(g.core.users, c.user)
  {
    match e
    case LoopRead => KnownRead(policy, g, c, d, hidden);
    case LoopRemove(now) => KnownRemove(policy, g, c, d, hidden, now);
    case OutsideKick(k, now) => KnownKick(policy, g, c, d, hidden, k, now);
    case _ =>
  }

  /** Between the check in step i and state k some kick has hidden d. */
  ghost predicate HiddenIn(policy: int, run: seq<Gw>, events: seq<Event>, i: nat, k: nat, d: Client)
    requires IsRun(policy, run, events) && k < |run|
  {
    exists j :: i < j < k && Hides(policy, run[j], events[j], d)
  }

  /** Step i is the check for the newcomer c, with a scan, and up to state k the loop has not stored it. */
  ghost predicate ScansFor(policy: int, run: seq<Gw>, events: seq<Event>, i: nat, k: nat, c: Client)
    requires IsRun(policy, run, events) && k < |run|
  {
    && i < k && events[i] == LoopCheck && run[i].loop.Check? && run[i].loop.task == NewClient(c) && Scans(policy, c.platform)
    && forall j {:trigger events[j]} :: i < j < k ==> !events[j].LoopStore?
  }

  lemma {:induction false} KnownRun(policy: int, run: seq<Gw>, events: seq<Event>, i: nat, k: nat, c: Client, d: Client)
    requires IsRun(policy, run, events) && k < |run| && ScansFor(policy, run, events, i, k, c)
    requires Conflicts(policy, d.platform, c.platform) && d in Clients(run[k].core.users, c.user)
    ensures Known(run[k], c, d, HiddenIn(policy, run, events, i, k, d))
  {
    var g, e := run[k - 1], events[k - 1];
    assert run[k - 1 + 1] == Next(g, policy, e);
    if k == i + 1 {
      assert run[k].loop.slice[0..] == run[k].loop.slice;
    } else {
      BaseHolds(policy, run, events, k - 1);
      BusyRun(policy, run, events, i, k - 1, c);
      KnownStep(policy, g, e, c, d, true);
      KnownRun(policy, run, events, i, k - 1, c, d);
      KnownStep(policy, g, e, c, d, HiddenIn(policy, run, events, i, k - 1, d));
    }
  }

  /** The loop is at the newcomer c. */
  ghost predicate Busy(g: Gw, c: Client)
  {
    match g.loop
    case Reading(t, slice, next, _) => t == NewClient(c) && next <= |slice|
    case Remove(t, _) => t == NewClient(c)
    case Closing(t, _) => t == NewClient(c)
    case Store(x, _) => x == c
    case _ => false
  }

  lemma {:induction false} BusyRun(policy: int, run: seq<Gw>, events: seq<Event>, i: nat, k: nat, c: Client)
    requires IsRun(policy, run, events) && k < |run| && ScansFor(policy, run, events, i, k, c)
    ensures Busy(run[k], c)
  {
    var g, e := run[k - 1], events[k - 1];
    assert run[k - 1 + 1] == Next(g, policy, e);
    if i + 1 < k { BusyRun(policy, run, events, i, k - 1, c); }
  }

  /** In every run, with any number of kicks from outside falling into the scan for a newcomer: when the
      newcomer is stored it joins a connection it conflicts with if and only if some kick took a
      connection out of the scan's sight that is still there. */
  lemma MissedDecides(policy: int, run: seq<Gw>, events: seq<Event>, i: nat, k: nat, c: Client)
    requires IsRun(policy, run, events) && k < |events| && ScansFor(policy, run, events, i, k, c) && events[k].LoopStore?
    ensures var list := Clients(run[k].core.users, c.user);
            && Clients(run[k + 1].core.users, c.user) == list + [c]
            && ((exists d :: d in list && Conflicts(policy, d.platform, c.platform))
                <==> exists d :: d in list && HiddenIn(policy, run, events, i, k, d))
  {
    var list := Clients(run[k].core.users, c.user);
    BusyRun(policy, run, events, i, k, c);
    assert run[k + 1] == Next(run[k], policy, events[k]);
    if d :| d in list && Conflicts(policy, d.platform, c.platform) {
      KnownRun(policy, run, events, i, k, c, d);
    }
    if d :| d in list && HiddenIn(policy, run, events, i, k, d) {
      var j :| i < j < k && Hides(policy, run[j], events[j], d);
      BusyRun(policy, run, events, i, j, c);
    }
  }

  // ---- A compaction write by write ------------------------------------------------------------------------

  /** What place r of the list shows when w of the writes that close the gap at q are done. */
  function ShownAt(list: seq<Client>, q: nat, w: nat, r: nat): Client
    requires q + w < |list| && r < |list|
  {
    if q <= r < q + w then list[r + 1] else list[r]
  }

  /** A schedule: w[r] writes are done when the scan reads place r. */
  ghost predicate IsSchedule(list: seq<Client>, q: nat, w: seq<nat>)
  {
    && q < |list| == |w|
    && (forall r :: 0 <= r < |w| ==> q + w[r] < |list|)
    && (forall r, x :: 0 <= r < x < |w| ==> w[r] <= w[x])
  }

  ghost predicate Seen(list: seq<Client>, q: nat, w: seq<nat>, d: Client)
    requires IsSchedule(list, q, w)
  {
    exists r :: 0 <= r < |list| && ShownAt(list, q, w[r], r) == d
  }

  /** The writes fall between two neighbouring readings, all at once: a kick in one step. */
  function AtOnce(list: seq<Client>, q: nat, next: nat): (w: seq<nat>)
    requires q < |list|
    ensures IsSchedule(list, q, w)
  {
    seq(|list|, r => if r < next then 0 else |list| - 1 - q)
  }

  /** However the single writes of a compaction interleave with the readings, the scan misses the
      connection at place p exactly if its old place is read after it was written over and its new
      place before it was written; and then a kick in one step, between these two readings, makes the
      scan miss it as well. Several connections can be missed in one compaction. */
  lemma WriteByWrite(list: seq<Client>, q: nat, w: seq<nat>, p: nat)
    requires DistinctAddrs(list) && IsSchedule(list, q, w) && p < |list| && p != q
    ensures !Seen(list, q, w, list[p]) <==> q < p && w[p - 1] < p - q < w[p]
    ensures !Seen(list, q, w, list[p]) ==> !Seen(list, q, AtOnce(list, q, p), list[p])
  {
    SeenExactly(list, q, w, p);
    SeenExactly(list, q, AtOnce(list, q, p), p);
  }

  lemma SeenExactly(list: seq<Client>, q: nat, w: seq<nat>, p: nat)
    requires DistinctAddrs(list) && IsSchedule(list, q, w) && p < |list| && p != q
    ensures Seen(list, q, w, list[p]) <==> p < q || w[p] <= p - q || p - q <= w[p - 1]
  {
    if p < q || w[p] <= p - q {
      assert ShownAt(list, q, w[p], p) == list[p];
    } else if p - q <= w[p - 1] {
      assert ShownAt(list, q, w[p - 1], p - 1) == list[p];
    }
  }

  // ---- A run that breaks the policy -----------------------------------------------------------------------

  /** Platforms of three connections that may stay together, and of a newcomer that conflicts with the
      second only. */
  function Platform(policy: int, i: nat): int
  {
    if policy == SAME_CLASS_KICK then
      (if i == 0 then Platforms.IOS else if i == 1 then Platforms.WINDOWS else if i == 2 then Platforms.WEB else Platforms.OSX)
    else
      (if i == 0 then Platforms.WINDOWS else if i == 1 then Platforms.IOS else if i == 2 then Platforms.OSX else Platforms.ANDROID)
  }

  function Sample(policy: int, i: nat): Client
  {
    Client(i, "u", Platform(policy, i), if i == 0 then "a" else if i == 1 then "b" else if i == 2 then "c" else "d")
  }

  lemma ReachableCounters(policy: int, g: Gw)
    requires Reaches(policy, g)
    ensures Base(policy, g) && Counters.Inv(g)
  {
    ReachableBase(policy, g);
    var run, events :| IsRun(policy, run, events) && run[|events|] == g;
    Counters.RunKeeps(policy, run, events, |events|);
  }

  function Samples(policy: int, n: nat): seq<Client>
  {
    if n == 0 then [] else Samples(policy, n - 1) + [Sample(policy, n - 1)]
  }

  lemma {:induction false} SamplesMembers(policy: int, n: nat)
    ensures |Samples(policy, n)| == n && forall i :: 0 <= i < n ==> Samples(policy, n)[i] == Sample(policy, i)
  {
    if n > 0 { SamplesMembers(policy, n - 1); }
  }

  /** The sample connections registered so far. */
  ghost predicate Registered(policy: int, g: Gw, n: nat)
  {
    && Reaches(policy, g) && g.loop.Idle? && g.registers == []
    && Clients(g.core.users, "u") == Samples(policy, n)
    && (forall c :: c in g.accepted <==> c in Samples(policy, n)) && g.registered == g.accepted
  }

  lemma SampleConflicts(policy: int, i: nat, j: nat)
    requires (policy == SAME_CLASS_KICK || policy == PC_AND_OTHER) && i < j < 4
    ensures Conflicts(policy, Platform(policy, i), Platform(policy, j)) <==> i == 1 && j == 3
  {
  }

  lemma SampleList(policy: int, core: Core, i: nat)
    requires policy == SAME_CLASS_KICK || policy == PC_AND_OTHER
    requires Clients(core.users, "u") == Samples(policy, i) && i < 3
    ensures Clients(Register(core, policy, Sample(policy, i), 0, 0).users, "u") == Samples(policy, i + 1)
  {
    var c := Sample(policy, i);
    SamplesMembers(policy, i);
    RegisterIsExact(core, policy, c, 0, 0);
    forall x | x in Samples(policy, i) ensures !Conflicts(policy, x.platform, c.platform) {
      var j :| 0 <= j < i && Samples(policy, i)[j] == x;
      SampleConflicts(policy, j, i);
    }
    AllCompatible(policy, Samples(policy, i), c.platform);
  }

  /** Registering one more of the three. */
  lemma SampleRegisters(policy: int, g: Gw, i: nat) returns (h: Gw)
    requires policy == SAME_CLASS_KICK || policy == PC_AND_OTHER
    requires Registered(policy, g, i) && i < 3
    ensures Registered(policy, h, i + 1)
  {
    SamplesMembers(policy, i);
    h := RegisterReaches(policy, g, Sample(policy, i), 0, 0);
    SampleList(policy, g.core, i);
  }

  lemma {:induction false} AllCompatible(policy: int, clients: seq<Client>, platform: int)
    requires forall c :: c in clients ==> !Conflicts(policy, c.platform, platform)
    ensures Compatible(policy, clients, platform) == clients
  {
    if clients != [] {
      var front, last := clients[..|clients| - 1], clients[|clients| - 1];
      assert clients == front + [last];
      assert last in clients && forall c :: c in front ==> c in clients;
      AllCompatible(policy, front, platform);
    }
  }

  lemma ThreeRegistered(policy: int) returns (g: Gw)
    requires policy == SAME_CLASS_KICK || policy == PC_AND_OTHER
    ensures Registered(policy, g, 3)
  {
    InitialReaches(policy);
    g := SampleRegisters(policy, INITIAL, 0);
    g := SampleRegisters(policy, g, 1);
    g := SampleRegisters(policy, g, 2);
  }

  /** The newcomer arrives and the loop takes its slice. */
  lemma ScanBegins(policy: int, g: Gw) returns (h: Gw)
    requires policy == SAME_CLASS_KICK || policy == PC_AND_OTHER
    requires Registered(policy, g, 3)
    ensures Reaches(policy, h) && h.core == g.core && h.registered == g.registered
    ensures h.accepted == g.accepted + {Sample(policy, 3)}
    ensures h.loop == Reading(NewClient(Sample(policy, 3)), Samples(policy, 3), 0, [])
  {
    var d := Sample(policy, 3);
    SamplesMembers(policy, 3);
    Extend(policy, g, Accept(d));
    var a := Next(g, policy, Accept(d));
    Extend(policy, a, TakeRegister);
    var t := Next(a, policy, TakeRegister);
    assert t.loop.Check? && t.loop.task == NewClient(d) && t.core == g.core;
    Extend(policy, t, LoopCheck);
    h := Next(t, policy, LoopCheck);
  }

  /** It has read the first of the three. */
  lemma OneRead(policy: int, g: Gw) returns (h: Gw)
    requires policy == SAME_CLASS_KICK || policy == PC_AND_OTHER
    requires Reaches(policy, g) && g.loop == Reading(NewClient(Sample(policy, 3)), Samples(policy, 3), 0, [])
    ensures Reaches(policy, h) && h == g.(loop := Reading(NewClient(Sample(policy, 3)), Samples(policy, 3), 1, []))
  {
    SamplesMembers(policy, 3);
    SampleConflicts(policy, 0, 3);
    Extend(policy, g, LoopRead);
    assert g.loop.slice[0] == Sample(policy, 0);
    h := Next(g, policy, LoopRead);
    assert h.loop.picked == [];
  }

  lemma SamplesOwnAddrs(policy: int, g: Gw)
    requires forall c :: c in g.accepted ==> c in Samples(policy, 4)
    ensures OwnAddrs(g)
  {
    SamplesMembers(policy, 4);
    forall c, d | c in g.accepted && d in g.accepted && c.addr == d.addr ensures c == d {
      var i :| 0 <= i < 4 && Samples(policy, 4)[i] == c;
      var j :| 0 <= j < 4 && Samples(policy, 4)[j] == d;
    }
  }

  lemma SampleIsHidden(policy: int, h: Gw)
    requires policy == SAME_CLASS_KICK || policy == PC_AND_OTHER
    requires Base(policy, h) && Counters.Inv(h) && OwnAddrs(h) && Clients(h.core.users, "u") == Samples(policy, 3)
    requires h.loop == Reading(NewClient(Sample(policy, 3)), Samples(policy, 3), 1, [])
    ensures SharesArray(h.core.users, h.loop, "u") && Hidden(policy, h, Sample(policy, 0), Sample(policy, 1))
  {
    SamplesMembers(policy, 3);
    SampleConflicts(policy, 1, 3);
    DistinctLists(h);
    assert Orderly(h);
    HiddenExactly(policy, h, Sample(policy, 0), 0, Sample(policy, 1));
  }

  /** A run with distinct addresses, under policy 4 or 5, that ends idle with two connections the
      policy forbids together: a kick of the first of three connections while the second is about to
      be read. */
  lemma KickInScanBreaksPolicy(policy: int) returns (g: Gw)
    requires policy == SAME_CLASS_KICK || policy == PC_AND_OTHER
    ensures Reaches(policy, g) && OwnAddrs(g)
    ensures !Allowed(policy, Clients(g.core.users, "u"))
  {
    var three := ThreeRegistered(policy);
    var h := ScanBegins(policy, three);
    h := OneRead(policy, h);
    ReachableCounters(policy, h);
    SamplesMembers(policy, 3);
    SamplesOwnAddrs(policy, h);
    SampleIsHidden(policy, h);
    var c := Sample(policy, 0);
    MissedStays(policy, h, c, 0, Sample(policy, 1), 0, 0);
    Extend(policy, h, OutsideKick(c, 0));
    AloneReaches(policy, Next(h, policy, OutsideKick(c, 0)), 0, 0);
    g := Alone(Next(h, policy, OutsideKick(c, 0)), policy, 0, 0);
    AloneAccepts(policy, Next(h, policy, OutsideKick(c, 0)), 0, 0);
  }

  lemma {:induction false} AloneAccepts(policy: int, g: Gw, t1: int, t2: int)
    requires Base(policy, g)
    ensures Alone(g, policy, t1, t2).accepted == g.accepted
    decreases Stage(g.loop), Work(g)
  {
    if !g.loop.Idle? {
      AloneStep(g, policy, t1, t2);
      AloneAccepts(policy, Next(g, policy, OwnStep(g, t1, t2)), t1, t2);
    }
  }
}
