/** The two counters of the gateway (internal/msggateway/ws_server.go:258-284, 320-322, 402-411):
    onlineUserConnNum counts exactly the registered connections whose unregistration is not yet
    processed; onlineUserNum is the number of mapped users plus a drift that kicks from outside
    leave behind. */
module Counters {
  import opened Common
  import opened Presence
  import opened LoginPolicy
  import opened Gateway

  /** The connections in the map. */
  function Mapped(users: MapState): set<Client>
  {
    set u, c | u in users.data && c in users.data[u].clients :: c
  }

  /** The newcomer the loop is registering, if any. */
  function InHand(loop: Loop): set<Client>
  {
    match loop
    case Idle => {}
    case Check(t, _, _) => if t.NewClient? then {t.c} else {}
    case Reading(t, _, _, _) => if t.NewClient? then {t.c} else {}
    case Remove(t, _) => if t.NewClient? then {t.c} else {}
    case Closing(t, _) => if t.NewClient? then {t.c} else {}
    case Store(c, _) => {c}
  }

  /** The loop has seen the newcomer's user in the map and will not count it again. */
  predicate SeenUser(loop: Loop, users: MapState)
  {
    InHand(loop) != {} && !(loop.Store? && loop.newUser)
  }

  function UserInHand(loop: Loop): UserID
    requires InHand(loop) != {}
  {
    if loop.Store? then loop.c.user else loop.task.c.user
  }

  /** Registration and unregistration of each connection happen once, in this order. */
  ghost predicate Lifecycle(g: Gw)
  {
    && WellFormed(g.core.users)
    && g.registered <= g.accepted && g.unregistered <= g.registered && g.core.closed <= g.accepted
    && NoDup(g.registers) && (forall c :: c in g.registers ==> c in g.accepted && c !in g.registered)
    && (forall c :: c in InHand(g.loop) ==> c in g.accepted && c !in g.registered && c !in g.registers)
    && NoDup(g.core.unregisters)
    && (forall c :: c in g.core.unregisters ==> c in g.core.closed && c !in g.unregistered)
    && (forall c :: c in g.unregistered ==> c in g.core.closed)
    && Mapped(g.core.users) <= g.registered - g.unregistered
    && (forall u :: u in g.core.users.data ==> NoDup(g.core.users.data[u].clients))
    && (g.loop.Check? ==> forall c :: c in g.loop.snapshot ==> c in g.registered)
    && (g.loop.Reading? ==> forall c :: c in g.loop.slice || c in g.loop.picked ==> c in g.registered)
    && (g.loop.Remove? ==> forall c :: c in g.loop.victims ==> c in g.registered)
    && (g.loop.Closing? ==> forall c :: c in g.loop.left ==> c in g.registered)
    && forall k, c :: k in g.kicks && c in k.snapshot ==> c in g.registered
  }

  ghost predicate Counted(g: Gw)
  {
    && g.core.connNum == |g.registered - g.unregistered|
    && g.core.userNum == |g.core.users.data| + g.discarded - g.readded
  }

  /** The drift is never negative; it is positive while a seen user is missing. */
  ghost predicate Drift(g: Gw)
  {
    && g.discarded >= g.readded
    && (g.loop.Store? && g.loop.newUser ==> g.loop.c.user !in g.core.users.data)
    && (SeenUser(g.loop, g.core.users) && UserInHand(g.loop) !in g.core.users.data ==> g.discarded > g.readded)
  }

  ghost predicate Inv(g: Gw)
  {
    Lifecycle(g) && Counted(g) && Drift(g)
  }

  // ---- Closing -----------------------------------------------------------------------------------

  lemma {:induction false} CloseAllKeeps(core: Core, clients: seq<Client>, accepted: set<Client>, done: set<Client>)
    requires core.closed <= accepted && forall c :: c in clients ==> c in accepted
    requires NoDup(core.unregisters) && done <= core.closed
    requires forall c :: c in core.unregisters ==> c in core.closed && c !in done
    ensures var after := CloseAll(core, clients);
            && core.closed <= after.closed <= accepted && NoDup(after.unregisters)
            && forall c :: c in after.unregisters ==> c in after.closed && c !in done
  {
    if clients != [] {
      CloseAllKeeps(core, clients[..|clients| - 1], accepted, done);
    }
  }

  // ---- Removal ------------------------------------------------------------------------------------

  lemma {:induction false} KeepNoDup(clients: seq<Client>, del: set<Addr>)
    requires NoDup(clients)
    ensures NoDup(Keep(clients, del))
  {
    if clients != [] {
      KeepNoDup(clients[..|clients| - 1], del);
      KeepMembers(clients[..|clients| - 1], del);
    }
  }

  lemma DeleteMapped(s: MapState, user: UserID, victims: seq<Client>, now: int)
    requires WellFormed(s) && forall u :: u in s.data ==> NoDup(s.data[u].clients)
    ensures var t := Delete(s, user, victims, now);
            && WellFormed(t) && Mapped(t) <= Mapped(s)
            && (forall u :: u in t.data ==> NoDup(t.data[u].clients))
            && (forall c :: c in victims && c.user == user ==> c !in Mapped(t))
  {
    DeleteWellFormed(s, user, victims, now);
    KeepMembers(Clients(s, user), Addrs(victims));
    KeepNoDup(Clients(s, user), Addrs(victims));
  }

  lemma DeleteUsers(s: MapState, user: UserID, victims: seq<Client>, now: int)
    ensures var t := Delete(s, user, victims, now);
            && |t.data| == |s.data| - Count(DeletesUser(s, user, victims))
            && t.data.Keys == s.data.Keys - (if DeletesUser(s, user, victims) then {user} else {})
  {
    var t := Delete(s, user, victims, now);
    if DeletesUser(s, user, victims) {
      assert t.data.Keys == s.data.Keys - {user};
      assert |t.data| == |t.data.Keys| && |s.data| == |s.data.Keys|;
    } else if DeleteActs(s, user, victims) {
      assert t.data.Keys == s.data.Keys;
      assert |t.data| == |t.data.Keys| && |s.data| == |s.data.Keys|;
    }
  }

  /** A removal whose result is dropped: the loop's or an outside kick's. */
  lemma DropKeeps(g: Gw, h: Gw, user: UserID, victims: seq<Client>, now: int)
    requires Inv(g)
    requires h == g.(core := g.core.(users := Delete(g.core.users, user, victims, now)),
                     discarded := g.discarded + Count(DeletesUser(g.core.users, user, victims)))
    ensures Inv(h)
  {
    DeleteMapped(g.core.users, user, victims, now);
    DeleteUsers(g.core.users, user, victims, now);
  }

  lemma CloseKeeps(g: Gw, clients: seq<Client>)
    requires Inv(g) && (forall c :: c in clients ==> c in g.registered)
    ensures Inv(g.(core := CloseAll(g.core, clients)))
  {
    CloseAllKeeps(g.core, clients, g.accepted, g.unregistered);
  }

  lemma KickKeeps(g: Gw, h: Gw, user: UserID, victims: seq<Client>, now: int)
    requires Inv(g) && (forall c :: c in victims ==> c in g.registered)
    requires h == g.(core := RemoveAndKick(g.core, user, victims, now),
                     discarded := g.discarded + Count(DeletesUser(g.core.users, user, victims)))
    ensures Inv(h)
  {
    var mid := g.(core := g.core.(users := Delete(g.core.users, user, victims, now)),
                  discarded := g.discarded + Count(DeletesUser(g.core.users, user, victims)));
    DropKeeps(g, mid, user, victims, now);
    CloseKeeps(mid, victims);
  }

  lemma ChannelKeeps(g: Gw, policy: int, e: Event)
    requires Inv(g) && Enabled(g, e) && (e.Accept? || e.Hangup? || e.TakeKick?)
    ensures Inv(Next(g, policy, e))
  {
  }

  lemma RemoteLoginKeeps(g: Gw, policy: int, user: UserID, platform: int)
    requires Inv(g)
    ensures Inv(Next(g, policy, RemoteLogin(user, platform)))
  {
    OnPlatformMembers(Clients(g.core.users, user), platform);
    ClientsAreMapped(g.core.users, user);
  }

  lemma TakeRegisterKeeps(g: Gw, policy: int)
    requires Inv(g) && Enabled(g, TakeRegister)
    ensures Inv(Next(g, policy, TakeRegister))
  {
    OnPlatformMembers(Clients(g.core.users, g.registers[0].user), g.registers[0].platform);
    ClientsAreMapped(g.core.users, g.registers[0].user);
  }

  lemma LoopCheckKeeps(g: Gw, policy: int)
    requires Inv(g) && Enabled(g, LoopCheck)
    ensures Inv(Next(g, policy, LoopCheck))
  {
    ClientsAreMapped(g.core.users, g.loop.task.User());
  }

  lemma LoopReadKeeps(g: Gw, policy: int, e: Event)
    requires Inv(g) && Enabled(g, e) && (e.LoopRead? || e.LoopEnd?)
    ensures Inv(Next(g, policy, e))
  {
  }

  /** A compaction by another goroutine shows the loop's slice no new connection. */
  lemma CompactedKeeps(users: MapState, g: Gw, user: UserID, victims: seq<Client>)
    requires Inv(g) && (forall u, c :: u in users.data && c in users.data[u].clients ==> c in g.registered)
    ensures Inv(g.(loop := Compacted(users, g.loop, user, victims)))
  {
    if SharesArray(users, g.loop, user) {
      var list := users.data[user].clients;
      var kept := Keep(list, Addrs(victims));
      KeepMembers(list, Addrs(victims));
      forall c | c in Overwritten(g.loop.slice, kept) ensures c in g.registered {
        assert c in kept || c in g.loop.slice;
      }
    }
  }

  lemma OutsideKickKeeps(g: Gw, policy: int, c: Client, now: int)
    requires Inv(g) && Enabled(g, OutsideKick(c, now))
    ensures Inv(Next(g, policy, OutsideKick(c, now)))
  {
    var h := Next(g, policy, OutsideKick(c, now)).(loop := g.loop);
    KickKeeps(g, h, c.user, [c], now);
    forall u, d | u in g.core.users.data && d in g.core.users.data[u].clients ensures d in h.registered {
      assert d in Mapped(g.core.users);
    }
    CompactedKeeps(g.core.users, h, c.user, [c]);
  }

  lemma LoopRemoveKeeps(g: Gw, policy: int, now: int)
    requires Inv(g) && Enabled(g, LoopRemove(now))
    ensures Inv(Next(g, policy, LoopRemove(now)))
  {
    var h := Next(g, policy, LoopRemove(now)).(loop := g.loop);
    DropKeeps(g, h, g.loop.task.User(), g.loop.victims, now);
    ClosingBegins(h);
  }

  lemma ClosingBegins(h: Gw)
    requires Inv(h) && h.loop.Remove?
    ensures Inv(h.(loop := Closing(h.loop.task, h.loop.victims)))
  {
  }

  lemma LoopCloseKeeps(g: Gw, policy: int)
    requires Inv(g) && Enabled(g, LoopClose)
    ensures Inv(Next(g, policy, LoopClose))
  {
    var c := g.loop.left[0];
    if c !in g.core.closed {
      CloseOneOf(g.core, c);
      CloseKeeps(g, [c]);
    }
  }

  lemma CloseOneOf(core: Core, c: Client)
    ensures CloseAll(core, [c]) == Close(core, c)
  {
    assert [c][..0] == [] && CloseAll(core, []) == core;
  }

  /** After the closings the loop goes on to store its newcomer, if it has one. */
  lemma LoopDoneKeeps(g: Gw, policy: int)
    requires Inv(g) && Enabled(g, LoopDone)
    ensures Inv(Next(g, policy, LoopDone))
  {
  }

  lemma ReportKeeps(g: Gw, policy: int, users: MapState)
    requires Inv(g) && Enabled(g, Report(users))
    ensures Inv(Next(g, policy, Report(users)))
  {
    assert |users.data| == |users.data.Keys| && |g.core.users.data| == |g.core.users.data.Keys|;
    assert Mapped(users) == Mapped(g.core.users);
  }

  lemma StepKeeps(g: Gw, policy: int, e: Event)
    requires Inv(g) && Enabled(g, e)
    ensures Inv(Next(g, policy, e))
  {
    match e
    case TakeRegister => TakeRegisterKeeps(g, policy);
    case TakeUnregister(now) => UnregisterKeeps(g, policy, now);
    case LoopCheck => LoopCheckKeeps(g, policy);
    case LoopRead => LoopReadKeeps(g, policy, e);
    case LoopEnd => LoopReadKeeps(g, policy, e);
    case LoopRemove(now) => LoopRemoveKeeps(g, policy, now);
    case LoopClose => LoopCloseKeeps(g, policy);
    case LoopDone => LoopDoneKeeps(g, policy);
    case LoopStore(now) => StoreKeeps(g, policy, now);
    case OutsideKick(c, now) => OutsideKickKeeps(g, policy, c, now);
    case Report(users) => ReportKeeps(g, policy, users);
    case RemoteLogin(user, platform) => RemoteLoginKeeps(g, policy, user, platform);
    case _ => ChannelKeeps(g, policy, e);
  }

  lemma ClientsAreMapped(users: MapState, user: UserID)
    ensures forall c :: c in Clients(users, user) ==> c in Mapped(users)
  {
  }

  lemma UnregisterLifecycle(g: Gw, policy: int, now: int)
    requires Lifecycle(g) && Enabled(g, TakeUnregister(now))
    ensures Lifecycle(Next(g, policy, TakeUnregister(now)))
  {
    var c := g.core.unregisters[0];
    DeleteMapped(g.core.users, c.user, [c], now);
    assert forall d :: d in g.core.unregisters[1..] ==> d in g.core.unregisters && d != c;
  }

  lemma UnregisterKeeps(g: Gw, policy: int, now: int)
    requires Inv(g) && Enabled(g, TakeUnregister(now))
    ensures Inv(Next(g, policy, TakeUnregister(now)))
  {
    UnregisterLifecycle(g, policy, now);
    var h, c := Next(g, policy, TakeUnregister(now)), g.core.unregisters[0];
    DeleteUsers(g.core.users, c.user, [c], now);
    assert Counted(h) by {
      CardRemove(g.registered, g.unregistered, c);
    }
    assert Drift(h) by { DeleteWellFormed(g.core.users, c.user, [c], now); }
  }

  lemma CardRemove(registered: set<Client>, unregistered: set<Client>, c: Client)
    requires c in registered && c !in unregistered
    ensures |registered - (unregistered + {c})| == |registered - unregistered| - 1
  {
    assert registered - (unregistered + {c}) == registered - unregistered - {c};
  }

  lemma CardAdd(registered: set<Client>, unregistered: set<Client>, c: Client)
    requires c !in registered && unregistered <= registered
    ensures |registered + {c} - unregistered| == |registered - unregistered| + 1
  {
    assert registered + {c} - unregistered == (registered - unregistered) + {c};
  }

  lemma SetMapped(users: MapState, c: Client, now: int)
    ensures var t := Set(users, c, now);
            && Mapped(t) <= Mapped(users) + {c}
            && |t.data| == |users.data| + Count(c.user !in users.data)
  {
    var t := Set(users, c, now);
    assert t.data.Keys == users.data.Keys + {c.user};
    assert |t.data| == |t.data.Keys| && |users.data| == |users.data.Keys|;
  }

  lemma StoreLifecycle(g: Gw, policy: int, now: int)
    requires Lifecycle(g) && Enabled(g, LoopStore(now))
    ensures Lifecycle(Next(g, policy, LoopStore(now)))
  {
    var c, users := g.loop.c, g.core.users;
    SetMapped(users, c, now);
    SetWellFormed(users, c, now);
    ClientsAreMapped(users, c.user);
    assert c !in Clients(users, c.user);
  }

  lemma StoreKeeps(g: Gw, policy: int, now: int)
    requires Inv(g) && Enabled(g, LoopStore(now))
    ensures Inv(Next(g, policy, LoopStore(now)))
  {
    StoreLifecycle(g, policy, now);
    SetMapped(g.core.users, g.loop.c, now);
    CardAdd(g.registered, g.unregistered, g.loop.c);
  }

  lemma {:induction false} RunKeeps(policy: int, run: seq<Gw>, events: seq<Event>, k: nat)
    requires IsRun(policy, run, events) && k < |run|
    ensures Inv(run[k])
  {
    if k > 0 {
      assert run[k - 1 + 1] == Next(run[k - 1], policy, events[k - 1]);
      RunKeeps(policy, run, events, k - 1);
      StepKeeps(run[k - 1], policy, events[k - 1]);
    }
  }

  /** In every run: the connection counter is the number of mapped connections plus the number of
      removed ones whose unregistration is still to come, each counted once; and the user counter
      is the number of mapped users plus a drift that is never negative. */
  lemma CountersInEveryRun(policy: int, run: seq<Gw>, events: seq<Event>, k: nat)
    requires IsRun(policy, run, events) && k < |run|
    ensures var g := run[k];
            var waiting := g.registered - g.unregistered - Mapped(g.core.users);
            && g.core.connNum == |Mapped(g.core.users)| + |waiting|
            && (forall u :: u in g.core.users.data ==> NoDup(g.core.users.data[u].clients))
            && g.core.userNum == |g.core.users.data| + (g.discarded - g.readded)
            && g.core.userNum >= |g.core.users.data|
  {
    RunKeeps(policy, run, events, k);
    var g := run[k];
    var live, mapped := g.registered - g.unregistered, Mapped(g.core.users);
    assert live == mapped + (live - mapped) && mapped !! (live - mapped);
  }

  // ---- Equality without kicks from outside ---------------------------------------------------------

  predicate Internal(e: Event)
  {
    !e.OutsideKick? && !e.TakeKick?
  }

  /** Only the loop's own removal for a newcomer can be uncounted, and storing undoes it. */
  ghost predicate Settled(g: Gw)
  {
    && (g.loop.Check? || g.loop.Reading? || g.loop.Remove? || g.loop.Closing? ==> g.loop.task.NewClient?)
    && g.discarded - g.readded
       == Count(SeenUser(g.loop, g.core.users) && UserInHand(g.loop) !in g.core.users.data)
    && (g.loop.Check? || g.loop.Reading? || g.loop.Remove? ==> UserInHand(g.loop) in g.core.users.data)
  }

  lemma SettledRemove(g: Gw, policy: int, now: int)
    requires Settled(g) && Enabled(g, LoopRemove(now))
    ensures Settled(Next(g, policy, LoopRemove(now)))
  {
    DeleteUsers(g.core.users, g.loop.task.User(), g.loop.victims, now);
  }

  /** Steps inside the loop that leave the map alone. */
  lemma SettledInLoop(g: Gw, policy: int, e: Event)
    requires Inv(g) && Settled(g) && Enabled(g, e)
    requires e.LoopCheck? || e.LoopRead? || e.LoopEnd? || e.LoopClose? || e.LoopDone?
    ensures Settled(Next(g, policy, e))
  {
  }

  lemma SettledOutside(g: Gw, policy: int, e: Event)
    requires Inv(g) && Settled(g) && Enabled(g, e)
    requires e.Accept? || e.Hangup? || e.TakeRegister? || e.RemoteLogin? || e.Report?
    ensures Settled(Next(g, policy, e))
  {
  }

  lemma SettledCounted(g: Gw, policy: int, e: Event)
    requires Inv(g) && Settled(g) && Enabled(g, e) && (e.TakeUnregister? || e.LoopStore?)
    ensures Settled(Next(g, policy, e))
  {
  }

  lemma SettledStep(g: Gw, policy: int, e: Event)
    requires Inv(g) && Settled(g) && Enabled(g, e) && Internal(e)
    ensures Settled(Next(g, policy, e))
  {
    match e
    case LoopRemove(now) => SettledRemove(g, policy, now);
    case LoopCheck => SettledInLoop(g, policy, e);
    case LoopRead => SettledInLoop(g, policy, e);
    case LoopEnd => SettledInLoop(g, policy, e);
    case LoopClose => SettledInLoop(g, policy, e);
    case LoopDone => SettledInLoop(g, policy, e);
    case TakeUnregister(_) => SettledCounted(g, policy, e);
    case LoopStore(_) => SettledCounted(g, policy, e);
    case _ => SettledOutside(g, policy, e);
  }

  lemma {:induction false} SettledRun(policy: int, run: seq<Gw>, events: seq<Event>, k: nat)
    requires IsRun(policy, run, events) && k < |run| && forall i :: 0 <= i < k ==> Internal(events[i])
    ensures Settled(run[k])
  {
    if k > 0 {
      SettledRun(policy, run, events, k - 1);
      RunKeeps(policy, run, events, k - 1);
      SettledStep(run[k - 1], policy, events[k - 1]);
    }
  }

  /** Under every policy, as long as no kick comes from outside or from another node, the user
      counter equals the number of mapped users whenever the loop is idle. */
  lemma UserCountExactWithoutKicks(policy: int, run: seq<Gw>, events: seq<Event>, k: nat)
    requires IsRun(policy, run, events) && k < |run| && run[k].loop.Idle?
    requires forall i :: 0 <= i < k ==> Internal(events[i])
    ensures run[k].core.userNum == |run[k].core.users.data|
  {
    SettledRun(policy, run, events, k);
    RunKeeps(policy, run, events, k);
  }

  /** One kick from outside breaks the equality for good: the user is gone, its unregistration is
      processed, and the counter still says one. */
  lemma OutsideKickDrifts(policy: int) returns (g: Gw)
    ensures Reaches(policy, g) && g.loop.Idle? && g.registers == [] && g.core.unregisters == []
    ensures g.core.users.data == map[] && g.core.connNum == 0 && g.core.userNum == 1
  {
    var c := Client(0, "u", 1, "a");
    InitialReaches(policy);
    var h := RegisterReaches(policy, INITIAL, c, 0, 0);
    assert [] + [c] == [c];
    Extend(policy, h, OutsideKick(c, 0));
    var k := Next(h, policy, OutsideKick(c, 0));
    OnlyClientKicked(h.core, c);
    Extend(policy, k, TakeUnregister(0));
    g := Next(k, policy, TakeUnregister(0));
  }

  lemma OnlyClientKicked(core: Core, c: Client)
    requires core.users.data.Keys == {c.user} && core.users.data[c.user].clients == [c]
    requires core.closed == {} && core.unregisters == []
    ensures var t := RemoveAndKick(core, c.user, [c], 0);
            t.users.data == map[] && t.unregisters == [c] && t.userNum == core.userNum && t.connNum == core.connNum
  {
    OnlyClientGoes(core.users, c, 0);
    CloseOneOf(core.(users := Delete(core.users, c.user, [c], 0)), c);
    assert [] + [c] == [c];
  }

  lemma OnlyClientGoes(users: MapState, c: Client, now: int)
    requires users.data.Keys == {c.user} && users.data[c.user].clients == [c]
    ensures Delete(users, c.user, [c], now).data == map[]
  {
    assert c.addr in Addrs([c]);
    AllGone([c], Addrs([c]));
  }

  lemma AllGone(clients: seq<Client>, del: set<Addr>)
    requires forall c :: c in clients ==> c.addr in del
    ensures Keep(clients, del) == []
  {
    KeepMembers(clients, del);
    if Keep(clients, del) != [] {
      assert Keep(clients, del)[0] in Keep(clients, del);
      assert false;
    }
  }
}
