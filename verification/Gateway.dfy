/** The gateway's connection state machine (internal/msggateway/ws_server.go:170-183, 258-284,
    320-416; client.go:290-300, 348-356; hub_server.go:250-287) as a transition system.

    The event loop works in small steps, so that kicks from other goroutines can fall between its
    reads and writes of the user map. Under policies 4 and 5 it reads the user's connections one by
    one from a slice of the array that removals compact in place, without the map's lock. Cross-node
    kick events carry a snapshot taken when they were queued. A connection closes at most once, and
    closing queues its unregistration. */
module Gateway {
  import opened Common
  import opened Presence
  import opened LoginPolicy

  /** The state the server's methods change. */
  datatype Core = Core(users: MapState, userNum: int, connNum: int, closed: set<Client>, unregisters: seq<Client>)

  /** Client.close: the first call marks the connection and queues its unregistration. */
  function Close(core: Core, c: Client): Core
  {
    if c in core.closed then core
    else core.(closed := core.closed + {c}, unregisters := core.unregisters + [c])
  }

  function CloseAll(core: Core, clients: seq<Client>): (res: Core)
    ensures res == core.(closed := res.closed, unregisters := res.unregisters)
  {
    if clients == [] then core
    else Close(CloseAll(core, clients[..|clients| - 1]), clients[|clients| - 1])
  }

  /** DeleteClients, then KickOnlineMessage to each victim; the result of DeleteClients is dropped. */
  function RemoveAndKick(core: Core, user: UserID, victims: seq<Client>, now: int): Core
  {
    CloseAll(core.(users := Delete(core.users, user, victims, now)), victims)
  }

  function StoreClient(core: Core, c: Client, newUser: bool, now: int): Core
  {
    core.(users := Set(core.users, c, now), connNum := core.connNum + 1,
          userNum := core.userNum + if newUser then 1 else 0)
  }

  /** multiTerminalLoginChecker. */
  function CheckLogin(core: Core, policy: int, clientOK: bool, snapshot: seq<Client>,
                      user: UserID, platform: int, now: int): Core
  {
    RemoveAndKick(core, user, Victims(policy, clientOK, snapshot, Clients(core.users, user), platform), now)
  }

  /** registerClient without interference. */
  function Register(core: Core, policy: int, c: Client, t1: int, t2: int): Core
  {
    if c.user !in core.users.data then StoreClient(core, c, true, t2)
    else
      var snapshot := OnPlatform(Clients(core.users, c.user), c.platform);
      StoreClient(CheckLogin(core, policy, snapshot != [], snapshot, c.user, c.platform, t1), c, false, t2)
  }

  /** unregisterClient. */
  function Unregister(core: Core, c: Client, now: int): Core
  {
    core.(users := Delete(core.users, c.user, [c], now), connNum := core.connNum - 1,
          userNum := core.userNum - if DeletesUser(core.users, c.user, [c]) then 1 else 0)
  }

  // ---- The transition system ----------------------------------------------------------------------

  datatype Task = NewClient(c: Client) | CrossNode(u: UserID, p: int)
  {
    function User(): UserID { if NewClient? then c.user else u }
    function Platform(): int { if NewClient? then c.platform else p }
  }

  datatype Kick = Kick(user: UserID, platform: int, clientOK: bool, snapshot: seq<Client>)

  datatype Loop =
    | Idle
    | Check(task: Task, clientOK: bool, snapshot: seq<Client>)
    | Reading(task: Task, slice: seq<Client>, next: nat, picked: seq<Client>)
    | Remove(task: Task, victims: seq<Client>)
    | Closing(task: Task, left: seq<Client>)
    | Store(c: Client, newUser: bool)

  /** In a Reading loop, `slice` is what the slice taken from the map shows at present. The last
      five fields are histories: every connection ever accepted, the registrations and
      unregistrations processed, how many user entries were removed with the result of
      DeleteClients dropped, and how many entries were added without counting a user. */
  datatype Gw = Gw(core: Core, loop: Loop, registers: seq<Client>, kicks: seq<Kick>,
                   accepted: set<Client>, registered: set<Client>, unregistered: set<Client>,
                   discarded: int, readded: int)

  datatype Event =
    | Accept(c: Client)
    | Hangup(c: Client)
    | TakeRegister
    | TakeUnregister(now: int)
    | TakeKick
    | LoopCheck
    | LoopRead
    | LoopEnd
    | LoopRemove(now: int)
    | LoopClose
    | LoopDone
    | LoopStore(now: int)
    | OutsideKick(c: Client, now: int)
    | RemoteLogin(user: UserID, platform: int)
    | Report(users: MapState)

  const INITIAL: Gw := Gw(Core(MapState(map[], []), 0, 0, {}, []), Idle, [], [], {}, {}, {}, 0, 0)

  /** Status reporting drains the queue and stamps entries; it changes no connection list. */
  ghost predicate SameClients(s: MapState, t: MapState)
  {
    s.data.Keys == t.data.Keys && forall u :: u in s.data ==> s.data[u].clients == t.data[u].clients
  }

  ghost predicate Enabled(g: Gw, e: Event)
  {
    match e
    case Accept(c) => c !in g.accepted
    case Hangup(c) => c in g.accepted
    case TakeRegister => g.loop.Idle? && g.registers != []
    // a connection's unregistration is processed after its registration
    case TakeUnregister(_) => g.loop.Idle? && g.core.unregisters != [] && g.core.unregisters[0] in g.registered
    case TakeKick => g.loop.Idle? && g.kicks != []
    case LoopCheck => g.loop.Check?
    case LoopRead => g.loop.Reading? && g.loop.next < |g.loop.slice|
    case LoopEnd => g.loop.Reading? && g.loop.next == |g.loop.slice|
    case LoopRemove(_) => g.loop.Remove?
    case LoopClose => g.loop.Closing? && g.loop.left != []
    case LoopDone => g.loop.Closing? && g.loop.left == []
    case LoopStore(_) => g.loop.Store?
    case OutsideKick(c, _) => c in g.registered
    case RemoteLogin(_, _) => true
    case Report(users) => SameClients(g.core.users, users)
  }

  function Count(b: bool): int { if b then 1 else 0 }

  /** The slice the loop is reading and the user's entry have one array, until the entry goes. */
  predicate SharesArray(users: MapState, loop: Loop, user: UserID)
  {
    loop.Reading? && loop.task.User() == user && user in users.data
  }

  /** What the loop's slice shows after a removal of `victims` by another goroutine. */
  function Compacted(users: MapState, loop: Loop, user: UserID, victims: seq<Client>): Loop
  {
    if SharesArray(users, loop, user)
    then loop.(slice := Overwritten(loop.slice, Keep(users.data[user].clients, Addrs(victims))))
    else loop
  }

  function Next(g: Gw, policy: int, e: Event): Gw
    requires Enabled(g, e)
  {
    var core, users := g.core, g.core.users;
    match e
    case Accept(c) => g.(registers := g.registers + [c], accepted := g.accepted + {c})
    case Hangup(c) => g.(core := Close(core, c))
    case TakeRegister =>
      var c := g.registers[0];
      var snapshot := OnPlatform(Clients(users, c.user), c.platform);
      g.(registers := g.registers[1..],
         loop := if c.user in users.data then Check(NewClient(c), snapshot != [], snapshot) else Store(c, true))
    case TakeUnregister(now) =>
      var c := core.unregisters[0];
      g.(core := Unregister(core.(unregisters := core.unregisters[1..]), c, now),
         unregistered := g.unregistered + {c})
    case TakeKick =>
      var k := g.kicks[0];
      g.(kicks := g.kicks[1..], loop := Check(CrossNode(k.user, k.platform), k.clientOK, k.snapshot))
    case LoopCheck =>
      var t := g.loop.task;
      g.(loop := if Scans(policy, t.Platform()) then Reading(t, Clients(users, t.User()), 0, [])
                 else Remove(t, FromSnapshot(policy, g.loop.clientOK, g.loop.snapshot)))
    case LoopRead =>
      var c := g.loop.slice[g.loop.next];
      var more := if Conflicts(policy, c.platform, g.loop.task.Platform()) then [c] else [];
      g.(loop := g.loop.(next := g.loop.next + 1, picked := g.loop.picked + more))
    case LoopEnd => g.(loop := Remove(g.loop.task, g.loop.picked))
    case LoopRemove(now) =>
      var user := g.loop.task.User();
      g.(core := core.(users := Delete(users, user, g.loop.victims, now)), loop := Closing(g.loop.task, g.loop.victims),
         discarded := g.discarded + Count(DeletesUser(users, user, g.loop.victims)))
    case LoopClose =>
      // a connection that is open is closed, which queues it; the call returns with the next step
      var c := g.loop.left[0];
      if c in core.closed then g.(loop := g.loop.(left := g.loop.left[1..])) else g.(core := Close(core, c))
    case LoopDone =>
      var t := g.loop.task;
      g.(loop := if t.NewClient? then Store(t.c, false) else Idle)
    case LoopStore(now) =>
      var c := g.loop.c;
      g.(core := StoreClient(core, c, g.loop.newUser, now), loop := Idle, registered := g.registered + {c},
         readded := g.readded + Count(!g.loop.newUser && c.user !in users.data))
    case OutsideKick(c, now) =>
      g.(core := RemoveAndKick(core, c.user, [c], now), loop := Compacted(users, g.loop, c.user, [c]),
         discarded := g.discarded + Count(DeletesUser(users, c.user, [c])))
    case RemoteLogin(user, platform) =>
      if user !in users.data then g
      else
        var snapshot := OnPlatform(Clients(users, user), platform);
        g.(kicks := g.kicks + [Kick(user, platform, snapshot != [], snapshot)])
    case Report(users') => g.(core := core.(users := users'))
  }

  ghost predicate IsRun(policy: int, run: seq<Gw>, events: seq<Event>)
  {
    && |run| == |events| + 1 && run[0] == INITIAL
    && forall i {:trigger events[i]} :: 0 <= i < |events| ==> Enabled(run[i], events[i]) && run[i + 1] == Next(run[i], policy, events[i])
  }

  // ---- What every run keeps -------------------------------------------------------------------------------

  /** Every entry holds a connection, and the list of the user being scanned is the front of the
      array the loop's slice shows. */
  ghost predicate Base(policy: int, g: Gw)
  {
    && WellFormed(g.core.users)
    && (g.loop.Reading? ==> Scans(policy, g.loop.task.Platform()) && g.loop.next <= |g.loop.slice|)
    && forall u :: SharesArray(g.core.users, g.loop, u) ==> g.core.users.data[u].clients <= g.loop.slice
  }

  lemma BaseStep(policy: int, g: Gw, e: Event)
    requires Base(policy, g) && Enabled(g, e)
    ensures Base(policy, Next(g, policy, e))
  {
    var users := g.core.users;
    match e
    case TakeUnregister(now) =>
      DeleteWellFormed(users, g.core.unregisters[0].user, [g.core.unregisters[0]], now);
    case LoopRemove(now) => DeleteWellFormed(users, g.loop.task.User(), g.loop.victims, now);
    case LoopStore(now) => SetWellFormed(users, g.loop.c, now);
    case OutsideKick(c, now) =>
      DeleteWellFormed(users, c.user, [c], now);
      KeepLength(Clients(users, c.user), Addrs([c]));
    case _ =>
  }

  lemma {:induction false} BaseHolds(policy: int, run: seq<Gw>, events: seq<Event>, k: nat)
    requires IsRun(policy, run, events) && k < |run|
    ensures Base(policy, run[k])
  {
    if k > 0 {
      BaseHolds(policy, run, events, k - 1);
      BaseStep(policy, run[k - 1], events[k - 1]);
    }
  }

  /** In every reachable map each entry holds a connection, all of them the user's own, so a removal
      answers true exactly when the user was mapped and no longer is. */
  lemma NoEmptyEntry(policy: int, run: seq<Gw>, events: seq<Event>, k: nat, user: UserID, victims: seq<Client>, now: int)
    requires IsRun(policy, run, events) && k < |run|
    ensures var s := run[k].core.users;
            && (user in s.data ==> s.data[user].clients != [] && forall c :: c in s.data[user].clients ==> c.user == user)
            && (DeletesUser(s, user, victims) <==> user in s.data && user !in Delete(s, user, victims, now).data)
  {
    BaseHolds(policy, run, events, k);
    DeleteWellFormed(run[k].core.users, user, victims, now);
  }

  // ---- Login policy over all runs -----------------------------------------------------------------------

  /** What the loop knows about the newcomer's conflicts at each of its points. */
  ghost predicate Cleared(policy: int, users: MapState, loop: Loop)
  {
    match loop
    case Idle => true
    case Check(t, clientOK, snapshot) =>
      t.NewClient? && policy == SAME_TERMINAL_KICK ==>
        forall d :: d in Clients(users, t.c.user) && d.platform == t.c.platform ==> clientOK && d.addr in Addrs(snapshot)
    case Reading(t, slice, next, picked) =>
      t.NewClient? && next <= |slice| ==>
        forall d :: d in Clients(users, t.c.user) && Conflicts(policy, d.platform, t.c.platform) ==>
          d.addr in Addrs(picked) || d in slice[next..]
    case Remove(t, victims) =>
      t.NewClient? ==>
        forall d :: d in Clients(users, t.c.user) && Conflicts(policy, d.platform, t.c.platform) ==> d.addr in Addrs(victims)
    case Closing(t, _) =>
      t.NewClient? ==> forall d :: d in Clients(users, t.c.user) ==> !Conflicts(policy, d.platform, t.c.platform)
    case Store(c, newUser) =>
      && (newUser ==> c.user !in users.data)
      && forall d :: d in Clients(users, c.user) ==> !Conflicts(policy, d.platform, c.platform)
  }

  ghost predicate PolicyInv(policy: int, g: Gw)
  {
    && Base(policy, g)
    && (forall u :: u in g.core.users.data ==> Allowed(policy, g.core.users.data[u].clients))
    && Cleared(policy, g.core.users, g.loop)
  }

  /** The kick of `c` moves the conflicting connection d out of the scan's sight: d stays, the scan
      has not picked it, and what the scan is still going to read no longer shows it. */
  ghost predicate Hidden(policy: int, g: Gw, c: Client, d: Client)
    requires SharesArray(g.core.users, g.loop, c.user) && g.loop.task.NewClient? && g.loop.next <= |g.loop.slice|
  {
    && d in Keep(g.core.users.data[c.user].clients, Addrs([c])) && Conflicts(policy, d.platform, g.loop.task.c.platform)
    && d.addr !in Addrs(g.loop.picked) && d in g.loop.slice[g.loop.next..]
    && d !in Compacted(g.core.users, g.loop, c.user, [c]).slice[g.loop.next..]
  }

  /** A kick from outside makes the scan for a newcomer miss a connection. */
  ghost predicate Misses(policy: int, g: Gw, e: Event)
  {
    && e.OutsideKick? && SharesArray(g.core.users, g.loop, e.c.user)
    && g.loop.task.NewClient? && g.loop.next <= |g.loop.slice|
    && exists d :: Hidden(policy, g, e.c, d)
  }

  /** The kick removes a connection that the scan has already read. */
  ghost predicate Behind(g: Gw, e: Event)
  {
    && e.OutsideKick? && SharesArray(g.core.users, g.loop, e.c.user)
    && exists q :: 0 <= q < g.loop.next && q < |g.core.users.data[e.c.user].clients|
                   && g.core.users.data[e.c.user].clients[q].addr == e.c.addr
  }

  /** A kick that removes nothing the scan has read makes it miss nothing. */
  lemma MissesOnlyBehind(policy: int, g: Gw, e: Event)
    requires Base(policy, g) && Misses(policy, g, e)
    ensures Behind(g, e)
  {
    if !Behind(g, e) {
      SightKept(g.core.users.data[e.c.user].clients, g.loop.slice, g.loop.next, Addrs([e.c]));
      assert false;
    }
  }

  /** A removal keeps the policy and everything the loop knows. */
  lemma DeleteKeepsPolicy(policy: int, s: MapState, loop: Loop, user: UserID, victims: seq<Client>, now: int)
    requires WellFormed(s) && Cleared(policy, s, loop)
    requires forall u :: u in s.data ==> Allowed(policy, s.data[u].clients)
    ensures var t := Delete(s, user, victims, now);
            && Cleared(policy, t, loop)
            && (forall u :: u in t.data ==> Allowed(policy, t.data[u].clients))
            && (forall u, d :: d in Clients(t, u) ==> d in Clients(s, u))
  {
    var t := Delete(s, user, victims, now);
    KeepMembers(Clients(s, user), Addrs(victims));
    KeepAllowed(policy, Clients(s, user), Addrs(victims));
    assert forall u, d :: d in Clients(t, u) ==> d in Clients(s, u);
  }

  /** A kick from outside that misses nothing keeps what the scan knows. */
  lemma KickKeepsPolicy(policy: int, g: Gw, c: Client, now: int)
    requires PolicyInv(policy, g) && Enabled(g, OutsideKick(c, now)) && !Misses(policy, g, OutsideKick(c, now))
    ensures PolicyInv(policy, Next(g, policy, OutsideKick(c, now)))
  {
    var e := OutsideKick(c, now);
    BaseStep(policy, g, e);
    DeleteKeepsPolicy(policy, g.core.users, g.loop, c.user, [c], now);
    if SharesArray(g.core.users, g.loop, c.user) && g.loop.task.NewClient? {
      var kept := Keep(g.core.users.data[c.user].clients, Addrs([c]));
      forall d | d in kept && Conflicts(policy, d.platform, g.loop.task.c.platform)
        ensures d.addr in Addrs(g.loop.picked) || d in Overwritten(g.loop.slice, kept)[g.loop.next..]
      {
        KeepMembers(g.core.users.data[c.user].clients, Addrs([c]));
        assert !Hidden(policy, g, c, d);
      }
    }
  }

  /** One reading keeps what the scan knows: the connection read is picked if it conflicts. */
  lemma ReadKeepsPolicy(policy: int, g: Gw)
    requires PolicyInv(policy, g) && Enabled(g, LoopRead)
    ensures PolicyInv(policy, Next(g, policy, LoopRead))
  {
    var h, c := Next(g, policy, LoopRead), g.loop.slice[g.loop.next];
    assert g.loop.slice[g.loop.next..] == [c] + h.loop.slice[h.loop.next..];
    assert Addrs(h.loop.picked) >= Addrs(g.loop.picked);
    assert Conflicts(policy, c.platform, g.loop.task.Platform()) ==> h.loop.picked[|g.loop.picked|] == c;
  }

  lemma PolicyStep(policy: int, g: Gw, e: Event)
    requires PolicyInv(policy, g) && Enabled(g, e) && !Misses(policy, g, e)
    ensures PolicyInv(policy, Next(g, policy, e))
  {
    var users := g.core.users;
    BaseStep(policy, g, e);
    match e
    case TakeRegister =>
      var c := g.registers[0];
      OnPlatformMembers(Clients(users, c.user), c.platform);
    case TakeUnregister(now) =>
      var c := g.core.unregisters[0];
      DeleteKeepsPolicy(policy, users, g.loop, c.user, [c], now);
    case LoopRead => ReadKeepsPolicy(policy, g);
    case LoopRemove(now) =>
      var t := g.loop.task;
      DeleteKeepsPolicy(policy, users, g.loop, t.User(), g.loop.victims, now);
      KeepMembers(Clients(users, t.User()), Addrs(g.loop.victims));
    case LoopStore(now) =>
      var c := g.loop.c;
      AppendAllowed(policy, Clients(users, c.user), c);
    case OutsideKick(c, now) => KickKeepsPolicy(policy, g, c, now);
    case Report(t) =>
      assert forall u :: Clients(t, u) == Clients(users, u);
    case _ =>
  }

  /** Only policies 4 and 5 have a scan that could miss something. */
  ghost predicate MissesNothing(policy: int, run: seq<Gw>, events: seq<Event>, k: nat)
    requires IsRun(policy, run, events) && k < |run|
  {
    policy == SAME_CLASS_KICK || policy == PC_AND_OTHER ==> forall i :: 0 <= i < k ==> !Misses(policy, run[i], events[i])
  }

  lemma {:induction false} PolicyHolds(policy: int, run: seq<Gw>, events: seq<Event>, k: nat)
    requires IsRun(policy, run, events) && k < |run| && MissesNothing(policy, run, events, k)
    ensures PolicyInv(policy, run[k])
  {
    if k > 0 {
      PolicyHolds(policy, run, events, k - 1);
      PolicyStep(policy, run[k - 1], events[k - 1]);
    }
  }

  /** No user ever has two connections that the policy forbids together: under policy 1 in every
      run, with stale cross-node kicks and kicks from outside falling anywhere; under policies 4
      and 5 in every run in which no kick from outside makes a scan miss a connection. */
  lemma NoForbiddenPair(policy: int, run: seq<Gw>, events: seq<Event>, k: nat, user: UserID, i: nat, j: nat)
    requires IsRun(policy, run, events) && k < |run| && MissesNothing(policy, run, events, k)
    requires user in run[k].core.users.data
    requires i < j < |run[k].core.users.data[user].clients|
    ensures var cs := run[k].core.users.data[user].clients;
            && (policy == SAME_TERMINAL_KICK ==> cs[i].platform != cs[j].platform)
            && (policy == SAME_CLASS_KICK ==> Platforms.ClassOf(cs[i].platform) != Platforms.ClassOf(cs[j].platform))
            && (policy == PC_AND_OTHER ==> Platforms.IsPC(cs[i].platform) || Platforms.IsPC(cs[j].platform))
  {
    PolicyHolds(policy, run, events, k);
  }

  /** With distinct addresses a registration removes exactly the conflicting connections, keeps the
      others in order with the newcomer last, and touches no other user: policy 1 removes those on the
      newcomer's platform, policy 4 those of its class, policy 5 those that are no PCs if it is no PC,
      and any other policy none. */
  lemma RegisterIsExact(core: Core, policy: int, c: Client, t1: int, t2: int)
    requires DistinctAddrs(Clients(core.users, c.user))
    ensures var list := Register(core, policy, c, t1, t2).users;
            forall d :: d in Clients(core.users, c.user) ==>
              (d in Clients(list, c.user)[..|Clients(list, c.user)| - 1]
               <==> if policy == 1 then d.platform != c.platform
                    else if policy == 4 then Platforms.ClassOf(d.platform) != Platforms.ClassOf(c.platform)
                    else if policy == 5 then Platforms.IsPC(d.platform) || Platforms.IsPC(c.platform)
                    else true)
    ensures var users := Register(core, policy, c, t1, t2).users;
            && Clients(users, c.user) == Compatible(policy, Clients(core.users, c.user), c.platform) + [c]
            && forall u :: u != c.user ==>
                 (u in users.data <==> u in core.users.data) && (u in users.data ==> users.data[u] == core.users.data[u])
  {
    if c.user in core.users.data {
      var cs := Clients(core.users, c.user);
      var snapshot := OnPlatform(cs, c.platform);
      var victims := Victims(policy, snapshot != [], snapshot, cs, c.platform);
      VictimsAreConflicts(policy, cs, c.platform);
      KeepCompatible(policy, cs, cs, victims, c.platform);
      if victims == [] { KeepAll(cs, Addrs([])); }
      CompatibleMembers(policy, cs, c.platform);
    }
  }

  // ---- The loop on its own ------------------------------------------------------------------------------

  /** How far the loop is from being idle, and how much it has to do at its present point. */
  function Stage(loop: Loop): nat
  {
    match loop
    case Idle => 0
    case Store(_, _) => 1
    case Closing(_, _) => 2
    case Remove(_, _) => 3
    case Reading(_, _, _, _) => 4
    case Check(_, _, _) => 5
  }

  function Work(g: Gw): nat
  {
    match g.loop
    case Reading(_, slice, next, _) => if next < |slice| then |slice| - next else 0
    case Closing(_, left) => 2 * |left| + if left != [] && left[0] !in g.core.closed then 1 else 0
    case _ => 0
  }

  /** The loop's next step. */
  function OwnStep(g: Gw, t1: int, t2: int): Event
    requires !g.loop.Idle?
  {
    match g.loop
    case Check(_, _, _) => LoopCheck
    case Reading(_, slice, next, _) => if next < |slice| then LoopRead else LoopEnd
    case Remove(_, _) => LoopRemove(t1)
    case Closing(_, left) => if left != [] then LoopClose else LoopDone
    case Store(_, _) => LoopStore(t2)
  }

  /** The loop finishes its task with nothing falling in between. */
  ghost function Alone(g: Gw, policy: int, t1: int, t2: int): Gw
    requires Base(policy, g)
    decreases Stage(g.loop), Work(g)
  {
    if g.loop.Idle? then g
    else
      BaseStep(policy, g, OwnStep(g, t1, t2));
      Alone(Next(g, policy, OwnStep(g, t1, t2)), policy, t1, t2)
  }

  lemma AloneStep(g: Gw, policy: int, t1: int, t2: int)
    requires Base(policy, g) && !g.loop.Idle?
    ensures var h := Next(g, policy, OwnStep(g, t1, t2));
            Base(policy, h) && Alone(g, policy, t1, t2) == Alone(h, policy, t1, t2)
  {
    BaseStep(policy, g, OwnStep(g, t1, t2));
  }

  /** Reading to the end picks the conflicting connections of the rest of the slice. */
  lemma {:induction false} AloneReads(g: Gw, policy: int, t1: int, t2: int)
    requires Base(policy, g) && g.loop.Reading?
    ensures var victims := g.loop.picked + Scan(policy, g.loop.slice[g.loop.next..], g.loop.task.Platform());
            var h := g.(loop := Remove(g.loop.task, victims));
            Base(policy, h) && Alone(g, policy, t1, t2) == Alone(h, policy, t1, t2)
    decreases Stage(g.loop), Work(g)
  {
    AloneStep(g, policy, t1, t2);
    if g.loop.next < |g.loop.slice| {
      var h := Next(g, policy, LoopRead);
      AloneReads(h, policy, t1, t2);
      ReadThenScan(policy, g.loop.slice, g.loop.next, g.loop.picked, g.loop.task.Platform());
    } else {
      assert g.loop.picked + [] == g.loop.picked;
    }
  }

  lemma ReadThenScan(policy: int, slice: seq<Client>, next: nat, picked: seq<Client>, platform: int)
    requires next < |slice|
    ensures var more := if Conflicts(policy, slice[next].platform, platform) then [slice[next]] else [];
            picked + more + Scan(policy, slice[next + 1..], platform) == picked + Scan(policy, slice[next..], platform)
  {
    assert slice[next..] == [slice[next]] + slice[next + 1..];
    assert [slice[next]][..0] == [];
    ScanConcat(policy, [slice[next]], slice[next + 1..], platform);
  }

  lemma {:induction false} CloseAllHead(core: Core, c: Client, rest: seq<Client>)
    ensures CloseAll(core, [c] + rest) == CloseAll(Close(core, c), rest)
  {
    if rest == [] {
      assert [c] + rest == [c] && [c][..0] == [] && CloseAll(core, []) == core;
    } else {
      CloseAllHead(core, c, rest[..|rest| - 1]);
      assert ([c] + rest)[..|rest|] == [c] + rest[..|rest| - 1];
    }
  }

  /** Closing one by one closes them all. */
  lemma {:induction false} AloneCloses(g: Gw, policy: int, t1: int, t2: int)
    requires Base(policy, g) && g.loop.Closing?
    ensures var h := g.(core := CloseAll(g.core, g.loop.left), loop := Closing(g.loop.task, []));
            Base(policy, h) && Alone(g, policy, t1, t2) == Alone(h, policy, t1, t2)
    decreases Work(g)
  {
    if g.loop.left != [] {
      var c, rest := g.loop.left[0], g.loop.left[1..];
      assert g.loop.left == [c] + rest;
      CloseAllHead(g.core, c, rest);
      AloneStep(g, policy, t1, t2);
      var h := Next(g, policy, LoopClose);
      AloneCloses(h, policy, t1, t2);
      if c !in g.core.closed { CloseAllHead(h.core, c, rest); }
    }
  }

  /** From the removal on, the newcomer's victims go and the newcomer is stored. */
  lemma AloneRemoves(g: Gw, policy: int, t1: int, t2: int)
    requires Base(policy, g) && g.loop.Remove? && g.loop.task.NewClient?
    ensures var h, c := Alone(g, policy, t1, t2), g.loop.task.c;
            && h.core == StoreClient(RemoveAndKick(g.core, c.user, g.loop.victims, t1), c, false, t2) && h.loop.Idle?
            && h.registers == g.registers && h.registered == g.registered + {c} && h.accepted == g.accepted
  {
    AloneStep(g, policy, t1, t2);
    var h := Next(g, policy, LoopRemove(t1));
    AloneCloses(h, policy, t1, t2);
    h := h.(core := CloseAll(h.core, h.loop.left), loop := Closing(h.loop.task, []));
    AloneStep(h, policy, t1, t2);
    AloneStep(Next(h, policy, LoopDone), policy, t1, t2);
  }

  /** The loop's small steps, when nothing falls between them, are the whole registration. */
  lemma UninterruptedRegister(g: Gw, policy: int, t1: int, t2: int)
    requires Base(policy, g) && g.loop.Idle? && g.registers != []
    ensures Base(policy, Next(g, policy, TakeRegister))
    ensures var h, c := Alone(Next(g, policy, TakeRegister), policy, t1, t2), g.registers[0];
            && h.core == Register(g.core, policy, c, t1, t2) && h.loop.Idle?
            && h.registers == g.registers[1..] && h.registered == g.registered + {c} && h.accepted == g.accepted
  {
    BaseStep(policy, g, TakeRegister);
    var h, c := Next(g, policy, TakeRegister), g.registers[0];
    AloneStep(h, policy, t1, t2);
    if h.loop.Check? {
      h := Next(h, policy, LoopCheck);
      if h.loop.Reading? {
        AloneReads(h, policy, t1, t2);
        assert h.loop.slice[0..] == h.loop.slice;
        var victims := Scan(policy, h.loop.slice, c.platform);
        assert [] + victims == victims;
        h := h.(loop := Remove(h.loop.task, victims));
      }
      AloneRemoves(h, policy, t1, t2);
    }
  }

  // ---- Reachable states -----------------------------------------------------------------------------------

  ghost predicate Reaches(policy: int, g: Gw)
  {
    exists run, events :: IsRun(policy, run, events) && run[|events|] == g
  }

  lemma InitialReaches(policy: int)
    ensures Reaches(policy, INITIAL)
  {
    var none: seq<Event> := [];
    assert IsRun(policy, [INITIAL], none) && [INITIAL][|none|] == INITIAL;
  }

  lemma Extend(policy: int, g: Gw, e: Event)
    requires Reaches(policy, g) && Enabled(g, e)
    ensures Reaches(policy, Next(g, policy, e))
  {
    var run, events :| IsRun(policy, run, events) && run[|events|] == g;
    var run', events' := run + [Next(g, policy, e)], events + [e];
    assert IsRun(policy, run', events') && run'[|events'|] == Next(g, policy, e);
  }

  lemma ReachableBase(policy: int, g: Gw)
    requires Reaches(policy, g)
    ensures Base(policy, g)
  {
    var run, events :| IsRun(policy, run, events) && run[|events|] == g;
    BaseHolds(policy, run, events, |events|);
  }

  lemma {:induction false} AloneReaches(policy: int, g: Gw, t1: int, t2: int)
    requires Reaches(policy, g) && Base(policy, g)
    ensures Reaches(policy, Alone(g, policy, t1, t2))
    decreases Stage(g.loop), Work(g)
  {
    if !g.loop.Idle? {
      AloneStep(g, policy, t1, t2);
      Extend(policy, g, OwnStep(g, t1, t2));
      AloneReaches(policy, Next(g, policy, OwnStep(g, t1, t2)), t1, t2);
    }
  }

  /** An uninterrupted registration of a fresh connection is reachable from any idle moment. */
  lemma RegisterReaches(policy: int, g: Gw, c: Client, t1: int, t2: int) returns (h: Gw)
    requires Reaches(policy, g) && g.loop.Idle? && g.registers == [] && c !in g.accepted
    ensures Reaches(policy, h) && h.loop.Idle? && h.registers == []
    ensures h.core == Register(g.core, policy, c, t1, t2)
    ensures h.accepted == g.accepted + {c} && h.registered == g.registered + {c}
  {
    Extend(policy, g, Accept(c));
    var a := Next(g, policy, Accept(c));
    ReachableBase(policy, a);
    Extend(policy, a, TakeRegister);
    UninterruptedRegister(a, policy, t1, t2);
    AloneReaches(policy, Next(a, policy, TakeRegister), t1, t2);
    h := Alone(Next(a, policy, TakeRegister), policy, t1, t2);
  }
}
