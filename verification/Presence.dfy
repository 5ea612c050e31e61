/** The value-level meaning of the gateway's user map (internal/msggateway/user_map.go):
    what each operation does to the users' connection lists and to the state queue.
    The class UserMap is proved against these functions, and the run-level theorems
    (login policy, counters, status pipeline, renewal) are about them. */
module Presence {
  import opened Common

  type Addr = string

  /** One long connection. `conn` tells two connections apart even if an address were reused. */
  datatype Client = Client(conn: nat, user: UserID, platform: int, addr: Addr)

  /** The last report time of an entry; Never is the zero time of a fresh entry. */
  datatype Stamp = Never | At(t: int)

  datatype Entry = Entry(clients: seq<Client>, time: Stamp)

  datatype UserState = UserState(user: UserID, online: seq<int>, offline: seq<int>)

  datatype MapState = MapState(data: map<UserID, Entry>, ch: seq<UserState>)

  /** Capacity of the state queue. */
  const QUEUE_CAPACITY: nat := 10000

  function PlatformIDs(clients: seq<Client>): (ps: seq<int>)
    ensures |ps| == |clients|
  {
    seq(|clients|, i requires 0 <= i < |clients| => clients[i].platform)
  }

  function Clients(s: MapState, user: UserID): seq<Client>
  {
    if user in s.data then s.data[user].clients else []
  }

  function Current(s: MapState, user: UserID): seq<int>
  {
    PlatformIDs(Clients(s, user))
  }

  function Addrs(clients: seq<Client>): set<Addr>
  {
    set c | c in clients :: c.addr
  }

  /** The connections whose address is not in `del`, in order. */
  function Keep(clients: seq<Client>, del: set<Addr>): seq<Client>
  {
    if clients == [] then []
    else Keep(clients[..|clients| - 1], del)
         + (if clients[|clients| - 1].addr in del then [] else [clients[|clients| - 1]])
  }

  /** What a slice of the array shows after `kept` is written over the array's front: its length
      does not change, and behind `kept` the old elements stay. */
  function Overwritten(slice: seq<Client>, kept: seq<Client>): (now: seq<Client>)
    ensures |now| == |slice|
  {
    if |kept| >= |slice| then kept[..|slice|] else kept + slice[|kept|..]
  }

  /** The platforms of the connections whose address is in `del`, in order. */
  function Gone(clients: seq<Client>, del: set<Addr>): seq<int>
  {
    if clients == [] then []
    else Gone(clients[..|clients| - 1], del)
         + (if clients[|clients| - 1].addr in del then [clients[|clients| - 1].platform] else [])
  }

  /** A non-blocking send: a full queue drops the record. */
  predicate Accepts(s: MapState)
  {
    |s.ch| < QUEUE_CAPACITY
  }

  function Stamped(s: MapState, was: Stamp, now: int): Stamp
  {
    if Accepts(s) then At(now) else was
  }

  function Queued(s: MapState, r: UserState): seq<UserState>
  {
    if Accepts(s) then s.ch + [r] else s.ch
  }

  function SetRecord(s: MapState, c: Client): UserState
  {
    UserState(c.user, PlatformIDs(Clients(s, c.user) + [c]), [])
  }

  /** userMap.Set: append the connection and queue the new state. */
  function Set(s: MapState, c: Client, now: int): MapState
  {
    var was := if c.user in s.data then s.data[c.user].time else Never;
    MapState(s.data[c.user := Entry(Clients(s, c.user) + [c], Stamped(s, was, now))],
             Queued(s, SetRecord(s, c)))
  }

  function DeleteRecord(s: MapState, user: UserID, victims: seq<Client>): UserState
  {
    UserState(user, PlatformIDs(Keep(Clients(s, user), Addrs(victims))),
              Gone(Clients(s, user), Addrs(victims)))
  }

  /** DeleteClients changes nothing, and queues nothing, for an empty request or an unknown user. */
  predicate DeleteActs(s: MapState, user: UserID, victims: seq<Client>)
  {
    victims != [] && user in s.data
  }

  predicate DeletesUser(s: MapState, user: UserID, victims: seq<Client>)
  {
    DeleteActs(s, user, victims) && Keep(Clients(s, user), Addrs(victims)) == []
  }

  /** userMap.DeleteClients: drop every connection of the user with a listed address. */
  function Delete(s: MapState, user: UserID, victims: seq<Client>, now: int): MapState
  {
    if !DeleteActs(s, user, victims) then s
    else
      var kept := Keep(Clients(s, user), Addrs(victims));
      var ch := Queued(s, DeleteRecord(s, user, victims));
      if kept == [] then MapState(s.data - {user}, ch)
      else MapState(s.data[user := Entry(kept, Stamped(s, s.data[user].time, now))], ch)
  }

  /** A platform is connected here that the received change does not list. */
  predicate Outdated(s: MapState, user: UserID, platforms: seq<int>)
  {
    Forgets(Clients(s, user), platforms)
  }

  predicate Forgets(clients: seq<Client>, platforms: seq<int>)
  {
    exists c :: c in clients && c.platform !in platforms
  }

  /** userMap.RecvSubChange: correct a change that forgot a local connection. */
  function Recv(s: MapState, user: UserID, platforms: seq<int>, now: int): MapState
  {
    if !Outdated(s, user, platforms) then s
    else MapState(s.data[user := s.data[user].(time := Stamped(s, s.data[user].time, now))],
                  Queued(s, UserState(user, Current(s, user), [])))
  }

  /** The renewal picks exactly the entries whose last report is not after the deadline. */
  predicate Due(e: Entry, deadline: int)
  {
    e.time.Never? || e.time.t <= deadline
  }

  function Renewed(s: MapState, deadline: int, now: int): MapState
  {
    s.(data := map u | u in s.data :: if Due(s.data[u], deadline) then s.data[u].(time := At(now)) else s.data[u])
  }

  /** A renewal answer: one record for each due user, in any order, with its current platforms. */
  ghost predicate IsRenewal(s: MapState, deadline: int, rs: seq<UserState>)
  {
    && (forall i :: 0 <= i < |rs| ==>
          && rs[i].user in s.data && Due(s.data[rs[i].user], deadline)
          && rs[i] == UserState(rs[i].user, Current(s, rs[i].user), []))
    && (forall i, j :: 0 <= i < j < |rs| ==> rs[i].user != rs[j].user)
    && (forall u :: u in s.data && Due(s.data[u], deadline) ==> exists i :: 0 <= i < |rs| && rs[i].user == u)
  }

  /** Every entry holds at least one connection, and only connections of its own user. */
  ghost predicate WellFormed(s: MapState)
  {
    forall u :: u in s.data ==>
      s.data[u].clients != [] && forall c :: c in s.data[u].clients ==> c.user == u
  }

  // ---- The filter -------------------------------------------------------------------------

  lemma {:induction false} KeepMembers(clients: seq<Client>, del: set<Addr>)
    ensures forall c :: c in Keep(clients, del) <==> c in clients && c.addr !in del
  {
    if clients != [] {
      var front := clients[..|clients| - 1];
      KeepMembers(front, del);
      assert clients == front + [clients[|clients| - 1]];
    }
  }

  lemma {:induction false} KeepConcat(a: seq<Client>, b: seq<Client>, del: set<Addr>)
    ensures Keep(a + b, del) == Keep(a, del) + Keep(b, del)
  {
    if b == [] {
      assert a + b == a;
    } else {
      KeepConcat(a, b[..|b| - 1], del);
      assert (a + b)[..|a + b| - 1] == a + b[..|b| - 1];
    }
  }

  lemma {:induction false} KeepAll(clients: seq<Client>, del: set<Addr>)
    requires forall c :: c in clients ==> c.addr !in del
    ensures Keep(clients, del) == clients
  {
    if clients != [] {
      var front, last := clients[..|clients| - 1], clients[|clients| - 1];
      assert clients == front + [last];
      assert last in clients && forall c :: c in front ==> c in clients;
      KeepAll(front, del);
    }
  }

  lemma {:induction false} KeepLength(clients: seq<Client>, del: set<Addr>)
    ensures |Keep(clients, del)| <= |clients|
  {
    if clients != [] { KeepLength(clients[..|clients| - 1], del); }
  }

  /** A removal of nothing before position `next` keeps every survivor that the slice shows from
      there on in sight. */
  lemma SightKept(list: seq<Client>, slice: seq<Client>, next: nat, del: set<Addr>)
    requires list <= slice && next <= |slice|
    requires forall q :: 0 <= q < next && q < |list| ==> list[q].addr !in del
    ensures var kept := Keep(list, del);
            forall d :: d in kept && d in slice[next..] ==> d in Overwritten(slice, kept)[next..]
  {
    if next <= |list| {
      KeepFront(list, next, del);
      forall d | d in Keep(list, del) && d in slice[next..] ensures d in Overwritten(slice, Keep(list, del))[next..] {
        SurvivorInSight(list, slice, next, del, d);
      }
    } else {
      KeepAll(list, del);
      assert Overwritten(slice, list) == slice;
    }
  }

  lemma KeepFront(list: seq<Client>, next: nat, del: set<Addr>)
    requires next <= |list| && forall q :: 0 <= q < next ==> list[q].addr !in del
    ensures Keep(list, del) == list[..next] + Keep(list[next..], del)
  {
    KeepConcat(list[..next], list[next..], del);
    KeepAll(list[..next], del);
    assert list == list[..next] + list[next..];
  }

  lemma SurvivorInSight(list: seq<Client>, slice: seq<Client>, next: nat, del: set<Addr>, d: Client)
    requires list <= slice && next <= |list| && Keep(list, del) == list[..next] + Keep(list[next..], del)
    requires d in Keep(list, del) && d in slice[next..]
    ensures d in Overwritten(slice, Keep(list, del))[next..]
  {
    KeepMembers(list, del);
    KeepMembers(list[next..], del);
    KeepLength(list, del);
    var p :| 0 <= p < |slice[next..]| && slice[next..][p] == d;
    if next + p < |list| {
      assert list[next..][p] == d;
      ShownInFront(slice, list[..next], Keep(list[next..], del), d);
    } else {
      ShownBehind(slice, Keep(list, del), next, next + p);
    }
  }

  lemma ShownInFront(slice: seq<Client>, front: seq<Client>, kept: seq<Client>, d: Client)
    requires |front + kept| <= |slice| && d in kept
    ensures d in Overwritten(slice, front + kept)[|front|..]
  {
    var j :| 0 <= j < |kept| && kept[j] == d;
    InTail(Overwritten(slice, front + kept), |front|, |front| + j);
  }

  lemma ShownBehind(slice: seq<Client>, kept: seq<Client>, next: nat, p: nat)
    requires |kept| <= p < |slice| && next <= p
    ensures slice[p] in Overwritten(slice, kept)[next..]
  {
    InTail(Overwritten(slice, kept), next, p);
  }

  lemma InTail(s: seq<Client>, next: nat, p: nat)
    requires next <= p < |s|
    ensures s[p] in s[next..]
  {
    assert s[next..][p - next] == s[p];
  }

  lemma {:induction false} GoneMembers(clients: seq<Client>, del: set<Addr>)
    ensures forall p :: p in Gone(clients, del) <==> exists c :: c in clients && c.addr in del && c.platform == p
  {
    if clients != [] {
      var front, last := clients[..|clients| - 1], clients[|clients| - 1];
      GoneMembers(front, del);
      assert clients == front + [last];
      forall p ensures p in Gone(clients, del) <==> exists c :: c in clients && c.addr in del && c.platform == p {
        if c :| c in clients && c.addr in del && c.platform == p {
          assert c in front || c == last;
        }
      }
    }
  }

  /** Removed platforms are listed in order. */
  lemma {:induction false} GoneConcat(a: seq<Client>, b: seq<Client>, del: set<Addr>)
    ensures Gone(a + b, del) == Gone(a, del) + Gone(b, del)
  {
    if b == [] {
      assert a + b == a;
    } else {
      GoneConcat(a, b[..|b| - 1], del);
      assert (a + b)[..|a + b| - 1] == a + b[..|b| - 1];
    }
  }

  /** A removal keeps the survivors' platforms and reports exactly what may have disappeared. */
  lemma DeletePlatforms(s: MapState, user: UserID, victims: seq<Client>)
    ensures forall p :: p in PlatformIDs(Clients(s, user)) ==>
              p in DeleteRecord(s, user, victims).online || p in DeleteRecord(s, user, victims).offline
    ensures forall p :: p in DeleteRecord(s, user, victims).online ==> p in PlatformIDs(Clients(s, user))
  {
    var cs, del := Clients(s, user), Addrs(victims);
    var kept := Keep(cs, del);
    KeepMembers(cs, del);
    GoneMembers(cs, del);
    forall p | p in PlatformIDs(cs) ensures p in PlatformIDs(kept) || p in Gone(cs, del) {
      var i :| 0 <= i < |cs| && cs[i].platform == p;
      if cs[i].addr !in del {
        assert cs[i] in kept;
        var j :| 0 <= j < |kept| && kept[j] == cs[i];
        assert PlatformIDs(kept)[j] == p;
      }
    }
    forall p | p in PlatformIDs(kept) ensures p in PlatformIDs(cs) {
      var j :| 0 <= j < |kept| && kept[j].platform == p;
      assert kept[j] in cs;
      var i :| 0 <= i < |cs| && cs[i] == kept[j];
      assert PlatformIDs(cs)[i] == p;
    }
  }

  // ---- What every operation reports -------------------------------------------------------

  lemma SetReports(s: MapState, c: Client, now: int, u: UserID)
    ensures var t := Set(s, c, now);
            && t.ch == Queued(s, SetRecord(s, c))
            && SetRecord(s, c) == UserState(c.user, Current(t, c.user), [])
            && Current(t, u) == if u == c.user then Current(s, u) + [c.platform] else Current(s, u)
  {
  }

  lemma DeleteReports(s: MapState, user: UserID, victims: seq<Client>, now: int, u: UserID)
    requires DeleteActs(s, user, victims)
    ensures var t := Delete(s, user, victims, now);
            && t.ch == Queued(s, DeleteRecord(s, user, victims))
            && DeleteRecord(s, user, victims) == UserState(user, Current(t, user), Gone(Clients(s, user), Addrs(victims)))
            && Current(t, u) == if u == user then DeleteRecord(s, user, victims).online else Current(s, u)
  {
  }

  lemma RecvReports(s: MapState, user: UserID, platforms: seq<int>, now: int, u: UserID)
    requires Outdated(s, user, platforms)
    ensures var t := Recv(s, user, platforms, now);
            t.ch == Queued(s, UserState(user, Current(s, user), [])) && Current(t, u) == Current(s, u)
  {
  }

  /** A received change is corrected exactly when the user is connected here on a platform that the
      change does not list; then its present platforms are queued, if there is room. */
  lemma CorrectionIsExact(s: MapState, user: UserID, platforms: seq<int>, now: int)
    ensures Outdated(s, user, platforms) <==> user in s.data && !(Elems(Current(s, user)) <= Elems(platforms))
    ensures var t, right := Recv(s, user, platforms, now), user !in s.data || Elems(Current(s, user)) <= Elems(platforms);
            && (right ==> t == s)
            && t.data.Keys == s.data.Keys && (forall u :: u in s.data ==> t.data[u].clients == s.data[u].clients)
            && (!right ==> t.ch == if |s.ch| < 10000 then s.ch + [UserState(user, Current(s, user), [])] else s.ch)
  {
    var cs := Clients(s, user);
    forall c | c in cs && c.platform !in platforms ensures !(Elems(Current(s, user)) <= Elems(platforms)) {
      var i :| 0 <= i < |cs| && cs[i] == c;
      assert Current(s, user)[i] == c.platform && c.platform in Elems(Current(s, user)) && c.platform !in Elems(platforms);
    }
    if p :| p in Elems(Current(s, user)) && p !in Elems(platforms) {
      var i :| 0 <= i < |cs| && Current(s, user)[i] == p;
      assert cs[i] in cs && cs[i].platform !in platforms;
    }
  }

  // ---- What every operation keeps -----------------------------------------------------------

  lemma SetWellFormed(s: MapState, c: Client, now: int)
    requires WellFormed(s)
    ensures WellFormed(Set(s, c, now))
  {
  }

  lemma DeleteWellFormed(s: MapState, user: UserID, victims: seq<Client>, now: int)
    requires WellFormed(s)
    ensures WellFormed(Delete(s, user, victims, now))
    ensures DeletesUser(s, user, victims) <==> user in s.data && user !in Delete(s, user, victims, now).data
  {
    KeepMembers(Clients(s, user), Addrs(victims));
  }
}
