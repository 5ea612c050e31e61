/** The user map object (internal/msggateway/user_map.go): entries whose connection lists share
    backing arrays with slices handed out earlier, compacted in place on removal. Every method is
    proved against module Presence. */
module UserMap {
  import opened Common
  import opened Presence
  import opened LoginPolicy

  /** One user's entry: a slice (an array and a length) and the last report time. */
  class UserPlatform {
    ghost const owner: UserID
    var backing: array<Client>
    var len: nat
    var time: Stamp

    ghost predicate Valid()
      reads this
    {
      len <= backing.Length
    }

    ghost function List(): seq<Client>
      requires Valid()
      reads this, backing
    {
      backing[..len]
    }

    /** The entry belongs to the user, and its objects to the map with these objects and arrays. */
    ghost predicate Owned(user: UserID, objects: set<object>, arrays: map<array<Client>, UserID>)
      reads this
    {
      && Valid() && owner == user && this in objects && backing in objects
      && backing in arrays && arrays[backing] == user
    }

    ghost predicate Holds(e: Entry)
      reads this, backing
    {
      Valid() && List() == e.clients && time == e.time
    }

    /** Every slice of the array, of any length down to that of `kept`, shows `kept` written over its
        front. */
    twostate predicate Overwrote(kept: seq<Client>)
      reads this, backing
    {
      && backing == old(backing)
      && forall n :: |kept| <= n <= backing.Length ==> backing[..n] == Overwritten(old(backing[..n]), kept)
    }

    constructor (c: Client)
      ensures Valid() && fresh(backing) && List() == [c] && time == Never && owner == c.user
    {
      owner := c.user;
      backing := new Client[1](_ => c);
      len := 1;
      time := Never;
    }

    /** Append: in place while the array has room, else into a larger copy. */
    method Append(c: Client)
      requires Valid()
      modifies this`backing, this`len, backing
      ensures Valid() && List() == old(List()) + [c] && (backing == old(backing) || fresh(backing))
    {
      if len < backing.Length {
        backing[len] := c;
      } else {
        var larger := new Client[2 * len + 1](i requires 0 <= i < 2 * len + 1 reads this, backing =>
          if i < backing.Length then backing[i] else c);
        backing := larger;
      }
      len := len + 1;
    }

    method PlatformIDList() returns (ids: seq<int>)
      requires Valid()
      ensures ids == PlatformIDs(List())
    {
      ids := [];
      for i := 0 to len
        invariant ids == PlatformIDs(backing[..i])
      {
        ids := ids + [backing[i].platform];
      }
    }

    /** Whether some connection's platform is not in the list. */
    method Misses(platforms: seq<int>) returns (missing: bool)
      requires Valid()
      ensures missing == Forgets(List(), platforms)
    {
      var local: set<int> := {};
      for i := 0 to len
        invariant forall q :: q in local <==> exists j :: 0 <= j < i && backing[j].platform == q
      {
        local := local + {backing[i].platform};
      }
      ghost var all := local;
      for i := 0 to |platforms|
        invariant forall q :: q in local <==> q in all && q !in platforms[..i]
      {
        local := local - {platforms[i]};
      }
      assert platforms[..|platforms|] == platforms;
      missing := local != {};
      ghost var list := List();
      assert forall j :: 0 <= j < len ==> list[j] == backing[j] && list[j] in list;
      forall c | c in list && c.platform !in platforms ensures c.platform in local {
        var j :| 0 <= j < |list| && list[j] == c;
        assert backing[j].platform == c.platform;
      }
      forall q | q in local ensures exists c :: c in list && c.platform !in platforms {
        var j :| 0 <= j < len && backing[j].platform == q;
        assert list[j] in list && list[j].platform == q;
      }
    }

    /** The in-place compaction. The survivors are moved to the front of the shared array; what a
        slice handed out earlier sees is the survivors followed by the old tail. */
    method Compact(del: set<Addr>) returns (offline: seq<int>)
      requires Valid()
      modifies this`len, backing
      ensures Valid() && List() == Keep(old(List()), del) && offline == Gone(old(List()), del)
      ensures len <= old(len) && backing[..] == Overwritten(old(backing[..]), List())
    {
      ghost var was := backing[..];
      ghost var kept: seq<Client> := [];
      var n := len;
      len, offline := 0, [];
      for i := 0 to n
        invariant kept == Keep(was[..i], del) && len == |kept| <= i && offline == Gone(was[..i], del)
        invariant forall j :: 0 <= j < len ==> backing[j] == kept[j]
        invariant forall j :: len <= j < backing.Length ==> backing[j] == was[j]
      {
        var c := backing[i];
        OneMore(was, i, del);
        if c.addr in del {
          offline := offline + [c.platform];
        } else {
          backing[len] := c;
          len := len + 1;
          kept := kept + [c];
        }
      }
      AllShown(was, kept, backing[..]);
    }
  }

  lemma AllShown(was: seq<Client>, kept: seq<Client>, now: seq<Client>)
    requires |kept| <= |was| == |now|
    requires forall j :: 0 <= j < |kept| ==> now[j] == kept[j]
    requires forall j :: |kept| <= j < |was| ==> now[j] == was[j]
    ensures now == Overwritten(was, kept) && now[..|kept|] == kept
  {
  }

  lemma OneMore(clients: seq<Client>, i: nat, del: set<Addr>)
    requires i < |clients|
    ensures Keep(clients[..i + 1], del) == Keep(clients[..i], del) + if clients[i].addr in del then [] else [clients[i]]
    ensures Gone(clients[..i + 1], del) == Gone(clients[..i], del) + if clients[i].addr in del then [clients[i].platform] else []
  {
    assert clients[..i + 1][..i] == clients[..i];
  }

  /** A slice of the first n places, handed out before a compaction, shows the survivors written over
      its own front. */
  lemma SliceShows(was: seq<Client>, kept: seq<Client>, n: nat)
    requires |kept| <= n <= |was|
    ensures Overwritten(was, kept)[..n] == Overwritten(was[..n], kept)
  {
  }

  lemma AllSlicesShow(was: seq<Client>, kept: seq<Client>, now: seq<Client>)
    requires |kept| <= |was| && now == Overwritten(was, kept)
    ensures forall n :: |kept| <= n <= |was| ==> now[..n] == Overwritten(was[..n], kept)
  {
    forall n | |kept| <= n <= |was| ensures now[..n] == Overwritten(was[..n], kept) { SliceShows(was, kept, n); }
  }

  method AddrSet(clients: seq<Client>) returns (addrs: set<Addr>)
    ensures addrs == Addrs(clients)
  {
    addrs := {};
    for i := 0 to |clients|
      invariant addrs == Addrs(clients[..i])
    {
      assert clients[..i + 1] == clients[..i] + [clients[i]];
      addrs := addrs + {clients[i].addr};
    }
    assert clients[..|clients|] == clients;
  }

  /** An object holds a map if it does so entry by entry. */
  lemma ViewIs(users: Users, s: MapState, user: UserID)
    requires users.Valid() && users.Others(s, user) && users.ch == s.ch
    requires user in users.data <==> user in s.data
    requires user in users.data ==> users.data[user].Holds(s.data[user])
    ensures users.View() == s
  {
    assert users.View().data == s.data;
  }

  lemma OthersStay(users: Users, next: MapState, user: UserID)
    requires users.Valid() && SameButFor(users.View(), next, user)
    ensures users.Others(next, user)
  {
  }

  class Users {
    var data: map<UserID, UserPlatform>
    var ch: seq<UserState>

    ghost var Repr: set<object>
    ghost var arrays: map<array<Client>, UserID>

    /** Each entry and each backing array belongs to one user; Repr holds all the objects. */
    ghost predicate Valid()
      reads this, Repr
      ensures Valid() ==> this in Repr
    {
      && this in Repr
      && forall u :: u in data ==> data[u] in Repr && data[u].backing in Repr && data[u].Owned(u, Repr, arrays)
    }

    ghost function View(): MapState
      requires Valid()
      reads this, Repr
    {
      MapState(map u | u in data :: Entry(data[u].List(), data[u].time), ch)
    }

    constructor ()
      ensures Valid() && fresh(Repr) && View() == MapState(map[], [])
    {
      data := map[];
      ch := [];
      Repr := {this};
      arrays := map[];
    }

    /** The other users' entries are those of the map `s`. */
    ghost predicate Others(s: MapState, user: UserID)
      requires Valid()
      reads this, Repr
    {
      forall u :: u != user ==> (u in data <==> u in s.data) && (u in data ==> data[u].Holds(s.data[u]))
    }

    /** A connection of a user already in the map. */
    method Extend(c: Client, ghost next: MapState)
      requires Valid() && Others(next, c.user) && c.user in data
      modifies data[c.user], data[c.user].backing, this`Repr, this`arrays
      ensures Valid() && fresh(Repr - old(Repr)) && Others(next, c.user)
      ensures data[c.user].List() == old(data[c.user].List()) + [c] && data[c.user].time == old(data[c.user].time)
    {
      data[c.user].Append(c);
      Repr := Repr + {data[c.user].backing};
      arrays := arrays[data[c.user].backing := c.user];
    }

    /** The first connection of a user. */
    method Create(c: Client, ghost next: MapState)
      requires Valid() && Others(next, c.user)
      modifies this`data, this`Repr, this`arrays
      ensures Valid() && fresh(Repr - old(Repr)) && Others(next, c.user)
      ensures c.user in data && data[c.user].List() == [c] && data[c.user].time == Never
    {
      var p := new UserPlatform(c);
      data := data[c.user := p];
      Repr := Repr + {p, p.backing};
      arrays := arrays[p.backing := c.user];
    }

    /** Compact the user's list and leave the map as it is. A slice handed out earlier shows the
        survivors written over its front. */
    method CompactEntry(user: UserID, del: set<Addr>, ghost next: MapState) returns (offline: seq<int>)
      requires Valid() && Others(next, user) && user in data
      modifies data[user], data[user].backing
      ensures Valid() && Others(next, user)
      ensures var p := data[user];
              && p.List() == Keep(old(p.List()), del) && offline == Gone(old(p.List()), del) && p.time == old(p.time)
              && p.backing == old(p.backing) && p.backing[..] == Overwritten(old(p.backing[..]), p.List())
    {
      offline := data[user].Compact(del);
    }

    /** Compact the user's list; an emptied entry leaves the map but is still returned. A slice handed
        out earlier shows the survivors written over the front of the array. */
    method Shrink(user: UserID, del: set<Addr>, ghost next: MapState) returns (p: UserPlatform, offline: seq<int>)
      requires Valid() && Others(next, user) && user in data
      modifies this`data, data[user], data[user].backing
      ensures Valid() && Others(next, user)
      ensures p == old(data)[user] && p.Owned(user, Repr, arrays) && p in Repr && p.backing in Repr
      ensures p.List() == Keep(old(p.List()), del) && offline == Gone(old(p.List()), del) && p.time == old(p.time)
      ensures p.backing == old(p.backing) && p.backing[..] == Overwritten(old(p.backing[..]), p.List())
      ensures if p.List() == [] then user !in data else user in data && data[user] == p
    {
      p := data[user];
      offline := CompactEntry(user, del, next);
      if p.len == 0 {
        data := data - {user};
      }
    }

    /** Queue the entry's state unless the queue is full. The entry may have left the map. */
    method Push(user: UserID, p: UserPlatform, offline: seq<int>, now: int, ghost next: MapState)
      requires Valid() && Others(next, user) && p.Owned(user, Repr, arrays)
      modifies this`ch, p`time
      ensures Valid() && Others(next, user)
      ensures ch == if |old(ch)| < QUEUE_CAPACITY then old(ch) + [UserState(user, PlatformIDs(p.List()), offline)] else old(ch)
      ensures p.time == if |old(ch)| < QUEUE_CAPACITY then At(now) else old(p.time)
    {
      var online := p.PlatformIDList();
      if |ch| < QUEUE_CAPACITY {
        ch := ch + [UserState(user, online, offline)];
        p.time := At(now);
      }
    }

    /** GetAll: not a copy, but the entry's own array and length. */
    method GetAll(user: UserID) returns (slice: array?<Client>, n: nat, ok: bool)
      requires Valid()
      ensures ok == (user in View().data)
      ensures if ok then slice == data[user].backing && n == data[user].len else slice == null && n == 0
    {
      if user in data { return data[user].backing, data[user].len, true; }
      return null, 0, false;
    }

    /** Get: a copy of the user's connections on one platform, and whether the user and any of them exist. */
    method Get(user: UserID, platform: int) returns (clients: seq<Client>, userOK: bool, clientOK: bool)
      requires Valid()
      ensures userOK == (user in View().data) && clients == OnPlatform(Clients(View(), user), platform)
      ensures clientOK == (clients != [])
    {
      var all, n, ok := GetAll(user);
      clients := [];
      if ok {
        for i := 0 to n
          invariant clients == OnPlatform(all[..i], platform)
        {
          assert all[..i + 1][..i] == all[..i];
          if all[i].platform == platform {
            clients := clients + [all[i]];
          }
        }
      }
      userOK, clientOK := ok, |clients| > 0;
    }

    method Set(c: Client, now: int)
      requires Valid()
      modifies Repr
      ensures Valid() && View() == Presence.Set(old(View()), c, now)
      ensures fresh(Repr - old(Repr))
    {
      ghost var was := View();
      ghost var next := Presence.Set(was, c, now);
      OthersStay(this, next, c.user);
      assert [] + [c] == [c];
      if c.user in data {
        Extend(c, next);
      } else {
        Create(c, next);
      }
      Push(c.user, data[c.user], [], now, next);
      ViewIs(this, next, c.user);
    }

    /** DeleteClients; answers whether the user's entry went. What every slice handed out earlier shows
        of the user's array is what module Gateway says of the slice its loop is reading. */
    method DeleteClients(user: UserID, victims: seq<Client>, now: int) returns (gone: bool)
      requires Valid()
      modifies Repr
      ensures Valid() && View() == Delete(old(View()), user, victims, now)
      ensures gone == DeletesUser(old(View()), user, victims)
      ensures Repr == old(Repr)
      ensures old(user in data) && victims != [] ==> old(data)[user].Overwrote(old(Keep(Clients(View(), user), Addrs(victims))))
    {
      if |victims| == 0 || user !in data { return false; }
      gone := DeleteFound(user, victims, now);
    }

    /** A removal with something to do. */
    method DeleteFound(user: UserID, victims: seq<Client>, now: int) returns (gone: bool)
      requires Valid() && DeleteActs(View(), user, victims)
      modifies this`data, this`ch, data[user], data[user].backing
      ensures Valid() && View() == Delete(old(View()), user, victims, now)
      ensures gone == DeletesUser(old(View()), user, victims)
      ensures old(data)[user].Overwrote(old(Keep(Clients(View(), user), Addrs(victims))))
    {
      ghost var next := Delete(View(), user, victims, now);
      ghost var was := data[user].backing[..];
      OthersStay(this, next, user);
      var del := AddrSet(victims);
      var p, offline := Shrink(user, del, next);
      AllSlicesShow(was, p.List(), p.backing[..]);
      gone := p.len == 0;
      Push(user, p, offline, now, next);
      ViewIs(this, next, user);
    }

    /** RecvSubChange: answers whether a local platform was missing from the change, and if so queues
        the user's present platforms. */
    method RecvSubChange(user: UserID, platforms: seq<int>, now: int) returns (back: bool)
      requires Valid()
      modifies Repr
      ensures Valid() && View() == Recv(old(View()), user, platforms, now)
      ensures back <==> old(user in View().data) && !(Elems(old(Current(View(), user))) <= Elems(platforms))
      ensures ch == if back && |old(ch)| < QUEUE_CAPACITY then old(ch) + [UserState(user, old(Current(View(), user)), [])] else old(ch)
      ensures Repr == old(Repr)
    {
      CorrectionIsExact(View(), user, platforms, now);
      if user !in data { return false; }
      back := data[user].Misses(platforms);
      assert data[user].List() == Clients(View(), user);
      if back {
        Correct(user, platforms, now);
      }
    }

    /** Queue the state of a user whose change was outdated. */
    method Correct(user: UserID, platforms: seq<int>, now: int)
      requires Valid() && user in data && Outdated(View(), user, platforms)
      modifies this`ch, data[user]
      ensures Valid() && View() == Recv(old(View()), user, platforms, now)
    {
      ghost var next := Recv(View(), user, platforms, now);
      OthersStay(this, next, user);
      Push(user, data[user], [], now, next);
      ViewIs(this, next, user);
    }

    /** GetAllUserStatus: the entries last reported at or before the deadline, in any order, each
        stamped with the present time. */
    method GetAllUserStatus(deadline: int, now: int) returns (result: seq<UserState>)
      requires Valid()
      modifies Repr
      ensures Valid() && Repr == old(Repr)
      ensures IsRenewal(old(View()), deadline, result) && View() == Renewed(old(View()), deadline, now)
    {
      ghost var was := View();
      result := RenewEach(deadline, now, was);
      RenewedOverSuperset(was, deadline, now, was.data.Keys, result);
    }

    /** The loop over the entries; `was` is the map before it. */
    method RenewEach(deadline: int, now: int, ghost was: MapState) returns (result: seq<UserState>)
      requires Valid() && View() == was
      modifies Repr - {this}
      ensures Valid()
      ensures View() == RenewedOver(was, deadline, now, was.data.Keys) && IsRenewalOver(was, deadline, result, was.data.Keys)
    {
      result := [];
      var left := data.Keys;
      ghost var done := {};
      RenewedOverNone(was, deadline, now);
      while left != {}
        invariant left == was.data.Keys - done && done <= was.data.Keys && Valid()
        invariant View() == RenewedOver(was, deadline, now, done)
        invariant IsRenewalOver(was, deadline, result, done)
        decreases left
      {
        var user :| user in left;
        result := RenewNext(user, deadline, now, result, was, done);
        left, done := left - {user}, done + {user};
      }
      assert done == was.data.Keys;
    }

    /** One entry of the renewal loop; `done` are the entries before it. */
    method RenewNext(user: UserID, deadline: int, now: int, result: seq<UserState>, ghost was: MapState, ghost done: set<UserID>)
      returns (grown: seq<UserState>)
      requires Valid() && user in was.data && user !in done
      requires View() == RenewedOver(was, deadline, now, done) && IsRenewalOver(was, deadline, result, done)
      modifies Repr - {this}
      ensures Valid()
      ensures View() == RenewedOver(was, deadline, now, done + {user}) && IsRenewalOver(was, deadline, grown, done + {user})
    {
      ghost var next := RenewedOver(was, deadline, now, done + {user});
      OthersStay(this, next, user);
      RenewalStep(was, deadline, result, done, user);
      var due, online := RenewOne(user, deadline, now, next);
      ViewIs(this, next, user);
      grown := if due then result + [UserState(user, online, [])] else result;
    }

    /** Stamp the entry and read its platforms, if its last report is not after the deadline. */
    method RenewOne(user: UserID, deadline: int, now: int, ghost next: MapState) returns (due: bool, online: seq<int>)
      requires Valid() && Others(next, user) && user in data
      modifies data[user]
      ensures Valid() && Others(next, user)
      ensures data[user].backing == old(data[user].backing) && data[user].List() == old(data[user].List())
      ensures due == Due(Entry(data[user].List(), old(data[user].time)), deadline)
      ensures data[user].time == (if due then At(now) else old(data[user].time)) && (due ==> online == PlatformIDs(data[user].List()))
    {
      var p := data[user];
      due, online := !(p.time.At? && deadline < p.time.t), [];
      if due {
        p.time := At(now);
        online := p.PlatformIDList();
      }
    }
  }

  /** The maps agree on every user but one. */
  ghost predicate SameButFor(was: MapState, next: MapState, user: UserID)
  {
    forall u :: u != user ==> (u in was.data <==> u in next.data) && (u in was.data ==> next.data[u] == was.data[u])
  }

  // ---- A renewal in progress ----------------------------------------------------------------------------

  ghost function RenewedOver(s: MapState, deadline: int, now: int, done: set<UserID>): MapState
  {
    s.(data := map u | u in s.data ::
      if u in done && Due(s.data[u], deadline) then s.data[u].(time := At(now)) else s.data[u])
  }

  ghost predicate IsRenewalOver(s: MapState, deadline: int, rs: seq<UserState>, done: set<UserID>)
  {
    && (forall i :: 0 <= i < |rs| ==>
          && rs[i].user in done && rs[i].user in s.data && Due(s.data[rs[i].user], deadline)
          && rs[i] == UserState(rs[i].user, Current(s, rs[i].user), []))
    && (forall i, j :: 0 <= i < j < |rs| ==> rs[i].user != rs[j].user)
    && (forall u :: u in done && u in s.data && Due(s.data[u], deadline) ==> exists i :: 0 <= i < |rs| && rs[i].user == u)
  }

  lemma RenewedOverNone(s: MapState, deadline: int, now: int)
    ensures RenewedOver(s, deadline, now, {}) == s
  {
  }

  lemma RenewedOverSuperset(s: MapState, deadline: int, now: int, done: set<UserID>, rs: seq<UserState>)
    requires s.data.Keys <= done && IsRenewalOver(s, deadline, rs, done)
    ensures RenewedOver(s, deadline, now, done) == Renewed(s, deadline, now) && IsRenewal(s, deadline, rs)
  {
  }

  lemma RenewalStep(s: MapState, deadline: int, rs: seq<UserState>, done: set<UserID>, user: UserID)
    requires user in s.data && user !in done && IsRenewalOver(s, deadline, rs, done)
    ensures if Due(s.data[user], deadline)
            then IsRenewalOver(s, deadline, rs + [UserState(user, Current(s, user), [])], done + {user})
            else IsRenewalOver(s, deadline, rs, done + {user})
  {
    if Due(s.data[user], deadline) {
      var grown := rs + [UserState(user, Current(s, user), [])];
      assert grown[|rs|].user == user;
      assert forall i :: 0 <= i < |rs| ==> grown[i] == rs[i];
    }
  }
}
