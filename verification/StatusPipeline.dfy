/** End to end: from the user map, through the state queue, the renewal snapshots, the shard
    buffers and the workers, to the status store (internal/msggateway/user_map.go:66-183,
    internal/msggateway/online.go:47-129). Map changes come from any goroutine at any time;
    the reporter goroutine handles one renewal snapshot, one queued record or one flush at a
    time; the workers run on their own. A renewal snapshot overtakes every queued record. */
module StatusPipeline {
  import opened Common
  import opened Presence
  import opened StatusShards

  /** `pending` is the part of a renewal snapshot not yet routed. `last` and `store` are what the
      status service has seen: the Online list of the last record, and the platform set kept by
      the store. `lost` collects the users any of whose records was dropped by a full channel
      or by a failing request. */
  datatype Sys = Sys(users: MapState, pending: seq<UserState>, shards: seq<Shard>,
                     last: map<UserID, seq<int>>, store: map<UserID, set<int>>, lost: set<UserID>)

  datatype Event =
    | SetEvent(c: Client, now: int)
    | DeleteEvent(user: UserID, victims: seq<Client>, now: int)
    | ChangeEvent(user: UserID, platforms: seq<int>, now: int)
    | Drain
    | RenewTake(deadline: int, now: int, rs: seq<UserState>)
    | RenewPush
    | FlushOne(i: nat)
    | Work(i: nat, delivered: nat)

  // ---- Delivery ------------------------------------------------------------------------------

  function LastOf(s: Sys, user: UserID): seq<int>
  {
    if user in s.last then s.last[user] else []
  }

  function StoreOf(s: Sys, user: UserID): set<int>
  {
    if user in s.store then s.store[user] else {}
  }

  /** The store removes the offline platforms first and adds the online ones after
      (pkg/common/storage/cache/redis/online.go:96-102). */
  function ApplyOne(platforms: set<int>, r: UserState): set<int>
  {
    platforms - Elems(r.offline) + Elems(r.online)
  }

  function Deliver(s: Sys, rs: seq<UserState>): (t: Sys)
    ensures t == s.(last := t.last, store := t.store)
  {
    if rs == [] then s
    else
      var t, r := Deliver(s, rs[..|rs| - 1]), rs[|rs| - 1];
      t.(last := t.last[r.user := r.online], store := t.store[r.user := ApplyOne(StoreOf(t, r.user), r)])
  }

  function UsersOf(rs: seq<UserState>): set<UserID>
  {
    set r | r in rs :: r.user
  }

  /** The records lost when a shard hands its buffer over. */
  function Refused(sh: Shard, after: Shard): set<UserID>
  {
    if |after.offered| > |sh.offered| && !after.offered[|after.offered| - 1].accepted
    then UsersOf(after.offered[|after.offered| - 1].batch) else {}
  }

  // ---- The transition system --------------------------------------------------------------------

  function Init(n: nat): Sys
  {
    Sys(MapState(map[], []), [], seq(n, _ => EMPTY), map[], map[], {})
  }

  ghost predicate Enabled(s: Sys, e: Event)
  {
    match e
    case SetEvent(_, _) => true
    case DeleteEvent(_, _, _) => true
    case ChangeEvent(_, _, _) => true
    case Drain => s.pending == [] && s.users.ch != []
    case RenewTake(deadline, _, rs) => s.pending == [] && IsRenewal(s.users, deadline, rs)
    case RenewPush => s.pending != []
    case FlushOne(i) => s.pending == [] && i < |s.shards|
    case Work(i, delivered) => i < |s.shards| && s.shards[i].requests != [] && delivered <= |s.shards[i].requests[0]|
  }

  function LostIf(s: Sys, emitted: bool, user: UserID): set<UserID>
  {
    if emitted && !Accepts(s.users) then s.lost + {user} else s.lost
  }

  function RouteOne(s: Sys, hash: UserID -> nat, r: UserState): Sys
    requires |s.shards| >= 1
  {
    var i := ShardOf(hash, |s.shards|, r.user);
    s.(shards := Route(s.shards, hash, r), lost := s.lost + Refused(s.shards[i], Append(s.shards[i], r)))
  }

  function Next(s: Sys, hash: UserID -> nat, e: Event): (t: Sys)
    requires |s.shards| >= 1 && Enabled(s, e)
    ensures |t.shards| == |s.shards|
  {
    match e
    case SetEvent(c, now) =>
      s.(users := Set(s.users, c, now), lost := LostIf(s, true, c.user))
    case DeleteEvent(user, victims, now) =>
      s.(users := Delete(s.users, user, victims, now), lost := LostIf(s, DeleteActs(s.users, user, victims), user))
    case ChangeEvent(user, platforms, now) =>
      s.(users := Recv(s.users, user, platforms, now), lost := LostIf(s, Outdated(s.users, user, platforms), user))
    case Drain =>
      RouteOne(s, hash, s.users.ch[0]).(users := s.users.(ch := s.users.ch[1..]))
    case RenewTake(deadline, now, rs) =>
      s.(users := Renewed(s.users, deadline, now), pending := rs)
    case RenewPush =>
      RouteOne(s, hash, s.pending[0]).(pending := s.pending[1..])
    case FlushOne(i) =>
      s.(shards := s.shards[i := Flush(s.shards[i])], lost := s.lost + Refused(s.shards[i], Flush(s.shards[i])))
    case Work(i, delivered) =>
      var batch := s.shards[i].requests[0];
      var t := Deliver(s, batch[..delivered]);
      t.(shards := s.shards[i := Take(s.shards[i])], lost := s.lost + UsersOf(batch[delivered..]))
  }

  ghost predicate IsRun(n: nat, hash: UserID -> nat, run: seq<Sys>, events: seq<Event>)
  {
    && n >= 1 && |run| == |events| + 1 && run[0] == Init(n)
    && (forall i :: 0 <= i < |run| ==> |run[i].shards| == n)
    && (forall i {:trigger events[i]} :: 0 <= i < |events| ==> Enabled(run[i], events[i]) && run[i + 1] == Next(run[i], hash, events[i]))
  }

  // ---- One user's view of everything in flight ------------------------------------------------------

  function OfUser(rs: seq<UserState>, user: UserID): seq<UserState>
  {
    if rs == [] then []
    else OfUser(rs[..|rs| - 1], user) + if rs[|rs| - 1].user == user then [rs[|rs| - 1]] else []
  }

  function InShard(sh: Shard): seq<UserState>
  {
    Concat(sh.requests) + sh.buffer
  }

  /** The user's records not yet delivered, in the order they will be. */
  function InFlight(s: Sys, hash: UserID -> nat, user: UserID): seq<UserState>
    requires |s.shards| >= 1
  {
    Buffered(s, hash, user) + OfUser(s.pending, user) + OfUser(s.users.ch, user)
  }

  function Buffered(s: Sys, hash: UserID -> nat, user: UserID): seq<UserState>
    requires |s.shards| >= 1
  {
    OfUser(InShard(s.shards[ShardOf(hash, |s.shards|, user)]), user)
  }

  function LastOnline(was: seq<int>, rs: seq<UserState>): seq<int>
  {
    if rs == [] then was else rs[|rs| - 1].online
  }

  function Applied(platforms: set<int>, rs: seq<UserState>): set<int>
  {
    if rs == [] then platforms
    else ApplyOne(Applied(platforms, rs[..|rs| - 1]), rs[|rs| - 1])
  }

  /** Delivering `flight` after (`was`, `store`) ends with the platform list `current`. */
  ghost predicate EndsWith(was: seq<int>, store: set<int>, flight: seq<UserState>, current: seq<int>)
  {
    LastOnline(was, flight) == current && Applied(store, flight) == Elems(current)
  }

  /** Delivering all that is in flight ends with the truth about the user. */
  ghost predicate Truthful(s: Sys, hash: UserID -> nat, user: UserID)
    requires |s.shards| >= 1
  {
    EndsWith(LastOf(s, user), StoreOf(s, user), InFlight(s, hash, user), Current(s.users, user))
  }

  /** A shard only holds records of its own users. */
  ghost predicate Sorted(s: Sys, hash: UserID -> nat)
    requires |s.shards| >= 1
  {
    forall i, r :: 0 <= i < |s.shards| && r in InShard(s.shards[i]) ==> ShardOf(hash, |s.shards|, r.user) == i
  }

  ghost predicate Inv(s: Sys, hash: UserID -> nat)
    requires |s.shards| >= 1
  {
    Sorted(s, hash) && forall u :: u !in s.lost ==> Truthful(s, hash, u)
  }

  // ---- Lists --------------------------------------------------------------------------------------

  lemma {:induction false} OfUserConcat(a: seq<UserState>, b: seq<UserState>, user: UserID)
    ensures OfUser(a + b, user) == OfUser(a, user) + OfUser(b, user)
  {
    if b == [] {
      assert a + b == a;
    } else {
      var front, last := b[..|b| - 1], b[|b| - 1];
      OfUserConcat(a, front, user);
      assert (a + b)[..|a + b| - 1] == a + front;
      Associative(OfUser(a, user), OfUser(front, user), if last.user == user then [last] else []);
    }
  }

  lemma OfUserAppend(rs: seq<UserState>, r: UserState, user: UserID)
    ensures OfUser(rs + [r], user) == OfUser(rs, user) + if r.user == user then [r] else []
  {
    assert (rs + [r])[..|rs|] == rs;
  }

  lemma OfUserHead(rs: seq<UserState>, user: UserID)
    requires rs != []
    ensures OfUser(rs, user) == (if rs[0].user == user then [rs[0]] else []) + OfUser(rs[1..], user)
  {
    assert rs == [rs[0]] + rs[1..];
    OfUserConcat([rs[0]], rs[1..], user);
    OfUserAppend([], rs[0], user);
  }

  lemma {:induction false} OfUserNone(rs: seq<UserState>, user: UserID)
    requires user !in UsersOf(rs)
    ensures OfUser(rs, user) == []
  {
    if rs != [] {
      assert rs[|rs| - 1] in rs;
      assert forall r :: r in rs[..|rs| - 1] ==> r in rs;
      OfUserNone(rs[..|rs| - 1], user);
    }
  }

  lemma {:induction false} AppliedConcat(platforms: set<int>, a: seq<UserState>, b: seq<UserState>)
    ensures Applied(platforms, a + b) == Applied(Applied(platforms, a), b)
  {
    if b == [] {
      assert a + b == a;
    } else {
      AppliedConcat(platforms, a, b[..|b| - 1]);
      assert (a + b)[..|a + b| - 1] == a + b[..|b| - 1];
    }
  }

  lemma LastOnlineConcat(was: seq<int>, a: seq<UserState>, b: seq<UserState>)
    ensures LastOnline(was, a + b) == LastOnline(LastOnline(was, a), b)
  {
    if b == [] { assert a + b == a; }
  }

  /** Starting from more platforms never ends with fewer, and adds no others. */
  lemma {:induction false} AppliedMonotone(less: set<int>, more: set<int>, rs: seq<UserState>)
    requires less <= more
    ensures Applied(less, rs) <= Applied(more, rs) <= Applied(less, rs) + (more - less)
  {
    if rs != [] {
      AppliedMonotone(less, more, rs[..|rs| - 1]);
    }
  }

  // ---- What delivery, routing and flushing keep -------------------------------------------------------

  lemma {:induction false} DeliverPerUser(s: Sys, rs: seq<UserState>, user: UserID)
    ensures LastOf(Deliver(s, rs), user) == LastOnline(LastOf(s, user), OfUser(rs, user))
    ensures StoreOf(Deliver(s, rs), user) == Applied(StoreOf(s, user), OfUser(rs, user))
  {
    if rs != [] {
      var front, r := rs[..|rs| - 1], rs[|rs| - 1];
      DeliverPerUser(s, front, user);
      assert OfUser(rs, user) == OfUser(front, user) + if r.user == user then [r] else [];
      if r.user == user {
        assert OfUser(rs, user)[..|OfUser(rs, user)| - 1] == OfUser(front, user);
      } else {
        assert OfUser(rs, user) == OfUser(front, user);
      }
    }
  }

  /** Handing over moves the buffer behind the requests, or loses it whole. */
  lemma HandOverInShard(sh: Shard, user: UserID)
    requires user !in Refused(sh, HandOver(sh))
    ensures OfUser(InShard(HandOver(sh)), user) == OfUser(InShard(sh), user)
  {
    if HasRoom(sh) {
      ConcatAppend(sh.requests, sh.buffer);
      assert InShard(HandOver(sh)) == InShard(sh);
    } else {
      OfUserNone(sh.buffer, user);
      OfUserConcat(Concat(sh.requests), sh.buffer, user);
      OfUserConcat(Concat(sh.requests), [], user);
    }
  }

  lemma AppendInShard(sh: Shard, r: UserState, user: UserID)
    requires user !in Refused(sh, Append(sh, r))
    ensures OfUser(InShard(Append(sh, r)), user) == OfUser(InShard(sh) + [r], user)
  {
    var grown := sh.(buffer := sh.buffer + [r]);
    assert InShard(grown) == InShard(sh) + [r];
    if |grown.buffer| == BATCH {
      HandOverInShard(grown, user);
    }
  }

  /** Routing a record puts it last among its user's buffered records. */
  lemma RouteBuffers(s: Sys, hash: UserID -> nat, r: UserState, user: UserID)
    requires |s.shards| >= 1 && user !in RouteOne(s, hash, r).lost
    ensures Buffered(RouteOne(s, hash, r), hash, user)
            == Buffered(s, hash, user) + if r.user == user then [r] else []
  {
    var sh := s.shards[ShardOf(hash, |s.shards|, user)];
    if ShardOf(hash, |s.shards|, r.user) == ShardOf(hash, |s.shards|, user) {
      AppendInShard(sh, r, user);
      OfUserAppend(InShard(sh), r, user);
    }
  }

  // ---- Every step keeps the invariant ------------------------------------------------------------------

  lemma HandOverMembers(sh: Shard, r: UserState)
    requires r in InShard(HandOver(sh))
    ensures r in InShard(sh)
  {
    if HasRoom(sh) { ConcatAppend(sh.requests, sh.buffer); }
  }

  lemma RouteSorted(s: Sys, hash: UserID -> nat, r: UserState)
    requires |s.shards| >= 1 && Sorted(s, hash)
    ensures Sorted(RouteOne(s, hash, r), hash)
  {
    var i := ShardOf(hash, |s.shards|, r.user);
    var grown := s.shards[i].(buffer := s.shards[i].buffer + [r]);
    assert InShard(grown) == InShard(s.shards[i]) + [r];
    forall x | x in InShard(Append(s.shards[i], r)) ensures x in InShard(s.shards[i]) || x == r {
      if |grown.buffer| == BATCH { HandOverMembers(grown, x); }
    }
  }

  lemma EmitEnds(was: seq<int>, store: set<int>, flight: seq<UserState>, current: seq<int>, r: UserState)
    requires EndsWith(was, store, flight, current)
    requires Elems(current) <= Elems(r.online) + Elems(r.offline)
    ensures EndsWith(was, store, flight + [r], r.online)
  {
    assert (flight + [r])[..|flight|] == flight;
  }

  /** A map change whose record carries the new truth and names every platform that vanished. */
  lemma EmitKeeps(s: Sys, t: Sys, hash: UserID -> nat, r: UserState, user: UserID)
    requires |s.shards| >= 1 && Truthful(s, hash, user)
    requires t == s.(users := t.users, lost := t.lost) && t.users.ch == Queued(s.users, r)
    requires r.user == user ==> Accepts(s.users)
    requires r.user != user ==> Current(t.users, user) == Current(s.users, user)
    requires r.user == user ==> r.online == Current(t.users, user)
    requires r.user == user ==> Elems(Current(s.users, user)) <= Elems(r.online) + Elems(r.offline)
    ensures Truthful(t, hash, user)
  {
    OfUserAppend(s.users.ch, r, user);
    if r.user == user {
      Associative(Buffered(s, hash, user) + OfUser(s.pending, user), OfUser(s.users.ch, user), [r]);
      EmitEnds(LastOf(s, user), StoreOf(s, user), InFlight(s, hash, user), Current(s.users, user), r);
    } else {
      assert OfUser(t.users.ch, user) == OfUser(s.users.ch, user);
    }
  }

  lemma SetKeeps(s: Sys, hash: UserID -> nat, c: Client, now: int, user: UserID)
    requires |s.shards| >= 1 && Inv(s, hash) && user !in Next(s, hash, SetEvent(c, now)).lost
    ensures Truthful(Next(s, hash, SetEvent(c, now)), hash, user)
  {
    var r := SetRecord(s.users, c);
    assert forall i :: 0 <= i < |Current(s.users, c.user)| ==> Current(s.users, c.user)[i] == r.online[i];
    SetReports(s.users, c, now, user);
    EmitKeeps(s, Next(s, hash, SetEvent(c, now)), hash, r, user);
  }

  lemma DeleteKeeps(s: Sys, hash: UserID -> nat, u: UserID, victims: seq<Client>, now: int, user: UserID)
    requires |s.shards| >= 1 && Inv(s, hash) && user !in Next(s, hash, DeleteEvent(u, victims, now)).lost
    ensures Truthful(Next(s, hash, DeleteEvent(u, victims, now)), hash, user)
  {
    if DeleteActs(s.users, u, victims) {
      DeletePlatforms(s.users, u, victims);
      DeleteReports(s.users, u, victims, now, user);
      EmitKeeps(s, Next(s, hash, DeleteEvent(u, victims, now)), hash, DeleteRecord(s.users, u, victims), user);
    }
  }

  lemma ChangeKeeps(s: Sys, hash: UserID -> nat, u: UserID, platforms: seq<int>, now: int, user: UserID)
    requires |s.shards| >= 1 && Inv(s, hash) && user !in Next(s, hash, ChangeEvent(u, platforms, now)).lost
    ensures Truthful(Next(s, hash, ChangeEvent(u, platforms, now)), hash, user)
  {
    if Outdated(s.users, u, platforms) {
      RecvReports(s.users, u, platforms, now, user);
      EmitKeeps(s, Next(s, hash, ChangeEvent(u, platforms, now)), hash, UserState(u, Current(s.users, u), []), user);
    }
  }

  lemma MapEventKeeps(s: Sys, hash: UserID -> nat, e: Event)
    requires |s.shards| >= 1 && Inv(s, hash) && Enabled(s, e)
    requires e.SetEvent? || e.DeleteEvent? || e.ChangeEvent?
    ensures Inv(Next(s, hash, e), hash)
  {
    forall u | u !in Next(s, hash, e).lost ensures Truthful(Next(s, hash, e), hash, u) {
      match e
      case SetEvent(c, now) => SetKeeps(s, hash, c, now, u);
      case DeleteEvent(user, victims, now) => DeleteKeeps(s, hash, user, victims, now, u);
      case ChangeEvent(user, platforms, now) => ChangeKeeps(s, hash, user, platforms, now, u);
    }
  }

  /** A record of the current platforms that jumps ahead of queued records changes neither the
      last record to arrive (unless none is queued) nor the final platform set. */
  lemma OvertakeEnds(was: seq<int>, store: set<int>, ahead: seq<UserState>, queued: seq<UserState>,
                     current: seq<int>, snap: UserState)
    requires EndsWith(was, store, ahead + queued, current)
    requires snap.online == current && snap.offline == []
    ensures EndsWith(was, store, ahead + [snap] + queued, current)
  {
    var before := Applied(store, ahead);
    LastOnlineConcat(was, ahead, queued);
    LastOnlineConcat(was, ahead + [snap], queued);
    AppliedConcat(store, ahead, queued);
    AppliedConcat(store, ahead + [snap], queued);
    assert (ahead + [snap])[..|ahead|] == ahead;
    AppliedMonotone(before, Applied(store, ahead + [snap]), queued);
  }

  lemma SnapshotKeeps(s: Sys, hash: UserID -> nat, deadline: int, now: int, rs: seq<UserState>, user: UserID)
    requires |s.shards| >= 1 && Truthful(s, hash, user)
    requires Enabled(s, RenewTake(deadline, now, rs))
    ensures Truthful(Next(s, hash, RenewTake(deadline, now, rs)), hash, user)
  {
    var t := Next(s, hash, RenewTake(deadline, now, rs));
    var ahead := OfUser(InShard(s.shards[ShardOf(hash, |s.shards|, user)]), user);
    var queued := OfUser(s.users.ch, user);
    assert ahead + [] == ahead;
    assert Current(t.users, user) == Current(s.users, user);
    SnapshotOfUser(s.users, rs, user);
    if OfUser(rs, user) != [] {
      OvertakeEnds(LastOf(s, user), StoreOf(s, user), ahead, queued, Current(s.users, user), OfUser(rs, user)[0]);
    }
  }

  /** A renewal answer holds at most one record of a user, carrying its current platforms. */
  lemma {:induction false} SnapshotOfUser(users: MapState, rs: seq<UserState>, user: UserID)
    requires forall i :: 0 <= i < |rs| ==> rs[i] == UserState(rs[i].user, Current(users, rs[i].user), [])
    requires forall i, j :: 0 <= i < j < |rs| ==> rs[i].user != rs[j].user
    ensures OfUser(rs, user) == [] || OfUser(rs, user) == [UserState(user, Current(users, user), [])]
  {
    if rs != [] {
      var front, r := rs[..|rs| - 1], rs[|rs| - 1];
      SnapshotOfUser(users, front, user);
      if r.user == user { OfUserNone(front, user); }
    }
  }

  lemma DrainKeeps(s: Sys, hash: UserID -> nat)
    requires |s.shards| >= 1 && Inv(s, hash) && Enabled(s, Drain)
    ensures Inv(Next(s, hash, Drain), hash)
  {
    var t, ch := Next(s, hash, Drain), s.users.ch;
    RouteSorted(s, hash, ch[0]);
    forall u | u !in t.lost ensures Truthful(t, hash, u) {
      RouteBuffers(s, hash, ch[0], u);
      OfUserHead(ch, u);
      var head := if ch[0].user == u then [ch[0]] else [];
      Associative(Buffered(s, hash, u), head, OfUser(ch[1..], u));
      assert Buffered(s, hash, u) + [] == Buffered(s, hash, u);
      assert Buffered(t, hash, u) + [] == Buffered(t, hash, u);
      assert InFlight(t, hash, u) == InFlight(s, hash, u);
    }
  }

  lemma RenewPushKeeps(s: Sys, hash: UserID -> nat)
    requires |s.shards| >= 1 && Inv(s, hash) && Enabled(s, RenewPush)
    ensures Inv(Next(s, hash, RenewPush), hash)
  {
    var t, p := Next(s, hash, RenewPush), s.pending;
    RouteSorted(s, hash, p[0]);
    forall u | u !in t.lost ensures Truthful(t, hash, u) {
      RouteBuffers(s, hash, p[0], u);
      OfUserHead(p, u);
      Associative(Buffered(s, hash, u), if p[0].user == u then [p[0]] else [], OfUser(p[1..], u));
      assert InFlight(t, hash, u) == InFlight(s, hash, u);
    }
  }

  lemma FlushSorted(s: Sys, hash: UserID -> nat, i: nat)
    requires |s.shards| >= 1 && Sorted(s, hash) && Enabled(s, FlushOne(i))
    ensures Sorted(Next(s, hash, FlushOne(i)), hash)
  {
    var sh := s.shards[i];
    forall r | r in InShard(Flush(sh)) ensures r in InShard(sh) {
      if sh.buffer != [] { HandOverMembers(sh, r); }
    }
  }

  lemma FlushEventKeeps(s: Sys, hash: UserID -> nat, i: nat)
    requires |s.shards| >= 1 && Inv(s, hash) && Enabled(s, FlushOne(i))
    ensures Inv(Next(s, hash, FlushOne(i)), hash)
  {
    var t := Next(s, hash, FlushOne(i));
    FlushSorted(s, hash, i);
    forall u | u !in t.lost ensures Truthful(t, hash, u) {
      if s.shards[i].buffer != [] { HandOverInShard(s.shards[i], u); }
      assert Buffered(t, hash, u) == Buffered(s, hash, u);
    }
  }

  lemma DeliverEnds(was: seq<int>, store: set<int>, delivered: seq<UserState>, rest: seq<UserState>, current: seq<int>)
    requires EndsWith(was, store, delivered + rest, current)
    ensures EndsWith(LastOnline(was, delivered), Applied(store, delivered), rest, current)
  {
    LastOnlineConcat(was, delivered, rest);
    AppliedConcat(store, delivered, rest);
  }

  lemma TakeSplits(sh: Shard, delivered: nat, user: UserID)
    requires sh.requests != [] && delivered <= |sh.requests[0]|
    requires user !in UsersOf(sh.requests[0][delivered..])
    ensures OfUser(InShard(sh), user) == OfUser(sh.requests[0][..delivered], user) + OfUser(InShard(Take(sh)), user)
  {
    var batch, rest := sh.requests[0], InShard(Take(sh));
    ConcatHead(sh.requests);
    Associative(batch, Concat(sh.requests[1..]), sh.buffer);
    OfUserConcat(batch, rest, user);
    assert batch == batch[..delivered] + batch[delivered..];
    OfUserConcat(batch[..delivered], batch[delivered..], user);
    OfUserNone(batch[delivered..], user);
    assert OfUser(batch[..delivered], user) + [] == OfUser(batch[..delivered], user);
  }

  /** A worker takes a shard's first batch: its delivered part leaves the buffered records. */
  lemma WorkBuffers(s: Sys, hash: UserID -> nat, i: nat, delivered: nat, user: UserID)
    requires |s.shards| >= 1 && Sorted(s, hash) && Enabled(s, Work(i, delivered))
    requires user !in UsersOf(s.shards[i].requests[0][delivered..])
    ensures Buffered(s, hash, user)
            == OfUser(s.shards[i].requests[0][..delivered], user) + Buffered(Next(s, hash, Work(i, delivered)), hash, user)
  {
    if ShardOf(hash, |s.shards|, user) == i {
      TakeSplits(s.shards[i], delivered, user);
    } else {
      var sh := s.shards[i];
      ConcatHead(sh.requests);
      Associative(sh.requests[0], Concat(sh.requests[1..]), sh.buffer);
      NotInOtherShard(s, hash, i, sh.requests[0][..delivered], user);
    }
  }

  lemma WorkKeepsSorted(s: Sys, hash: UserID -> nat, i: nat, delivered: nat)
    requires |s.shards| >= 1 && Sorted(s, hash) && Enabled(s, Work(i, delivered))
    ensures Sorted(Next(s, hash, Work(i, delivered)), hash)
  {
    var sh := s.shards[i];
    ConcatHead(sh.requests);
    forall r | r in InShard(Take(sh)) ensures r in InShard(sh) {
      Associative(sh.requests[0], Concat(sh.requests[1..]), sh.buffer);
    }
  }

  lemma WorkEventKeeps(s: Sys, hash: UserID -> nat, i: nat, delivered: nat)
    requires |s.shards| >= 1 && Inv(s, hash) && Enabled(s, Work(i, delivered))
    ensures Inv(Next(s, hash, Work(i, delivered)), hash)
  {
    var t, batch := Next(s, hash, Work(i, delivered)), s.shards[i].requests[0];
    WorkKeepsSorted(s, hash, i, delivered);
    forall u | u !in t.lost ensures Truthful(t, hash, u) {
      WorkBuffers(s, hash, i, delivered, u);
      DeliverPerUser(s, batch[..delivered], u);
      var done := OfUser(batch[..delivered], u);
      Associative(done, Buffered(t, hash, u), OfUser(s.pending, u));
      Associative(done, Buffered(t, hash, u) + OfUser(s.pending, u), OfUser(s.users.ch, u));
      DeliverEnds(LastOf(s, u), StoreOf(s, u), done, InFlight(t, hash, u), Current(s.users, u));
    }
  }

  lemma NotInOtherShard(s: Sys, hash: UserID -> nat, i: nat, rs: seq<UserState>, user: UserID)
    requires |s.shards| >= 1 && Sorted(s, hash) && i < |s.shards| && i != ShardOf(hash, |s.shards|, user)
    requires forall r :: r in rs ==> r in InShard(s.shards[i])
    ensures OfUser(rs, user) == []
  {
    forall r | r in rs ensures r.user != user {
      assert r in InShard(s.shards[i]);
    }
    OfUserNone(rs, user);
  }

  lemma StepKeeps(s: Sys, hash: UserID -> nat, e: Event)
    requires |s.shards| >= 1 && Inv(s, hash) && Enabled(s, e)
    ensures Inv(Next(s, hash, e), hash)
  {
    match e
    case SetEvent(_, _) => MapEventKeeps(s, hash, e);
    case DeleteEvent(_, _, _) => MapEventKeeps(s, hash, e);
    case ChangeEvent(_, _, _) => MapEventKeeps(s, hash, e);
    case Drain => DrainKeeps(s, hash);
    case RenewPush => RenewPushKeeps(s, hash);
    case FlushOne(i) => FlushEventKeeps(s, hash, i);
    case Work(i, delivered) => WorkEventKeeps(s, hash, i, delivered);
    case RenewTake(deadline, now, rs) =>
      var t := Next(s, hash, e);
      assert Sorted(t, hash);
      forall u | u !in t.lost ensures Truthful(t, hash, u) {
        SnapshotKeeps(s, hash, deadline, now, rs, u);
      }
  }

  // ---- The theorems -----------------------------------------------------------------------------------

  /** Nothing of the user is in the state queue, in a renewal snapshot or in the shards. */
  predicate Quiet(s: Sys, user: UserID)
  {
    && user !in UsersOf(s.users.ch) && user !in UsersOf(s.pending)
    && forall i :: 0 <= i < |s.shards| ==> user !in UsersOf(InShard(s.shards[i]))
  }

  lemma {:induction false} RunKeeps(n: nat, hash: UserID -> nat, run: seq<Sys>, events: seq<Event>, k: nat)
    requires IsRun(n, hash, run, events) && k < |run|
    ensures Inv(run[k], hash)
  {
    if k == 0 {
      assert forall u :: InFlight(run[0], hash, u) == [];
    } else {
      RunKeeps(n, hash, run, events, k - 1);
      StepKeeps(run[k - 1], hash, events[k - 1]);
    }
  }

  /** In every run, for every user none of whose records was dropped: once the user's records are
      flushed, the last Online list delivered is the user's current platform list (empty for a
      user that is gone), and the store holds exactly the user's current platforms. */
  lemma LastReportIsTruth(n: nat, hash: UserID -> nat, run: seq<Sys>, events: seq<Event>, k: nat, user: UserID)
    requires IsRun(n, hash, run, events) && k < |run|
    requires user !in run[k].lost && Quiet(run[k], user)
    ensures LastOf(run[k], user) == Current(run[k].users, user)
    ensures StoreOf(run[k], user) == Elems(Current(run[k].users, user))
  {
    RunKeeps(n, hash, run, events, k);
    var s := run[k];
    OfUserNone(s.users.ch, user);
    OfUserNone(s.pending, user);
    OfUserNone(InShard(s.shards[ShardOf(hash, n, user)]), user);
  }

  const SAMPLE: UserState := UserState("u", [5], [])

  function NoHash(user: UserID): nat { 0 }

  ghost predicate Reaches(n: nat, hash: UserID -> nat, s: Sys)
  {
    exists run, events :: IsRun(n, hash, run, events) && run[|events|] == s
  }

  lemma InitReaches(n: nat, hash: UserID -> nat)
    requires n >= 1
    ensures Reaches(n, hash, Init(n))
  {
    var none: seq<Event> := [];
    assert IsRun(n, hash, [Init(n)], none) && [Init(n)][|none|] == Init(n);
  }

  lemma Extend(n: nat, hash: UserID -> nat, s: Sys, e: Event)
    requires n >= 1 && Reaches(n, hash, s) && |s.shards| == n && Enabled(s, e)
    ensures Reaches(n, hash, Next(s, hash, e))
  {
    var run, events :| IsRun(n, hash, run, events) && run[|events|] == s;
    var run', events' := run + [Next(s, hash, e)], events + [e];
    assert IsRun(n, hash, run', events') && run'[|events'|] == Next(s, hash, e);
  }

  lemma SampleLogin() returns (s: Sys)
    ensures Reaches(1, NoHash, s)
    ensures s.shards == [EMPTY] && s.pending == [] && s.last == map[] && s.lost == {}
    ensures s.users.ch == [SAMPLE] && Current(s.users, "u") == [5]
  {
    var e := SetEvent(Client(0, "u", 5, "a"), 0);
    assert PlatformIDs([] + [e.c]) == [5];
    InitReaches(1, NoHash);
    Extend(1, NoHash, Init(1), e);
    s := Next(Init(1), NoHash, e);
  }

  lemma SampleDrain(s: Sys) returns (t: Sys)
    requires Reaches(1, NoHash, s) && s.shards == [EMPTY] && s.pending == [] && s.lost == {} && s.users.ch == [SAMPLE]
    ensures Reaches(1, NoHash, t) && t.pending == [] && t.users.ch == [] && t.users.data == s.users.data
    ensures |t.shards| == 1 && t.shards[0] == EMPTY.(buffer := [SAMPLE]) && t.last == s.last && t.lost == {}
  {
    Extend(1, NoHash, s, Drain);
    t := Next(s, NoHash, Drain);
    assert [] + [SAMPLE] == [SAMPLE] && ShardOf(NoHash, 1, "u") == 0;
  }

  lemma SampleFlush(s: Sys) returns (t: Sys)
    requires Reaches(1, NoHash, s) && |s.shards| == 1 && s.shards[0] == EMPTY.(buffer := [SAMPLE]) && s.pending == [] && s.lost == {}
    ensures Reaches(1, NoHash, t) && t.users == s.users && t.pending == [] && t.last == s.last && t.lost == {}
    ensures |t.shards| == 1 && t.shards[0].requests == [[SAMPLE]] && t.shards[0].buffer == []
  {
    Extend(1, NoHash, s, FlushOne(0));
    t := Next(s, NoHash, FlushOne(0));
  }

  lemma SampleWork(s: Sys, delivered: bool) returns (t: Sys)
    requires Reaches(1, NoHash, s) && |s.shards| == 1 && s.shards[0].requests == [[SAMPLE]] && s.shards[0].buffer == []
    requires s.last == map[] && s.lost == {}
    ensures Reaches(1, NoHash, t) && |t.shards| == 1 && InShard(t.shards[0]) == [] && t.users == s.users && t.pending == s.pending
    ensures LastOf(t, "u") == (if delivered then [5] else []) && ("u" in t.lost <==> !delivered)
  {
    var e := Work(0, if delivered then 1 else 0);
    Extend(1, NoHash, s, e);
    t := Next(s, NoHash, e);
    if delivered {
      assert [SAMPLE][..1] == [SAMPLE] && [SAMPLE][1..] == [];
      assert Deliver(s, []) == s && [SAMPLE][..0] == [];
    } else {
      assert [SAMPLE][..0] == [] && [SAMPLE][0..] == [SAMPLE] && SAMPLE in [SAMPLE];
    }
  }

  /** Being lost is what can hide the truth: one login whose record is delivered or whose request
      fails. Either way everything is flushed; only in the second case is the report wrong. */
  lemma OneLogin(delivered: bool) returns (s: Sys)
    ensures Reaches(1, NoHash, s) && Quiet(s, "u") && Current(s.users, "u") == [5]
    ensures ("u" in s.lost <==> !delivered) && LastOf(s, "u") == (if delivered then [5] else [])
  {
    var s1 := SampleLogin();
    var s2 := SampleDrain(s1);
    var s3 := SampleFlush(s2);
    s := SampleWork(s3, delivered);
  }
}
