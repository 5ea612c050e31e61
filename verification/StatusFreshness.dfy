/** When the last report is the truth in spite of dropped records (internal/msggateway/online.go:47-129,
    internal/msggateway/user_map.go:84-93, 167-183): what counts is the user's latest record only. */
module StatusFreshness {
  import opened Common
  import opened Presence
  import opened StatusShards
  import opened StatusPipeline

  /** The last record of the user to arrive, or the last one that has, carries its platforms. */
  ghost predicate Fresh(s: Sys, hash: UserID -> nat, user: UserID)
    requires |s.shards| >= 1
  {
    LastOnline(LastOf(s, user), InFlight(s, hash, user)) == Current(s.users, user)
  }

  /** The step puts a record with the user's platforms behind all its others: a change accepted by
      the queue, or a renewal while the queue holds nothing of the user. */
  ghost predicate Reports(s: Sys, e: Event, user: UserID)
  {
    match e
    case SetEvent(c, _) => c.user == user && Accepts(s.users)
    case DeleteEvent(u, victims, _) => u == user && DeleteActs(s.users, u, victims) && Accepts(s.users)
    case ChangeEvent(u, platforms, _) => u == user && Outdated(s.users, u, platforms) && Accepts(s.users)
    case RenewTake(_, _, rs) => user in UsersOf(rs) && user !in UsersOf(s.users.ch)
    case _ => false
  }

  /** The users with a record in what the step drops. */
  ghost predicate Drops(s: Sys, hash: UserID -> nat, e: Event, user: UserID)
    requires |s.shards| >= 1 && Enabled(s, e)
  {
    match e
    case Drain => RouteDrops(s, hash, s.users.ch[0], user)
    case RenewPush => RouteDrops(s, hash, s.pending[0], user)
    case FlushOne(i) => user in Refused(s.shards[i], Flush(s.shards[i]))
    case Work(i, delivered) => user in UsersOf(s.shards[i].requests[0][delivered..])
    case _ => false
  }

  ghost predicate RouteDrops(s: Sys, hash: UserID -> nat, r: UserState, user: UserID)
    requires |s.shards| >= 1
  {
    var sh := s.shards[ShardOf(hash, |s.shards|, r.user)];
    user in Refused(sh, Append(sh, r))
  }

  /** The step changes the user's connections and the queue refuses the record, or it drops a record
      of the user with no later one behind it. */
  ghost predicate Spoils(s: Sys, hash: UserID -> nat, e: Event, user: UserID)
    requires |s.shards| >= 1 && Enabled(s, e)
  {
    match e
    case SetEvent(c, _) => c.user == user && !Accepts(s.users)
    case DeleteEvent(u, victims, _) => u == user && DeleteActs(s.users, u, victims) && !Accepts(s.users)
    case _ =>
      var t := Next(s, hash, e);
      Drops(s, hash, e, user) && OfUser(t.pending, user) == [] && OfUser(t.users.ch, user) == []
      && (e.Work? ==> Buffered(t, hash, user) == [])
  }

  // ---- Dropping from the middle -------------------------------------------------------------------------

  lemma SkipMiddle(was: seq<int>, x: seq<UserState>, d: seq<UserState>, y: seq<UserState>)
    requires d == [] || y != []
    ensures LastOnline(was, x + d + y) == LastOnline(was, x + y)
  {
    if y == [] { assert x + d + y == x + y; }
  }

  /** Handing over keeps the user's records, or drops those of the buffer. */
  lemma HandOverDrops(sh: Shard, user: UserID) returns (x: seq<UserState>, d: seq<UserState>)
    ensures OfUser(InShard(sh), user) == x + d && OfUser(InShard(HandOver(sh)), user) == x
    ensures d != [] ==> user in Refused(sh, HandOver(sh))
  {
    if user in Refused(sh, HandOver(sh)) {
      x, d := OfUser(Concat(sh.requests), user), OfUser(sh.buffer, user);
      OfUserConcat(Concat(sh.requests), sh.buffer, user);
      assert Concat(sh.requests) + [] == Concat(sh.requests);
    } else {
      x, d := OfUser(InShard(sh), user), [];
      HandOverInShard(sh, user);
    }
  }

  lemma AppendDrops(sh: Shard, r: UserState, user: UserID) returns (x: seq<UserState>, d: seq<UserState>)
    ensures OfUser(InShard(sh), user) + (if r.user == user then [r] else []) == x + d
    ensures OfUser(InShard(Append(sh, r)), user) == x
    ensures d != [] ==> user in Refused(sh, Append(sh, r))
  {
    var grown := sh.(buffer := sh.buffer + [r]);
    assert InShard(grown) == InShard(sh) + [r];
    OfUserAppend(InShard(sh), r, user);
    if |grown.buffer| == BATCH {
      x, d := HandOverDrops(grown, user);
    } else {
      x, d := OfUser(InShard(grown), user), [];
    }
  }

  lemma RouteSplits(s: Sys, hash: UserID -> nat, r: UserState, user: UserID) returns (x: seq<UserState>, d: seq<UserState>)
    requires |s.shards| >= 1
    ensures Buffered(s, hash, user) + (if r.user == user then [r] else []) == x + d
    ensures Buffered(RouteOne(s, hash, r), hash, user) == x
    ensures d != [] ==> RouteDrops(s, hash, r, user)
  {
    if ShardOf(hash, |s.shards|, r.user) == ShardOf(hash, |s.shards|, user) {
      x, d := AppendDrops(s.shards[ShardOf(hash, |s.shards|, user)], r, user);
    } else {
      x, d := Buffered(s, hash, user), [];
    }
  }

  lemma TakeSplitsInThree(sh: Shard, delivered: nat, user: UserID)
    requires sh.requests != [] && delivered <= |sh.requests[0]|
    ensures OfUser(InShard(sh), user)
            == OfUser(sh.requests[0][..delivered], user) + OfUser(sh.requests[0][delivered..], user) + OfUser(InShard(Take(sh)), user)
  {
    var batch, rest := sh.requests[0], InShard(Take(sh));
    ConcatHead(sh.requests);
    Associative(batch, Concat(sh.requests[1..]), sh.buffer);
    OfUserConcat(batch, rest, user);
    assert batch == batch[..delivered] + batch[delivered..];
    OfUserConcat(batch[..delivered], batch[delivered..], user);
  }

  // ---- Every step ---------------------------------------------------------------------------------------

  /** The user's records behind the shards move up by one: the head of the pending ones or of the queue. */
  lemma RoutedFresh(s: Sys, t: Sys, hash: UserID -> nat, r: UserState, user: UserID)
    requires |s.shards| >= 1 && Fresh(s, hash, user)
    requires t == RouteOne(s, hash, r).(users := t.users, pending := t.pending) && Current(t.users, user) == Current(s.users, user)
    requires OfUser(s.pending, user) + OfUser(s.users.ch, user)
             == (if r.user == user then [r] else []) + (OfUser(t.pending, user) + OfUser(t.users.ch, user))
    requires RouteDrops(s, hash, r, user) ==> OfUser(t.pending, user) + OfUser(t.users.ch, user) != []
    ensures Fresh(t, hash, user)
  {
    var x, d := RouteSplits(s, hash, r, user);
    var head, y := if r.user == user then [r] else [], OfUser(t.pending, user) + OfUser(t.users.ch, user);
    Associative(Buffered(s, hash, user), OfUser(s.pending, user), OfUser(s.users.ch, user));
    Associative(Buffered(s, hash, user), head, y);
    Associative(x, OfUser(t.pending, user), OfUser(t.users.ch, user));
    SkipMiddle(LastOf(s, user), x, d, y);
  }

  lemma DrainFresh(s: Sys, hash: UserID -> nat, user: UserID)
    requires |s.shards| >= 1 && Enabled(s, Drain) && Fresh(s, hash, user) && !Spoils(s, hash, Drain, user)
    ensures Fresh(Next(s, hash, Drain), hash, user)
  {
    var t, ch := Next(s, hash, Drain), s.users.ch;
    OfUserHead(ch, user);
    assert OfUser(s.pending, user) == [] && OfUser(t.pending, user) == [];
    assert [] + OfUser(ch, user) == OfUser(ch, user) && [] + OfUser(ch[1..], user) == OfUser(ch[1..], user);
    RoutedFresh(s, t, hash, ch[0], user);
  }

  lemma RenewPushFresh(s: Sys, hash: UserID -> nat, user: UserID)
    requires |s.shards| >= 1 && Enabled(s, RenewPush) && Fresh(s, hash, user) && !Spoils(s, hash, RenewPush, user)
    ensures Fresh(Next(s, hash, RenewPush), hash, user)
  {
    var t, p := Next(s, hash, RenewPush), s.pending;
    OfUserHead(p, user);
    Associative(if p[0].user == user then [p[0]] else [], OfUser(p[1..], user), OfUser(s.users.ch, user));
    RoutedFresh(s, t, hash, p[0], user);
  }

  lemma FlushFresh(s: Sys, hash: UserID -> nat, i: nat, user: UserID)
    requires |s.shards| >= 1 && Enabled(s, FlushOne(i)) && Fresh(s, hash, user) && !Spoils(s, hash, FlushOne(i), user)
    ensures Fresh(Next(s, hash, FlushOne(i)), hash, user)
  {
    var t, y := Next(s, hash, FlushOne(i)), OfUser(s.pending, user) + OfUser(s.users.ch, user);
    var x, d := Buffered(s, hash, user), [];
    if i == ShardOf(hash, |s.shards|, user) && s.shards[i].buffer != [] {
      x, d := HandOverDrops(s.shards[i], user);
    }
    assert Buffered(s, hash, user) == x + d && Buffered(t, hash, user) == x;
    Associative(x + d, OfUser(s.pending, user), OfUser(s.users.ch, user));
    Associative(x, OfUser(s.pending, user), OfUser(s.users.ch, user));
    SkipMiddle(LastOf(s, user), x, d, y);
  }

  lemma WorkFresh(s: Sys, hash: UserID -> nat, i: nat, delivered: nat, user: UserID)
    requires |s.shards| >= 1 && Sorted(s, hash) && Enabled(s, Work(i, delivered))
    requires Fresh(s, hash, user) && !Spoils(s, hash, Work(i, delivered), user)
    ensures Fresh(Next(s, hash, Work(i, delivered)), hash, user)
  {
    var t, batch := Next(s, hash, Work(i, delivered)), s.shards[i].requests[0];
    var a, d := OfUser(batch[..delivered], user), OfUser(batch[delivered..], user);
    var y := InFlight(t, hash, user);
    DeliverPerUser(s, batch[..delivered], user);
    WorkSplits(s, hash, i, delivered, user);
    Associative(a + d, Buffered(t, hash, user), OfUser(s.pending, user));
    Associative(a + d, Buffered(t, hash, user) + OfUser(s.pending, user), OfUser(s.users.ch, user));
    assert InFlight(s, hash, user) == a + d + y;
    if d != [] && y == [] {
      if user !in UsersOf(batch[delivered..]) { OfUserNone(batch[delivered..], user); }
      assert false;
    }
    SkipMiddle(LastOf(s, user), a, d, y);
    LastOnlineConcat(LastOf(s, user), a, y);
  }

  lemma WorkSplits(s: Sys, hash: UserID -> nat, i: nat, delivered: nat, user: UserID)
    requires |s.shards| >= 1 && Sorted(s, hash) && Enabled(s, Work(i, delivered))
    ensures var batch := s.shards[i].requests[0];
            Buffered(s, hash, user) == OfUser(batch[..delivered], user) + OfUser(batch[delivered..], user)
                                       + Buffered(Next(s, hash, Work(i, delivered)), hash, user)
  {
    var sh := s.shards[i];
    if ShardOf(hash, |s.shards|, user) == i {
      TakeSplitsInThree(sh, delivered, user);
    } else {
      ConcatHead(sh.requests);
      Associative(sh.requests[0], Concat(sh.requests[1..]), sh.buffer);
      NotInOtherShard(s, hash, i, sh.requests[0][..delivered], user);
      NotInOtherShard(s, hash, i, sh.requests[0][delivered..], user);
    }
  }

  /** A change of the map with record r, for its own user or another. */
  lemma EmitFresh(s: Sys, t: Sys, hash: UserID -> nat, r: UserState, user: UserID)
    requires |s.shards| >= 1 && t == s.(users := t.users, lost := t.lost) && t.users.ch == Queued(s.users, r)
    requires r.user != user ==> Fresh(s, hash, user) && Current(t.users, user) == Current(s.users, user)
    requires r.user == user ==> r.online == Current(t.users, user)
    requires r.user == user && !Accepts(s.users) ==> Fresh(s, hash, user) && Current(t.users, user) == Current(s.users, user)
    ensures Fresh(t, hash, user)
  {
    OfUserAppend(s.users.ch, r, user);
    if r.user == user && Accepts(s.users) {
      Associative(Buffered(s, hash, user) + OfUser(s.pending, user), OfUser(s.users.ch, user), [r]);
      assert InFlight(t, hash, user) == InFlight(s, hash, user) + [r];
    } else {
      assert OfUser(t.users.ch, user) == OfUser(s.users.ch, user);
    }
  }

  lemma SetFresh(s: Sys, hash: UserID -> nat, c: Client, now: int, user: UserID)
    requires |s.shards| >= 1 && !Spoils(s, hash, SetEvent(c, now), user)
    requires Fresh(s, hash, user) || Reports(s, SetEvent(c, now), user)
    ensures Fresh(Next(s, hash, SetEvent(c, now)), hash, user)
  {
    SetReports(s.users, c, now, user);
    EmitFresh(s, Next(s, hash, SetEvent(c, now)), hash, SetRecord(s.users, c), user);
  }

  lemma DeleteFresh(s: Sys, hash: UserID -> nat, u: UserID, victims: seq<Client>, now: int, user: UserID)
    requires |s.shards| >= 1 && !Spoils(s, hash, DeleteEvent(u, victims, now), user)
    requires Fresh(s, hash, user) || Reports(s, DeleteEvent(u, victims, now), user)
    ensures Fresh(Next(s, hash, DeleteEvent(u, victims, now)), hash, user)
  {
    if DeleteActs(s.users, u, victims) {
      DeleteReports(s.users, u, victims, now, user);
      EmitFresh(s, Next(s, hash, DeleteEvent(u, victims, now)), hash, DeleteRecord(s.users, u, victims), user);
    }
  }

  lemma ChangeFresh(s: Sys, hash: UserID -> nat, u: UserID, platforms: seq<int>, now: int, user: UserID)
    requires |s.shards| >= 1
    requires Fresh(s, hash, user) || Reports(s, ChangeEvent(u, platforms, now), user)
    ensures Fresh(Next(s, hash, ChangeEvent(u, platforms, now)), hash, user)
  {
    if Outdated(s.users, u, platforms) {
      RecvReports(s.users, u, platforms, now, user);
      EmitFresh(s, Next(s, hash, ChangeEvent(u, platforms, now)), hash, UserState(u, Current(s.users, u), []), user);
    }
  }

  lemma RenewFresh(s: Sys, hash: UserID -> nat, deadline: int, now: int, rs: seq<UserState>, user: UserID)
    requires |s.shards| >= 1 && Enabled(s, RenewTake(deadline, now, rs))
    requires Fresh(s, hash, user) || Reports(s, RenewTake(deadline, now, rs), user)
    ensures Fresh(Next(s, hash, RenewTake(deadline, now, rs)), hash, user)
  {
    var t := Next(s, hash, RenewTake(deadline, now, rs));
    var snap, queued := OfUser(rs, user), OfUser(s.users.ch, user);
    RenewFlight(s, hash, deadline, now, rs, user);
    RenewKeepsLists(s, hash, deadline, now, rs, user);
    SnapshotOfUser(s.users, rs, user);
    Overtaken(LastOf(s, user), Buffered(s, hash, user), snap, queued);
    if queued != [] || snap == [] {
      if Reports(s, RenewTake(deadline, now, rs), user) { InSnapshot(s, deadline, now, rs, user); }
    }
  }

  lemma RenewFlight(s: Sys, hash: UserID -> nat, deadline: int, now: int, rs: seq<UserState>, user: UserID)
    requires |s.shards| >= 1 && Enabled(s, RenewTake(deadline, now, rs))
    ensures var t := Next(s, hash, RenewTake(deadline, now, rs));
            && InFlight(s, hash, user) == Buffered(s, hash, user) + OfUser(s.users.ch, user)
            && InFlight(t, hash, user) == Buffered(s, hash, user) + OfUser(rs, user) + OfUser(s.users.ch, user)
  {
  }

  lemma RenewKeepsLists(s: Sys, hash: UserID -> nat, deadline: int, now: int, rs: seq<UserState>, user: UserID)
    requires |s.shards| >= 1 && Enabled(s, RenewTake(deadline, now, rs))
    ensures var t := Next(s, hash, RenewTake(deadline, now, rs));
            LastOf(t, user) == LastOf(s, user) && Current(t.users, user) == Current(s.users, user)
  {
  }

  lemma InSnapshot(s: Sys, deadline: int, now: int, rs: seq<UserState>, user: UserID)
    requires Reports(s, RenewTake(deadline, now, rs), user)
    ensures OfUser(s.users.ch, user) == [] && OfUser(rs, user) != []
  {
    OfUserNone(s.users.ch, user);
    OfUserSome(rs, user);
  }

  lemma Overtaken(was: seq<int>, ahead: seq<UserState>, snap: seq<UserState>, queued: seq<UserState>)
    requires |snap| <= 1
    ensures LastOnline(was, ahead + snap + queued)
            == if queued == [] && snap != [] then snap[0].online else LastOnline(was, ahead + queued)
  {
    LastOnlineConcat(was, ahead, queued);
    LastOnlineConcat(was, ahead + snap, queued);
    LastOnlineConcat(was, ahead, snap);
  }

  lemma {:induction false} OfUserSome(rs: seq<UserState>, user: UserID)
    requires user in UsersOf(rs)
    ensures OfUser(rs, user) != []
  {
    var r :| r in rs && r.user == user;
    assert rs != [];
    if rs[|rs| - 1].user != user {
      assert r in rs[..|rs| - 1];
      OfUserSome(rs[..|rs| - 1], user);
    }
  }

  lemma FreshStep(s: Sys, hash: UserID -> nat, e: Event, user: UserID)
    requires |s.shards| >= 1 && Sorted(s, hash) && Enabled(s, e)
    requires (Fresh(s, hash, user) || Reports(s, e, user)) && !Spoils(s, hash, e, user)
    ensures Fresh(Next(s, hash, e), hash, user)
  {
    match e
    case Drain => DrainFresh(s, hash, user);
    case RenewPush => RenewPushFresh(s, hash, user);
    case FlushOne(i) => FlushFresh(s, hash, i, user);
    case Work(i, delivered) => WorkFresh(s, hash, i, delivered, user);
    case RenewTake(deadline, now, rs) => RenewFresh(s, hash, deadline, now, rs, user);
    case SetEvent(c, now) => SetFresh(s, hash, c, now, user);
    case DeleteEvent(u, victims, now) => DeleteFresh(s, hash, u, victims, now, user);
    case ChangeEvent(u, platforms, now) => ChangeFresh(s, hash, u, platforms, now, user);
  }

  // ---- The theorem ----------------------------------------------------------------------------------------

  /** No step from number i up to number k spoils the user's report. */
  ghost predicate Unspoiled(n: nat, hash: UserID -> nat, run: seq<Sys>, events: seq<Event>, i: nat, k: nat, user: UserID)
    requires IsRun(n, hash, run, events) && k < |run|
  {
    k <= i || (Unspoiled(n, hash, run, events, i, k - 1, user) && !Spoils(run[k - 1], hash, events[k - 1], user))
  }

  lemma StepInRun(n: nat, hash: UserID -> nat, run: seq<Sys>, events: seq<Event>, j: nat)
    requires IsRun(n, hash, run, events) && j < |events|
    ensures |run[j].shards| >= 1 && Sorted(run[j], hash) && Enabled(run[j], events[j])
    ensures run[j + 1] == Next(run[j], hash, events[j])
  {
    StatusPipeline.RunKeeps(n, hash, run, events, j);
  }

  lemma {:induction false} FreshSince(n: nat, hash: UserID -> nat, run: seq<Sys>, events: seq<Event>, i: nat, k: nat, user: UserID)
    requires IsRun(n, hash, run, events) && i < k < |run| && Reports(run[i], events[i], user)
    requires Unspoiled(n, hash, run, events, i, k, user)
    ensures Fresh(run[k], hash, user)
  {
    StepInRun(n, hash, run, events, k - 1);
    var s, e := run[k - 1], events[k - 1];
    if i + 1 < k {
      FreshSince(n, hash, run, events, i, k - 1, user);
      FreshStep(s, hash, e, user);
    } else {
      FreshStep(s, hash, e, user);
    }
  }

  /** In every run, whatever was dropped before: if step i reports the user (a change accepted by the
      queue, or a renewal while the queue holds nothing of it) and from then on no change of it is
      refused and none of its records is dropped without a later one behind it, then once nothing of
      the user is under way the last Online list delivered is its current platform list. */
  lemma LatestRecordDecides(n: nat, hash: UserID -> nat, run: seq<Sys>, events: seq<Event>, i: nat, k: nat, user: UserID)
    requires IsRun(n, hash, run, events) && i < k < |run| && Reports(run[i], events[i], user)
    requires Unspoiled(n, hash, run, events, i, k, user)
    requires Quiet(run[k], user)
    ensures LastOf(run[k], user) == Current(run[k].users, user)
  {
    FreshSince(n, hash, run, events, i, k, user);
    FreshWhenQuiet(run[k], hash, user);
  }

  lemma FreshWhenQuiet(s: Sys, hash: UserID -> nat, user: UserID)
    requires |s.shards| >= 1 && Fresh(s, hash, user) && Quiet(s, user)
    ensures LastOf(s, user) == Current(s.users, user)
  {
    OfUserNone(s.users.ch, user);
    OfUserNone(s.pending, user);
    OfUserNone(InShard(s.shards[ShardOf(hash, |s.shards|, user)]), user);
  }
}
