/** Sharding and batching of status records (internal/msggateway/online.go:29-83):
    what one append, one flush and one worker take do to the shards. */
module StatusShards {
  import opened Common
  import opened Presence

  /** Capacity of a shard's buffer; a full buffer is handed over at once. */
  const BATCH: nat := 100
  /** Capacity of a shard's request channel. */
  const REQUESTS: nat := 64
  const WORD: nat := 0x1_0000_0000_0000_0000

  type Batch = seq<UserState>

  /** `offered` and `taken` are histories: every batch handed over with the channel's answer,
      and every batch a worker has received. */
  datatype Offer = Offer(batch: Batch, accepted: bool)
  datatype Shard = Shard(buffer: Batch, requests: seq<Batch>, offered: seq<Offer>, taken: seq<Batch>)

  const EMPTY: Shard := Shard([], [], [], [])

  /** The number of shards is at least one; the index is a 64-bit sum taken modulo it. */
  function Concurrency(concurrent: int): (n: nat)
    ensures n >= 1 && (concurrent >= 1 ==> n == concurrent)
  {
    if concurrent < 1 then 1 else concurrent
  }

  function ShardOf(hash: UserID -> nat, n: nat, user: UserID): (i: nat)
    requires n >= 1
    ensures i < n
  {
    hash(user) % WORD % n
  }

  predicate HasRoom(sh: Shard)
  {
    |sh.requests| < REQUESTS
  }

  function HandOver(sh: Shard): Shard
  {
    Shard([], if HasRoom(sh) then sh.requests + [sh.buffer] else sh.requests,
          sh.offered + [Offer(sh.buffer, HasRoom(sh))], sh.taken)
  }

  function Append(sh: Shard, r: UserState): Shard
  {
    var grown := sh.(buffer := sh.buffer + [r]);
    if |grown.buffer| == BATCH then HandOver(grown) else grown
  }

  function Flush(sh: Shard): Shard
  {
    if sh.buffer == [] then sh else HandOver(sh)
  }

  function Take(sh: Shard): Shard
  {
    if sh.requests == [] then sh
    else sh.(requests := sh.requests[1..], taken := sh.taken + [sh.requests[0]])
  }

  function Route(shards: seq<Shard>, hash: UserID -> nat, r: UserState): (res: seq<Shard>)
    requires |shards| >= 1
    ensures |res| == |shards|
  {
    var i := ShardOf(hash, |shards|, r.user);
    shards[i := Append(shards[i], r)]
  }

  /** pushUserState over a list of records. */
  function RouteAll(shards: seq<Shard>, hash: UserID -> nat, rs: seq<UserState>): (res: seq<Shard>)
    requires |shards| >= 1
    ensures |res| == |shards|
  {
    if rs == [] then shards
    else Route(RouteAll(shards, hash, rs[..|rs| - 1]), hash, rs[|rs| - 1])
  }

  /** pushAllUserState. */
  function FlushAll(shards: seq<Shard>): seq<Shard>
  {
    seq(|shards|, i requires 0 <= i < |shards| => Flush(shards[i]))
  }

  // ---- Conservation and order over every schedule ---------------------------------------------

  datatype Op = RouteOp(r: UserState) | FlushOp | TakeOp(i: nat)

  function Step(shards: seq<Shard>, hash: UserID -> nat, op: Op): (res: seq<Shard>)
    requires |shards| >= 1
    ensures |res| == |shards|
  {
    match op
    case RouteOp(r) => Route(shards, hash, r)
    case FlushOp => FlushAll(shards)
    case TakeOp(i) => if i < |shards| then shards[i := Take(shards[i])] else shards
  }

  function Run(n: nat, hash: UserID -> nat, ops: seq<Op>): (res: seq<Shard>)
    requires n >= 1
    ensures |res| == n
  {
    if ops == [] then seq(n, _ => EMPTY)
    else Step(Run(n, hash, ops[..|ops| - 1]), hash, ops[|ops| - 1])
  }

  /** The records routed to shard i, in order. */
  function Routed(n: nat, hash: UserID -> nat, ops: seq<Op>, i: nat): seq<UserState>
    requires n >= 1
  {
    if ops == [] then []
    else
      var op := ops[|ops| - 1];
      Routed(n, hash, ops[..|ops| - 1], i)
      + if op.RouteOp? && ShardOf(hash, n, op.r.user) == i then [op.r] else []
  }

  function Batches(offers: seq<Offer>): (bs: seq<Batch>)
    ensures |bs| == |offers|
  {
    seq(|offers|, i requires 0 <= i < |offers| => offers[i].batch)
  }

  function Accepted(offers: seq<Offer>): seq<Batch>
  {
    if offers == [] then []
    else Accepted(offers[..|offers| - 1])
         + if offers[|offers| - 1].accepted then [offers[|offers| - 1].batch] else []
  }

  /** What holds of one shard whose routed records are `routed`. */
  ghost predicate Conserves(sh: Shard, routed: seq<UserState>)
  {
    && Concat(Batches(sh.offered)) + sh.buffer == routed
    && |sh.buffer| < BATCH
    && (forall k :: 0 <= k < |sh.offered| ==> 1 <= |sh.offered[k].batch| <= BATCH)
    && Accepted(sh.offered) == sh.taken + sh.requests
    && |sh.requests| <= REQUESTS
  }

  lemma HandOverConserves(sh: Shard)
    requires 1 <= |sh.buffer| <= BATCH
    requires forall k :: 0 <= k < |sh.offered| ==> 1 <= |sh.offered[k].batch| <= BATCH
    requires Accepted(sh.offered) == sh.taken + sh.requests && |sh.requests| <= REQUESTS
    ensures Conserves(HandOver(sh), Concat(Batches(sh.offered)) + sh.buffer)
  {
    var after := HandOver(sh);
    assert after.offered[..|after.offered| - 1] == sh.offered;
    assert Batches(after.offered)[..|after.offered| - 1] == Batches(sh.offered);
    assert Concat(Batches(after.offered)) + [] == Concat(Batches(sh.offered)) + sh.buffer;
    assert HasRoom(sh) ==> sh.taken + sh.requests + [sh.buffer] == sh.taken + (sh.requests + [sh.buffer]);
  }

  /** An append hands the buffer over exactly when it becomes 100 long, and the channel takes it exactly
      when fewer than 64 requests are waiting. */
  lemma AppendConserves(sh: Shard, r: UserState, routed: seq<UserState>)
    requires Conserves(sh, routed)
    ensures Conserves(Append(sh, r), routed + [r])
    ensures var after := Append(sh, r);
            if |sh.buffer| < 99 then after.offered == sh.offered && after.requests == sh.requests
            else after.offered == sh.offered + [Offer(sh.buffer + [r], |sh.requests| < 64)] && after.buffer == []
                 && after.requests == if |sh.requests| < 64 then sh.requests + [sh.buffer + [r]] else sh.requests
  {
    var grown := sh.(buffer := sh.buffer + [r]);
    assert Concat(Batches(sh.offered)) + grown.buffer == routed + [r];
    if |grown.buffer| == BATCH {
      HandOverConserves(grown);
    }
  }

  /** A flush leaves no buffer. */
  lemma FlushConserves(sh: Shard, routed: seq<UserState>)
    requires Conserves(sh, routed)
    ensures Conserves(Flush(sh), routed) && Flush(sh).buffer == []
    ensures |Flush(sh).offered| == |sh.offered| + if sh.buffer == [] then 0 else 1
  {
    if sh.buffer != [] { HandOverConserves(sh); }
  }

  lemma TakeConserves(sh: Shard, routed: seq<UserState>)
    requires Conserves(sh, routed)
    ensures Conserves(Take(sh), routed)
  {
    if sh.requests != [] {
      assert sh.taken + sh.requests == sh.taken + [sh.requests[0]] + sh.requests[1..];
    }
  }

  /** In every schedule of appends, flushes and worker takes: the batches offered by a shard,
      followed by its buffer, are exactly the records routed to it, in order; batches have 1 to
      BATCH entries; and what is lost is exactly the whole batches a full channel refused. */
  lemma {:induction false} ShardConservation(n: nat, hash: UserID -> nat, ops: seq<Op>, i: nat)
    requires i < n
    ensures Conserves(Run(n, hash, ops)[i], Routed(n, hash, ops, i))
  {
    if ops != [] {
      var before, op := ops[..|ops| - 1], ops[|ops| - 1];
      ShardConservation(n, hash, before, i);
      var sh, routed := Run(n, hash, before)[i], Routed(n, hash, before, i);
      match op
      case RouteOp(r) =>
        if ShardOf(hash, n, r.user) == i { AppendConserves(sh, r, routed); }
      case FlushOp =>
        FlushConserves(sh, routed);
      case TakeOp(k) =>
        if k == i { TakeConserves(sh, routed); }
    }
  }

  function RouteOps(rs: seq<UserState>): (ops: seq<Op>)
    ensures |ops| == |rs| && forall k :: 0 <= k < |rs| ==> ops[k] == RouteOp(rs[k])
  {
    seq(|rs|, k requires 0 <= k < |rs| => RouteOp(rs[k]))
  }

  /** Pushing a list of records routes each of them, in order. */
  lemma {:induction false} RouteAllIsRun(n: nat, hash: UserID -> nat, ops: seq<Op>, rs: seq<UserState>)
    requires n >= 1
    ensures RouteAll(Run(n, hash, ops), hash, rs) == Run(n, hash, ops + RouteOps(rs))
  {
    if rs == [] {
      assert ops + RouteOps(rs) == ops;
    } else {
      RouteAllIsRun(n, hash, ops, rs[..|rs| - 1]);
      var all := ops + RouteOps(rs);
      assert all[..|all| - 1] == ops + RouteOps(rs[..|rs| - 1]) && all[|all| - 1] == RouteOp(rs[|rs| - 1]);
    }
  }

  /** Flushing all shards leaves no buffer, and offers one batch for each that was not empty. */
  lemma FlushAllEmpties(shards: seq<Shard>, i: nat)
    requires i < |shards|
    ensures var after := FlushAll(shards);
            && |after| == |shards| && after[i].buffer == [] && after[i].taken == shards[i].taken
            && (shards[i].buffer == [] ==> after[i] == shards[i])
            && (shards[i].buffer != [] ==>
                  |after[i].offered| == |shards[i].offered| + 1 && after[i].offered[|shards[i].offered|].batch == shards[i].buffer)
  {
  }

  /** All records of one user are in one shard, in the order they were routed. */
  lemma {:induction false} OneShardPerUser(n: nat, hash: UserID -> nat, ops: seq<Op>, i: nat, r: UserState)
    requires i < n && r in Routed(n, hash, ops, i)
    ensures i == ShardOf(hash, n, r.user)
  {
    var before, op := ops[..|ops| - 1], ops[|ops| - 1];
    if r in Routed(n, hash, before, i) {
      OneShardPerUser(n, hash, before, i, r);
    }
  }
}
