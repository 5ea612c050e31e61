/** The online pusher (internal/push/onlinepusher.go:70-384): which gateway calls are made for an
    audience, and how their replies are gathered. Large group audiences are cut into batches over
    the first connection; small ones are tried on the first connection and, if that fails, sent
    over all connections at once. */
module OnlinePusher {
  import opened Common
  import opened Messages
  import opened PushEnv
  import opened GroupPush
  import Slicing

  datatype GatewayCall =
    | InBatch(index: nat, users: seq<UserID>)
    | Fast(users: seq<UserID>)
    | Parallel(conn: nat, users: seq<UserID>)

  /** The gateways' replies; None is a failed call, or one without results. */
  type Replies = GatewayCall -> Option<seq<PushResult>>

  predicate BatchesReceipts(m: Msg, n: nat)
  {
    m.contentType == HAS_READ_RECEIPT && m.sessionType == READ_GROUP_CHAT && n > 100
  }

  predicate BatchesMessages(m: Msg, n: nat)
  {
    m.sessionType == READ_GROUP_CHAT && n > 200
  }

  function Batched(users: seq<UserID>, size: nat): (calls: seq<GatewayCall>)
    requires size > 0
    ensures |calls| == |Slicing.Chunks(users, size)|
  {
    var batches := Slicing.Chunks(users, size);
    seq(|batches|, j requires 0 <= j < |batches| => InBatch(j, batches[j]))
  }

  /** The calls made for an audience over `conns` connections. */
  function Calls(m: Msg, users: seq<UserID>, conns: nat, replies: Replies): seq<GatewayCall>
  {
    if users == [] || conns == 0 then []
    else if BatchesReceipts(m, |users|) then Batched(users, Slicing.ReceiptBatchSize(|users|))
    else if BatchesMessages(m, |users|) then Batched(users, Slicing.MessageBatchSize(|users|))
    else
      var all := seq(conns, c requires 0 <= c < conns => Parallel(c, users));
      if |users| >= 100 then all
      else if replies(Fast(users)).Some? then [Fast(users)]
      else [Fast(users)] + all
  }

  predicate Says(replies: Replies, call: GatewayCall, r: PushResult)
  {
    replies(call).Some? && r in replies(call).value
  }

  /** The results are exactly those of the calls that succeeded. */
  ghost predicate IsAnswer(calls: seq<GatewayCall>, replies: Replies, all: seq<PushResult>)
  {
    forall r :: r in all <==> exists k :: 0 <= k < |calls| && Says(replies, calls[k], r)
  }

  // ---- Loops ------------------------------------------------------------------------------------------

  /** The workers run in any order and append their results; a failed call adds nothing. */
  method RunWorkers(calls: seq<GatewayCall>, replies: Replies) returns (all: seq<PushResult>)
    ensures IsAnswer(calls, replies, all)
  {
    all := [];
    var left := set c | c in calls;
    while left != {}
      invariant forall c :: c in left ==> c in calls
      invariant forall r :: r in all <==> exists c :: c in calls && c !in left && Says(replies, c, r)
    {
      var c :| c in left;
      left := left - {c};
      ghost var before := all;
      if replies(c).Some? {
        all := all + replies(c).value;
      }
      assert forall r :: r in all <==> r in before || Says(replies, c, r);
    }
    forall r ensures r in all <==> exists k :: 0 <= k < |calls| && Says(replies, calls[k], r) {
      if k :| 0 <= k < |calls| && Says(replies, calls[k], r) { assert calls[k] in calls; }
    }
  }

  /** batchPushMessage and batchPushReadReceipt, which differ in the batch size. */
  method PushInBatches(users: seq<UserID>, size: nat, conns: nat, replies: Replies) returns (all: seq<PushResult>)
    requires size > 0
    ensures IsAnswer(if conns == 0 then [] else Batched(users, size), replies, all)
  {
    if conns == 0 { return []; }
    var batches := Slicing.SliceByStride(users, size);
    all := RunWorkers(seq(|batches|, j requires 0 <= j < |batches| => InBatch(j, batches[j])), replies);
  }

  /** GetConnsAndOnlinePush of the default pusher; None is an error, which only the discovery of
      connections can cause. */
  method OnlinePush(m: Msg, users: seq<UserID>, discovered: bool, conns: nat, replies: Replies)
    returns (answer: Option<seq<PushResult>>)
    ensures answer.None? <==> users != [] && !discovered
    ensures answer.Some? ==> IsAnswer(Calls(m, users, conns, replies), replies, answer.value)
  {
    if |users| == 0 { return Some([]); }
    if !discovered { return None; }
    var all: seq<PushResult>;
    if BatchesReceipts(m, |users|) {
      all := PushInBatches(users, Slicing.ReceiptBatchSize(|users|), conns, replies);
      return Some(all);
    }
    if BatchesMessages(m, |users|) {
      all := PushInBatches(users, Slicing.MessageBatchSize(|users|), conns, replies);
      return Some(all);
    }
    if conns == 0 { return Some([]); }
    if |users| < 100 {
      var reply := replies(Fast(users));
      if reply.Some? {
        assert Calls(m, users, conns, replies) == [Fast(users)] && [Fast(users)][0] == Fast(users);
        assert forall r :: r in reply.value <==> Says(replies, Fast(users), r);
        return Some(reply.value);
      }
    }
    var parallel := seq(conns, c requires 0 <= c < conns => Parallel(c, users));
    all := RunWorkers(parallel, replies);
    FailedFirstCall(Fast(users), parallel, replies, all);
    return Some(all);
  }

  lemma FailedFirstCall(call: GatewayCall, calls: seq<GatewayCall>, replies: Replies, all: seq<PushResult>)
    requires IsAnswer(calls, replies, all)
    ensures replies(call).None? ==> IsAnswer([call] + calls, replies, all)
  {
    var longer := [call] + calls;
    assert forall k :: 0 <= k < |calls| ==> longer[k + 1] == calls[k];
  }

  // ---- Who is asked about, and who is left for the offline push ------------------------------------------

  /** Which audiences are cut into batches, and into how many: read receipts to over 100 members of a
      group by 200, 250 or 300, other group messages to over 200 by 100, 150 or 200. */
  lemma BatchesCounted(m: Msg, users: seq<UserID>, conns: nat, replies: Replies)
    requires conns > 0
    ensures var calls, n := Calls(m, users, conns, replies), |users|;
            var receipts, messages := m.sessionType == 3 && m.contentType == 2200 && n > 100, m.sessionType == 3 && n > 200;
            && (calls != [] && calls[0].InBatch? <==> receipts || messages)
            && (receipts ==> |calls| == Slicing.CountFor(n, if n > 3000 then 300 else if n > 1000 then 250 else 200))
            && (!receipts && messages ==> |calls| == Slicing.CountFor(n, if n > 3000 then 200 else if n > 1000 then 150 else 100))
  {
    Slicing.ChunksAreExact(users, Slicing.ReceiptBatchSize(|users|));
    Slicing.ChunksAreExact(users, Slicing.MessageBatchSize(|users|));
    Slicing.QuotientBounds(|users|, Slicing.ReceiptBatchSize(|users|));
    Slicing.QuotientBounds(|users|, Slicing.MessageBatchSize(|users|));
  }

  /** Outside the batches: a small audience is tried once, over the first connection, and that is all if
      the call succeeds; if it fails, or the audience is not small, every connection is called once. */
  lemma FailedCallFallsBack(m: Msg, users: seq<UserID>, conns: nat, replies: Replies)
    requires users != [] && conns > 0 && !BatchesReceipts(m, |users|) && !BatchesMessages(m, |users|)
    ensures var calls := Calls(m, users, conns, replies);
            && NoDup(calls) && (forall k :: 0 <= k < |calls| ==> calls[k].users == users)
            && (Fast(users) in calls <==> |users| < 100)
            && (forall c :: 0 <= c < conns ==> (Parallel(c, users) in calls <==> |users| >= 100 || replies(Fast(users)).None?))
            && (forall k :: 0 <= k < |calls| && calls[k].Parallel? ==> calls[k].conn < conns)
  {
    var calls := Calls(m, users, conns, replies);
    forall c | 0 <= c < conns ensures Parallel(c, users) in calls <==> |users| >= 100 || replies(Fast(users)).None? {
      if |users| >= 100 {
        assert calls[c] == Parallel(c, users);
      } else if replies(Fast(users)).None? {
        assert calls[c + 1] == Parallel(c, users);
      }
    }
    if |users| < 100 { assert calls[0] == Fast(users); }
  }

  /** All the users the calls ask about, in order. */
  function Asked(calls: seq<GatewayCall>): seq<UserID>
  {
    Concat(seq(|calls|, k requires 0 <= k < |calls| => calls[k].users))
  }

  /** Over at least one connection every recipient is asked about in some call, and nobody else; in
      batches the recipients are asked about in order, each exactly as often as it was given, at most
      300 at a time. */
  lemma EveryRecipientAsked(m: Msg, users: seq<UserID>, conns: nat, replies: Replies)
    requires conns > 0
    ensures var calls := Calls(m, users, conns, replies);
            && (forall u :: u in users <==> exists k :: 0 <= k < |calls| && u in calls[k].users)
            && (forall k :: 0 <= k < |calls| && calls[k].InBatch? ==> 1 <= |calls[k].users| <= 300)
            && (calls != [] && calls[0].InBatch? ==> Asked(calls) == users)
  {
    var calls := Calls(m, users, conns, replies);
    if users != [] {
      if BatchesReceipts(m, |users|) {
        BatchesCover(users, Slicing.ReceiptBatchSize(|users|));
      } else if BatchesMessages(m, |users|) {
        BatchesCover(users, Slicing.MessageBatchSize(|users|));
      } else {
        assert calls[0].users == users;
      }
    }
  }

  lemma BatchesCover(users: seq<UserID>, size: nat)
    requires size > 0
    ensures var calls := Batched(users, size);
            && (forall u :: u in users <==> exists k :: 0 <= k < |calls| && u in calls[k].users)
            && (forall k :: 0 <= k < |calls| ==> 1 <= |calls[k].users| <= size)
            && Asked(calls) == users
  {
    var calls, batches := Batched(users, size), Slicing.Chunks(users, size);
    Slicing.ChunksAreExact(users, size);
    assert seq(|calls|, k requires 0 <= k < |calls| => calls[k].users) == batches;
    forall u ensures u in users <==> exists k :: 0 <= k < |calls| && u in calls[k].users {
      InConcat(batches, u);
      if k :| 0 <= k < |batches| && u in batches[k] { assert calls[k].users == batches[k]; }
    }
  }

  lemma {:induction false} InConcat(chunks: seq<seq<UserID>>, u: UserID)
    ensures u in Concat(chunks) <==> exists k :: 0 <= k < |chunks| && u in chunks[k]
  {
    if chunks != [] {
      ConcatHead(chunks);
      InConcat(chunks[1..], u);
      assert chunks == [chunks[0]] + chunks[1..];
      if k :| 0 <= k < |chunks| && u in chunks[k] {
        assert k > 0 ==> chunks[1..][k - 1] == chunks[k];
      }
    }
  }

  /** Gateways that answer about exactly the users they were asked about. */
  ghost predicate Complete(replies: Replies)
  {
    forall c, u :: replies(c).Some? ==> (u in c.users <==> exists on :: PushResult(u, on) in replies(c).value)
  }

  /** Over the whole path, for any pattern of failed calls: a recipient other than the sender is an
      offline candidate exactly when no call that succeeded reports it reached. */
  lemma CandidatesAreUnreached(sub: Difference, sender: UserID, m: Msg, users: seq<UserID>, conns: nat, replies: Replies, all: seq<PushResult>, u: UserID)
    requires IsDifference(sub) && u in users && u != sender && IsAnswer(Calls(m, users, conns, replies), replies, all)
    ensures var calls := Calls(m, users, conns, replies);
            u in FailedUsers(sub, sender, all, users)
            <==> forall k :: 0 <= k < |calls| ==> !Says(replies, calls[k], PushResult(u, true))
  {
    FailedUsersMembers(sub, sender, all, users);
  }

  /** With complete gateways, a recipient whose every call failed is an offline candidate; and the
      results speak of every recipient some call succeeded for, and of nobody else. */
  lemma ResultsCoverAnsweredCalls(sub: Difference, sender: UserID, m: Msg, users: seq<UserID>, conns: nat, replies: Replies, all: seq<PushResult>, u: UserID)
    requires IsDifference(sub) && Complete(replies) && IsAnswer(Calls(m, users, conns, replies), replies, all)
    ensures var calls := Calls(m, users, conns, replies);
            && ((exists on :: PushResult(u, on) in all)
                <==> exists k :: 0 <= k < |calls| && replies(calls[k]).Some? && u in calls[k].users)
            && (u in users && u != sender && (forall k :: 0 <= k < |calls| && u in calls[k].users ==> replies(calls[k]).None?)
                ==> u in FailedUsers(sub, sender, all, users))
  {
    var calls := Calls(m, users, conns, replies);
    FailedUsersMembers(sub, sender, all, users);
    if on :| PushResult(u, on) in all {
      var k :| 0 <= k < |calls| && Says(replies, calls[k], PushResult(u, on));
      assert replies(calls[k]).Some? && u in calls[k].users;
    }
    if k :| 0 <= k < |calls| && replies(calls[k]).Some? && u in calls[k].users {
      var on :| PushResult(u, on) in replies(calls[k]).value;
      assert Says(replies, calls[k], PushResult(u, on));
    }
  }

  /** In a batched push to distinct users, one failed call makes all its recipients candidates. */
  lemma FailedCallGoesOffline(sub: Difference, sender: UserID, users: seq<UserID>, size: nat, replies: Replies, all: seq<PushResult>, j: nat, u: UserID)
    requires IsDifference(sub) && size > 0 && Complete(replies) && IsAnswer(Batched(users, size), replies, all)
    requires forall a, b :: 0 <= a < b < |users| ==> users[a] != users[b]
    requires j < |Batched(users, size)| && replies(Batched(users, size)[j]).None?
    requires u in Batched(users, size)[j].users && u != sender
    ensures u in FailedUsers(sub, sender, all, users)
  {
    var calls := Batched(users, size);
    FailedUsersMembers(sub, sender, all, users);
    InOneChunk(users, size, j, j, u);
    if PushResult(u, true) in all {
      var k :| 0 <= k < |calls| && Says(replies, calls[k], PushResult(u, true));
      assert u in calls[k].users;
      InOneChunk(users, size, j, k, u);
      assert false;
    }
  }

  lemma InOneChunk(users: seq<UserID>, size: nat, j: nat, k: nat, u: UserID)
    requires size > 0 && forall a, b :: 0 <= a < b < |users| ==> users[a] != users[b]
    requires j < |Slicing.Chunks(users, size)| && k < |Slicing.Chunks(users, size)|
    requires u in Slicing.Chunks(users, size)[j] && u in Slicing.Chunks(users, size)[k]
    ensures u in users && j == k
  {
    var p := InChunk(users, size, j, u);
    var q := InChunk(users, size, k, u);
    assert p == q;
    SameChunk(size, j, k, p);
  }

  lemma SameChunk(size: nat, j: nat, k: nat, p: nat)
    requires j * size <= p < j * size + size && k * size <= p < k * size + size
    ensures j == k
  {
    assert (j + 1) * size == j * size + size && (k + 1) * size == k * size + size;
    if j < k { Slicing.MulStep(j, k, size); } else if k < j { Slicing.MulStep(k, j, size); }
  }

  /** Where a member of chunk j stands in the list. */
  lemma InChunk(users: seq<UserID>, size: nat, j: nat, u: UserID) returns (p: nat)
    requires size > 0 && j < |Slicing.Chunks(users, size)| && u in Slicing.Chunks(users, size)[j]
    ensures p < |users| && users[p] == u && j * size <= p < j * size + size
  {
    Slicing.ChunkAt(users, size, j);
    var chunk := Slicing.Chunks(users, size)[j];
    var x :| 0 <= x < |chunk| && chunk[x] == u;
    p := j * size + x;
  }
}
