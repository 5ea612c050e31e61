/** Read receipts: how the transfer worker folds a batch of them into one map
    (internal/msgtransfer/online_history_msg_handler.go:162-213), and how the sender splits or
    repeats them upstream (pkg/notification/msg.go:327-444). */
module ReadReceipts {
  import opened Common
  import Slicing
  import Messages

  const CONVERSATION_CHANGE_NOTIFICATION := 1300
  const USER_INFO_UPDATED_NOTIFICATION := 1303
  const GROUP_INFO_SET_NOTIFICATION := 1502

  const SEQS_PER_MESSAGE: nat := 500
  const LARGE_JSON: nat := 1000
  const MAX_FRAGMENT_SIZE: nat := 6 * 1024 * 1024

  datatype Tips = Tips(user: UserID, conversation: string, hasRead: int, seqs: seq<int>)

  /** The content of a message as the worker can read it. */
  datatype Content = Unparsable | Receipt(tips: Tips)

  datatype Msg = Msg(contentType: int, content: Content)

  // ---- Folding a batch ------------------------------------------------------------------------------

  function MaxSeq(hasRead: int, seqs: seq<int>): int
  {
    if seqs == [] then hasRead
    else
      var m, last := MaxSeq(hasRead, seqs[..|seqs| - 1]), seqs[|seqs| - 1];
      if m < last then last else m
  }

  predicate IsReceipt(m: Msg)
  {
    m.contentType == Messages.HAS_READ_RECEIPT && m.content.Receipt?
  }

  /** The position a receipt marks as read; a negative one is ignored. */
  function Value(m: Msg): int
    requires IsReceipt(m)
  {
    MaxSeq(m.content.tips.hasRead, m.content.tips.seqs)
  }

  predicate Marks(m: Msg, user: UserID)
  {
    IsReceipt(m) && m.content.tips.user == user && Value(m) >= 0
  }

  function Fold(table: map<UserID, int>, m: Msg): map<UserID, int>
  {
    if !IsReceipt(m) || Value(m) < 0 then table
    else
      var user := m.content.tips.user;
      if user in table && table[user] > Value(m) then table else table[user := Value(m)]
  }

  function ReadMap(msgs: seq<Msg>): map<UserID, int>
  {
    if msgs == [] then map[] else Fold(ReadMap(msgs[..|msgs| - 1]), msgs[|msgs| - 1])
  }

  /** The conversation of the last receipt that parses. */
  function LastConversation(msgs: seq<Msg>): string
  {
    if msgs == [] then ""
    else if IsReceipt(msgs[|msgs| - 1]) then msgs[|msgs| - 1].content.tips.conversation
    else LastConversation(msgs[..|msgs| - 1])
  }

  /** doSetReadSeq; the caller writes the map to the database unless it is empty. */
  method DoSetReadSeq(msgs: seq<Msg>) returns (conversation: string, table: map<UserID, int>)
    ensures conversation == LastConversation(msgs) && table == ReadMap(msgs)
  {
    conversation, table := "", map[];
    for i := 0 to |msgs|
      invariant conversation == LastConversation(msgs[..i]) && table == ReadMap(msgs[..i])
    {
      assert msgs[..i + 1][..i] == msgs[..i];
      var m := msgs[i];
      if m.contentType != Messages.HAS_READ_RECEIPT || m.content.Unparsable? { continue; }
      var tips := m.content.tips;
      conversation := tips.conversation;
      var hasRead := tips.hasRead;
      for k := 0 to |tips.seqs|
        invariant hasRead == MaxSeq(tips.hasRead, tips.seqs[..k])
      {
        assert tips.seqs[..k + 1][..k] == tips.seqs[..k];
        if hasRead < tips.seqs[k] {
          hasRead := tips.seqs[k];
        }
      }
      assert tips.seqs[..|tips.seqs|] == tips.seqs;
      if hasRead < 0 { continue; }
      if (if tips.user in table then table[tips.user] else 0) > hasRead { continue; }
      table := table[tips.user := hasRead];
    }
    assert msgs[..|msgs|] == msgs;
  }

  /** For receipts of one conversation the answer is that conversation; without a receipt it is empty. */
  lemma {:induction false} ConversationIsShared(msgs: seq<Msg>, conversation: string)
    requires forall m :: m in msgs && IsReceipt(m) ==> m.content.tips.conversation == conversation
    ensures LastConversation(msgs) == if exists m :: m in msgs && IsReceipt(m) then conversation else ""
  {
    if msgs != [] {
      var front, last := msgs[..|msgs| - 1], msgs[|msgs| - 1];
      assert msgs == front + [last];
      assert last in msgs && forall m :: m in front ==> m in msgs;
      if !IsReceipt(last) { ConversationIsShared(front, conversation); }
    }
  }

  lemma {:induction false} MaxSeqIsMaximum(hasRead: int, seqs: seq<int>)
    ensures MaxSeq(hasRead, seqs) >= hasRead && forall s :: s in seqs ==> MaxSeq(hasRead, seqs) >= s
    ensures MaxSeq(hasRead, seqs) == hasRead || MaxSeq(hasRead, seqs) in seqs
  {
    if seqs != [] {
      var front := seqs[..|seqs| - 1];
      MaxSeqIsMaximum(hasRead, front);
      assert seqs == front + [seqs[|seqs| - 1]];
    }
  }

  /** `v` is the greatest position the messages mark as read for the user. */
  ghost predicate IsGreatest(msgs: seq<Msg>, user: UserID, v: int)
  {
    && (exists m :: m in msgs && Marks(m, user) && Value(m) == v)
    && (forall m :: m in msgs && Marks(m, user) ==> Value(m) <= v)
  }

  /** The map holds, for exactly the users some non-negative receipt marks, the maximum over their
      receipts of the larger of HasReadSeq and the listed seqs. */
  lemma {:induction false} ReadMapIsMaximum(msgs: seq<Msg>, user: UserID)
    ensures user in ReadMap(msgs) <==> exists m :: m in msgs && Marks(m, user)
    ensures user in ReadMap(msgs) ==> IsGreatest(msgs, user, ReadMap(msgs)[user])
  {
    if msgs != [] {
      var front, last := msgs[..|msgs| - 1], msgs[|msgs| - 1];
      ReadMapIsMaximum(front, user);
      assert msgs == front + [last];
      assert last in msgs && forall m :: m in msgs <==> m in front || m == last;
    }
  }

  lemma GreatestIsUnique(a: seq<Msg>, b: seq<Msg>, user: UserID, v: int, w: int)
    requires (forall m :: m in a <==> m in b) && IsGreatest(a, user, v) && IsGreatest(b, user, w)
    ensures v == w
  {
    var m :| m in a && Marks(m, user) && Value(m) == v;
    var n :| n in b && Marks(n, user) && Value(n) == w;
    assert m in b && n in a;
  }

  /** Batches with the same messages, in any order and however often repeated, give the same map. */
  lemma SameMessagesSameMap(a: seq<Msg>, b: seq<Msg>)
    requires forall m :: m in a <==> m in b
    ensures ReadMap(a) == ReadMap(b)
  {
    forall u ensures (u in ReadMap(a) <==> u in ReadMap(b)) && (u in ReadMap(a) ==> ReadMap(a)[u] == ReadMap(b)[u]) {
      ReadMapIsMaximum(a, u);
      ReadMapIsMaximum(b, u);
      if u in ReadMap(a) { GreatestIsUnique(a, b, u, ReadMap(a)[u], ReadMap(b)[u]); }
    }
  }

  /** In particular the map does not depend on the order of the batch. */
  lemma OrderDoesNotMatter(a: seq<Msg>, b: seq<Msg>)
    requires multiset(a) == multiset(b)
    ensures ReadMap(a) == ReadMap(b)
  {
    forall m ensures m in a <==> m in b {
      assert m in multiset(a) <==> m in multiset(b);
    }
    SameMessagesSameMap(a, b);
  }

  function PointwiseMax(a: map<UserID, int>, b: map<UserID, int>): map<UserID, int>
  {
    map u | u in a.Keys + b.Keys ::
      if u !in b then a[u] else if u !in a then b[u] else if a[u] < b[u] then b[u] else a[u]
  }

  lemma FoldMax(a: map<UserID, int>, b: map<UserID, int>, m: Msg)
    ensures Fold(PointwiseMax(a, b), m) == PointwiseMax(a, Fold(b, m))
  {
  }

  /** The map of a concatenation is the pointwise maximum of the maps. */
  lemma {:induction false} ReadMapConcat(a: seq<Msg>, b: seq<Msg>)
    ensures ReadMap(a + b) == PointwiseMax(ReadMap(a), ReadMap(b))
  {
    if b == [] {
      assert a + b == a;
      assert PointwiseMax(ReadMap(a), map[]) == ReadMap(a);
    } else {
      var front, last := b[..|b| - 1], b[|b| - 1];
      ReadMapConcat(a, front);
      assert (a + b)[..|a + b| - 1] == a + front;
      FoldMax(ReadMap(a), ReadMap(front), last);
    }
  }

  // ---- Fragmentation upstream -----------------------------------------------------------------------

  datatype Payload = MarkAsRead(tips: Tips) | Other(id: nat)

  predicate ForcedSplit(contentType: int)
  {
    || contentType == GROUP_INFO_SET_NOTIFICATION || contentType == CONVERSATION_CHANGE_NOTIFICATION
    || contentType == USER_INFO_UPDATED_NOTIFICATION || contentType == Messages.TYPING || contentType == Messages.HAS_READ_RECEIPT
  }

  predicate TooManySeqs(contentType: int, m: Payload)
  {
    contentType == Messages.HAS_READ_RECEIPT && m.MarkAsRead? && |m.tips.seqs| > SEQS_PER_MESSAGE
  }

  /** The messages of a split receipt: only the first carries seqs, and only the first chunk. */
  function SplitReceipt(tips: Tips): seq<Payload>
  {
    var n := |Slicing.Chunks(tips.seqs, SEQS_PER_MESSAGE)|;
    seq(n, i => MarkAsRead(tips.(seqs := if i == 0 && |tips.seqs| > SEQS_PER_MESSAGE then tips.seqs[..SEQS_PER_MESSAGE] else [])))
  }

  /** What sendWithFragmentation sends. `encoded` is the size of the encoded content, if encoding
      succeeds; `jsonSize` the length of the payload's JSON text. */
  function Sent(contentType: int, m: Payload, encoded: Option<nat>, jsonSize: nat): seq<Payload>
  {
    if !ForcedSplit(contentType) && encoded.None? then []
    else if !ForcedSplit(contentType) && encoded.value <= MAX_FRAGMENT_SIZE then [m]
    else if TooManySeqs(contentType, m) then SplitReceipt(m.tips)
    else if jsonSize > LARGE_JSON then [m, m]
    else [m]
  }

  method SendWithFragmentation(contentType: int, m: Payload, encoded: Option<nat>, jsonSize: nat) returns (sent: seq<Payload>)
    ensures sent == Sent(contentType, m, encoded, jsonSize)
  {
    sent := [];
    var split := contentType == Messages.HAS_READ_RECEIPT && m.MarkAsRead? && |m.tips.seqs| > 0;
    if !split && !ForcedSplit(contentType) {
      match encoded {
        case None => return;
        case Some(size) =>
          if size <= MAX_FRAGMENT_SIZE { return [m]; }
      }
    }
    if contentType == Messages.HAS_READ_RECEIPT && m.MarkAsRead? && |m.tips.seqs| > SEQS_PER_MESSAGE {
      var batches := Slicing.SplitSeqsIntoBatches(m.tips.seqs, SEQS_PER_MESSAGE);
      assert batches[..][0] == batches[0];
      for i := 0 to batches.Length
        invariant |sent| == i && forall j :: 0 <= j < i ==> sent[j] == SplitReceipt(m.tips)[j]
      {
        sent := sent + [MarkAsRead(m.tips.(seqs := if i == 0 then batches[i] else []))];
      }
      return;
    }
    if jsonSize > LARGE_JSON { return [m, m]; }
    sent := [m];
  }

  /** What is sent, for every content type and payload: nothing exactly when the type is not one of the
      forced ones and encoding fails; a payload within the limit once, unchanged; any other payload that
      is no receipt with too many seqs once or twice, unchanged, twice exactly when its JSON is long; and
      such a receipt in as many messages as it has chunks of 500 seqs, all with its user, conversation and
      position, the first with the first 500 seqs and the others with none. */
  lemma SentExactly(contentType: int, m: Payload, encoded: Option<nat>, jsonSize: nat)
    ensures var sent, forced := Sent(contentType, m, encoded, jsonSize), contentType in {113, 1300, 1303, 1502, 2200};
            && (sent == [] <==> !forced && encoded.None?)
            && (!forced && encoded.Some? && encoded.value <= 6 * 1024 * 1024 ==> sent == [m])
            && (forced || (encoded.Some? && encoded.value > 6 * 1024 * 1024) ==>
                  if contentType == 2200 && m.MarkAsRead? && |m.tips.seqs| > 500 then
                    && |sent| == Slicing.CountFor(|m.tips.seqs|, 500)
                    && (forall i :: 0 <= i < |sent| ==>
                          sent[i].MarkAsRead? && sent[i].tips.user == m.tips.user
                          && sent[i].tips.conversation == m.tips.conversation && sent[i].tips.hasRead == m.tips.hasRead)
                    && sent[0].tips.seqs == m.tips.seqs[..500] && (forall i :: 0 < i < |sent| ==> sent[i].tips.seqs == [])
                  else |sent| == (if jsonSize > 1000 then 2 else 1) && forall i :: 0 <= i < |sent| ==> sent[i] == m)
  {
    if m.MarkAsRead? { Slicing.ChunksAreExact(m.tips.seqs, SEQS_PER_MESSAGE); }
  }

  function Wrap(tips: Tips): Msg
  {
    Msg(Messages.HAS_READ_RECEIPT, Receipt(tips))
  }

  /** The receipts among the payloads, as the transfer worker receives them. */
  function Received(ps: seq<Payload>): (ms: seq<Msg>)
    ensures |ms| == |ps|
  {
    seq(|ps|, i requires 0 <= i < |ps| =>
      if ps[i].MarkAsRead? then Wrap(ps[i].tips) else Msg(Messages.HAS_READ_RECEIPT, Unparsable))
  }

  /** What a sender can check: no seq beyond the first chunk is a new non-negative maximum. */
  predicate NothingBeyondFirstChunk(tips: Tips)
  {
    |tips.seqs| <= SEQS_PER_MESSAGE ||
    forall s :: s in tips.seqs[SEQS_PER_MESSAGE..] ==>
      s < 0 || s <= tips.hasRead || exists f :: f in tips.seqs[..SEQS_PER_MESSAGE] && s <= f
  }

  /** The map of one receipt. */
  function Alone(tips: Tips): map<UserID, int>
  {
    if MaxSeq(tips.hasRead, tips.seqs) < 0 then map[] else map[tips.user := MaxSeq(tips.hasRead, tips.seqs)]
  }

  lemma AloneIsReadMap(tips: Tips)
    ensures ReadMap([Wrap(tips)]) == Alone(tips)
  {
    assert [Wrap(tips)][..0] == [];
  }

  /** The receipts sent give the map of the first chunk. */
  lemma SentMap(tips: Tips, encoded: Option<nat>, jsonSize: nat)
    ensures var first := if |tips.seqs| > SEQS_PER_MESSAGE then tips.(seqs := tips.seqs[..SEQS_PER_MESSAGE]) else tips;
            ReadMap(Received(Sent(Messages.HAS_READ_RECEIPT, MarkAsRead(tips), encoded, jsonSize))) == Alone(first)
  {
    var ps := Sent(Messages.HAS_READ_RECEIPT, MarkAsRead(tips), encoded, jsonSize);
    var first := if |tips.seqs| > SEQS_PER_MESSAGE then tips.(seqs := tips.seqs[..SEQS_PER_MESSAGE]) else tips;
    var rest := Wrap(tips.(seqs := []));
    var ms := Received(ps);
    assert ps != [] by { Slicing.ChunksAreExact(tips.seqs, SEQS_PER_MESSAGE); }
    assert ms[0] == Wrap(first) && forall i :: 0 < i < |ms| ==> ms[i] == Wrap(first) || ms[i] == rest;
    AloneIsReadMap(first);
    MaxSeqIsMaximum(first.hasRead, first.seqs);
    forall u ensures (u in ReadMap(ms) <==> u in ReadMap([Wrap(first)]))
                     && (u in ReadMap(ms) ==> ReadMap(ms)[u] == ReadMap([Wrap(first)])[u]) {
      ReadMapIsMaximum(ms, u);
      ReadMapIsMaximum([Wrap(first)], u);
      assert Wrap(first) in ms && Wrap(first) in [Wrap(first)];
      assert Value(rest) == first.hasRead <= Value(Wrap(first));
      if m :| m in ms && Marks(m, u) { assert Marks(Wrap(first), u); }
    }
  }

  /** Splitting, repeating and dropping seqs changes the read map of a receipt exactly when some
      seq beyond the first chunk is a new non-negative maximum. */
  lemma FragmentationPreservesReadState(tips: Tips, encoded: Option<nat>, jsonSize: nat)
    ensures ReadMap(Received(Sent(Messages.HAS_READ_RECEIPT, MarkAsRead(tips), encoded, jsonSize))) == ReadMap([Wrap(tips)])
            <==> NothingBeyondFirstChunk(tips)
  {
    SentMap(tips, encoded, jsonSize);
    AloneIsReadMap(tips);
    if |tips.seqs| > SEQS_PER_MESSAGE {
      var head, tail := tips.seqs[..SEQS_PER_MESSAGE], tips.seqs[SEQS_PER_MESSAGE..];
      assert tips.seqs == head + tail;
      assert forall s :: s in tips.seqs <==> s in head || s in tail;
      MaxSeqIsMaximum(tips.hasRead, tips.seqs);
      MaxSeqIsMaximum(tips.hasRead, head);
      var all, part := MaxSeq(tips.hasRead, tips.seqs), MaxSeq(tips.hasRead, head);
      assert part <= all;
      assert NothingBeyondFirstChunk(tips) <==> all < 0 || all == part;
    }
  }

  /** Within any batch, whatever the arrival order and the other messages. */
  lemma FragmentsInAnyBatch(tips: Tips, encoded: Option<nat>, jsonSize: nat, others: seq<Msg>, batch: seq<Msg>)
    requires NothingBeyondFirstChunk(tips)
    requires multiset(batch) == multiset(others + Received(Sent(Messages.HAS_READ_RECEIPT, MarkAsRead(tips), encoded, jsonSize)))
    ensures ReadMap(batch) == ReadMap(others + [Wrap(tips)])
  {
    var sent := Received(Sent(Messages.HAS_READ_RECEIPT, MarkAsRead(tips), encoded, jsonSize));
    FragmentationPreservesReadState(tips, encoded, jsonSize);
    OrderDoesNotMatter(batch, others + sent);
    ReadMapConcat(others, sent);
    ReadMapConcat(others, [Wrap(tips)]);
  }

  /** The two cases a caller will recognise: at most one chunk of seqs, or HasReadSeq at least
      every seq. */
  lemma CommonReceiptsArePreserved(tips: Tips)
    requires |tips.seqs| <= SEQS_PER_MESSAGE || forall s :: s in tips.seqs ==> s <= tips.hasRead
    ensures NothingBeyondFirstChunk(tips)
  {
    if |tips.seqs| > SEQS_PER_MESSAGE {
      assert forall s :: s in tips.seqs[SEQS_PER_MESSAGE..] ==> s in tips.seqs;
    }
  }
}
