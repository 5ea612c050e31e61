/** The push consumer (internal/push/push_handler.go:121-300, 303-391, 402-653): the path of a
    single message, and the batch path that fetches the group's members once. Each function
    extends the history of calls by what the code does; errors are logged and dropped by the
    callers, so a failed push simply stops. */
module GroupPush {
  import opened Common
  import opened Messages
  import opened PushEnv

  // ---- Steps shared by the paths ------------------------------------------------------------------

  /** A step's calls and, unless it failed, its value. */
  datatype Step<T> = Step(h: History, value: Option<T>)

  function Seconds(sendTime: int): int
  {
    // division of 64-bit milliseconds that truncates toward zero
    if sendTime >= 0 then sendTime / 1000 else -((-sendTime) / 1000)
  }

  predicate IsStale(env: Env, m: Msg)
  {
    env.now - Seconds(m.sendTime) > 30 && m.contentType > TEXT && m.contentType != SIGNALING_NOTIFICATION
  }

  predicate IsHighPriority(m: Msg)
  {
    m.sessionType == SINGLE_CHAT && (m.contentType <= FILE || m.contentType == SIGNALING_NOTIFICATION)
  }

  predicate ShouldPushOffline(m: Msg)
  {
    Is(m.options, OfflinePush)
    && m.contentType != ROOM_PARTICIPANTS_CONNECTED && m.contentType != ROOM_PARTICIPANTS_DISCONNECTED
  }

  predicate NeedsPerMsgGroupHandling(m: Msg)
  {
    || m.contentType == MEMBER_QUIT_NOTIFICATION || m.contentType == MEMBER_KICKED_NOTIFICATION
    || m.contentType == GROUP_DISMISSED_NOTIFICATION
  }

  /** webhookBeforeGroupOnlinePush: a webhook may replace the recipients. */
  function BeforeGroupPush(env: Env, h: History, group: string, m: Msg, users: seq<UserID>): Step<seq<UserID>>
  {
    if !env.groupWebhook || m.contentType == TYPING then Step(h, Some(users))
    else
      var r, h' := env.reply(h, GroupWebhook(group, m)), h + [GroupWebhook(group, m)];
      if r.Failed? then Step(h', None)
      else Step(h', Some(if ReplyUsers(r) != [] then ReplyUsers(r) else users))
  }

  function BeforeOnlinePush(env: Env, h: History, users: seq<UserID>, m: Msg): Step<()>
  {
    if !env.onlineWebhook || m.contentType == TYPING then Step(h, Some(()))
    else
      Step(h + [OnlineWebhook(users, m)], if env.reply(h, OnlineWebhook(users, m)).Failed? then None else Some(()))
  }

  /** webhookBeforeOfflinePush: may replace the recipients and the push information. */
  function BeforeOfflinePush(env: Env, h: History, users: seq<UserID>, m: Msg): Step<(seq<UserID>, Msg)>
  {
    if !env.offlineWebhook || m.contentType == TYPING then Step(h, Some((users, m)))
    else
      var r, h' := env.reply(h, OfflineWebhook(users, m)), h + [OfflineWebhook(users, m)];
      if r.Failed? then Step(h', None)
      else
        var info := if r.UsersAndInfo? && r.info.Some? then r.info.value else m.pushInfo;
        Step(h', Some((if ReplyUsers(r) != [] then ReplyUsers(r) else users, m.(pushInfo := info))))
  }

  /** GetConnsAndOnlinePush: a message being sent becomes sent; users the cache does not list as
      online get an empty result. */
  function Sending(m: Msg): Msg
  {
    if m.status == STATUS_SENDING then m.(status := STATUS_SEND_SUCCESS) else m
  }

  function EmptyResults(users: seq<UserID>): (rs: seq<PushResult>)
    ensures |rs| == |users|
  {
    seq(|users|, i requires 0 <= i < |users| => PushResult(users[i], false))
  }

  function PushToConns(env: Env, h: History, m: Msg, users: seq<UserID>): Step<seq<PushResult>>
  {
    var r, h1 := env.reply(h, QueryOnline(users)), h + [QueryOnline(users)];
    if r.Failed? then Step(h1, None)
    else
      var (online, offline) := ReplySplit(r);
      if online == [] then Step(h1, Some(EmptyResults(offline)))
      else
        var p, h2 := env.reply(h1, PushOnline(m, online)), h1 + [PushOnline(m, online)];
        if p.Failed? then Step(h2, None) else Step(h2, Some(ReplyResults(p) + EmptyResults(offline)))
  }

  /** The sender, and everybody else some gateway reached. */
  function Reached(sender: UserID, results: seq<PushResult>): seq<UserID>
  {
    if results == [] then [sender]
    else
      var r := results[|results| - 1];
      Reached(sender, results[..|results| - 1]) + if r.user != sender && r.onlinePush then [r.user] else []
  }

  /** The recipients no gateway reached, without the sender. */
  function FailedUsers(sub: Difference, sender: UserID, results: seq<PushResult>, users: seq<UserID>): seq<UserID>
  {
    sub(users, Reached(sender, results))
  }

  function OfflineAsync(env: Env, h: History, users: seq<UserID>, m: Msg): History
  {
    var s := BeforeOfflinePush(env, h, users, m);
    if s.value.None? then s.h
    else s.h + [EnqueueOffline(Pair(m.sendID, m.recvID), s.value.value.0, s.value.value.1)]
  }

  /** filterGroupMessageOfflinePush: which of the users may be pushed offline. */
  function FilterGroupOffline(env: Env, h: History, group: string, users: seq<UserID>): Step<seq<UserID>>
  {
    var call := FilterOffline("sg_" + group, users);
    var r := env.reply(h, call);
    Step(h + [call], if r.Failed? then None else Some(ReplyUsers(r)))
  }

  // ---- Group messages -------------------------------------------------------------------------------

  /** DeleteMemberAndSetConversationSeq. */
  function DeleteMembers(env: Env, h: History, group: string, users: seq<UserID>): Step<()>
  {
    var conversation := ConversationIDBySessionType(READ_GROUP_CHAT, [group]);
    var r, h1 := env.reply(h, QueryMaxSeq(conversation)), h + [QueryMaxSeq(conversation)];
    if r.Failed? then Step(h1, None)
    else
      var call := SetMaxSeq(conversation, users, if r.Seqno? then r.n else 0);
      Step(h1 + [call], if env.reply(h1, call).Failed? then None else Some(()))
  }

  /** groupMessagesHandler: recipients given by the webhook are used as they are; otherwise the
      members, and for three notifications their side effects and departed members. */
  function HandleGroupMessage(env: Env, h: History, group: string, users: seq<UserID>, m: Msg): Step<seq<UserID>>
  {
    if users != [] then Step(h, Some(users))
    else if env.members(group).None? then Step(h, None)
    else
      var members := env.members(group).value;
      if m.contentType == MEMBER_QUIT_NOTIFICATION then
        var quit := env.parseQuit(m.content);
        if quit.None? then Step(h, Some(members))
        else
          var s := DeleteMembers(env, h, group, [quit.value]);
          Step(s.h, if s.value.None? then None else Some(members + [quit.value]))
      else if m.contentType == MEMBER_KICKED_NOTIFICATION then
        var kicked := env.parseKicked(m.content);
        if kicked.None? then Step(h, Some(members))
        else
          var s := DeleteMembers(env, h, group, kicked.value);
          Step(s.h, if s.value.None? then None else Some(members + kicked.value))
      else if m.contentType == GROUP_DISMISSED_NOTIFICATION && IsNotificationID(ConversationID(m)) && env.parseDismissed(m.content) then
        Step(h + [DismissGroup(group)], Some(members))
      else Step(h, Some(members))
  }

  /** Push2Group: the recipients come from the webhook or from the members. */
  function Push2Group(env: Env, h: History, group: string, m: Msg): History
  {
    var s := BeforeGroupPush(env, h, group, m, []);
    if s.value.None? then s.h
    else
      var t := HandleGroupMessage(env, s.h, group, s.value.value, m);
      if t.value.None? || (s.value.value == [] && t.value.value == []) then t.h
      else PushToRecipients(env, t.h, group, m, t.value.value)
  }

  /** The rest of Push2Group (internal/push/push_handler.go:557-583). */
  function PushToRecipients(env: Env, h: History, group: string, m: Msg, users: seq<UserID>): History
  {
    var sent := Sending(m);
    var s := PushToConns(env, h, sent, users);
    if s.value.None? then s.h
    else if !ShouldPushOffline(sent) then s.h
    else
      var f := FilterGroupOffline(env, s.h, group, FailedUsers(env.sub, sent.sendID, s.value.value, users));
      if f.value.None? then f.h
      else if f.value.value != [] then OfflineAsync(env, f.h, f.value.value, sent)
      else f.h
  }

  /** push2GroupWithMembers (internal/push/push_handler.go:274-300): the members are at hand. */
  function Push2GroupWithMembers(env: Env, h: History, group: string, m: Msg, members: seq<UserID>): History
  {
    var s := BeforeGroupPush(env, h, group, m, members);
    if s.value.None? || s.value.value == [] then s.h
    else
      var sent, users := Sending(m), s.value.value;
      var t := PushToConns(env, s.h, sent, users);
      if t.value.None? || !ShouldPushOffline(sent) then t.h
      else
        var f := FilterGroupOffline(env, t.h, group, FailedUsers(env.sub, sent.sendID, t.value.value, users));
        if f.value.None? || f.value.value == [] then f.h else OfflineAsync(env, f.h, f.value.value, sent)
  }

  /** PushHighPriority2Group. */
  function PushHighPriority2Group(env: Env, h: History, group: string, m: Msg): History
  {
    var s := BeforeGroupPush(env, h, group, m, []);
    if s.value.None? then s.h
    else
      var t := HandleGroupMessage(env, s.h, group, s.value.value, m);
      if t.value.None? then t.h
      else
        var users := t.value.value;
        var call := PushOnline(m, users);
        var p, h' := env.reply(t.h, call), t.h + [call];
        if p.Failed? || !ShouldPushOffline(m) || FailedUsers(env.sub, m.sendID, ReplyResults(p), users) == [] then h'
        else
          var ask := FilterOffline("sg_" + group, FailedUsers(env.sub, m.sendID, ReplyResults(p), users));
          var r, h'' := env.reply(h', ask), h' + [ask];
          if r.Failed? || ReplyUsers(r) == [] then h'' else h'' + [PushOffline(ReplyUsers(r), m)]
  }

  // ---- Other messages ---------------------------------------------------------------------------------

  function Recipients(m: Msg): seq<UserID>
  {
    if !Is(m.options, SenderSync) || m.sendID == m.recvID then [m.recvID] else [m.recvID, m.sendID]
  }

  predicate ReachedAnother(m: Msg, results: seq<PushResult>)
  {
    exists r :: r in results && r.user != m.sendID && r.onlinePush
  }

  function Push2User(env: Env, h: History, users: seq<UserID>, m: Msg): History
  {
    var w := BeforeOnlinePush(env, h, users, m);
    if w.value.None? then w.h
    else
      var sent := Sending(m);
      var s := PushToConns(env, w.h, sent, users);
      if s.value.None? || !ShouldPushOffline(m) || ReachedAnother(m, s.value.value) then s.h
      else
        var o := BeforeOfflinePush(env, s.h, [m.recvID], sent);
        if o.value.None? then o.h else o.h + [PushOffline(o.value.value.0, o.value.value.1)]
  }

  function PushHighPriority2User(env: Env, h: History, users: seq<UserID>, m: Msg): History
  {
    var w := BeforeOnlinePush(env, h, users, m);
    if w.value.None? then w.h
    else
      var sent := Sending(m);
      var s := PushToConns(env, w.h, sent, users);
      if s.value.None? || !ShouldPushOffline(m) || ReachedAnother(m, s.value.value) then s.h
      else s.h + [PushOffline([m.recvID], sent)]
  }

  // ---- The two entries -----------------------------------------------------------------------------------

  /** HandleMs2PsChat for one message; a missing message is skipped. */
  function HandleOne(env: Env, h: History, m: Option<Msg>): History
  {
    if m.None? || IsStale(env, m.value) then h
    else PushOne(env, h, m.value)
  }

  predicate IsSmallGroup(env: Env, group: string)
  {
    env.members(group).Some? && |env.members(group).value| < 200
  }

  function PushOne(env: Env, h: History, m: Msg): History
  {
    if m.sessionType == READ_GROUP_CHAT then
      if IsHighPriority(m) && m.groupID != "" && IsSmallGroup(env, m.groupID) then PushHighPriority2Group(env, h, m.groupID, m)
      else Push2Group(env, h, m.groupID, m)
    else if IsHighPriority(m) then PushHighPriority2User(env, h, Recipients(m), m)
    else Push2User(env, h, Recipients(m), m)
  }

  function HandleEach(env: Env, h: History, ms: seq<Option<Msg>>): History
  {
    if ms == [] then h else HandleOne(env, HandleEach(env, h, ms[..|ms| - 1]), ms[|ms| - 1])
  }

  /** The messages of a batch that are present and not stale. */
  function Kept(env: Env, ms: seq<Option<Msg>>): seq<Msg>
  {
    if ms == [] then []
    else
      var m := ms[|ms| - 1];
      Kept(env, ms[..|ms| - 1]) + if m.None? || IsStale(env, m.value) then [] else [m.value]
  }

  /** One message of a group batch, with the members fetched once for group `first`. */
  function PushInGroupBatch(env: Env, h: History, first: string, members: seq<UserID>, m: Msg): History
  {
    if m.groupID != first || NeedsPerMsgGroupHandling(m) || members == [] then Push2Group(env, h, m.groupID, m)
    else Push2GroupWithMembers(env, h, m.groupID, m, members)
  }

  function PushGroupBatch(env: Env, h: History, first: string, members: seq<UserID>, kept: seq<Msg>): History
  {
    if kept == [] then h
    else PushInGroupBatch(env, PushGroupBatch(env, h, first, members, kept[..|kept| - 1]), first, members, kept[|kept| - 1])
  }

  function PushUserBatch(env: Env, h: History, kept: seq<Msg>): History
  {
    if kept == [] then h
    else
      var m := kept[|kept| - 1];
      Push2User(env, PushUserBatch(env, h, kept[..|kept| - 1]), Recipients(m), m)
  }

  predicate IsGroupBatch(kept: seq<Msg>)
  {
    kept != [] && kept[0].sessionType == READ_GROUP_CHAT && kept[0].groupID != ""
  }

  function MembersOf(env: Env, group: string): seq<UserID>
  {
    if env.members(group).Some? then env.members(group).value else []
  }

  /** handleBatch. */
  function HandleBatch(env: Env, h: History, ms: seq<Option<Msg>>): History
  {
    var kept := Kept(env, ms);
    if IsGroupBatch(kept) then PushGroupBatch(env, h, kept[0].groupID, MembersOf(env, kept[0].groupID), kept)
    else PushUserBatch(env, h, kept)
  }

  // ---- Refinement -------------------------------------------------------------------------------------------

  /** A group message is never high priority, so the high-priority group branch is dead. */
  lemma HighPriorityGroupUnreachable(env: Env, h: History, m: Msg)
    requires m.sessionType == READ_GROUP_CHAT
    ensures PushOne(env, h, m) == Push2Group(env, h, m.groupID, m)
  {
  }

  /** With members at hand and no side effects, both group pushes make the same calls. */
  lemma MembersAtHand(env: Env, h: History, m: Msg)
    requires !NeedsPerMsgGroupHandling(m) && env.members(m.groupID).Some? && env.members(m.groupID).value != []
    ensures Push2GroupWithMembers(env, h, m.groupID, m, env.members(m.groupID).value) == Push2Group(env, h, m.groupID, m)
  {
  }

  lemma {:induction false} GroupBatchIsFold(env: Env, h: History, first: string, kept: seq<Msg>)
    requires forall i :: 0 <= i < |kept| ==> kept[i].sessionType == READ_GROUP_CHAT
    ensures PushGroupBatch(env, h, first, MembersOf(env, first), kept) == PushEach(env, h, kept)
  {
    if kept != [] {
      var front, m := kept[..|kept| - 1], kept[|kept| - 1];
      GroupBatchIsFold(env, h, first, front);
      var h1 := PushEach(env, h, front);
      HighPriorityGroupUnreachable(env, h1, m);
      if m.groupID == first && !NeedsPerMsgGroupHandling(m) && MembersOf(env, first) != [] {
        MembersAtHand(env, h1, m);
      }
    }
  }

  function PushEach(env: Env, h: History, kept: seq<Msg>): History
  {
    if kept == [] then h else PushOne(env, PushEach(env, h, kept[..|kept| - 1]), kept[|kept| - 1])
  }

  lemma {:induction false} HandleEachIsFold(env: Env, h: History, ms: seq<Option<Msg>>)
    ensures HandleEach(env, h, ms) == PushEach(env, h, Kept(env, ms))
  {
    if ms != [] {
      var front, m := ms[..|ms| - 1], ms[|ms| - 1];
      HandleEachIsFold(env, h, front);
      if m.Some? && !IsStale(env, m.value) {
        assert (Kept(env, front) + [m.value])[..|Kept(env, front)|] == Kept(env, front);
      } else {
        assert Kept(env, ms) == Kept(env, front);
      }
    }
  }

  /** The batch path makes exactly the calls, in the order, of handling the messages one by one:
      same online pushes, member side effects, webhooks and offline enqueues, whatever the
      environment answers. The kept messages are group messages, the first one with a group ID. */
  lemma BatchRefinesPerMessage(env: Env, h: History, ms: seq<Option<Msg>>)
    requires forall i :: 0 <= i < |Kept(env, ms)| ==> Kept(env, ms)[i].sessionType == READ_GROUP_CHAT
    requires Kept(env, ms) != [] ==> Kept(env, ms)[0].groupID != ""
    ensures HandleBatch(env, h, ms) == HandleEach(env, h, ms)
  {
    HandleEachIsFold(env, h, ms);
    if Kept(env, ms) != [] {
      GroupBatchIsFold(env, h, Kept(env, ms)[0].groupID, Kept(env, ms));
    }
  }

  // ---- Batches of other messages ------------------------------------------------------------------------------

  /** Which messages are kept: those present, but for the ones that are over 30 seconds old and neither
      text or older kinds nor signalling; and they stay in order. */
  lemma {:induction false} KeptExactly(env: Env, ms: seq<Option<Msg>>)
    ensures forall m :: m in Kept(env, ms)
                        <==> Some(m) in ms && !(env.now - Seconds(m.sendTime) > 30 && m.contentType > 101 && m.contentType != 1601)
  {
    if ms != [] {
      var front, last := ms[..|ms| - 1], ms[|ms| - 1];
      KeptExactly(env, front);
      assert ms == front + [last];
    }
  }

  lemma {:induction false} KeptConcat(env: Env, a: seq<Option<Msg>>, b: seq<Option<Msg>>)
    ensures Kept(env, a + b) == Kept(env, a) + Kept(env, b)
  {
    if b == [] {
      assert a + b == a;
    } else {
      KeptConcat(env, a, b[..|b| - 1]);
      assert (a + b)[..|a + b| - 1] == a + b[..|b| - 1];
    }
  }

  /** Seconds of a time in milliseconds: the quotient toward zero. */
  lemma SecondsTruncate(sendTime: int)
    ensures var s := Seconds(sendTime);
            (sendTime >= 0 ==> 1000 * s <= sendTime < 1000 * s + 1000) && (sendTime <= 0 ==> 1000 * s - 1000 < sendTime <= 1000 * s)
  {
  }

  /** Without an offline webhook the high-priority path makes the calls of the ordinary one. */
  lemma HighPriorityWithoutWebhook(env: Env, h: History, m: Msg)
    requires !env.offlineWebhook || m.contentType == TYPING || !ShouldPushOffline(m)
    ensures PushHighPriority2User(env, h, Recipients(m), m) == Push2User(env, h, Recipients(m), m)
  {
  }

  /** An environment where the offline webhook is on and nobody is online. */
  function Offline(now: int): Env
  {
    Env(now, _ => None, (_, _) => Done, false, false, true, _ => None, _ => None, _ => false, Minus)
  }

  lemma OneKept(env: Env, h: History, m: Msg)
    requires m.sessionType != READ_GROUP_CHAT && !IsStale(env, m)
    ensures HandleBatch(env, h, [Some(m)]) == Push2User(env, h, Recipients(m), m)
    ensures HandleEach(env, h, [Some(m)]) == PushOne(env, h, m)
  {
    var ms := [Some(m)];
    assert ms[..0] == [];
    assert Kept(env, ms) == [m];
    assert [m][..0] == [];
    assert PushUserBatch(env, h, []) == h && HandleEach(env, h, []) == h;
  }

  lemma OrdinaryMessageAgrees(env: Env, h: History, m: Msg)
    requires m.sessionType != READ_GROUP_CHAT && !IsStale(env, m) && !(IsHighPriority(m) && ShouldPushOffline(m))
    ensures HandleBatch(env, h, [Some(m)]) == HandleEach(env, h, [Some(m)])
  {
    OneKept(env, h, m);
    if IsHighPriority(m) { HighPriorityWithoutWebhook(env, h, m); }
  }

  lemma HighPriorityMessageDiffers(env: Env, m: Msg)
    requires m.sessionType != READ_GROUP_CHAT && !IsStale(env, m) && IsHighPriority(m) && ShouldPushOffline(m)
    requires env == Offline(env.now)
    ensures HandleBatch(env, [], [Some(m)]) != HandleEach(env, [], [Some(m)])
  {
    OneKept(env, [], m);
    var sent, asked := Sending(m), [QueryOnline(Recipients(m))];
    assert [] + asked == asked;
    assert PushToConns(env, [], sent, Recipients(m)) == Step(asked, Some([]));
    assert PushOne(env, [], m) == asked + [PushOffline([m.recvID], sent)];
    assert Push2User(env, [], Recipients(m), m) == asked + [OfflineWebhook([m.recvID], sent)] + [PushOffline([m.recvID], sent)];
    assert |PushOne(env, [], m)| == 2 && |Push2User(env, [], Recipients(m), m)| == 3;
  }

  /** For a message that is not for a group, the batch path agrees with the single path in every
      environment exactly when the message is not a high-priority one that may be pushed offline:
      the single path skips the offline webhook for those, the batch path does not. */
  lemma SingleChatBatchAgreement(m: Msg, now: int)
    requires m.sessionType != READ_GROUP_CHAT && !IsStale(Offline(now), m)
    ensures (forall env: Env, h: History :: env.now == now ==> HandleBatch(env, h, [Some(m)]) == HandleEach(env, h, [Some(m)]))
            <==> !(m.sessionType == 1 && (m.contentType <= 105 || m.contentType == 1601) && Is(m.options, OfflinePush))
  {
    if IsHighPriority(m) && ShouldPushOffline(m) {
      HighPriorityMessageDiffers(Offline(now), m);
    } else {
      forall env: Env, h: History | env.now == now
        ensures HandleBatch(env, h, [Some(m)]) == HandleEach(env, h, [Some(m)])
      {
        OrdinaryMessageAgrees(env, h, m);
      }
    }
  }

  /** So a batch without group messages refines the per-message handling whenever none of its
      high-priority messages may be pushed offline, or no offline webhook is configured. */
  lemma UserBatchRefinesPerMessage(env: Env, h: History, ms: seq<Option<Msg>>)
    requires forall i :: 0 <= i < |Kept(env, ms)| ==>
               var m := Kept(env, ms)[i];
               m.sessionType != READ_GROUP_CHAT && (IsHighPriority(m) ==> !ShouldPushOffline(m) || !env.offlineWebhook)
    ensures HandleBatch(env, h, ms) == HandleEach(env, h, ms)
  {
    HandleEachIsFold(env, h, ms);
    UserBatchIsFold(env, h, Kept(env, ms));
  }

  lemma {:induction false} UserBatchIsFold(env: Env, h: History, kept: seq<Msg>)
    requires forall i :: 0 <= i < |kept| ==>
               var m := kept[i];
               m.sessionType != READ_GROUP_CHAT && (IsHighPriority(m) ==> !ShouldPushOffline(m) || !env.offlineWebhook)
    ensures PushUserBatch(env, h, kept) == PushEach(env, h, kept)
  {
    if kept != [] {
      var front, m := kept[..|kept| - 1], kept[|kept| - 1];
      UserBatchIsFold(env, h, front);
      if IsHighPriority(m) { HighPriorityWithoutWebhook(env, PushEach(env, h, front), m); }
    }
  }

  // ---- What a push does, call by call -----------------------------------------------------------------------------

  lemma {:induction false} ReachedMembers(sender: UserID, results: seq<PushResult>)
    ensures forall u :: u in Reached(sender, results) <==> u == sender || PushResult(u, true) in results
  {
    if results != [] {
      var front, r := results[..|results| - 1], results[|results| - 1];
      ReachedMembers(sender, front);
      assert results == front + [r] && r == PushResult(r.user, r.onlinePush);
    }
  }

  /** Whatever the order of the difference: the failed users are exactly the requested ones that are
      neither the sender nor reached. */
  lemma FailedUsersMembers(sub: Difference, sender: UserID, results: seq<PushResult>, users: seq<UserID>)
    requires IsDifference(sub)
    ensures forall u :: u in FailedUsers(sub, sender, results, users)
                        <==> u in users && u != sender && PushResult(u, true) !in results
  {
    ReachedMembers(sender, results);
  }

  /** From `h` on: nothing more without the offline flag; with it, the offline filter is asked about
      exactly the recipients, other than the sender, that no gateway reached. */
  ghost predicate AsksFilter(h: History, after: History, group: string, m: Msg, users: seq<UserID>, pushed: seq<PushResult>)
  {
    if !ShouldPushOffline(m) then after == h
    else
      && |after| > |h| && h == after[..|h|] && after[|h|].FilterOffline? && after[|h|].conversation == "sg_" + group
      && forall u :: u in after[|h|].users <==> u in users && u != m.sendID && PushResult(u, true) !in pushed
  }

  /** Every recipient is accounted for, whatever the cache and the gateways answer: a failed query or
      push ends the handling; otherwise the online users, if any, get the message, marked as sent,
      and the filter is asked about exactly those not reached. */
  lemma RecipientsAccountedFor(env: Env, h: History, group: string, m: Msg, users: seq<UserID>)
    requires IsDifference(env.sub)
    ensures var q := env.reply(h, QueryOnline(users));
            var online := ReplySplit(q).0;
            var h1 := h + [QueryOnline(users)];
            var p := env.reply(h1, PushOnline(Sending(m), online));
            var after := PushToRecipients(env, h, group, m, users);
            && Sending(m) == (if m.status == 1 then m.(status := 2) else m)
            && if q.Failed? then after == h1
               else if online == [] then AsksFilter(h1, after, group, m, users, [])
               else if p.Failed? then after == h1 + [PushOnline(Sending(m), online)]
               else AsksFilter(h1 + [PushOnline(Sending(m), online)], after, group, m, users, ReplyResults(p))
  {
    var s := PushToConns(env, h, Sending(m), users);
    var q := env.reply(h, QueryOnline(users));
    if s.value.Some? {
      var pushed := if ReplySplit(q).0 == [] then []
                    else ReplyResults(env.reply(h + [QueryOnline(users)], PushOnline(Sending(m), ReplySplit(q).0)));
      FilterAsked(env, s.h, group, m, users, s.value.value, pushed, ReplySplit(q).1);
    }
  }

  lemma FilterAsked(env: Env, h: History, group: string, m: Msg, users: seq<UserID>,
                    results: seq<PushResult>, pushed: seq<PushResult>, offline: seq<UserID>)
    requires results == pushed + EmptyResults(offline) && IsDifference(env.sub)
    ensures forall u :: u in FailedUsers(env.sub, m.sendID, results, users) <==> u in users && u != m.sendID && PushResult(u, true) !in pushed
    ensures var f := FilterGroupOffline(env, h, group, FailedUsers(env.sub, m.sendID, results, users));
            && f.h == h + [FilterOffline("sg_" + group, FailedUsers(env.sub, m.sendID, results, users))]
            && forall some :: f.h <= OfflineAsync(env, f.h, some, Sending(m))
  {
    FailedUsersMembers(env.sub, m.sendID, results, users);
    forall u ensures PushResult(u, true) in results <==> PushResult(u, true) in pushed {
      assert forall i :: 0 <= i < |offline| ==> EmptyResults(offline)[i] != PushResult(u, true);
    }
  }

  /** The offline filter answers with users it was asked about, and the offline webhook replaces
      nobody. */
  ghost predicate Faithful(env: Env)
  {
    && (forall h: History, c: Call :: c.FilterOffline? ==> forall u :: u in ReplyUsers(env.reply(h, c)) ==> u in c.users)
    && (forall h: History, c: Call :: c.OfflineWebhook? ==> ReplyUsers(env.reply(h, c)) == [])
  }

  /** With a faithful filter and webhook, an offline push of a group message goes only to recipients
      other than the sender, only under the offline flag, and only after the cache was asked who is
      online and, if anybody is, the message was pushed to them. */
  lemma OfflinePushIsJustified(env: Env, h: History, group: string, m: Msg, users: seq<UserID>, k: nat)
    requires Faithful(env) && IsDifference(env.sub)
    requires var after := PushToRecipients(env, h, group, m, users); |h| <= k < |after| && after[k].EnqueueOffline?
    ensures var after := PushToRecipients(env, h, group, m, users);
            var online := ReplySplit(env.reply(h, QueryOnline(users))).0;
            && Is(m.options, OfflinePush) && m.contentType !in {1602, 1603} && (forall u :: u in after[k].users ==> u in users && u != m.sendID)
            && k > |h| && after[|h|] == QueryOnline(users)
            && (online != [] ==> k > |h| + 1 && after[|h| + 1] == PushOnline(Sending(m), online))
  {
    var s := PushToConns(env, h, Sending(m), users);
    if s.value.Some? && ShouldPushOffline(m) {
      var failed := FailedUsers(env.sub, m.sendID, s.value.value, users);
      FailedUsersMembers(env.sub, m.sendID, s.value.value, users);
      PickedFrom(env, s.h, group, failed, Sending(m));
    }
  }

  lemma PickedFrom(env: Env, h: History, group: string, failed: seq<UserID>, m: Msg)
    requires Faithful(env)
    ensures var f := FilterGroupOffline(env, h, group, failed);
            f.value.Some? ==>
              && (forall u :: u in f.value.value ==> u in failed)
              && (BeforeOfflinePush(env, f.h, f.value.value, m).value.Some? ==>
                    BeforeOfflinePush(env, f.h, f.value.value, m).value.value.0 == f.value.value)
  {
    var call := FilterOffline("sg_" + group, failed);
    assert call.FilterOffline? && call.users == failed;
  }

  /** Once the filter has answered with users, they are pushed offline: unless the webhook is asked and
      fails, the last call enqueues the message, as it was sent, for them or for those the webhook names. */
  lemma OfflinePushHappens(env: Env, h: History, group: string, m: Msg, users: seq<UserID>)
    requires PushToConns(env, h, Sending(m), users).value.Some? && ShouldPushOffline(m)
    requires var s := PushToConns(env, h, Sending(m), users);
             var ask := FilterOffline("sg_" + group, FailedUsers(env.sub, m.sendID, s.value.value, users));
             !env.reply(s.h, ask).Failed? && ReplyUsers(env.reply(s.h, ask)) != []
    ensures var s := PushToConns(env, h, Sending(m), users);
            var ask := FilterOffline("sg_" + group, FailedUsers(env.sub, m.sendID, s.value.value, users));
            var picked := ReplyUsers(env.reply(s.h, ask));
            var hook, key := OfflineWebhook(picked, Sending(m)), Pair(m.sendID, m.recvID);
            var r := env.reply(s.h + [ask], hook);
            var after := PushToRecipients(env, h, group, m, users);
            if !env.offlineWebhook || m.contentType == TYPING then after == s.h + [ask] + [EnqueueOffline(key, picked, Sending(m))]
            else if r.Failed? then after == s.h + [ask] + [hook]
            else
              && |after| == |s.h| + 3 && after[..|s.h| + 2] == s.h + [ask] + [hook] && after[|s.h| + 2].EnqueueOffline?
              && after[|s.h| + 2].key == key
              && after[|s.h| + 2].users == (if ReplyUsers(r) != [] then ReplyUsers(r) else picked)
              && after[|s.h| + 2].msg == Sending(m).(pushInfo := if r.UsersAndInfo? && r.info.Some? then r.info.value else m.pushInfo)
  {
  }

  /** The handling ended at a call that failed. */
  ghost predicate EndedAtFailure(env: Env, after: History)
  {
    after != [] && env.reply(after[..|after| - 1], after[|after| - 1]).Failed?
  }

  /** The message was pushed online and a gateway reported the user reached. */
  ghost predicate ReportedReached(env: Env, from: nat, after: History, m: Msg, u: UserID)
  {
    exists k :: from <= k < |after| && after[k].PushOnline? && after[k].msg == Sending(m)
                && PushResult(u, true) in ReplyResults(env.reply(after[..k], after[k]))
  }

  /** The filter was asked about the user and left it out. */
  ghost predicate LeftOut(env: Env, from: nat, after: History, u: UserID)
  {
    exists k :: from <= k < |after| && after[k].FilterOffline? && u in after[k].users
                && u !in ReplyUsers(env.reply(after[..k], after[k]))
  }

  /** The message was enqueued for the user, or the webhook, asked about it, named others. */
  ghost predicate Enqueued(env: Env, from: nat, after: History, u: UserID)
  {
    && |after| > from && after[|after| - 1].EnqueueOffline?
    && (u in after[|after| - 1].users
        || (|after| > from + 1 && after[|after| - 2].OfflineWebhook? && u in after[|after| - 2].users
            && after[|after| - 1].users == ReplyUsers(env.reply(after[..|after| - 2], after[|after| - 2]))))
  }

  /** The full account of a group push, in any environment: for every recipient other than the sender the
      handling ended at a failed call, or the message is not to be pushed offline, or the recipient was
      reported reached, or the filter left it out, or the message was enqueued for it. */
  lemma EveryRecipientAccounted(env: Env, h: History, group: string, m: Msg, users: seq<UserID>, u: UserID)
    requires IsDifference(env.sub) && u in users && u != m.sendID
    ensures var after := PushToRecipients(env, h, group, m, users);
            || EndedAtFailure(env, after) || !Is(m.options, OfflinePush) || m.contentType in {1602, 1603}
            || ReportedReached(env, |h|, after, m, u) || LeftOut(env, |h|, after, u) || Enqueued(env, |h|, after, u)
  {
    var after := PushToRecipients(env, h, group, m, users);
    var s := PushToConns(env, h, Sending(m), users);
    var q := env.reply(h, QueryOnline(users));
    ConnsPrefix(env, h, m, users);
    if s.value.Some? && ShouldPushOffline(m) {
      var failed := FailedUsers(env.sub, m.sendID, s.value.value, users);
      var ask := FilterOffline("sg_" + group, failed);
      FailedUsersMembers(env.sub, m.sendID, s.value.value, users);
      assert s.h + [ask] <= after;
      if u !in failed {
        ReachedOnline(env, h, m, users, u);
        OnlineStays(env, |h|, s.h, after, m, u);
      } else if !env.reply(s.h, ask).Failed? {
        assert after[..|s.h|] == s.h && after[|s.h|] == ask;
        if ReplyUsers(env.reply(s.h, ask)) != [] && u in ReplyUsers(env.reply(s.h, ask)) {
          OfflinePushHappens(env, h, group, m, users);
          EnqueuedOrFailed(env, h, group, m, users, u);
        }
      }
    }
  }

  lemma ConnsPrefix(env: Env, h: History, m: Msg, users: seq<UserID>)
    ensures var s := PushToConns(env, h, Sending(m), users);
            && h + [QueryOnline(users)] <= s.h
            && (s.value.None? ==> EndedAtFailure(env, s.h))
  {
    var h1 := h + [QueryOnline(users)];
    var call := PushOnline(Sending(m), ReplySplit(env.reply(h, QueryOnline(users))).0);
    assert h1[..|h1| - 1] == h;
    assert (h1 + [call])[..|h1|] == h1;
  }

  lemma ReachedOnline(env: Env, h: History, m: Msg, users: seq<UserID>, u: UserID)
    requires var s := PushToConns(env, h, Sending(m), users); s.value.Some? && PushResult(u, true) in s.value.value
    ensures ReportedReached(env, |h|, PushToConns(env, h, Sending(m), users).h, m, u)
  {
    var s := PushToConns(env, h, Sending(m), users);
    var (online, offline) := ReplySplit(env.reply(h, QueryOnline(users)));
    assert forall i :: 0 <= i < |offline| ==> EmptyResults(offline)[i] != PushResult(u, true);
    assert s.h[..|h| + 1] == h + [QueryOnline(users)] && s.h[|h| + 1] == PushOnline(Sending(m), online);
  }

  lemma OnlineStays(env: Env, from: nat, h: History, after: History, m: Msg, u: UserID)
    requires ReportedReached(env, from, h, m, u) && h <= after
    ensures ReportedReached(env, from, after, m, u)
  {
    var k :| from <= k < |h| && h[k].PushOnline? && h[k].msg == Sending(m)
             && PushResult(u, true) in ReplyResults(env.reply(h[..k], h[k]));
    assert after[..k] == h[..k] && after[k] == h[k];
  }

  lemma EnqueuedOrFailed(env: Env, h: History, group: string, m: Msg, users: seq<UserID>, u: UserID)
    requires PushToConns(env, h, Sending(m), users).value.Some? && ShouldPushOffline(m)
    requires |PushToConns(env, h, Sending(m), users).h| >= |h|
    requires var s := PushToConns(env, h, Sending(m), users);
             var ask := FilterOffline("sg_" + group, FailedUsers(env.sub, m.sendID, s.value.value, users));
             !env.reply(s.h, ask).Failed? && u in ReplyUsers(env.reply(s.h, ask))
    ensures var after := PushToRecipients(env, h, group, m, users);
            EndedAtFailure(env, after) || Enqueued(env, |h|, after, u)
  {
    OfflinePushHappens(env, h, group, m, users);
    var s := PushToConns(env, h, Sending(m), users);
    var ask := FilterOffline("sg_" + group, FailedUsers(env.sub, m.sendID, s.value.value, users));
    var picked := ReplyUsers(env.reply(s.h, ask));
    var hook := OfflineWebhook(picked, Sending(m));
    var after := PushToRecipients(env, h, group, m, users);
    if env.offlineWebhook && m.contentType != TYPING {
      if env.reply(s.h + [ask], hook).Failed? {
        assert (s.h + [ask] + [hook])[..|s.h| + 1] == s.h + [ask];
      } else {
        assert after[..|s.h| + 1] == s.h + [ask] && after[|s.h| + 1] == hook;
      }
    }
  }

  /** The last call pushes the message offline to the receiver, or to those the webhook named. */
  ghost predicate PushedOffline(env: Env, from: nat, after: History, m: Msg)
  {
    && |after| > from && after[|after| - 1].PushOffline?
    && (after[|after| - 1].users == [m.recvID]
        || (|after| > from + 1 && after[|after| - 2].OfflineWebhook?
            && after[|after| - 1].users == ReplyUsers(env.reply(after[..|after| - 2], after[|after| - 2]))))
  }

  /** The full account of a single chat, on both paths and in any environment: the handling ended at a
      failed call, or the message is not to be pushed offline, or somebody other than the sender was
      reported reached, or the message was pushed offline. */
  lemma ReceiverAccounted(env: Env, h: History, users: seq<UserID>, m: Msg, high: bool)
    ensures var after := if high then PushHighPriority2User(env, h, users, m) else Push2User(env, h, users, m);
            || EndedAtFailure(env, after) || !Is(m.options, OfflinePush) || m.contentType in {1602, 1603}
            || (exists u :: u != m.sendID && ReportedReached(env, |h|, after, m, u)) || PushedOffline(env, |h|, after, m)
  {
    var after := if high then PushHighPriority2User(env, h, users, m) else Push2User(env, h, users, m);
    var w := BeforeOnlinePush(env, h, users, m);
    if w.value.None? {
      assert (h + [OnlineWebhook(users, m)])[..|h|] == h;
    } else {
      var s := PushToConns(env, w.h, Sending(m), users);
      ConnsPrefix(env, w.h, m, users);
      if s.value.Some? && ShouldPushOffline(m) {
        if ReachedAnother(m, s.value.value) {
          AnotherReached(env, |h|, w.h, users, m, after);
        } else if !high {
          ReceiverPushed(env, s.h, m);
        }
      }
    }
  }

  lemma AnotherReached(env: Env, from: nat, h: History, users: seq<UserID>, m: Msg, after: History)
    requires from <= |h| && PushToConns(env, h, Sending(m), users).value.Some?
    requires ReachedAnother(m, PushToConns(env, h, Sending(m), users).value.value)
    requires PushToConns(env, h, Sending(m), users).h <= after
    ensures exists u :: u != m.sendID && ReportedReached(env, from, after, m, u)
  {
    var s := PushToConns(env, h, Sending(m), users);
    var r :| r in s.value.value && r.user != m.sendID && r.onlinePush;
    assert r == PushResult(r.user, true);
    ReachedOnline(env, h, m, users, r.user);
    OnlineStays(env, |h|, s.h, after, m, r.user);
    SinceEarlier(env, from, |h|, after, m, r.user);
  }

  lemma SinceEarlier(env: Env, early: nat, from: nat, after: History, m: Msg, u: UserID)
    requires early <= from && ReportedReached(env, from, after, m, u)
    ensures ReportedReached(env, early, after, m, u)
  {
  }

  lemma ReceiverPushed(env: Env, h: History, m: Msg)
    ensures var o := BeforeOfflinePush(env, h, [m.recvID], Sending(m));
            if o.value.None? then EndedAtFailure(env, o.h)
            else PushedOffline(env, |h|, o.h + [PushOffline(o.value.value.0, o.value.value.1)], m)
  {
    var hook := OfflineWebhook([m.recvID], Sending(m));
    assert (h + [hook])[..|h|] == h;
    assert forall last: Call :: (h + [hook] + [last])[..|h|] == h;
  }

  /** A message for one receiver goes to it always, and to the sender as well exactly under the sync flag;
      nobody gets it twice, and nobody else gets it. */
  lemma RecipientsExactly(m: Msg)
    ensures forall u :: u in Recipients(m) <==> u == m.recvID || (u == m.sendID && Is(m.options, SenderSync))
    ensures NoDup(Recipients(m)) && Recipients(m)[0] == m.recvID
  {
  }

  /** The calls of an online push to users that answered and reached nobody but perhaps the sender: the
      query who is online and, if anybody is, the push to them. */
  ghost predicate ReachedNobody(env: Env, h: History, users: seq<UserID>, m: Msg, calls: History)
  {
    var online := ReplySplit(env.reply(h, QueryOnline(users))).0;
    var s := PushToConns(env, h, Sending(m), users);
    && !env.reply(h, QueryOnline(users)).Failed?
    && calls == (if online == [] then h + [QueryOnline(users)] else h + [QueryOnline(users)] + [PushOnline(Sending(m), online)])
    && s.value.Some? && forall r :: r in s.value.value && r.onlinePush ==> r.user == m.sendID
  }

  /** A single chat is pushed offline only under the offline flag, as the last call, when the online push
      answered and reached nobody but perhaps the sender; and only to the receiver, unless the offline
      webhook names others. */
  lemma UserOfflinePushIsJustified(env: Env, h: History, users: seq<UserID>, m: Msg, k: nat)
    requires var after := Push2User(env, h, users, m); |h| <= k < |after| && after[k].PushOffline?
    ensures var after := Push2User(env, h, users, m);
            var h1 := BeforeOnlinePush(env, h, users, m).h;
            var calls := PushToConns(env, h1, Sending(m), users).h;
            && Is(m.options, OfflinePush) && m.contentType !in {1602, 1603} && k == |after| - 1 && calls <= after[..k] && ReachedNobody(env, h1, users, m, calls)
            && (after[k].users == [m.recvID]
                || (env.offlineWebhook && after[k].users == ReplyUsers(env.reply(calls, OfflineWebhook([m.recvID], Sending(m))))))
  {
  }

  /** A high-priority one likewise, right after the online push and only to the receiver. */
  lemma HighPriorityOfflinePushIsJustified(env: Env, h: History, users: seq<UserID>, m: Msg, k: nat)
    requires var after := PushHighPriority2User(env, h, users, m); |h| <= k < |after| && after[k].PushOffline?
    ensures var after := PushHighPriority2User(env, h, users, m);
            && Is(m.options, OfflinePush) && m.contentType !in {1602, 1603} && k == |after| - 1 && after[k] == PushOffline([m.recvID], Sending(m))
            && ReachedNobody(env, BeforeOnlinePush(env, h, users, m).h, users, m, after[..k])
  {
  }

  /** The online webhook is asked first, exactly when it is configured and the message is not about
      typing, and if it fails nothing else happens; otherwise the query who is online comes next. */
  lemma OnlineWebhookDecides(env: Env, h: History, users: seq<UserID>, m: Msg, high: bool)
    ensures var after := if high then PushHighPriority2User(env, h, users, m) else Push2User(env, h, users, m);
            var ask := OnlineWebhook(users, m);
            if env.onlineWebhook && m.contentType != 113 then
              if env.reply(h, ask).Failed? then after == h + [ask] else h + [ask] + [QueryOnline(users)] <= after
            else h + [QueryOnline(users)] <= after
  {
    var w := BeforeOnlinePush(env, h, users, m);
    ConnsPrefix(env, w.h, m, users);
  }

  /** The group webhook is asked first, exactly when it is configured and the message is not about typing;
      if it fails nothing else happens; the users it names, if any, get the message, and otherwise the
      members do. Without members, because they cannot be had or there are none, nobody does. */
  lemma GroupWebhookDecides(env: Env, h: History, group: string, m: Msg)
    requires Departed(env, m).None?
    ensures var ask := GroupWebhook(group, m);
            var asked := env.groupWebhook && m.contentType != 113;
            var h1 := if asked then h + [ask] else h;
            var named := if asked then ReplyUsers(env.reply(h, ask)) else [];
            var after := Push2Group(env, h, group, m);
            if asked && env.reply(h, ask).Failed? then after == h1
            else if named != [] then after == PushToRecipients(env, h1, group, m, named)
            else if env.members(group).None? then after == h1
            else
              var dismissed := m.contentType == 1511 && IsNotificationID(ConversationID(m)) && env.parseDismissed(m.content);
              var h2 := if dismissed then h1 + [DismissGroup(group)] else h1;
              after == if env.members(group).value == [] then h2 else PushToRecipients(env, h2, group, m, env.members(group).value)
  {
  }

  /** The members a notice says have left. */
  function Departed(env: Env, m: Msg): Option<seq<UserID>>
  {
    if m.contentType == MEMBER_QUIT_NOTIFICATION then
      (if env.parseQuit(m.content).Some? then Some([env.parseQuit(m.content).value]) else None)
    else if m.contentType == MEMBER_KICKED_NOTIFICATION then env.parseKicked(m.content)
    else None
  }

  /** Members that have left, on their own or not, in any environment. If the webhook fails, nobody gets
      the notice. If it names recipients, they get it and nobody's view is cut. If it is not asked or
      names nobody, the view of those that left is cut at the conversation's present maximum before
      anything is pushed, and they still get the notice with the members; but if the maximum cannot be
      read or set, nobody does. */
  lemma DepartedMembersAreNotified(env: Env, h: History, group: string, m: Msg)
    requires Departed(env, m).Some? && env.members(group).Some?
    requires env.members(group).value + Departed(env, m).value != []
    ensures var w := BeforeGroupPush(env, h, group, m, []);
            var after := Push2Group(env, h, group, m);
            if w.value.None? then after == w.h
            else if w.value.value != [] then after == PushToRecipients(env, w.h, group, m, w.value.value)
            else CutAndPushed(env, w.h, group, m, Departed(env, m).value, after)
    ensures var w := BeforeGroupPush(env, h, group, m, []);
            w.h == if env.groupWebhook && m.contentType != TYPING then h + [GroupWebhook(group, m)] else h
  {
    var w := BeforeGroupPush(env, h, group, m, []);
    if w.value.Some? && w.value.value == [] { CutFirst(env, w.h, group, m); }
  }

  ghost predicate CutAndPushed(env: Env, h: History, group: string, m: Msg, gone: seq<UserID>, after: History)
  {
    var ask := QueryMaxSeq("sg_" + group);
    var max := env.reply(h, ask);
    var cut := SetMaxSeq("sg_" + group, gone, if max.Seqno? then max.n else 0);
    var users := if env.members(group).Some? then env.members(group).value + gone else gone;
    if max.Failed? then after == h + [ask]
    else if env.reply(h + [ask], cut).Failed? then after == h + [ask] + [cut]
    else after == PushToRecipients(env, h + [ask] + [cut], group, m, users)
         && h + [ask] + [cut] + [QueryOnline(users)] <= after
  }

  lemma CutFirst(env: Env, h: History, group: string, m: Msg)
    requires Departed(env, m).Some? && env.members(group).Some?
    ensures var t := HandleGroupMessage(env, h, group, [], m);
            var users := env.members(group).value + Departed(env, m).value;
            users != [] ==>
              CutAndPushed(env, h, group, m, Departed(env, m).value,
                           if t.value.None? || t.value.value == [] then t.h else PushToRecipients(env, t.h, group, m, t.value.value))
  {
    var gone, ask := Departed(env, m).value, QueryMaxSeq("sg_" + group);
    var max := env.reply(h, ask);
    var cut := SetMaxSeq("sg_" + group, gone, if max.Seqno? then max.n else 0);
    assert ConversationIDBySessionType(READ_GROUP_CHAT, [group]) == "sg_" + group;
    if !max.Failed? && !env.reply(h + [ask], cut).Failed? {
      var users := env.members(group).value + gone;
      assert HandleGroupMessage(env, h, group, [], m) == Step(h + [ask] + [cut], Some(users));
      QueriesFirst(env, h + [ask] + [cut], group, m, users);
    }
  }

  lemma QueriesFirst(env: Env, h: History, group: string, m: Msg, users: seq<UserID>)
    ensures h + [QueryOnline(users)] <= PushToRecipients(env, h, group, m, users)
  {
  }
}
