/** Who was reached and who is pushed offline (internal/push/push_handler.go:487-511,
    internal/push/onlinepusher.go:386-403, internal/push/push_log.go:9-22), and the batch entry with
    its loops. */
module PushOutcome {
  import opened Common
  import opened Messages
  import opened PushEnv
  import opened GroupPush

  // ---- Loops ------------------------------------------------------------------------------------------

  /** The users with a result, each marked with whether some result reports it reached. */
  ghost predicate IsMerge(results: seq<PushResult>, out: map<UserID, bool>)
  {
    && (forall u :: u in out <==> exists on :: PushResult(u, on) in results)
    && (forall u :: u in out ==> (out[u] <==> PushResult(u, true) in results))
  }

  /** mergeOnlinePushOutcomeByUser: a user is reached if any gateway reached it. */
  method MergeByUser(results: seq<PushResult>) returns (out: map<UserID, bool>)
    ensures IsMerge(results, out)
  {
    out := map[];
    for i := 0 to |results|
      invariant forall u :: u in out <==> exists on :: PushResult(u, on) in results[..i]
      invariant forall u :: u in out ==> (out[u] <==> PushResult(u, true) in results[..i])
    {
      var r := results[i];
      assert results[..i + 1] == results[..i] + [r];
      assert r == PushResult(r.user, r.onlinePush);
      if r.onlinePush {
        out := out[r.user := true];
      } else if r.user !in out {
        out := out[r.user := false];
      }
    }
    assert results[..|results|] == results;
  }

  /** GetOnlinePushFailedUserIDs: the requested users without the sender and those reached. */
  method GetOnlinePushFailedUserIDs(sub: Difference, sender: UserID, results: seq<PushResult>, users: seq<UserID>)
    returns (failed: seq<UserID>)
    ensures failed == FailedUsers(sub, sender, results, users)
    ensures IsDifference(sub) ==>
              forall u :: u in failed <==> u in users && u != sender && PushResult(u, true) !in results
  {
    var reached := [sender];
    for i := 0 to |results|
      invariant reached == Reached(sender, results[..i])
    {
      assert results[..i + 1][..i] == results[..i];
      if sender == results[i].user { continue; }
      if results[i].onlinePush {
        reached := reached + [results[i].user];
      }
    }
    assert results[..|results|] == results;
    if IsDifference(sub) { FailedUsersMembers(sub, sender, results, users); }
    failed := sub(users, reached);
  }

  // ---- No recipient is lost ---------------------------------------------------------------------------

  /** Whatever the gateways answered and whichever calls failed: every recipient but the sender is
      in exactly one of the users some gateway reached and the offline candidates; the sender is no
      offline candidate; and nobody else is. */
  lemma {:induction false} NoRecipientLost(sub: Difference, sender: UserID, results: seq<PushResult>, users: seq<UserID>, merged: map<UserID, bool>)
    requires IsMerge(results, merged) && IsDifference(sub)
    ensures forall u :: u in users && u != sender ==>
              ((u in merged && merged[u]) <==> u !in FailedUsers(sub, sender, results, users))
    ensures sender !in FailedUsers(sub, sender, results, users)
    ensures forall u :: u in FailedUsers(sub, sender, results, users) ==> u in users
  {
    FailedUsersMembers(sub, sender, results, users);
  }

  // ---- The consumer object ------------------------------------------------------------------------------

  class Consumer {
    const env: Env
    var calls: History

    constructor (env: Env)
      ensures this.env == env && calls == []
    {
      this.env := env;
      calls := [];
    }

    method Ask(call: Call) returns (reply: Reply)
      modifies this
      ensures reply == env.reply(old(calls), call) && calls == old(calls) + [call]
    {
      reply := env.reply(calls, call);
      calls := calls + [call];
    }

    method GetConnsAndOnlinePush(m: Msg, users: seq<UserID>) returns (sent: Msg, results: Option<seq<PushResult>>)
      modifies this
      ensures sent == Sending(m) && Step(calls, results) == PushToConns(env, old(calls), sent, users)
    {
      sent := m;
      if sent.status == STATUS_SENDING {
        sent := sent.(status := STATUS_SEND_SUCCESS);
      }
      var answer := Ask(QueryOnline(users));
      if answer.Failed? { return sent, None; }
      var (online, offline) := ReplySplit(answer);
      var all: seq<PushResult> := [];
      if |online| > 0 {
        var pushed := Ask(PushOnline(sent, online));
        if pushed.Failed? { return sent, None; }
        all := ReplyResults(pushed);
      }
      ghost var reached := all;
      for i := 0 to |offline|
        invariant all == reached + EmptyResults(offline[..i])
        invariant calls == PushToConns(env, old(calls), sent, users).h
      {
        assert EmptyResults(offline[..i + 1]) == EmptyResults(offline[..i]) + [PushResult(offline[i], false)];
        all := all + [PushResult(offline[i], false)];
      }
      assert offline[..|offline|] == offline;
      assert [] + EmptyResults(offline) == EmptyResults(offline);
      results := Some(all);
    }

    /** The batch entry: drop missing and stale messages, fetch the members once, push each. */
    method HandleBatch(ms: seq<Option<Msg>>)
      modifies this
      ensures calls == GroupPush.HandleBatch(env, old(calls), ms)
    {
      var kept := DropStale(ms);
      if |kept| == 0 { return; }
      if kept[0].sessionType == READ_GROUP_CHAT && kept[0].groupID != "" {
        PushToGroup(kept, kept[0].groupID, MembersOf(env, kept[0].groupID));
      } else {
        PushToUsers(kept);
      }
    }

    method DropStale(ms: seq<Option<Msg>>) returns (kept: seq<Msg>)
      ensures kept == Kept(env, ms)
    {
      kept := [];
      for i := 0 to |ms|
        invariant kept == Kept(env, ms[..i])
      {
        assert ms[..i + 1][..i] == ms[..i];
        if ms[i].None? || IsStale(env, ms[i].value) { continue; }
        kept := kept + [ms[i].value];
      }
      assert ms[..|ms|] == ms;
    }

    /** The loop over a group batch. */
    method PushToGroup(kept: seq<Msg>, first: string, members: seq<UserID>)
      modifies this
      ensures calls == PushGroupBatch(env, old(calls), first, members, kept)
    {
      for i := 0 to |kept|
        invariant calls == PushGroupBatch(env, old(calls), first, members, kept[..i])
      {
        assert kept[..i + 1][..i] == kept[..i];
        var m := kept[i];
        if m.groupID != first || NeedsPerMsgGroupHandling(m) || |members| == 0 {
          calls := Push2Group(env, calls, m.groupID, m);
        } else {
          calls := Push2GroupWithMembers(env, calls, m.groupID, m, members);
        }
      }
      assert kept[..|kept|] == kept;
    }

    /** The loop over any other batch. */
    method PushToUsers(kept: seq<Msg>)
      modifies this
      ensures calls == PushUserBatch(env, old(calls), kept)
    {
      for i := 0 to |kept|
        invariant calls == PushUserBatch(env, old(calls), kept[..i])
      {
        assert kept[..i + 1][..i] == kept[..i];
        calls := Push2User(env, calls, Recipients(kept[i]), kept[i]);
      }
      assert kept[..|kept|] == kept;
    }
  }
}
