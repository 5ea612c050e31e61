/** Splitting a batch into four lists (internal/msgtransfer/online_history_msg_handler.go:234-275):
    chat messages to store, chat messages not to store, notifications to store, notifications not
    to store. Some notifications are cloned into the chat list; a clone takes over the offline-push
    and unread flags of its original. */
module Categorize {
  import opened Common
  import opened Messages

  class Message {
    var data: Msg

    constructor (data: Msg)
      ensures this.data == data
    {
      this.data := data;
    }
  }

  datatype Category = StoredChat | TransientChat | StoredNotification | TransientNotification

  function CategoryOf(m: Msg): Category
  {
    if IsNotification(m) then
      (if Is(m.options, History) then StoredNotification else TransientNotification)
    else
      (if Is(m.options, History) then StoredChat else TransientChat)
  }

  predicate HasClone(m: Msg)
  {
    IsNotification(m) && Is(m.options, SendMsg) && ShouldDeliverSystemMsgToChat(m)
  }

  function CloneOf(m: Msg): Msg
  {
    m.(options := map[OfflinePush := Is(m.options, OfflinePush), UnreadCount := Is(m.options, UnreadCount)])
  }

  /** What becomes of the original. */
  function After(m: Msg): Msg
  {
    if HasClone(m) then m.(options := m.options[OfflinePush := false][UnreadCount := false]) else m
  }

  /** The positions below n of the messages of one category, in order. */
  function Positions(ms: seq<Msg>, c: Category, n: nat): (ps: seq<nat>)
    requires n <= |ms|
    ensures forall k :: 0 <= k < |ps| ==> ps[k] < n
    ensures forall j, k :: 0 <= j < k < |ps| ==> ps[j] < ps[k]
  {
    if n == 0 then [] else Positions(ms, c, n - 1) + if CategoryOf(ms[n - 1]) == c then [n - 1] else []
  }

  /** The positions below n that give the stored chat list an element: its own messages and the
      clones. */
  function ChatPositions(ms: seq<Msg>, n: nat): (ps: seq<nat>)
    requires n <= |ms|
    ensures forall k :: 0 <= k < |ps| ==> ps[k] < n
    ensures forall j, k :: 0 <= j < k < |ps| ==> ps[j] < ps[k]
  {
    if n == 0 then []
    else ChatPositions(ms, n - 1) + if CategoryOf(ms[n - 1]).StoredChat? || HasClone(ms[n - 1]) then [n - 1] else []
  }

  function Data(total: seq<Message>): (ms: seq<Msg>)
    reads total
    ensures |ms| == |total| && forall i :: 0 <= i < |ms| ==> ms[i] == total[i].data
  {
    seq(|total|, i requires 0 <= i < |total| reads total => total[i].data)
  }

  /** `stored` is what the positions `ps` give the chat list, for a batch whose data was `ms`. */
  ghost predicate IsChatList(stored: seq<Message>, total: seq<Message>, ms: seq<Msg>, ps: seq<nat>)
    requires |ms| == |total| && forall k :: 0 <= k < |ps| ==> ps[k] < |ms|
    reads stored
  {
    && |stored| == |ps|
    && forall k :: 0 <= k < |ps| ==>
         if HasClone(ms[ps[k]]) then stored[k] !in total && stored[k].data == CloneOf(ms[ps[k]])
         else stored[k] == total[ps[k]]
  }

  /** The first n messages have been handled, the others are as they were. */
  ghost predicate Handled(total: seq<Message>, ms: seq<Msg>, n: nat)
    requires |ms| == |total|
    reads total
  {
    forall j :: 0 <= j < |total| ==> total[j].data == if j < n then After(ms[j]) else ms[j]
  }

  /** The clone of a notification, and the flags it takes away from its original. */
  method TakeClone(v: Message) returns (clone: Message)
    modifies v
    ensures fresh(clone) && clone.data == CloneOf(old(v.data))
    ensures v.data == old(v.data).(options := old(v.data).options[OfflinePush := false][UnreadCount := false])
  {
    var options := map[OfflinePush := false];
    options := options[OfflinePush := Is(v.data.options, OfflinePush)][UnreadCount := Is(v.data.options, UnreadCount)];
    clone := new Message(v.data.(options := options));
    v.data := v.data.(options := v.data.options[OfflinePush := false][UnreadCount := false]);
  }

  /** One message's share of the stored chat list: its clone, itself, or nothing. */
  method AddToChat(stored: seq<Message>, total: seq<Message>, i: nat, ghost ms: seq<Msg>) returns (grown: seq<Message>)
    requires |ms| == |total| && i < |total| && Handled(total, ms, i) && forall j :: 0 <= j < |total| && j != i ==> total[j] != total[i]
    requires IsChatList(stored, total, ms, ChatPositions(ms, i))
    modifies total[i]
    ensures IsChatList(grown, total, ms, ChatPositions(ms, i + 1))
    ensures Handled(total, ms, i + 1)
  {
    var v := total[i];
    ghost var ps := ChatPositions(ms, i);
    grown := stored;
    if !Is(v.data.options, NotNotification) {
      if Is(v.data.options, SendMsg) && ShouldDeliverSystemMsgToChat(v.data) {
        var clone := TakeClone(v);
        assert IsChatList(stored, total, ms, ps);
        ChatListGrows(stored, total, ms, ps, i, clone);
        grown := grown + [clone];
      }
    } else if Is(v.data.options, History) {
      ChatListGrows(stored, total, ms, ps, i, v);
      grown := grown + [v];
    }
  }

  lemma ChatListGrows(stored: seq<Message>, total: seq<Message>, ms: seq<Msg>, ps: seq<nat>, i: nat, one: Message)
    requires |ms| == |total| && i < |ms| && forall k :: 0 <= k < |ps| ==> ps[k] < |ms|
    requires IsChatList(stored, total, ms, ps)
    requires if HasClone(ms[i]) then one !in total && one.data == CloneOf(ms[i]) else one == total[i]
    ensures IsChatList(stored + [one], total, ms, ps + [i])
  {
  }

  method CategorizeMessageLists(total: seq<Message>)
    returns (storedChat: seq<Message>, transientChat: seq<Message>,
             storedNotification: seq<Message>, transientNotification: seq<Message>)
    requires forall i, j :: 0 <= i < j < |total| ==> total[i] != total[j]
    modifies total
    ensures IsChatList(storedChat, total, old(Data(total)), ChatPositions(old(Data(total)), |total|))
    ensures AreLists(total, old(Data(total)), |total|, transientChat, storedNotification, transientNotification)
    ensures Handled(total, old(Data(total)), |total|)
  {
    ghost var ms := Data(total);
    storedChat, transientChat, storedNotification, transientNotification := [], [], [], [];
    for i := 0 to |total|
      invariant IsChatList(storedChat, total, ms, ChatPositions(ms, i))
      invariant AreLists(total, ms, i, transientChat, storedNotification, transientNotification)
      invariant Handled(total, ms, i)
    {
      var v := total[i];
      assert v.data == ms[i];
      var notification, history := !Is(v.data.options, NotNotification), Is(v.data.options, History);
      storedChat := AddToChat(storedChat, total, i, ms);
      transientChat, storedNotification, transientNotification :=
        AddToOthers(transientChat, storedNotification, transientNotification, notification, history, total, i, ms);
    }
  }

  /** One message's share of the other three lists, by the flags read before its clone was taken. */
  method AddToOthers(transientChat: seq<Message>, storedNotification: seq<Message>, transientNotification: seq<Message>,
                     notification: bool, history: bool, total: seq<Message>, i: nat, ghost ms: seq<Msg>)
    returns (tc: seq<Message>, sn: seq<Message>, tn: seq<Message>)
    requires |ms| == |total| && i < |total| && AreLists(total, ms, i, transientChat, storedNotification, transientNotification)
    requires notification == IsNotification(ms[i]) && history == Is(ms[i].options, History)
    ensures AreLists(total, ms, i + 1, tc, sn, tn)
  {
    ListsStep(total, ms, i, transientChat, storedNotification, transientNotification);
    tc, sn, tn := transientChat, storedNotification, transientNotification;
    if notification && history {
      sn := sn + [total[i]];
    } else if notification {
      tn := tn + [total[i]];
    } else if !history {
      tc := tc + [total[i]];
    }
  }

  /** The other three lists after n messages. */
  ghost predicate AreLists(total: seq<Message>, ms: seq<Msg>, n: nat, transientChat: seq<Message>,
                           storedNotification: seq<Message>, transientNotification: seq<Message>)
    requires |ms| == |total| && n <= |ms|
  {
    && transientChat == Pick(total, Positions(ms, TransientChat, n))
    && storedNotification == Pick(total, Positions(ms, StoredNotification, n))
    && transientNotification == Pick(total, Positions(ms, TransientNotification, n))
  }

  /** The next message goes to the list of its category. */
  lemma ListsStep(total: seq<Message>, ms: seq<Msg>, n: nat, tc: seq<Message>, sn: seq<Message>, tn: seq<Message>)
    requires |ms| == |total| && n < |ms| && AreLists(total, ms, n, tc, sn, tn)
    ensures match CategoryOf(ms[n])
            case TransientChat => AreLists(total, ms, n + 1, tc + [total[n]], sn, tn)
            case StoredNotification => AreLists(total, ms, n + 1, tc, sn + [total[n]], tn)
            case TransientNotification => AreLists(total, ms, n + 1, tc, sn, tn + [total[n]])
            case StoredChat => AreLists(total, ms, n + 1, tc, sn, tn)
  {
    PickStep(total, ms, TransientChat, n);
    PickStep(total, ms, StoredNotification, n);
    PickStep(total, ms, TransientNotification, n);
  }

  lemma PickStep(total: seq<Message>, ms: seq<Msg>, c: Category, i: nat)
    requires |ms| == |total| && i < |ms|
    ensures Pick(total, Positions(ms, c, i + 1))
            == Pick(total, Positions(ms, c, i)) + if CategoryOf(ms[i]) == c then [total[i]] else []
  {
  }

  // ---- What the lists mean ----------------------------------------------------------------------------

  lemma {:induction false} PositionsAreExact(ms: seq<Msg>, c: Category, n: nat)
    requires n <= |ms|
    ensures forall i: nat :: i in Positions(ms, c, n) <==> i < n && CategoryOf(ms[i]) == c
  {
    if n > 0 { PositionsAreExact(ms, c, n - 1); }
  }

  lemma {:induction false} ChatPositionsAreExact(ms: seq<Msg>, n: nat)
    requires n <= |ms|
    ensures forall i: nat :: i in ChatPositions(ms, n) <==> i < n && (CategoryOf(ms[i]).StoredChat? || HasClone(ms[i]))
  {
    if n > 0 { ChatPositionsAreExact(ms, n - 1); }
  }

  /** Sender, receiver, group, types, time, status and content are the same. */
  predicate SameButOptions(a: Msg, b: Msg)
  {
    && a.sendID == b.sendID && a.recvID == b.recvID && a.groupID == b.groupID
    && a.sessionType == b.sessionType && a.contentType == b.contentType && a.msgFrom == b.msgFrom
    && a.sendTime == b.sendTime && a.status == b.status && a.content == b.content && a.pushInfo == b.pushInfo
  }

  /** A clone takes over the two flags and is a chat message; its original keeps every other flag and
      its category and ends with both false. */
  ghost predicate TakesOver(m: Msg, clone: Msg, left: Msg)
  {
    && SameButOptions(m, clone) && SameButOptions(m, left)
    && !IsNotification(clone) && IsNotification(left) && CategoryOf(left) == CategoryOf(m)
    && (Is(clone.options, OfflinePush) <==> Is(m.options, OfflinePush))
    && (Is(clone.options, UnreadCount) <==> Is(m.options, UnreadCount))
    && !Is(left.options, OfflinePush) && !Is(left.options, UnreadCount)
    && forall key :: key != OfflinePush && key != UnreadCount ==> (Is(left.options, key) <==> Is(m.options, key))
  }

  lemma CloneTakesOver(m: Msg)
    requires HasClone(m)
    ensures TakesOver(m, CloneOf(m), After(m))
  {
  }

  /** Every input lands in exactly one list, in order; besides, exactly the deliverable notifications
      have a clone in the chat list, and it takes over the two flags. */
  lemma CategorizingIsPartition(ms: seq<Msg>, i: nat)
    requires i < |ms|
    ensures forall c :: i in Positions(ms, c, |ms|) <==> c == CategoryOf(ms[i])
    ensures var notification, history := !Is(ms[i].options, NotNotification), Is(ms[i].options, History);
            && (i in Positions(ms, StoredNotification, |ms|) <==> notification && history)
            && (i in Positions(ms, TransientNotification, |ms|) <==> notification && !history)
            && (i in Positions(ms, TransientChat, |ms|) <==> !notification && !history)
            && (i in ChatPositions(ms, |ms|)
                <==> if notification then Is(ms[i].options, SendMsg) && ShouldDeliverSystemMsgToChat(ms[i]) else history)
    ensures if HasClone(ms[i]) then TakesOver(ms[i], CloneOf(ms[i]), After(ms[i])) else After(ms[i]) == ms[i]
  {
    forall c ensures i in Positions(ms, c, |ms|) <==> c == CategoryOf(ms[i]) { PositionsAreExact(ms, c, |ms|); }
    ChatPositionsAreExact(ms, |ms|);
    if HasClone(ms[i]) { CloneTakesOver(ms[i]); }
  }

  // ---- Routing ------------------------------------------------------------------------------------------

  /** Messages of one conversation: a known session type, and one group or one unordered pair. */
  ghost predicate SameConversation(a: Msg, b: Msg)
  {
    && KnownSession(a.sessionType) && a.sessionType == b.sessionType
    && if IsGroupSession(a.sessionType) then a.groupID == b.groupID
       else (a.sendID == b.sendID && a.recvID == b.recvID) || (a.sendID == b.recvID && a.recvID == b.sendID)
  }

  /** The three builders agree within a conversation: a message's own ID is the chat ID or the
      notification ID of any of its messages, by its flag. */
  lemma BuildersAgree(a: Msg, b: Msg)
    requires SameConversation(a, b)
    ensures ConversationID(b) == if IsNotification(b) then NotificationConversationID(a) else ChatConversationID(a)
    ensures IsNotificationID(ConversationID(b)) <==> IsNotification(b)
  {
    PairIsUnordered(a.sendID, a.recvID);
    var id := ConversationID(b);
    assert id[0] == 'n' <==> IsNotification(b);
    assert id[0] == 'n' ==> id[..2] == "n_";
  }

  /** For a batch of one conversation: whatever ends in a chat list, clones included, has the batch's
      chat ID; whatever ends in a notification list has the batch's notification ID; and a client
      push files each message under the matching map. */
  lemma RoutingAgrees(ms: seq<Msg>, i: nat)
    requires i < |ms| && SameConversation(ms[0], ms[i])
    ensures HasClone(ms[i]) ==>
              ConversationID(CloneOf(ms[i])) == ChatConversationID(ms[0]) && !IsNotificationID(ConversationID(CloneOf(ms[i])))
    ensures i in Positions(ms, StoredChat, |ms|) + Positions(ms, TransientChat, |ms|) ==>
              ConversationID(After(ms[i])) == ChatConversationID(ms[0]) && !IsNotificationID(ConversationID(After(ms[i])))
    ensures i in Positions(ms, StoredNotification, |ms|) + Positions(ms, TransientNotification, |ms|) ==>
              ConversationID(After(ms[i])) == NotificationConversationID(ms[0]) && IsNotificationID(ConversationID(After(ms[i])))
  {
    CategorizingIsPartition(ms, i);
    BuildersAgree(ms[0], After(ms[i]));
    if HasClone(ms[i]) { BuildersAgree(ms[0], CloneOf(ms[i])); }
  }
}
