/** Messages, their option flags and their conversation IDs (pkg/msgprocessor/options.go,
    pkg/msgprocessor/conversation.go). */
module Messages {

  const SINGLE_CHAT := 1
  const WRITE_GROUP_CHAT := 2
  const READ_GROUP_CHAT := 3
  const NOTIFICATION_CHAT := 4

  const SYS_MSG := 200

  const TEXT := 101
  const FILE := 105
  const TYPING := 113
  const NOTIFICATION_BEGIN := 1000
  const NOTIFICATION_END := 5000
  const GROUP_CREATED_NOTIFICATION := 1501
  const MEMBER_QUIT_NOTIFICATION := 1504
  const MEMBER_KICKED_NOTIFICATION := 1508
  const MEMBER_INVITED_NOTIFICATION := 1509
  const MEMBER_ENTER_NOTIFICATION := 1510
  const GROUP_DISMISSED_NOTIFICATION := 1511
  const SIGNALING_NOTIFICATION := 1601
  const ROOM_PARTICIPANTS_CONNECTED := 1602
  const ROOM_PARTICIPANTS_DISCONNECTED := 1603
  const MSG_REVOKE_NOTIFICATION := 2101
  const DELETE_MSGS_NOTIFICATION := 2102
  const HAS_READ_RECEIPT := 2200

  const STATUS_SENDING := 1
  const STATUS_SEND_SUCCESS := 2

  /** The option keys the pipeline reads or writes; any other key is kept as it is. */
  datatype Flag = History | OfflinePush | UnreadCount | SenderSync | NotNotification | SendMsg | OtherFlag(name: string)

  type Options = map<Flag, bool>

  datatype Msg = Msg(sendID: string, recvID: string, groupID: string, sessionType: int, contentType: int,
                     msgFrom: int, sendTime: int, status: int, options: Options, content: string, pushInfo: string)

  /** A flag that is not set counts as true. */
  predicate Is(options: Options, key: Flag)
  {
    key in options ==> options[key]
  }

  predicate IsNotification(m: Msg)
  {
    !Is(m.options, NotNotification)
  }

  predicate ShouldDeliverSystemMsgToChat(m: Msg)
  {
    || m.msgFrom != SYS_MSG
    || m.contentType < NOTIFICATION_BEGIN || m.contentType > NOTIFICATION_END
    || m.contentType == HAS_READ_RECEIPT
    || m.contentType == MSG_REVOKE_NOTIFICATION || m.contentType == DELETE_MSGS_NOTIFICATION
    || m.contentType == GROUP_CREATED_NOTIFICATION || m.contentType == MEMBER_INVITED_NOTIFICATION
    || m.contentType == MEMBER_ENTER_NOTIFICATION || m.contentType == GROUP_DISMISSED_NOTIFICATION
  }

  /** A flag that was never set reads as true, and one that was set reads as set. */
  lemma FlagsRead(options: Options, key: Flag, b: bool, other: Flag)
    ensures Is(map[], key) && Is(options[key := b], key) == b
    ensures other != key ==> Is(options[key := b], other) == Is(options, other)
  {
  }

  /** What is kept from chats: system messages in the range of notifications, but for seven types. */
  lemma KeptFromChatsExactly(m: Msg)
    ensures !ShouldDeliverSystemMsgToChat(m)
            <==> m.msgFrom == 200 && 1000 <= m.contentType <= 5000
                 && m.contentType !in {1501, 1509, 1510, 1511, 2101, 2102, 2200}
  {
  }

  // ---- Sorted pairs -------------------------------------------------------------------------------

  predicate Less(a: string, b: string)
    decreases |a|
  {
    if b == "" then false
    else if a == "" then true
    else a[0] < b[0] || (a[0] == b[0] && Less(a[1..], b[1..]))
  }

  lemma {:induction false} LessIsTotal(a: string, b: string)
    ensures !(Less(a, b) && Less(b, a)) && (!Less(a, b) && !Less(b, a) ==> a == b)
    decreases |a|
  {
    if a != "" && b != "" {
      LessIsTotal(a[1..], b[1..]);
      assert a == [a[0]] + a[1..] && b == [b[0]] + b[1..];
    }
  }

  /** The two IDs in order, joined by an underscore. */
  function Pair(a: string, b: string): string
  {
    if Less(b, a) then b + "_" + a else a + "_" + b
  }

  lemma PairIsUnordered(a: string, b: string)
    ensures Pair(a, b) == Pair(b, a)
  {
    LessIsTotal(a, b);
  }

  /** The pair is the two IDs, the smaller one first. */
  lemma PairIsSorted(a: string, b: string)
    ensures (Pair(a, b) == a + "_" + b && !Less(b, a)) || (Pair(a, b) == b + "_" + a && !Less(a, b))
  {
    LessIsTotal(a, b);
  }

  /** An ID without underscores. */
  predicate Plain(id: string)
  {
    '_' !in id
  }

  lemma FirstUnderscore(a: string, b: string)
    requires Plain(a)
    ensures var join := a + "_" + b; join[|a|] == '_' && '_' !in join[..|a|] && join[..|a|] == a && join[|a| + 1..] == b
  {
    assert (a + "_" + b)[..|a|] == a;
  }

  lemma FirstIsUnique(s: string, i: nat, j: nat)
    requires i < |s| && j < |s| && s[i] == s[j] == '_' && '_' !in s[..i] && '_' !in s[..j]
    ensures i == j
  {
    assert forall x :: 0 <= x < j ==> s[..j][x] == s[x] && s[x] != '_';
    assert forall x :: 0 <= x < i ==> s[..i][x] == s[x] && s[x] != '_';
  }

  /** A join of plain IDs can be taken apart in one way. */
  lemma JoinIsInjective(a: string, b: string, c: string, d: string)
    requires Plain(a) && Plain(c) && a + "_" + b == c + "_" + d
    ensures a == c && b == d
  {
    FirstUnderscore(a, b);
    FirstUnderscore(c, d);
    FirstIsUnique(a + "_" + b, |a|, |c|);
  }

  ghost predicate SamePair(a: string, b: string, c: string, d: string)
  {
    (a == c && b == d) || (a == d && b == c)
  }

  /** Pairs of plain IDs are joined to the same string exactly when they are the same unordered pair. */
  lemma PairIsInjective(a: string, b: string, c: string, d: string)
    requires Plain(a) && Plain(b) && Plain(c) && Plain(d)
    ensures Pair(a, b) == Pair(c, d) <==> SamePair(a, b, c, d)
  {
    PairIsUnordered(a, b);
    if Pair(a, b) == Pair(c, d) {
      var x, y := if Less(b, a) then b else a, if Less(b, a) then a else b;
      var z, w := if Less(d, c) then d else c, if Less(d, c) then c else d;
      JoinIsInjective(x, y, z, w);
    }
  }

  // ---- Conversation IDs -----------------------------------------------------------------------------

  predicate KnownSession(sessionType: int)
  {
    SINGLE_CHAT <= sessionType <= NOTIFICATION_CHAT
  }

  predicate IsGroupSession(sessionType: int)
  {
    sessionType == WRITE_GROUP_CHAT || sessionType == READ_GROUP_CHAT
  }

  function NotificationConversationID(m: Msg): string
  {
    if !KnownSession(m.sessionType) then ""
    else if IsGroupSession(m.sessionType) then "n_" + m.groupID
    else "n_" + Pair(m.sendID, m.recvID)
  }

  function ChatConversationID(m: Msg): string
  {
    if m.sessionType == SINGLE_CHAT then "si_" + Pair(m.sendID, m.recvID)
    else if m.sessionType == WRITE_GROUP_CHAT then "g_" + m.groupID
    else if m.sessionType == READ_GROUP_CHAT then "sg_" + m.groupID
    else if m.sessionType == NOTIFICATION_CHAT then "sn_" + Pair(m.sendID, m.recvID)
    else ""
  }

  /** GetConversationIDByMsg. */
  function ConversationID(m: Msg): string
  {
    if m.sessionType == SINGLE_CHAT then
      (if IsNotification(m) then "n_" + Pair(m.sendID, m.recvID) else "si_" + Pair(m.sendID, m.recvID))
    else if m.sessionType == WRITE_GROUP_CHAT then
      (if IsNotification(m) then "n_" + m.groupID else "g_" + m.groupID)
    else if m.sessionType == READ_GROUP_CHAT then
      (if IsNotification(m) then "n_" + m.groupID else "sg_" + m.groupID)
    else if m.sessionType == NOTIFICATION_CHAT then
      (if IsNotification(m) then "n_" + Pair(m.sendID, m.recvID) else "sn_" + Pair(m.sendID, m.recvID))
    else ""
  }

  /** GetConversationIDBySessionType, for the one or two IDs it accepts. */
  function ConversationIDBySessionType(sessionType: int, ids: seq<string>): string
  {
    if |ids| < 1 || |ids| > 2 then ""
    else
      var first := if |ids| == 2 && Less(ids[1], ids[0]) then ids[1] else ids[0];
      if sessionType == SINGLE_CHAT then "si_" + if |ids| == 1 then ids[0] else Pair(ids[0], ids[1])
      else if sessionType == WRITE_GROUP_CHAT then "g_" + first
      else if sessionType == READ_GROUP_CHAT then "sg_" + first
      else if sessionType == NOTIFICATION_CHAT then "sn_" + first
      else ""
  }

  predicate IsNotificationID(id: string)
  {
    "n_" <= id
  }

  /** The ends of a message, as the builders use them. */
  function Ends(m: Msg): seq<string>
  {
    if IsGroupSession(m.sessionType) then [m.groupID] else [m.sendID, m.recvID]
  }

  /** The builder from a session type agrees with the builder from a message for every known
      session type but NotificationChat, where it keeps only the first of the two IDs. */
  lemma BySessionTypeAgrees(m: Msg)
    requires KnownSession(m.sessionType)
    ensures ConversationIDBySessionType(m.sessionType, Ends(m)) == ChatConversationID(m)
            <==> m.sessionType != NOTIFICATION_CHAT
  {
    if m.sessionType == NOTIFICATION_CHAT {
      assert |ConversationIDBySessionType(m.sessionType, Ends(m))| < |ChatConversationID(m)|;
    }
  }

  /** The same conversation: one session type, and one group or one unordered pair. */
  ghost predicate SameChat(a: Msg, b: Msg)
  {
    && a.sessionType == b.sessionType
    && if IsGroupSession(a.sessionType) then a.groupID == b.groupID else SamePair(a.sendID, a.recvID, b.sendID, b.recvID)
  }

  /** With plain user IDs the chat ID tells conversations apart, across all session types: two messages
      have the same chat ID exactly when they are of the same conversation. */
  lemma ChatIDsIdentify(a: Msg, b: Msg)
    requires KnownSession(a.sessionType) && KnownSession(b.sessionType)
    requires Plain(a.sendID) && Plain(a.recvID) && Plain(b.sendID) && Plain(b.recvID)
    ensures ChatConversationID(a) == ChatConversationID(b) <==> SameChat(a, b)
  {
    PairIsInjective(a.sendID, a.recvID, b.sendID, b.recvID);
    PrefixOf(a);
    PrefixOf(b);
    var p, q := Prefix(a.sessionType), Prefix(b.sessionType);
    if ChatConversationID(a) == ChatConversationID(b) {
      SamePrefix(a.sessionType, Tail(a), b.sessionType, Tail(b));
      assert (p + Tail(a))[|p|..] == Tail(a) && (q + Tail(b))[|q|..] == Tail(b);
    }
  }

  /** The notification ID tells groups apart and pairs apart; single chats and notification chats of one
      pair share it, and with plain group IDs no group shares one with a pair. */
  lemma NotificationIDsIdentify(a: Msg, b: Msg)
    requires KnownSession(a.sessionType) && KnownSession(b.sessionType)
    requires Plain(a.sendID) && Plain(a.recvID) && Plain(b.sendID) && Plain(b.recvID) && Plain(a.groupID) && Plain(b.groupID)
    ensures NotificationConversationID(a) == NotificationConversationID(b)
            <==> if IsGroupSession(a.sessionType) then IsGroupSession(b.sessionType) && a.groupID == b.groupID
                 else !IsGroupSession(b.sessionType) && SamePair(a.sendID, a.recvID, b.sendID, b.recvID)
  {
    PairIsInjective(a.sendID, a.recvID, b.sendID, b.recvID);
    assert NotificationConversationID(a)[2..] == Tail(a) && NotificationConversationID(b)[2..] == Tail(b);
    PairIsNotPlain(a.sendID, a.recvID);
    PairIsNotPlain(b.sendID, b.recvID);
  }

  lemma PairIsNotPlain(a: string, b: string)
    ensures !Plain(Pair(a, b))
  {
    assert (a + "_" + b)[|a|] == '_' && (b + "_" + a)[|b|] == '_';
  }

  function Prefix(sessionType: int): string
  {
    if sessionType == SINGLE_CHAT then "si_"
    else if sessionType == WRITE_GROUP_CHAT then "g_"
    else if sessionType == READ_GROUP_CHAT then "sg_"
    else "sn_"
  }

  function Tail(m: Msg): string
  {
    if IsGroupSession(m.sessionType) then m.groupID else Pair(m.sendID, m.recvID)
  }

  lemma PrefixOf(m: Msg)
    requires KnownSession(m.sessionType)
    ensures ChatConversationID(m) == Prefix(m.sessionType) + Tail(m)
  {
  }

  lemma SamePrefix(s: int, x: string, t: int, y: string)
    requires KnownSession(s) && KnownSession(t) && Prefix(s) + x == Prefix(t) + y
    ensures s == t
  {
    var a, b := Prefix(s) + x, Prefix(t) + y;
    assert a[0] == Prefix(s)[0] && b[0] == Prefix(t)[0];
    assert a[1] == Prefix(s)[1] && b[1] == Prefix(t)[1];
  }

  /** The builder from a session type: with one ID the prefix and the ID; with two, the pair for single
      chats and the smaller ID for the others; with any other number, and for unknown types, nothing. */
  lemma BySessionTypeExactly(sessionType: int, ids: seq<string>)
    ensures var id := ConversationIDBySessionType(sessionType, ids);
            if !KnownSession(sessionType) || |ids| == 0 || |ids| > 2 then id == ""
            else if |ids| == 1 then id == Prefix(sessionType) + ids[0]
            else if sessionType == SINGLE_CHAT then id == Prefix(sessionType) + Pair(ids[0], ids[1])
            else exists x :: x in ids && id == Prefix(sessionType) + x && forall y :: y in ids ==> !Less(y, x)
  {
    if |ids| == 2 {
      LessIsTotal(ids[0], ids[1]);
      LessIsTotal(ids[0], ids[0]);
      LessIsTotal(ids[1], ids[1]);
      var x := if Less(ids[1], ids[0]) then ids[1] else ids[0];
      assert ids == [ids[0], ids[1]];
      assert x in ids && forall y :: y in ids ==> !Less(y, x);
    }
  }

  /** Messages of an unknown session type have no conversation. */
  lemma UnknownHasNoConversation(m: Msg)
    requires !KnownSession(m.sessionType)
    ensures ChatConversationID(m) == "" && NotificationConversationID(m) == "" && ConversationID(m) == ""
  {
  }
}
