/** The world around the push consumer (internal/push/push_handler.go, internal/push/callback.go),
    as calls and replies. A reply may depend on the whole history of calls, so the environment may
    change its answers at any time; only the clock and group membership are fixed. */
module PushEnv {
  import opened Common
  import opened Messages

  datatype PushResult = PushResult(user: UserID, onlinePush: bool)

  /** Everything the consumer does to the outside, in order. */
  datatype Call =
    | GroupWebhook(group: string, msg: Msg)
    | OnlineWebhook(users: seq<UserID>, msg: Msg)
    | OfflineWebhook(users: seq<UserID>, msg: Msg)
    | QueryOnline(users: seq<UserID>)
    | PushOnline(msg: Msg, users: seq<UserID>)
    | QueryMaxSeq(conversation: string)
    | SetMaxSeq(conversation: string, users: seq<UserID>, seqno: int)
    | DismissGroup(group: string)
    | FilterOffline(conversation: string, users: seq<UserID>)
    | EnqueueOffline(key: string, users: seq<UserID>, msg: Msg)
    | PushOffline(users: seq<UserID>, msg: Msg)

  datatype Reply =
    | Failed
    | Done
    | Users(users: seq<UserID>)
    | UsersAndInfo(users: seq<UserID>, info: Option<string>)
    | Split(online: seq<UserID>, offline: seq<UserID>)
    | Results(results: seq<PushResult>)
    | Seqno(n: int)

  type History = seq<Call>

  /** The set difference of two lists comes from another module: of its order and repetitions nothing
      is assumed. */
  type Difference = (seq<UserID>, seq<UserID>) -> seq<UserID>

  ghost predicate IsDifference(sub: Difference)
  {
    forall a, b, u :: u in sub(a, b) <==> u in a && u !in b
  }

  /** One such difference. */
  function Minus(a: seq<UserID>, b: seq<UserID>): (r: seq<UserID>)
    ensures forall u :: u in r <==> u in a && u !in b
  {
    if a == [] then [] else (if a[0] in b then [] else [a[0]]) + Minus(a[1..], b)
  }

  /** `parseQuit`, `parseKicked` and `parseDismissed` read the notification out of a message's
      content, when it can be read. */
  datatype Env = Env(now: int, members: string -> Option<seq<UserID>>, reply: (History, Call) -> Reply,
                     groupWebhook: bool, onlineWebhook: bool, offlineWebhook: bool,
                     parseQuit: string -> Option<UserID>, parseKicked: string -> Option<seq<UserID>>,
                     parseDismissed: string -> bool, sub: Difference)

  /** Some replies carry a list of users; any other successful reply carries none. */
  function ReplyUsers(r: Reply): seq<UserID>
  {
    if r.Users? || r.UsersAndInfo? then r.users else []
  }

  function ReplyResults(r: Reply): seq<PushResult>
  {
    if r.Results? then r.results else []
  }

  function ReplySplit(r: Reply): (seq<UserID>, seq<UserID>)
  {
    if r.Split? then (r.online, r.offline) else ([], [])
  }
}
