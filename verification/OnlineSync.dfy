/** Start-up of the full online cache (pkg/rpccache/online.go:85-185): a paged snapshot, then the
    replay of a log of status messages that began before the first page was read. The source keeps
    changing while pages are read and messages are applied. */
module OnlineSync {
  import opened Common

  type Table = map<UserID, seq<int>>

  /** The three phases, in order. */
  const BEGIN: nat := 0
  const DO_ONLINE_STATUS_OVER: nat := 1
  const DO_SUBSCRIBE_OVER: nat := 2

  /** One entry of a page of GetAllOnlineUsers. */
  datatype Status = Status(user: UserID, online: bool, platforms: seq<int>)

  /** One message of the subscription; a payload that does not parse is skipped. */
  datatype Message = Malformed | Change(user: UserID, platforms: seq<int>)

  function Platforms(t: Table, user: UserID): seq<int>
  {
    if user in t then t[user] else []
  }

  /** A page stores its online users. */
  function StorePage(cache: Table, page: seq<Status>): Table
  {
    if page == [] then cache
    else
      var before, s := StorePage(cache, page[..|page| - 1]), page[|page| - 1];
      if s.online then before[s.user := s.platforms] else before
  }

  /** A message carries the user's whole state: no platforms removes the user. */
  function ApplyMessage(cache: Table, m: Message): Table
  {
    if m.Malformed? then cache
    else if m.platforms == [] then cache - {m.user}
    else cache[m.user := m.platforms]
  }

  function ApplyAll(cache: Table, ms: seq<Message>): Table
  {
    if ms == [] then cache else ApplyMessage(ApplyAll(cache, ms[..|ms| - 1]), ms[|ms| - 1])
  }

  // ---- The transition system -----------------------------------------------------------------------

  /** `log` is every message since the subscription; `seen` the users some page has listed;
      `succeeded` whether the snapshot ended without error. */
  datatype Sync = Sync(source: Table, log: seq<Message>, applied: nat, phase: nat, cache: Table,
                       seen: set<UserID>, succeeded: bool)

  datatype Event =
    | SourceChange(user: UserID, platforms: seq<int>)
    | Noise
    | ReadPage(page: seq<Status>)
    | EndSnapshot(ok: bool)
    | Apply
    | Drained

  function Start(source: Table): Sync
  {
    Sync(source, [], 0, BEGIN, map[], {}, false)
  }

  predicate Mentions(ms: seq<Message>, user: UserID)
  {
    exists i :: 0 <= i < |ms| && ms[i].Change? && ms[i].user == user
  }

  /** Pages are true when read; a successful snapshot has listed every user that has been online,
      unchanged, since the subscription. */
  ghost predicate Enabled(s: Sync, e: Event)
  {
    match e
    case SourceChange(_, _) => true
    case Noise => true
    case ReadPage(page) =>
      && s.phase == BEGIN
      && forall i :: 0 <= i < |page| ==>
           page[i].platforms == Platforms(s.source, page[i].user) && page[i].online == (page[i].platforms != [])
    case EndSnapshot(ok) =>
      && s.phase == BEGIN
      && (ok ==> forall u :: u in s.source && !Mentions(s.log, u) ==> u in s.seen)
    case Apply => s.phase >= DO_ONLINE_STATUS_OVER && s.applied < |s.log|
    case Drained => s.phase == DO_ONLINE_STATUS_OVER
  }

  function Next(s: Sync, e: Event): Sync
    requires Enabled(s, e)
  {
    match e
    case SourceChange(u, ps) =>
      s.(source := ApplyMessage(s.source, Change(u, ps)), log := s.log + [Change(u, ps)])
    case Noise => s.(log := s.log + [Malformed])
    case ReadPage(page) => s.(cache := StorePage(s.cache, page), seen := s.seen + (set st | st in page :: st.user))
    case EndSnapshot(ok) => s.(phase := DO_ONLINE_STATUS_OVER, succeeded := ok)
    case Apply => s.(cache := ApplyMessage(s.cache, s.log[s.applied]), applied := s.applied + 1)
    case Drained => s.(phase := DO_SUBSCRIBE_OVER)
  }

  ghost predicate NonEmpty(t: Table)
  {
    forall u :: u in t ==> t[u] != []
  }

  ghost predicate IsRun(run: seq<Sync>, events: seq<Event>)
  {
    && |run| == |events| + 1 && NonEmpty(run[0].source) && run[0] == Start(run[0].source)
    && forall i {:trigger events[i]} :: 0 <= i < |events| ==> Enabled(run[i], events[i]) && run[i + 1] == Next(run[i], events[i])
  }

  // ---- The invariant --------------------------------------------------------------------------------

  /** The last message about a user, if there is one, is the truth about it. */
  ghost predicate LogIsTrue(s: Sync, user: UserID)
  {
    forall i :: 0 <= i < |s.log| && s.log[i].Change? && s.log[i].user == user && !Mentions(s.log[i + 1..], user)
      ==> s.log[i].platforms == Platforms(s.source, user)
  }

  ghost predicate CacheIsTrue(s: Sync, user: UserID)
    requires s.applied <= |s.log|
  {
    if Mentions(s.log[s.applied..], user) then true
    else if Mentions(s.log, user) then Platforms(s.cache, user) == Platforms(s.source, user)
    else
      && (user in s.cache ==> s.cache[user] == Platforms(s.source, user))
      && (user in s.source && (user in s.seen || s.succeeded) ==> user in s.cache)
  }

  ghost predicate Inv(s: Sync)
  {
    && s.applied <= |s.log| && s.phase <= DO_SUBSCRIBE_OVER
    && (s.phase == BEGIN ==> s.applied == 0 && !s.succeeded)
    && NonEmpty(s.source) && NonEmpty(s.cache)
    && forall u :: LogIsTrue(s, u) && CacheIsTrue(s, u)
  }

  lemma {:induction false} PageIsTrue(cache: Table, source: Table, page: seq<Status>)
    requires forall i :: 0 <= i < |page| ==>
               page[i].platforms == Platforms(source, page[i].user) && page[i].online == (page[i].platforms != [])
    ensures var after := StorePage(cache, page);
            && (forall u :: u in after ==> (u in cache && after[u] == cache[u])
                                           || (after[u] == Platforms(source, u) && after[u] != []))
            && (forall u :: u in cache ==> u in after)
            && (forall i :: 0 <= i < |page| && page[i].user in source && page[i].platforms != [] ==> page[i].user in after)
  {
    if page != [] {
      PageIsTrue(cache, source, page[..|page| - 1]);
    }
  }

  lemma MentionsAppend(ms: seq<Message>, m: Message, user: UserID)
    ensures Mentions(ms + [m], user) <==> Mentions(ms, user) || (m.Change? && m.user == user)
  {
    if Mentions(ms, user) {
      var i :| 0 <= i < |ms| && ms[i].Change? && ms[i].user == user;
      assert (ms + [m])[i] == ms[i];
    }
    assert (ms + [m])[|ms|] == m;
  }

  lemma MentionsHead(ms: seq<Message>, user: UserID)
    requires ms != []
    ensures Mentions(ms, user) <==> (ms[0].Change? && ms[0].user == user) || Mentions(ms[1..], user)
  {
    if Mentions(ms[1..], user) {
      var i :| 0 <= i < |ms[1..]| && ms[1..][i].Change? && ms[1..][i].user == user;
      assert ms[i + 1] == ms[1..][i];
    }
    if Mentions(ms, user) {
      var i :| 0 <= i < |ms| && ms[i].Change? && ms[i].user == user;
      assert i > 0 ==> ms[1..][i - 1] == ms[i];
    }
  }

  /** A message arriving in the log. */
  lemma LogStep(s: Sync, t: Sync, m: Message, user: UserID)
    requires Inv(s) && t == s.(source := ApplyMessage(s.source, m), log := s.log + [m])
    ensures LogIsTrue(t, user) && CacheIsTrue(t, user)
  {
    MentionsAppend(s.log, m, user);
    assert t.log[s.applied..] == s.log[s.applied..] + [m];
    MentionsAppend(s.log[s.applied..], m, user);
    forall i | 0 <= i < |t.log| && t.log[i].Change? && t.log[i].user == user && !Mentions(t.log[i + 1..], user)
      ensures t.log[i].platforms == Platforms(t.source, user)
    {
      if i < |s.log| {
        assert t.log[i + 1..] == s.log[i + 1..] + [m];
        MentionsAppend(s.log[i + 1..], m, user);
        assert LogIsTrue(s, user);
      }
    }
    assert CacheIsTrue(s, user);
  }

  lemma ApplyStep(s: Sync, user: UserID)
    requires Inv(s) && Enabled(s, Apply)
    ensures CacheIsTrue(Next(s, Apply), user)
  {
    var m, rest := s.log[s.applied], s.log[s.applied + 1..];
    assert s.log[s.applied..][0] == m && s.log[s.applied..][1..] == rest;
    MentionsHead(s.log[s.applied..], user);
    assert LogIsTrue(s, user) && CacheIsTrue(s, user);
    if m.Change? && m.user == user && !Mentions(rest, user) {
      assert m.platforms == Platforms(s.source, user);
      assert Mentions(s.log, user);
    }
  }

  lemma StepKeeps(s: Sync, e: Event)
    requires Inv(s) && Enabled(s, e)
    ensures Inv(Next(s, e))
  {
    var t := Next(s, e);
    if e.ReadPage? { PageIsTrue(s.cache, s.source, e.page); }
    forall u ensures LogIsTrue(t, u) && CacheIsTrue(t, u) {
      assert LogIsTrue(s, u) && CacheIsTrue(s, u);
      match e
      case SourceChange(v, ps) => LogStep(s, t, Change(v, ps), u);
      case Noise => LogStep(s, t, Malformed, u);
      case Apply => ApplyStep(s, u);
      case ReadPage(page) =>
        if u in t.seen && u !in s.seen {
          var st :| st in page && st.user == u;
        }
      case _ =>
    }
  }

  lemma {:induction false} RunKeeps(run: seq<Sync>, events: seq<Event>, k: nat)
    requires IsRun(run, events) && k < |run|
    ensures Inv(run[k])
  {
    if k > 0 {
      assert run[k - 1 + 1] == Next(run[k - 1], events[k - 1]);
      RunKeeps(run, events, k - 1);
      StepKeeps(run[k - 1], events[k - 1]);
    }
  }

  /** After a successful snapshot, once every message is applied, the cache is the source. */
  lemma SnapshotPlusReplayConverges(run: seq<Sync>, events: seq<Event>, k: nat)
    requires IsRun(run, events) && k < |run|
    requires run[k].succeeded && run[k].applied == |run[k].log|
    ensures run[k].cache == run[k].source
  {
    RunKeeps(run, events, k);
    var s := run[k];
    assert s.log[s.applied..] == [];
    forall u ensures Platforms(s.cache, u) == Platforms(s.source, u) {
      assert CacheIsTrue(s, u);
    }
    assert forall u :: u in s.cache <==> Platforms(s.cache, u) != [];
    assert forall u :: u in s.source <==> Platforms(s.source, u) != [];
    forall u | u in s.cache ensures u in s.source && s.cache[u] == s.source[u] {
      assert Platforms(s.cache, u) == Platforms(s.source, u);
    }
    forall u | u in s.source ensures u in s.cache {
      assert Platforms(s.cache, u) == Platforms(s.source, u);
    }
  }

  /** Even after a failed snapshot, a user some applied message is about is cached truly. */
  lemma MessagesRepairFailedSnapshot(run: seq<Sync>, events: seq<Event>, k: nat, user: UserID)
    requires IsRun(run, events) && k < |run| && run[k].applied == |run[k].log|
    requires Mentions(run[k].log, user)
    ensures Platforms(run[k].cache, user) == Platforms(run[k].source, user)
  {
    RunKeeps(run, events, k);
    assert run[k].log[run[k].applied..] == [];
    assert CacheIsTrue(run[k], user);
  }

  /** The phase never decreases, and no message is applied before the snapshot has ended. */
  lemma {:induction false} PhasesInOrder(run: seq<Sync>, events: seq<Event>, i: nat, j: nat)
    requires IsRun(run, events) && i <= j < |run|
    ensures run[i].phase <= run[j].phase
    ensures run[j].applied > 0 ==> run[j].phase >= DO_ONLINE_STATUS_OVER
    decreases j - i
  {
    RunKeeps(run, events, j);
    if i < j {
      assert run[j - 1 + 1] == Next(run[j - 1], events[j - 1]);
      PhasesInOrder(run, events, i, j - 1);
      RunKeeps(run, events, j - 1);
    }
  }
}
