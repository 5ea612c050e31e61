/** The cache object of pkg/rpccache/online.go in its full-cache mode: the snapshot loop with its
    retries and cursor, the message loop with its phase change, and the online/offline split. */
module OnlineCache {
  import opened Common
  import opened OnlineSync

  const MAX_TRIES: nat := 5

  /** One answer of the user service to GetAllOnlineUsers. */
  datatype Answer = Page(list: seq<Status>, next: nat) | Failure

  function Serve(script: seq<Answer>, i: nat): Answer
  {
    if i < |script| then script[i] else Failure
  }

  /** The first page among the next `tries` answers. */
  function Retry(script: seq<Answer>, i: nat, tries: nat): (j: nat)
    ensures i <= j <= i + tries
    ensures forall k :: i <= k < j ==> Serve(script, k).Failure?
    ensures j < i + tries ==> Serve(script, j).Page?
    decreases tries
  {
    if tries == 0 || Serve(script, i).Page? then i else Retry(script, i + 1, tries - 1)
  }

  datatype Outcome = Outcome(cache: Table, calls: nat, ok: bool)

  /** The whole snapshot: pages until the cursor is zero, or an error after MAX_TRIES failures. */
  function Snapshot(cache: Table, script: seq<Answer>, i: nat): Outcome
    decreases |script| - i
  {
    var j := Retry(script, i, MAX_TRIES);
    if j == i + MAX_TRIES then Outcome(cache, j, false)
    else
      var page := Serve(script, j);
      if page.next == 0 then Outcome(StorePage(cache, page.list), j + 1, true)
      else Snapshot(StorePage(cache, page.list), script, j + 1)
  }

  /** The cursor to send in call number k: that of the last page before it. */
  function CursorAt(script: seq<Answer>, k: nat): nat
  {
    if k == 0 then 0
    else if Serve(script, k - 1).Page? then Serve(script, k - 1).next
    else CursorAt(script, k - 1)
  }

  class Cache {
    var phase: nat
    var table: Table

    constructor ()
      ensures phase == BEGIN && table == map[]
    {
      phase := BEGIN;
      table := map[];
    }

    method StoreAll(page: seq<Status>)
      modifies this`table
      ensures table == StorePage(old(table), page)
    {
      for i := 0 to |page|
        invariant table == StorePage(old(table), page[..i])
      {
        assert page[..i + 1][..i] == page[..i];
        if page[i].online {
          table := table[page[i].user := page[i].platforms];
        }
      }
      assert page[..|page|] == page;
    }

    /** One retried call: up to MAX_TRIES answers, with the same cursor; the page that comes is stored. */
    method FetchPage(script: seq<Answer>, start: nat, cursor: nat) returns (got: bool, calls: nat, next: nat)
      modifies this`table
      ensures var j := Retry(script, start, MAX_TRIES);
              if j == start + MAX_TRIES then !got && calls == MAX_TRIES && next == cursor && table == old(table)
              else got && start + calls == j + 1 && next == Serve(script, j).next
                   && table == StorePage(old(table), Serve(script, j).list)
    {
      got, calls, next := false, 0, cursor;
      while calls < MAX_TRIES
        invariant calls <= MAX_TRIES && !got && next == cursor && table == old(table)
        invariant Retry(script, start, MAX_TRIES) == Retry(script, start + calls, MAX_TRIES - calls)
      {
        var answer := Serve(script, start + calls);
        calls := calls + 1;
        if answer.Page? {
          StoreAll(answer.list);
          got, next := true, answer.next;
          return;
        }
      }
    }

    /** initUsersOnlineStatus, with the service's answers given in order; `asked` lists the cursors
        sent. The phase moves on whether or not the snapshot succeeded. */
    method InitUsersOnlineStatus(script: seq<Answer>) returns (ok: bool, asked: seq<nat>)
      modifies this
      ensures Outcome(table, |asked|, ok) == Snapshot(old(table), script, 0)
      ensures forall k :: 0 <= k < |asked| ==> asked[k] == CursorAt(script, k)
      ensures phase == DO_ONLINE_STATUS_OVER
    {
      ok, asked := true, [];
      var cursor, first := 0, true;
      while first || cursor != 0
        invariant cursor == CursorAt(script, |asked|) && phase == old(phase)
        invariant forall k :: 0 <= k < |asked| ==> asked[k] == CursorAt(script, k)
        invariant if first || cursor != 0 then Snapshot(table, script, |asked|) == Snapshot(old(table), script, 0)
                  else Outcome(table, |asked|, true) == Snapshot(old(table), script, 0)
        decreases first, |script| - |asked|
      {
        var got, calls, next := FetchPage(script, |asked|, cursor);
        AskedGrows(script, asked, calls, got);
        asked := asked + seq(calls, _ => cursor);
        first := false;
        if !got {
          phase := DO_ONLINE_STATUS_OVER;
          ok := false;
          return;
        }
        cursor := next;
      }
      phase := DO_ONLINE_STATUS_OVER;
    }

    /** doMessage. */
    method DoMessage(m: Message)
      modifies this`table
      ensures table == ApplyMessage(old(table), m)
    {
      if m.Change? {
        if m.platforms == [] {
          table := table - {m.user};
        } else {
          table := table[m.user := m.platforms];
        }
      }
    }

    /** The first loop of doSubscribe, while `arrivals[k]` comes in before poll number k: apply message
        after message, and move to the last phase at the first poll that finds nothing waiting; that
        is the first one that fewer messages precede than polls. A last phase is left alone. */
    method DrainReady(arrivals: seq<seq<Message>>) returns (polls: nat)
      requires phase >= DO_ONLINE_STATUS_OVER
      modifies this
      ensures old(phase) != DO_ONLINE_STATUS_OVER ==> polls == 0 && table == old(table) && phase == old(phase)
      ensures old(phase) == DO_ONLINE_STATUS_OVER ==>
                && polls > 0 && phase == DO_SUBSCRIBE_OVER && table == ApplyAll(old(table), Arrived(arrivals, polls))
                && |Arrived(arrivals, polls)| == polls - 1 && forall p :: 0 < p < polls ==> |Arrived(arrivals, p)| >= p
    {
      polls := 0;
      if phase != DO_ONLINE_STATUS_OVER { return; }
      var waiting: seq<Message> := [];
      while true
        invariant phase == old(phase) && Waits(arrivals, polls, waiting)
        invariant table == ApplyAll(old(table), Arrived(arrivals, polls)[..polls])
        decreases |Arrived(arrivals, |arrivals|)| + 1 - polls
      {
        ArrivedGrows(arrivals, polls + 1);
        NextPoll(arrivals, polls, waiting);
        waiting := waiting + if polls < |arrivals| then arrivals[polls] else [];
        polls := polls + 1;
        if |waiting| == 0 {
          phase := DO_SUBSCRIBE_OVER;
          return;
        }
        DoMessage(waiting[0]);
        ApplyOneMore(old(table), Arrived(arrivals, polls), polls - 1);
        waiting := waiting[1..];
      }
    }

    /** GetUsersOnline: the request split, in order, by presence in the table. */
    method GetUsersOnline(users: seq<UserID>) returns (online: seq<UserID>, offline: seq<UserID>)
      ensures online == Present(table, users, true) && offline == Present(table, users, false)
    {
      online, offline := [], [];
      for i := 0 to |users|
        invariant online == Present(table, users[..i], true) && offline == Present(table, users[..i], false)
      {
        assert users[..i + 1][..i] == users[..i];
        if users[i] in table {
          online := online + [users[i]];
        } else {
          offline := offline + [users[i]];
        }
      }
      assert users[..|users|] == users;
    }
  }

  /** The requested users that are (or are not) in the table, in order. */
  function Present(t: Table, users: seq<UserID>, yes: bool): seq<UserID>
  {
    if users == [] then []
    else
      var u := users[|users| - 1];
      Present(t, users[..|users| - 1], yes) + if (u in t) == yes then [u] else []
  }

  // ---- Against a server that answers by cursor ------------------------------------------------------------

  /** The user service: pages in a chain of distinct cursors that begins with zero; the last page's next
      cursor is zero. */
  datatype Server = Server(cursors: seq<nat>, lists: seq<seq<Status>>)
  {
    ghost predicate Valid()
    {
      |cursors| == |lists| > 0 && cursors[0] == 0 && NoDup(cursors)
    }

    function Reply(i: nat): Answer
      requires i < |lists| && |cursors| == |lists|
    {
      Page(lists[i], if i + 1 < |cursors| then cursors[i + 1] else 0)
    }
  }

  /** Each of the first n calls fails or gets the page of the cursor it sent. */
  ghost predicate AnswersByCursor(server: Server, script: seq<Answer>, n: nat)
    requires server.Valid()
  {
    forall k, i :: 0 <= k < n && 0 <= i < |server.lists| && Serve(script, k).Page? && CursorAt(script, k) == server.cursors[i] ==>
      Serve(script, k) == server.Reply(i)
  }

  /** The lists of the pages among the first n answers, in order. */
  function Fetched(script: seq<Answer>, n: nat): seq<seq<Status>>
  {
    if n == 0 then []
    else Fetched(script, n - 1) + if Serve(script, n - 1).Page? then [Serve(script, n - 1).list] else []
  }

  /** As long as no page has ended the scan, the pages fetched are the first ones of the chain, each once,
      and the cursor sent next is that of the page after them. */
  lemma {:induction false} CursorFollowsChain(server: Server, script: seq<Answer>, n: nat)
    requires server.Valid() && AnswersByCursor(server, script, n)
    requires forall k :: 0 <= k < n && Serve(script, k).Page? ==> Serve(script, k).next != 0
    ensures |Fetched(script, n)| < |server.lists| && Fetched(script, n) == server.lists[..|Fetched(script, n)|]
    ensures CursorAt(script, n) == server.cursors[|Fetched(script, n)|]
  {
    if n > 0 {
      CursorFollowsChain(server, script, n - 1);
      var p := |Fetched(script, n - 1)|;
      if Serve(script, n - 1).Page? {
        assert Serve(script, n - 1) == server.Reply(p);
      }
    }
  }

  /** A snapshot that succeeds has fetched every page of the server exactly once, in order, however many
      calls failed in between. */
  lemma EachPageFetchedOnce(cache: Table, server: Server, script: seq<Answer>)
    requires server.Valid() && AnswersByCursor(server, script, Snapshot(cache, script, 0).calls)
    requires Snapshot(cache, script, 0).ok
    ensures Fetched(script, Snapshot(cache, script, 0).calls) == server.lists
  {
    var n := Snapshot(cache, script, 0).calls;
    SnapshotEndsAtZeroCursor(cache, script, 0);
    CursorFollowsChain(server, script, n - 1);
    var p := |Fetched(script, n - 1)|;
    assert Serve(script, n - 1) == server.Reply(p);
    NextIsNotZero(server, p);
    assert server.lists == server.lists[..p] + [server.lists[p]];
  }

  lemma NextIsNotZero(server: Server, p: nat)
    requires server.Valid() && p < |server.lists| && server.Reply(p).next == 0
    ensures p + 1 == |server.lists|
  {
    assert forall i :: 0 < i < |server.cursors| ==> server.cursors[i] != server.cursors[0];
  }

  /** What has come in before poll number n. */
  function Arrived(arrivals: seq<seq<Message>>, n: nat): seq<Message>
  {
    if n == 0 then [] else Arrived(arrivals, n - 1) + if n <= |arrivals| then arrivals[n - 1] else []
  }

  lemma {:induction false} ArrivedPrefix(arrivals: seq<seq<Message>>, n: nat)
    requires n <= |arrivals|
    ensures Arrived(arrivals, n) == Concat(arrivals[..n])
  {
    if n > 0 {
      ArrivedPrefix(arrivals, n - 1);
      var upTo := arrivals[..n];
      assert upTo[..|upTo| - 1] == arrivals[..n - 1] && upTo[|upTo| - 1] == arrivals[n - 1];
    }
  }

  /** What arrives is all of it, in order. */
  lemma {:induction false} ArrivedIsConcat(arrivals: seq<seq<Message>>, n: nat)
    requires n >= |arrivals|
    ensures Arrived(arrivals, n) == Concat(arrivals)
    decreases n
  {
    if n > |arrivals| {
      ArrivedIsConcat(arrivals, n - 1);
    } else {
      ArrivedPrefix(arrivals, n);
      assert arrivals[..n] == arrivals;
    }
  }

  lemma {:induction false} ArrivedGrows(arrivals: seq<seq<Message>>, n: nat)
    ensures Arrived(arrivals, n) <= Arrived(arrivals, n + 1)
    ensures |Arrived(arrivals, n)| <= |Arrived(arrivals, |arrivals|)|
  {
    if n < |arrivals| { ArrivedUpTo(arrivals, n, |arrivals|); } else if n > |arrivals| { ArrivedGrows(arrivals, n - 1); }
  }

  /** Every poll so far has found a message; the others wait. */
  ghost predicate Waits(arrivals: seq<seq<Message>>, polls: nat, waiting: seq<Message>)
  {
    && |Arrived(arrivals, polls)| >= polls && waiting == Arrived(arrivals, polls)[polls..]
    && forall p :: 0 < p <= polls ==> |Arrived(arrivals, p)| >= p
  }

  lemma NextPoll(arrivals: seq<seq<Message>>, polls: nat, waiting: seq<Message>)
    requires Waits(arrivals, polls, waiting)
    ensures var all, now := Arrived(arrivals, polls + 1), waiting + if polls < |arrivals| then arrivals[polls] else [];
            && polls <= |all| && all[..polls] == Arrived(arrivals, polls)[..polls] && now == all[polls..]
            && if now == [] then all == all[..polls] else Waits(arrivals, polls + 1, now[1..]) && now[0] == all[polls]
  {
    ArrivedGrows(arrivals, polls);
  }

  lemma ApplyOneMore(cache: Table, ms: seq<Message>, k: nat)
    requires k < |ms|
    ensures ApplyAll(cache, ms[..k + 1]) == ApplyMessage(ApplyAll(cache, ms[..k]), ms[k])
  {
    assert ms[..k + 1][..k] == ms[..k];
  }

  lemma {:induction false} ArrivedUpTo(arrivals: seq<seq<Message>>, n: nat, k: nat)
    requires n <= k
    ensures |Arrived(arrivals, n)| <= |Arrived(arrivals, k)|
  {
    if n < k { ArrivedUpTo(arrivals, n, k - 1); }
  }

  /** Failed calls do not move the cursor. */
  lemma {:induction false} CursorKept(script: seq<Answer>, start: nat, k: nat)
    requires start <= k && forall i :: start <= i < k ==> Serve(script, i).Failure?
    ensures forall i :: start <= i <= k ==> CursorAt(script, i) == CursorAt(script, start)
  {
    if start < k { CursorKept(script, start, k - 1); }
  }

  /** All the tries of one call send the same cursor. */
  lemma AskedGrows(script: seq<Answer>, asked: seq<nat>, calls: nat, got: bool)
    requires forall k :: 0 <= k < |asked| ==> asked[k] == CursorAt(script, k)
    requires forall i :: |asked| <= i < |asked| + calls - (if got then 1 else 0) ==> Serve(script, i).Failure?
    ensures var grown := asked + seq(calls, _ => CursorAt(script, |asked|));
            forall k :: 0 <= k < |grown| ==> grown[k] == CursorAt(script, k)
    ensures !got ==> CursorAt(script, |asked| + calls) == CursorAt(script, |asked|)
  {
    if calls > 0 { CursorKept(script, |asked|, |asked| + calls - if got then 1 else 0); }
  }

  lemma {:induction false} PresentMembers(t: Table, users: seq<UserID>, yes: bool)
    ensures forall u :: u in Present(t, users, yes) ==> (u in t) == yes
  {
    if users != [] { PresentMembers(t, users[..|users| - 1], yes); }
  }

  /** Every requested user is on exactly one side, as often as it was requested: online exactly
      when the table has it. */
  lemma {:induction false} SplitIsPartition(t: Table, users: seq<UserID>)
    ensures multiset(Present(t, users, true)) + multiset(Present(t, users, false)) == multiset(users)
    ensures forall yes, u :: u in Present(t, users, yes) ==> (u in t) == yes
  {
    forall yes ensures forall u :: u in Present(t, users, yes) ==> (u in t) == yes { PresentMembers(t, users, yes); }
    if users != [] {
      var front, u := users[..|users| - 1], users[|users| - 1];
      SplitIsPartition(t, front);
      assert users == front + [u];
      PresentStep(t, users, true);
      PresentStep(t, users, false);
    }
  }

  /** Each side keeps the order of the request. */
  lemma {:induction false} PresentConcat(t: Table, a: seq<UserID>, b: seq<UserID>, yes: bool)
    ensures Present(t, a + b, yes) == Present(t, a, yes) + Present(t, b, yes)
  {
    if b == [] {
      assert a + b == a;
    } else {
      PresentConcat(t, a, b[..|b| - 1], yes);
      assert (a + b)[..|a + b| - 1] == a + b[..|b| - 1];
    }
  }

  lemma PresentStep(t: Table, users: seq<UserID>, yes: bool)
    requires users != []
    ensures var u := users[|users| - 1];
            multiset(Present(t, users, yes)) == multiset(Present(t, users[..|users| - 1], yes)) + if (u in t) == yes then multiset{u} else multiset{}
  {
  }

  /** The pages among the answers i to j, stored in order. */
  function StorePages(cache: Table, script: seq<Answer>, i: nat, j: nat): Table
    requires i <= j
    decreases j - i
  {
    if i == j then cache
    else StorePages(if Serve(script, i).Page? then StorePage(cache, Serve(script, i).list) else cache, script, i + 1, j)
  }

  lemma {:induction false} StoreNoPages(cache: Table, script: seq<Answer>, i: nat, k: nat, j: nat)
    requires i <= k <= j && forall l :: i <= l < k ==> Serve(script, l).Failure?
    ensures StorePages(cache, script, i, j) == StorePages(cache, script, k, j)
    decreases k - i
  {
    if i < k { StoreNoPages(cache, script, i + 1, k, j); }
  }

  /** A snapshot that succeeds has ended on a page whose next cursor is zero; no page before the last
      ends the scan. */
  lemma {:induction false} SnapshotEndsAtZeroCursor(cache: Table, script: seq<Answer>, i: nat)
    ensures var o := Snapshot(cache, script, i);
            && o.calls >= i
            && (o.ok ==> o.calls > i && Serve(script, o.calls - 1).Page? && Serve(script, o.calls - 1).next == 0)
            && (forall k :: i <= k < o.calls - 1 && Serve(script, k).Page? ==> Serve(script, k).next != 0)
    decreases |script| - i
  {
    var j := Retry(script, i, MAX_TRIES);
    if j < i + MAX_TRIES && Serve(script, j).next != 0 {
      SnapshotEndsAtZeroCursor(StorePage(cache, Serve(script, j).list), script, j + 1);
    }
  }

  /** One that fails has failed only after five failed calls in a row, and never with fewer than five. */
  lemma {:induction false} SnapshotFailsAfterTries(cache: Table, script: seq<Answer>, i: nat)
    ensures var o := Snapshot(cache, script, i);
            !o.ok ==> o.calls >= i + 5 && forall k :: o.calls - 5 <= k < o.calls ==> Serve(script, k).Failure?
    decreases |script| - i
  {
    var j := Retry(script, i, MAX_TRIES);
    if j < i + MAX_TRIES && Serve(script, j).next != 0 {
      SnapshotFailsAfterTries(StorePage(cache, Serve(script, j).list), script, j + 1);
    }
  }

  /** The snapshot stores every page it is served, in order, and nothing else. */
  lemma {:induction false} SnapshotStoresEveryPage(cache: Table, script: seq<Answer>, i: nat)
    ensures Snapshot(cache, script, i).calls >= i
    ensures Snapshot(cache, script, i).cache == StorePages(cache, script, i, Snapshot(cache, script, i).calls)
    decreases |script| - i
  {
    var j := Retry(script, i, MAX_TRIES);
    var n := Snapshot(cache, script, i).calls;
    if j < i + MAX_TRIES && Serve(script, j).next != 0 {
      SnapshotStoresEveryPage(StorePage(cache, Serve(script, j).list), script, j + 1);
    }
    StoreNoPages(cache, script, i, j, n);
  }
}
