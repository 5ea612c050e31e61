/** The unregister channel with its capacity (internal/msggateway/ws_server.go:119-121, 155, 170-183 and
    client.go:290-300). The event loop is its only reader, and sends on it itself when it closes the
    victims of a login check. Of the list `unregisters` of module Gateway the first places are the
    channel and the rest are senders that wait, in order; a sender holds its connection's lock, and
    the loop's close of a connection returns only when that lock is free. */
module UnregisterChannel {
  import opened Common
  import opened Presence
  import opened LoginPolicy
  import opened Gateway
  import LoginRace

  const CAPACITY: nat := 1000

  /** The connections whose unregistration waits for a place. */
  function Waiting(g: Gw): seq<Client>
  {
    if |g.core.unregisters| <= CAPACITY then [] else g.core.unregisters[CAPACITY..]
  }

  /** The steps that can be taken: the close of a connection that is already closed does not return
      while the connection's unregistration waits, whoever sent it. */
  ghost predicate Proceeds(g: Gw, e: Event)
  {
    Enabled(g, e) && (e.LoopClose? && g.loop.left[0] in g.core.closed ==> g.loop.left[0] !in Waiting(g))
  }

  ghost predicate IsBounded(policy: int, run: seq<Gw>, events: seq<Event>)
  {
    && |run| == |events| + 1
    && forall i {:trigger events[i]} :: 0 <= i < |events| ==> Proceeds(run[i], events[i]) && run[i + 1] == Next(run[i], policy, events[i])
  }

  ghost predicate Leads(policy: int, g: Gw, h: Gw)
  {
    exists run, events :: IsBounded(policy, run, events) && run[0] == g && run[|events|] == h
  }

  /** The loop is removing the victims of a check. */
  predicate Removing(g: Gw)
  {
    g.loop.Remove? || g.loop.Closing?
  }

  /** The loop can still get past its removal. */
  ghost predicate CanFinish(policy: int, g: Gw)
  {
    exists h :: Leads(policy, g, h) && !Removing(h)
  }

  function Left(g: Gw): seq<Client>
    requires Removing(g)
  {
    if g.loop.Remove? then g.loop.victims else g.loop.left
  }

  function Open(g: Gw): set<Client>
    requires Removing(g)
  {
    set c | c in Left(g) && c !in g.core.closed
  }

  /** Some victim's unregistration waits, or the open victims do not all fit into the channel. */
  ghost predicate Jammed(g: Gw)
  {
    && Removing(g)
    && ((exists c :: c in Left(g) && c in Waiting(g))
        || (Open(g) != {} && |g.core.unregisters| + |Open(g)| > CAPACITY))
  }

  // ---- Runs -------------------------------------------------------------------------------------------------

  lemma LeadsNowhere(policy: int, g: Gw)
    ensures Leads(policy, g, g)
  {
    var none: seq<Event> := [];
    assert IsBounded(policy, [g], none) && [g][0] == g && [g][|none|] == g;
  }

  lemma LeadsFirst(policy: int, g: Gw, e: Event, h: Gw)
    requires Proceeds(g, e) && Leads(policy, Next(g, policy, e), h)
    ensures Leads(policy, g, h)
  {
    var run, events :| IsBounded(policy, run, events) && run[0] == Next(g, policy, e) && run[|events|] == h;
    var run', events' := [g] + run, [e] + events;
    forall i | 0 <= i < |events'| ensures Proceeds(run'[i], events'[i]) && run'[i + 1] == Next(run'[i], policy, events'[i]) {
      if i > 0 { assert events'[i] == events[i - 1]; }
    }
    assert IsBounded(policy, run', events') && run'[0] == g && run'[|events'|] == h;
  }

  lemma LeadsLast(policy: int, g: Gw, h: Gw, e: Event)
    requires Leads(policy, g, h) && Proceeds(h, e)
    ensures Leads(policy, g, Next(h, policy, e))
  {
    var run, events :| IsBounded(policy, run, events) && run[0] == g && run[|events|] == h;
    var run', events' := run + [Next(h, policy, e)], events + [e];
    assert IsBounded(policy, run', events') && run'[0] == g && run'[|events'|] == Next(h, policy, e);
  }

  /** What the bounded channel allows is a run of module Gateway, so all that is proved of those holds. */
  lemma BoundedIsRun(policy: int, run: seq<Gw>, events: seq<Event>)
    requires IsBounded(policy, run, events) && run[0] == INITIAL
    ensures IsRun(policy, run, events)
  {
  }

  // ---- A jam stays ---------------------------------------------------------------------------------------------

  /** A close of an open connection, by whomever, does not dissolve a jam. */
  lemma CloseKeepsJam(g: Gw, h: Gw, c: Client)
    requires Jammed(g) && Removing(h) && Left(h) == Left(g) && c !in g.core.closed
    requires h.core.closed == g.core.closed + {c} && h.core.unregisters == g.core.unregisters + [c]
    ensures Jammed(h)
  {
    if x :| x in Left(g) && x in Waiting(g) {
      assert Waiting(h) == Waiting(g) + [c];
      assert x in Waiting(h);
    } else if c in Left(g) {
      assert Open(h) == Open(g) - {c};
      if Open(h) == {} {
        assert Open(g) == {c};
        assert Waiting(h)[|Waiting(h)| - 1] == c;
      }
    } else {
      assert Open(h) == Open(g);
    }
  }

  lemma SameJam(g: Gw, h: Gw)
    requires Jammed(g) && Removing(h) && Left(h) == Left(g)
    requires h.core.closed == g.core.closed && h.core.unregisters == g.core.unregisters
    ensures Jammed(h)
  {
    assert Open(h) == Open(g) && Waiting(h) == Waiting(g);
  }

  /** A close that returns was not one of those that jam. */
  lemma ReturnKeepsJam(g: Gw, h: Gw)
    requires Jammed(g) && g.loop.Closing? && g.loop.left != []
    requires g.loop.left[0] in g.core.closed && g.loop.left[0] !in Waiting(g)
    requires h == g.(loop := g.loop.(left := g.loop.left[1..]))
    ensures Jammed(h)
  {
    assert g.loop.left == [g.loop.left[0]] + g.loop.left[1..];
    assert Open(h) == Open(g) && Waiting(h) == Waiting(g);
  }

  lemma JamStep(policy: int, g: Gw, e: Event)
    requires Jammed(g) && Proceeds(g, e)
    ensures Jammed(Next(g, policy, e))
  {
    var h := Next(g, policy, e);
    match e
    case Hangup(c) =>
      if c in g.core.closed { SameJam(g, h); } else { CloseKeepsJam(g, h, c); }
    case OutsideKick(c, now) =>
      KickCloses(g.core, c, now);
      if c in g.core.closed { SameJam(g, h); } else { CloseKeepsJam(g, h, c); }
    case LoopClose =>
      var c := g.loop.left[0];
      if c in g.core.closed { ReturnKeepsJam(g, h); } else { CloseKeepsJam(g, h, c); }
    case LoopDone => assert false;
    case _ => SameJam(g, h);
  }

  lemma KickCloses(core: Core, c: Client, now: int)
    ensures var t, u := RemoveAndKick(core, c.user, [c], now), Close(core, c);
            t.closed == u.closed && t.unregisters == u.unregisters
  {
    var d := core.(users := Delete(core.users, c.user, [c], now));
    assert [c][..0] == [] && CloseAll(d, []) == d;
  }

  lemma {:induction false} JamRun(policy: int, run: seq<Gw>, events: seq<Event>, k: nat)
    requires IsBounded(policy, run, events) && k < |run| && Jammed(run[0])
    ensures Jammed(run[k])
  {
    if k > 0 {
      JamRun(policy, run, events, k - 1);
      assert run[k - 1 + 1] == Next(run[k - 1], policy, events[k - 1]);
      JamStep(policy, run[k - 1], events[k - 1]);
    }
  }

  // ---- Without a jam the loop gets through ------------------------------------------------------------------------

  lemma OpenVictimFits(g: Gw, h: Gw, c: Client)
    requires Removing(g) && !Jammed(g) && Removing(h) && Left(h) == Left(g) && c in Left(g) && c !in g.core.closed
    requires h.core.closed == g.core.closed + {c} && h.core.unregisters == g.core.unregisters + [c]
    ensures !Jammed(h)
  {
    assert c in Open(g);
    assert Open(h) == Open(g) - {c};
  }

  lemma ReturnKeepsFree(g: Gw, h: Gw)
    requires !Jammed(g) && g.loop.Closing? && g.loop.left != [] && g.loop.left[0] in g.core.closed
    requires h == g.(loop := g.loop.(left := g.loop.left[1..]))
    ensures !Jammed(h)
  {
    assert g.loop.left == [g.loop.left[0]] + g.loop.left[1..];
    assert Open(h) == Open(g) && Waiting(h) == Waiting(g);
  }

  /** The loop's own next step can be taken, and does not jam it. */
  lemma OwnStepProceeds(policy: int, g: Gw, t1: int, t2: int)
    requires !g.loop.Idle? && !Jammed(g)
    requires g.loop.Reading? ==> g.loop.next <= |g.loop.slice|
    ensures Proceeds(g, OwnStep(g, t1, t2))
    ensures Removing(g) ==> !Jammed(Next(g, policy, OwnStep(g, t1, t2)))
  {
    var e := OwnStep(g, t1, t2);
    var h := Next(g, policy, e);
    if g.loop.Remove? {
      assert Open(h) == Open(g) && Waiting(h) == Waiting(g);
    } else if e.LoopClose? {
      var c := g.loop.left[0];
      assert c in Left(g);
      if c in g.core.closed { ReturnKeepsFree(g, h); } else { OpenVictimFits(g, h, c); }
    }
  }

  lemma {:induction false} FreeFinishes(policy: int, g: Gw)
    requires Removing(g) && !Jammed(g)
    ensures CanFinish(policy, g)
    decreases Stage(g.loop), Work(g)
  {
    var e := OwnStep(g, 0, 0);
    OwnStepProceeds(policy, g, 0, 0);
    var h := Next(g, policy, e);
    if Removing(h) {
      FreeFinishes(policy, h);
      var end :| Leads(policy, h, end) && !Removing(end);
      LeadsFirst(policy, g, e, end);
    } else {
      LeadsNowhere(policy, h);
      LeadsFirst(policy, g, e, h);
    }
  }

  // ---- The theorems ---------------------------------------------------------------------------------------------------

  /** Whatever the other goroutines do, the loop never gets past its removal if and only if a victim's
      unregistration already waits for a place, or the victims still open do not all fit. */
  lemma StuckExactly(policy: int, g: Gw)
    requires Removing(g)
    ensures !CanFinish(policy, g) <==> Jammed(g)
  {
    if Jammed(g) {
      forall h | Leads(policy, g, h) ensures Removing(h) {
        var run, events :| IsBounded(policy, run, events) && run[0] == g && run[|events|] == h;
        JamRun(policy, run, events, |events|);
      }
    } else {
      FreeFinishes(policy, g);
    }
  }

  /** In a run in which no removal is ever jammed, the loop is never stuck: at every moment it waits for
      an event, or can take its own next step. */
  lemma NeverStuck(policy: int, run: seq<Gw>, events: seq<Event>, k: nat, t1: int, t2: int)
    requires IsBounded(policy, run, events) && run[0] == INITIAL && k < |run|
    requires forall j :: 0 <= j < |run| ==> !Jammed(run[j])
    ensures run[k].loop.Idle? || Proceeds(run[k], OwnStep(run[k], t1, t2))
  {
    if !run[k].loop.Idle? {
      BoundedIsRun(policy, run, events);
      BaseHolds(policy, run, events, k);
      OwnStepProceeds(policy, run[k], t1, t2);
    }
  }

  // ---- A run that gets stuck --------------------------------------------------------------------------------------------

  function Unary(n: nat): (s: string)
    ensures |s| == n && forall i :: 0 <= i < n ==> s[i] == '1'
  {
    seq(n, _ => '1')
  }

  /** The sample connections: every number has its own address. */
  function Sample(n: nat, user: UserID): Client
  {
    Client(n, user, 1, Unary(n))
  }

  /** The connections accepted so far are the first n samples. */
  ghost predicate FirstSamples(g: Gw, n: nat)
  {
    && (forall c :: c in g.accepted ==> c.conn < n && c.addr == Unary(c.conn) && c == Sample(c.conn, if c.conn < 2 then "u" else "v"))
    && g.core.closed <= g.accepted
  }

  lemma AcceptSample(policy: int, g: Gw, n: nat, user: UserID) returns (h: Gw)
    requires Leads(policy, INITIAL, g) && FirstSamples(g, n) && user == (if n < 2 then "u" else "v")
    ensures Leads(policy, INITIAL, h) && FirstSamples(h, n + 1)
    ensures h == g.(registers := g.registers + [Sample(n, user)], accepted := g.accepted + {Sample(n, user)})
  {
    LeadsLast(policy, INITIAL, g, Accept(Sample(n, user)));
    h := Next(g, policy, Accept(Sample(n, user)));
  }

  /** More and more connections are accepted and hang up while the loop is at its removal. */
  lemma {:induction false} Crowd(policy: int, g: Gw, from: nat, n: nat) returns (h: Gw)
    requires Leads(policy, INITIAL, g) && FirstSamples(g, from) && from >= 2
    ensures Leads(policy, INITIAL, h) && FirstSamples(h, from + n) && h.loop == g.loop
    ensures |h.core.unregisters| == |g.core.unregisters| + n && |h.registers| == |g.registers| + n
    ensures forall c :: c in h.core.closed ==> c in g.core.closed || c.conn >= from
  {
    h := g;
    if n > 0 {
      h := Crowd(policy, g, from, n - 1);
      h := AcceptSample(policy, h, from + n - 1, "v");
      LeadsLast(policy, INITIAL, h, Hangup(Sample(from + n - 1, "v")));
      h := Next(h, policy, Hangup(Sample(from + n - 1, "v")));
    }
  }

  /** One connection is registered. */
  lemma OneRegistered(policy: int) returns (g: Gw)
    ensures Leads(policy, INITIAL, g) && FirstSamples(g, 1) && g.loop.Idle? && g.registers == []
    ensures g.core.users.data.Keys == {"u"} && g.core.users.data["u"].clients == [Sample(0, "u")]
    ensures g.core.closed == {} && g.core.unregisters == []
  {
    var c := Sample(0, "u");
    LeadsNowhere(policy, INITIAL);
    g := AcceptSample(policy, INITIAL, 0, "u");
    LeadsLast(policy, INITIAL, g, TakeRegister);
    g := Next(g, policy, TakeRegister);
    LeadsLast(policy, INITIAL, g, LoopStore(0));
    assert [] + [c] == [c];
    g := Next(g, policy, LoopStore(0));
  }

  /** A newcomer is to replace it. */
  lemma NewcomerRemoves(policy: int, g: Gw) returns (h: Gw)
    requires policy == SAME_TERMINAL_KICK && Leads(policy, INITIAL, g) && FirstSamples(g, 1) && g.loop.Idle? && g.registers == []
    requires g.core.users.data.Keys == {"u"} && g.core.users.data["u"].clients == [Sample(0, "u")]
    ensures Leads(policy, INITIAL, h) && FirstSamples(h, 2) && h.core == g.core && h.registers == []
    ensures h.loop == Remove(NewClient(Sample(1, "u")), [Sample(0, "u")])
  {
    var a, d := Sample(0, "u"), Sample(1, "u");
    h := AcceptSample(policy, g, 1, "u");
    LeadsLast(policy, INITIAL, h, TakeRegister);
    assert [a][..0] == [] && OnPlatform([a], d.platform) == [a];
    h := Next(h, policy, TakeRegister);
    LeadsLast(policy, INITIAL, h, LoopCheck);
    h := Next(h, policy, LoopCheck);
  }

  lemma SamplesOwnAddrs(g: Gw, n: nat)
    requires FirstSamples(g, n)
    ensures LoginRace.OwnAddrs(g)
  {
    assert forall c :: c in g.accepted ==> |c.addr| == c.conn;
  }

  /** With distinct addresses and no more than CAPACITY entries in either channel: a newcomer replaces a
      connection under policy 1 while CAPACITY others have hung up, and the loop never gets past the
      removal. */
  lemma LoopGetsStuck() returns (g: Gw)
    ensures Leads(SAME_TERMINAL_KICK, INITIAL, g) && LoginRace.OwnAddrs(g)
    ensures |g.core.unregisters| == CAPACITY == |g.registers| && Removing(g) && !CanFinish(SAME_TERMINAL_KICK, g)
  {
    var one := OneRegistered(SAME_TERMINAL_KICK);
    var two := NewcomerRemoves(SAME_TERMINAL_KICK, one);
    var n: nat := CAPACITY;
    g := Crowd(SAME_TERMINAL_KICK, two, 2, n);
    SamplesOwnAddrs(g, 2 + n);
    FullJams(g, Sample(0, "u"));
    StuckExactly(SAME_TERMINAL_KICK, g);
  }

  lemma FullJams(g: Gw, a: Client)
    requires Removing(g) && Left(g) == [a] && a !in g.core.closed && |g.core.unregisters| >= CAPACITY
    ensures Jammed(g)
  {
    assert a in Left(g);
    assert Open(g) == {a};
  }
}
