/** The subscription index (internal/msggateway/subscription.go:63-151): each client keeps the set
    of users it subscribes to, and the server keeps for each user the clients subscribed to it.
    Sub and DelClient change the client's set under the client's lock and, later, the reverse index
    under the server's lock; other clients' operations may fall in between. */
module Subscriptions {
  import opened Common

  type Addr = string

  /** The reverse index: subscribers' addresses by user. */
  type Reverse = map<UserID, set<Addr>>

  datatype Pending = Pending(del: set<UserID>, add: set<UserID>)

  /** First phase of Sub: deletions, then additions, on the client's own set. */
  function Forward(subs: set<UserID>, adds: seq<UserID>, dels: seq<UserID>): set<UserID>
  {
    subs - Elems(dels) + Elems(adds)
  }

  /** What the first phase leaves for the second. */
  function Leftover(subs: set<UserID>, adds: seq<UserID>, dels: seq<UserID>): Pending
  {
    Pending(subs * Elems(dels) - Elems(adds), Elems(adds) - (subs - Elems(dels)))
  }

  function Subscribers(rev: Reverse, user: UserID): set<Addr>
  {
    if user in rev then rev[user] else {}
  }

  /** Second phase, first loop: the address leaves the entries; an emptied entry goes. */
  function RemoveAddr(rev: Reverse, addr: Addr, del: set<UserID>): Reverse
  {
    map u | u in rev && !(u in del && rev[u] - {addr} == {}) :: if u in del then rev[u] - {addr} else rev[u]
  }

  /** Second phase, second loop: the address enters the entries. */
  function AddAddr(rev: Reverse, addr: Addr, add: set<UserID>): Reverse
  {
    map u | u in rev.Keys + add :: if u in add then Subscribers(rev, u) + {addr} else rev[u]
  }

  function Commit(rev: Reverse, addr: Addr, p: Pending): Reverse
  {
    AddAddr(RemoveAddr(rev, addr, p.del), addr, p.add)
  }

  // ---- Interleaving --------------------------------------------------------------------------------

  /** `flight` holds the clients between their two phases. */
  datatype Index = Index(forward: map<Addr, set<UserID>>, reverse: Reverse, flight: map<Addr, Pending>)

  datatype Event =
    | BeginSub(addr: Addr, adds: seq<UserID>, dels: seq<UserID>)
    | BeginDel(addr: Addr)
    | Finish(addr: Addr)

  function Subs(s: Index, addr: Addr): set<UserID>
  {
    if addr in s.forward then s.forward[addr] else {}
  }

  /** One operation in flight per client. */
  predicate Enabled(s: Index, e: Event)
  {
    if e.Finish? then e.addr in s.flight else e.addr !in s.flight
  }

  function Next(s: Index, e: Event): Index
    requires Enabled(s, e)
  {
    match e
    case BeginSub(a, adds, dels) =>
      Index(s.forward[a := Forward(Subs(s, a), adds, dels)], s.reverse, s.flight[a := Leftover(Subs(s, a), adds, dels)])
    case BeginDel(a) =>
      Index(s.forward[a := {}], s.reverse, s.flight[a := Pending(Subs(s, a), {})])
    case Finish(a) =>
      Index(s.forward, Commit(s.reverse, a, s.flight[a]), s.flight - {a})
  }

  ghost predicate IsRun(run: seq<Index>, events: seq<Event>)
  {
    && |run| == |events| + 1 && run[0] == Index(map[], map[], map[])
    && forall i {:trigger events[i]} :: 0 <= i < |events| ==> Enabled(run[i], events[i]) && run[i + 1] == Next(run[i], events[i])
  }

  ghost predicate NoEmptyEntry(rev: Reverse)
  {
    forall u :: u in rev ==> rev[u] != {}
  }

  /** The client's pending sets applied to its part of the reverse index give its own set. */
  ghost predicate Reconciles(s: Index, addr: Addr)
  {
    var p := if addr in s.flight then s.flight[addr] else Pending({}, {});
    && p.del !! p.add
    && forall u :: u in Subs(s, addr) <==> (addr in Subscribers(s.reverse, u) && u !in p.del) || u in p.add
  }

  ghost predicate Inv(s: Index)
  {
    NoEmptyEntry(s.reverse) && forall a :: Reconciles(s, a)
  }

  /** A commit changes only its own client's part of the index. */
  lemma CommitPart(rev: Reverse, addr: Addr, p: Pending, a: Addr, u: UserID)
    ensures a in Subscribers(Commit(rev, addr, p), u)
            <==> if a == addr then (a in Subscribers(rev, u) && u !in p.del) || u in p.add
                 else a in Subscribers(rev, u)
  {
    var mid := RemoveAddr(rev, addr, p.del);
    assert Subscribers(mid, u) == Subscribers(rev, u) - (if u in p.del then {addr} else {});
  }

  lemma StepKeeps(s: Index, e: Event)
    requires Inv(s) && Enabled(s, e)
    ensures Inv(Next(s, e))
  {
    var t := Next(s, e);
    forall a ensures Reconciles(t, a) {
      assert Reconciles(s, a);
      if e.Finish? {
        forall u ensures a in Subscribers(t.reverse, u)
                         <==> if a == e.addr then (a in Subscribers(s.reverse, u) && u !in s.flight[a].del) || u in s.flight[a].add
                              else a in Subscribers(s.reverse, u)
        {
          CommitPart(s.reverse, e.addr, s.flight[e.addr], a, u);
        }
      }
    }
  }

  lemma {:induction false} RunKeeps(run: seq<Index>, events: seq<Event>, k: nat)
    requires IsRun(run, events) && k < |run|
    ensures Inv(run[k])
  {
    if k > 0 {
      assert run[k - 1 + 1] == Next(run[k - 1], events[k - 1]);
      RunKeeps(run, events, k - 1);
      StepKeeps(run[k - 1], events[k - 1]);
    }
  }

  /** In every interleaving, a client with no operation in flight is listed exactly under the users
      it subscribes to, whatever the other clients are in the middle of; and no entry is empty. */
  lemma IndexesAgreeAtRest(run: seq<Index>, events: seq<Event>, k: nat, addr: Addr, user: UserID)
    requires IsRun(run, events) && k < |run| && addr !in run[k].flight
    ensures addr in Subscribers(run[k].reverse, user) <==> user in Subs(run[k], addr)
    ensures user in run[k].reverse ==> run[k].reverse[user] != {}
  {
    RunKeeps(run, events, k);
    assert Reconciles(run[k], addr);
  }

  /** An ID both deleted and added in one call ends subscribed, in both indexes, even if other
      clients' steps fall between the two phases. */
  lemma AddedWins(run: seq<Index>, events: seq<Event>, i: nat, k: nat, user: UserID)
    requires IsRun(run, events) && i < k < |run| && events[i].BeginSub? && user in events[i].adds
    requires events[i].addr !in run[k].flight
    requires forall j :: i < j < k && events[j].addr == events[i].addr ==> events[j].Finish?
    ensures user in Subs(run[k], events[i].addr) && events[i].addr in Subscribers(run[k].reverse, user)
  {
    ForwardStays(run, events, i, k);
    IndexesAgreeAtRest(run, events, k, events[i].addr, user);
  }

  /** What one call does to both indexes, once its client is at rest again, whatever the other clients do
      in between: added users are subscribed, users deleted and not added are not, and for all others the
      subscription is what it was. */
  lemma SubIsExact(run: seq<Index>, events: seq<Event>, i: nat, k: nat, user: UserID)
    requires IsRun(run, events) && i < k < |run| && events[i].BeginSub? && events[i].addr !in run[k].flight
    requires forall j :: i < j < k && events[j].addr == events[i].addr ==> events[j].Finish?
    ensures var a, adds, dels := events[i].addr, events[i].adds, events[i].dels;
            && (a in Subscribers(run[k].reverse, user) <==> user in Subs(run[k], a))
            && (user in Subs(run[k], a) <==> user in adds || (user in Subs(run[i], a) && user !in dels))
  {
    ForwardStays(run, events, i, k);
    IndexesAgreeAtRest(run, events, k, events[i].addr, user);
  }

  /** After the removal of a client, at rest, it is subscribed to nobody and filed under nobody. */
  lemma DelIsExact(run: seq<Index>, events: seq<Event>, i: nat, k: nat, user: UserID)
    requires IsRun(run, events) && i < k < |run| && events[i].BeginDel? && events[i].addr !in run[k].flight
    requires forall j :: i < j < k && events[j].addr == events[i].addr ==> events[j].Finish?
    ensures user !in Subs(run[k], events[i].addr) && events[i].addr !in Subscribers(run[k].reverse, user)
  {
    ForwardStays(run, events, i, k);
    IndexesAgreeAtRest(run, events, k, events[i].addr, user);
  }

  lemma {:induction false} ForwardStays(run: seq<Index>, events: seq<Event>, i: nat, k: nat)
    requires IsRun(run, events) && i < k < |run|
    requires forall j :: i < j < k && events[j].addr == events[i].addr ==> events[j].Finish?
    ensures Subs(run[k], events[i].addr) == Subs(run[i + 1], events[i].addr)
  {
    if i + 1 < k {
      ForwardStays(run, events, i, k - 1);
      assert run[k - 1 + 1] == Next(run[k - 1], events[k - 1]);
    }
  }
}
