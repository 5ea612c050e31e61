/** Renewal against expiry (internal/msggateway/online.go:25-27, 121-125 and
    internal/msggateway/user_map.go:84-93, 167-183): with ticks at exact multiples of a third
    of the expiry, no user that stays connected is silent for two thirds of it, even when the
    state queue is full and drops records. A report is a record accepted by the queue or
    taken into a renewal snapshot. */
module Renewal {
  import opened Common
  import opened Presence

  /** A third of the expiry, rounded down. */
  function Period(expire: int): int
  {
    expire / 3
  }

  /** `ticks` counts the renewal ticks processed; tick number k happens at k periods. */
  datatype Timed = Timed(users: MapState, now: int, ticks: nat)

  datatype Event =
    | Connect(at: int, c: Client)
    | Remove(at: int, user: UserID, victims: seq<Client>)
    | Correct(at: int, user: UserID, platforms: seq<int>)
    | Drain(at: int)
    | Tick

  /** Ideal ticks: nothing else happens at or after the next tick's time before the tick. */
  predicate Enabled(s: Timed, period: int, e: Event)
  {
    match e
    case Tick => true
    case Drain(at) => s.now <= at < (s.ticks + 1) * period && s.users.ch != []
    case _ => s.now <= e.at < (s.ticks + 1) * period
  }

  function Next(s: Timed, period: int, e: Event): Timed
    requires Enabled(s, period, e)
  {
    match e
    case Connect(at, c) => Timed(Set(s.users, c, at), at, s.ticks)
    case Remove(at, user, victims) => Timed(Delete(s.users, user, victims, at), at, s.ticks)
    case Correct(at, user, platforms) => Timed(Recv(s.users, user, platforms, at), at, s.ticks)
    case Drain(at) => Timed(s.users.(ch := s.users.ch[1..]), at, s.ticks)
    case Tick =>
      var now := (s.ticks + 1) * period;
      Timed(Renewed(s.users, now - period, now), now, s.ticks + 1)
  }

  /** The step reports the user: its record enters the queue or the renewal snapshot. */
  predicate Reports(s: Timed, period: int, e: Event, user: UserID)
  {
    match e
    case Connect(_, c) => c.user == user && Accepts(s.users)
    case Remove(_, u, victims) => u == user && DeleteActs(s.users, u, victims) && Accepts(s.users)
    case Correct(_, u, platforms) => u == user && Outdated(s.users, u, platforms) && Accepts(s.users)
    case Drain(_) => false
    case Tick => user in s.users.data && Due(s.users.data[user], s.ticks * period)
  }

  ghost predicate IsRun(period: int, run: seq<Timed>, events: seq<Event>)
  {
    && |run| == |events| + 1 && run[0] == Timed(MapState(map[], []), 0, 0)
    && forall i :: 0 <= i < |events| ==>
         Enabled(run[i], period, events[i]) && run[i + 1] == Next(run[i], period, events[i])
  }

  /** Every stamp is later than one period before the last tick, and the next tick is ahead. */
  ghost predicate Inv(s: Timed, period: int)
  {
    && s.ticks * period <= s.now < (s.ticks + 1) * period
    && forall u :: u in s.users.data && s.users.data[u].time.At? ==>
         (s.ticks - 1) * period < s.users.data[u].time.t <= s.now
  }

  lemma StepKeeps(s: Timed, period: int, e: Event)
    requires period > 0 && Inv(s, period) && Enabled(s, period, e)
    ensures Inv(Next(s, period, e), period)
  {
    assert (s.ticks - 1) * period == s.ticks * period - period;
    assert (s.ticks + 1) * period == s.ticks * period + period;
    assert (s.ticks + 2) * period == s.ticks * period + 2 * period;
  }

  lemma {:induction false} RunKeeps(period: int, run: seq<Timed>, events: seq<Event>, k: nat)
    requires period > 0 && IsRun(period, run, events) && k < |run|
    ensures Inv(run[k], period)
  {
    if k == 0 {
      assert (0 - 1) * period == -period;
    } else {
      RunKeeps(period, run, events, k - 1);
      StepKeeps(run[k - 1], period, events[k - 1]);
    }
  }

  /** The stamp of a connected user is the time of its last report. */
  lemma StampFollowsReports(s: Timed, period: int, e: Event, user: UserID)
    requires Enabled(s, period, e)
    requires user in s.users.data || Reports(s, period, e, user)
    requires user in Next(s, period, e).users.data
    ensures Next(s, period, e).users.data[user].time
            == if Reports(s, period, e, user) then At(Next(s, period, e).now) else s.users.data[user].time
  {
    assert (s.ticks + 1) * period - period == s.ticks * period;
  }

  ghost predicate StaysSilent(period: int, run: seq<Timed>, events: seq<Event>, user: UserID, i: nat, j: nat)
    requires |run| == |events| + 1 && i <= j < |run|
  {
    && (forall k :: i <= k <= j ==> user in run[k].users.data)
    && (forall k :: i <= k < j ==> !Reports(run[k], period, events[k], user))
  }

  lemma {:induction false} SilenceKeepsStamp(period: int, run: seq<Timed>, events: seq<Event>, user: UserID, i: nat, j: nat)
    requires IsRun(period, run, events) && i <= j < |run| && StaysSilent(period, run, events, user, i, j)
    ensures run[j].users.data[user].time == run[i].users.data[user].time
  {
    if i < j {
      SilenceKeepsStamp(period, run, events, user, i, j - 1);
      assert run[j - 1 + 1] == Next(run[j - 1], period, events[j - 1]);
      StampFollowsReports(run[j - 1], period, events[j - 1], user);
    }
  }

  /** A user reported in step i that stays and is silent through state j has been silent for
      less than two periods; this holds at the instant of the next step, whatever it is, so the
      next report comes within two thirds of the expiry. */
  lemma ReportedAgainBeforeExpiry(expire: int, run: seq<Timed>, events: seq<Event>, user: UserID, i: nat, j: nat)
    requires expire >= 3 && IsRun(Period(expire), run, events) && 1 <= i <= j < |events|
    requires Reports(run[i - 1], Period(expire), events[i - 1], user)
    requires StaysSilent(Period(expire), run, events, user, i, j)
    ensures 3 * (run[j + 1].now - run[i].now) < 2 * expire
    ensures run[j + 1].now < run[i].now + expire
  {
    var period := Period(expire);
    RunKeeps(period, run, events, j);
    assert run[i - 1 + 1] == Next(run[i - 1], period, events[i - 1]);
    StampFollowsReports(run[i - 1], period, events[i - 1], user);
    SilenceKeepsStamp(period, run, events, user, i, j);
    var s := run[j];
    assert (s.ticks - 1) * period == (s.ticks + 1) * period - 2 * period;
    assert run[j + 1].now <= (s.ticks + 1) * period;
  }

  /** A user whose first record was dropped by a full queue is reported at the very next tick. */
  lemma UnreportedUserIsDue(expire: int, run: seq<Timed>, events: seq<Event>, user: UserID, i: nat, j: nat)
    requires expire >= 3 && IsRun(Period(expire), run, events) && i <= j < |events|
    requires user in run[i].users.data && run[i].users.data[user].time.Never?
    requires StaysSilent(Period(expire), run, events, user, i, j)
    ensures events[j].Tick? ==> Reports(run[j], Period(expire), events[j], user)
    ensures run[j].ticks == run[i].ticks && 3 * (run[j + 1].now - run[i].now) <= expire
  {
    var period := Period(expire);
    SilenceKeepsStamp(period, run, events, user, i, j);
    NoTickInSilence(period, run, events, user, i, j);
    RunKeeps(period, run, events, i);
    RunKeeps(period, run, events, j);
    assert (run[i].ticks + 1) * period == run[i].ticks * period + period;
    assert run[j + 1].now <= (run[j].ticks + 1) * period;
  }

  lemma {:induction false} NoTickInSilence(period: int, run: seq<Timed>, events: seq<Event>, user: UserID, i: nat, j: nat)
    requires IsRun(period, run, events) && i <= j < |run| && StaysSilent(period, run, events, user, i, j)
    requires run[i].users.data[user].time.Never?
    ensures run[j].ticks == run[i].ticks
  {
    if i < j {
      NoTickInSilence(period, run, events, user, i, j - 1);
      SilenceKeepsStamp(period, run, events, user, i, j - 1);
    }
  }
}
