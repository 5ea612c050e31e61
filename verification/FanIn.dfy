/** The fan-in of one batch push (internal/msggateway/hub_server.go:199-248): a counter preset to
    the number of requests, a channel with one place per request, workers that send and then
    count down, and a collector that stops at the close or at cancellation. The schedule is
    arbitrary; `ok[i]` says whether queueing request i succeeded. */
module FanIn {
  import opened Common

  datatype Main =
    | Pushing(i: nat)
    | FailCount(i: nat)
    | FailSend(i: nat)
    | Collecting
    | Returned(complete: bool)

  /** `chan` and `got` hold request numbers: results in the channel and results received. */
  datatype Fan = Fan(main: Main, queued: set<nat>, sent: set<nat>, counted: set<nat>,
                     count: int, closes: nat, chan: seq<nat>, got: seq<nat>, panicked: bool)

  datatype Event =
    | Push
    | CountFailed
    | SendFailed
    | TaskSend(j: nat)
    | TaskCount(j: nat)
    | Receive
    | Finish
    | Cancel

  function Start(n: nat): Fan
  {
    Fan(Pushing(0), {}, {}, {}, n, 0, [], [], false)
  }

  function After(n: nat, i: nat): Main
  {
    if i + 1 < n then Pushing(i + 1) else Collecting
  }

  predicate WantsToSend(f: Fan, e: Event)
  {
    match e
    case SendFailed => f.main.FailSend?
    case TaskSend(j) => j in f.queued && j !in f.sent
    case _ => false
  }

  /** A send on an open full channel waits; a send on a closed channel panics. */
  predicate Blocked(n: nat, f: Fan)
  {
    |f.chan| >= n && f.closes == 0
  }

  predicate Enabled(n: nat, f: Fan, e: Event)
  {
    !f.panicked &&
    match e
    case Push => f.main.Pushing? && f.main.i < n
    case CountFailed => f.main.FailCount?
    case SendFailed => WantsToSend(f, e) && !Blocked(n, f)
    case TaskSend(j) => WantsToSend(f, e) && !Blocked(n, f)
    case TaskCount(j) => j in f.queued && j in f.sent && j !in f.counted
    case Receive => f.main.Collecting? && f.chan != []
    case Finish => f.main.Collecting? && f.chan == [] && f.closes > 0
    case Cancel => f.main.Collecting?
  }

  function Send(f: Fan, j: nat): Fan
  {
    if f.closes > 0 then f.(panicked := true)
    else f.(chan := f.chan + [j], sent := f.sent + {j})
  }

  function CountDown(f: Fan, j: nat): Fan
  {
    f.(counted := f.counted + {j}, count := f.count - 1, closes := f.closes + if f.count == 1 then 1 else 0)
  }

  function Next(ok: seq<bool>, f: Fan, e: Event): Fan
    requires Enabled(|ok|, f, e)
  {
    match e
    case Push =>
      if ok[f.main.i] then f.(queued := f.queued + {f.main.i}, main := After(|ok|, f.main.i))
      else f.(main := FailCount(f.main.i))
    case CountFailed => CountDown(f, f.main.i).(main := FailSend(f.main.i))
    case SendFailed => Send(f, f.main.i).(main := After(|ok|, f.main.i))
    case TaskSend(j) => Send(f, j)
    case TaskCount(j) => CountDown(f, j)
    case Receive => f.(chan := f.chan[1..], got := f.got + [f.chan[0]])
    case Finish => f.(main := Returned(true))
    case Cancel => f.(main := Returned(false))
  }

  ghost predicate IsRun(ok: seq<bool>, run: seq<Fan>, events: seq<Event>)
  {
    && ok != [] && |run| == |events| + 1 && run[0] == Start(|ok|)
    && forall k {:trigger events[k]} :: 0 <= k < |events| ==> Enabled(|ok|, run[k], events[k]) && run[k + 1] == Next(ok, run[k], events[k])
  }

  // ---- The invariant -----------------------------------------------------------------------------

  function Range(n: nat): (r: set<nat>)
    ensures |r| == n && forall j: nat :: j in r <==> j < n
  {
    if n == 0 then {} else Range(n - 1) + {n - 1}
  }

  /** How many requests the pushing loop has finished with. */
  function Pushed(n: nat, main: Main): nat
  {
    match main
    case Pushing(i) => i
    case FailCount(i) => i
    case FailSend(i) => i
    case _ => n
  }

  ghost predicate Inv(ok: seq<bool>, f: Fan)
  {
    var n := |ok|;
    && n > 0 && (f.main.Pushing? || f.main.FailCount? || f.main.FailSend? ==> f.main.i < n)
    && (f.main.FailCount? || f.main.FailSend? ==> !ok[f.main.i])
    && (forall j :: j in f.queued ==> j < Pushed(n, f.main) && ok[j])
    && (forall j :: 0 <= j < Pushed(n, f.main) && !ok[j] ==> j in f.sent && j in f.counted)
    && (forall j :: j in f.sent ==> j < Pushed(n, f.main))
    && (forall j :: j in f.counted ==> j in f.sent || (f.main.FailSend? && j == f.main.i))
    && (f.main.FailSend? ==> f.main.i in f.counted)
    && f.count == n - |f.counted|
    && f.closes == (if |f.counted| == n then 1 else 0)
    && NoDup(f.got + f.chan) && (forall j :: j in f.got + f.chan <==> j in f.sent)
    && (f.main.Returned? && f.main.complete ==> f.chan == [] && f.closes == 1)
  }

  lemma SubsetCard(a: set<nat>, b: set<nat>)
    requires a <= b
    ensures |a| <= |b| && (|a| == |b| ==> a == b)
  {
    assert b == a + (b - a) && a !! (b - a);
  }

  lemma {:induction false} NoDupCard(s: seq<nat>, elems: set<nat>)
    requires NoDup(s) && forall j :: j in s <==> j in elems
    ensures |s| == |elems|
  {
    if s == [] {
      assert elems == {};
    } else {
      var front, last := s[..|s| - 1], s[|s| - 1];
      assert s == front + [last];
      NoDupCard(front, elems - {last});
    }
  }

  /** Everything counted is below n; the channel is closed only when all n are counted. */
  lemma CountedInRange(ok: seq<bool>, f: Fan)
    requires Inv(ok, f)
    ensures f.counted <= Range(|ok|) && |f.counted| <= |ok|
    ensures f.closes == 1 <==> f.counted == Range(|ok|)
  {
    SubsetCard(f.counted, Range(|ok|));
  }

  /** A pending send always finds a free place. */
  lemma RoomToSend(ok: seq<bool>, f: Fan, e: Event)
    requires Inv(ok, f) && WantsToSend(f, e)
    ensures |f.chan| < |ok|
  {
    var j := if e.TaskSend? then e.j else f.main.i;
    NoDupCard(f.got + f.chan, f.sent);
    assert f.sent <= Range(|ok|) - {j} && Range(|ok|) == Range(|ok|) - {j} + {j};
    SubsetCard(f.sent, Range(|ok|) - {j});
  }

  /** A send meets a closed channel only in the failing branch of the last request. */
  lemma OnlyLastFailureMeetsClose(ok: seq<bool>, f: Fan, e: Event)
    requires Inv(ok, f) && WantsToSend(f, e) && f.closes > 0
    ensures e.SendFailed? && f.main.i == |ok| - 1 && !ok[|ok| - 1]
  {
    CountedInRange(ok, f);
    var j := if e.TaskSend? then e.j else f.main.i;
    assert j in f.counted && |ok| - 1 in f.counted;
  }

  lemma CountDownKeeps(ok: seq<bool>, f: Fan, j: nat)
    requires Inv(ok, f) && j < |ok| && j !in f.counted
    ensures |f.counted + {j}| == |f.counted| + 1 <= |ok|
    ensures f.closes == 0
  {
    CountedInRange(ok, f);
    SubsetCard(f.counted + {j}, Range(|ok|));
  }

  lemma SendKeeps(ok: seq<bool>, f: Fan, e: Event)
    requires Inv(ok, f) && Enabled(|ok|, f, e) && WantsToSend(f, e) && f.closes == 0
    ensures Inv(ok, Next(ok, f, e))
  {
    var j := if e.TaskSend? then e.j else f.main.i;
    assert j !in f.sent;
    assert f.got + (f.chan + [j]) == f.got + f.chan + [j];
  }

  lemma ReceiveKeeps(ok: seq<bool>, f: Fan)
    requires Inv(ok, f) && Enabled(|ok|, f, Receive)
    ensures Inv(ok, Next(ok, f, Receive))
  {
    assert f.got + [f.chan[0]] + f.chan[1..] == f.got + f.chan;
  }

  lemma CountKeeps(ok: seq<bool>, f: Fan, e: Event)
    requires Inv(ok, f) && Enabled(|ok|, f, e) && (e.CountFailed? || e.TaskCount?)
    ensures Inv(ok, Next(ok, f, e))
  {
    CountDownKeeps(ok, f, if e.TaskCount? then e.j else f.main.i);
  }

  lemma StepKeeps(ok: seq<bool>, f: Fan, e: Event)
    requires Inv(ok, f) && Enabled(|ok|, f, e) && (WantsToSend(f, e) ==> f.closes == 0)
    ensures Inv(ok, Next(ok, f, e))
  {
    match e
    case CountFailed => CountKeeps(ok, f, e);
    case TaskCount(_) => CountKeeps(ok, f, e);
    case SendFailed => SendKeeps(ok, f, e);
    case TaskSend(_) => SendKeeps(ok, f, e);
    case Receive => ReceiveKeeps(ok, f);
    case _ =>
  }

  /** A step that meets no closed channel keeps the invariant. */
  lemma StepWithoutPanicKeeps(ok: seq<bool>, f: Fan, e: Event)
    requires Inv(ok, f) && Enabled(|ok|, f, e) && !Next(ok, f, e).panicked
    ensures Inv(ok, Next(ok, f, e))
  {
    StepKeeps(ok, f, e);
  }

  lemma StartKeeps(ok: seq<bool>)
    requires ok != []
    ensures Inv(ok, Start(|ok|))
  {
    assert Start(|ok|).got + Start(|ok|).chan == [];
  }

  lemma {:induction false} RunKeeps(ok: seq<bool>, run: seq<Fan>, events: seq<Event>, k: nat)
    requires IsRun(ok, run, events) && k < |run| && !run[k].panicked
    ensures Inv(ok, run[k])
  {
    if k == 0 {
      StartKeeps(ok);
    } else {
      assert run[k - 1 + 1] == Next(ok, run[k - 1], events[k - 1]);
      RunKeeps(ok, run, events, k - 1);
      StepWithoutPanicKeeps(ok, run[k - 1], events[k - 1]);
    }
  }

  // ---- Sending and closing --------------------------------------------------------------------------

  /** In every schedule no send ever waits for room. */
  lemma NoSendBlocks(ok: seq<bool>, run: seq<Fan>, events: seq<Event>, k: nat, e: Event)
    requires IsRun(ok, run, events) && k < |run| && !run[k].panicked && WantsToSend(run[k], e)
    ensures !Blocked(|ok|, run[k])
  {
    RunKeeps(ok, run, events, k);
    RoomToSend(ok, run[k], e);
  }

  /** The channel is closed at most once; once closed, every request's result is sent, except that
      of a failing branch still at its send. */
  lemma ClosedOnceAfterLastSend(ok: seq<bool>, run: seq<Fan>, events: seq<Event>, k: nat)
    requires IsRun(ok, run, events) && k < |run| && !run[k].panicked
    ensures run[k].closes <= 1
    ensures run[k].closes == 1 && !run[k].main.FailSend? ==> run[k].sent == Range(|ok|)
  {
    RunKeeps(ok, run, events, k);
    CountedInRange(ok, run[k]);
    if run[k].closes == 1 && !run[k].main.FailSend? {
      assert forall j :: j in Range(|ok|) ==> j in run[k].counted;
    }
  }

  lemma {:induction false} NoPanic(ok: seq<bool>, run: seq<Fan>, events: seq<Event>, k: nat)
    requires IsRun(ok, run, events) && k < |run| && ok[|ok| - 1]
    ensures !run[k].panicked
  {
    if k > 0 {
      assert run[k - 1 + 1] == Next(ok, run[k - 1], events[k - 1]);
      NoPanic(ok, run, events, k - 1);
      RunKeeps(ok, run, events, k - 1);
      if WantsToSend(run[k - 1], events[k - 1]) && run[k - 1].closes > 0 {
        OnlyLastFailureMeetsClose(ok, run[k - 1], events[k - 1]);
      }
    }
  }

  ghost predicate Reaches(ok: seq<bool>, f: Fan)
  {
    exists run, events :: IsRun(ok, run, events) && run[|events|] == f
  }

  lemma Extend(ok: seq<bool>, f: Fan, e: Event)
    requires Reaches(ok, f) && Enabled(|ok|, f, e)
    ensures Reaches(ok, Next(ok, f, e))
  {
    var run, events :| IsRun(ok, run, events) && run[|events|] == f;
    var run', events' := run + [Next(ok, f, e)], events + [e];
    assert IsRun(ok, run', events') && run'[|events'|] == Next(ok, f, e);
  }

  ghost predicate Handled(n: nat, f: Fan, i: nat)
  {
    && f.main == Pushing(i) && f.sent == Range(i) && f.counted == Range(i) && f.queued <= Range(i)
    && f.count == n - i && f.closes == 0 && |f.chan| == i && !f.panicked
  }

  /** One schedule: each request but the last is sent and counted before the next is queued. */
  lemma {:induction false} HandleOneByOne(ok: seq<bool>, i: nat) returns (f: Fan)
    requires i < |ok|
    ensures Reaches(ok, f) && Handled(|ok|, f, i)
  {
    if i == 0 {
      f := Start(|ok|);
      var none: seq<Event> := [];
      assert IsRun(ok, [f], none) && [f][|none|] == f;
    } else {
      f := HandleOneByOne(ok, i - 1);
      var events := if ok[i - 1] then [Push, TaskSend(i - 1), TaskCount(i - 1)] else [Push, CountFailed, SendFailed];
      Extend(ok, f, events[0]);
      f := Next(ok, f, events[0]);
      Extend(ok, f, events[1]);
      f := Next(ok, f, events[1]);
      Extend(ok, f, events[2]);
      f := Next(ok, f, events[2]);
    }
  }

  /** Whether some schedule sends on the closed channel depends only on the last request: none
      does if its queueing succeeds, and one does if it fails, whatever happened to the others. */
  lemma PanicsOnlyIfLastFails(ok: seq<bool>)
    requires ok != []
    ensures (exists f :: Reaches(ok, f) && f.panicked) <==> !ok[|ok| - 1]
  {
    if ok[|ok| - 1] {
      forall f | Reaches(ok, f) ensures !f.panicked {
        var run, events :| IsRun(ok, run, events) && run[|events|] == f;
        NoPanic(ok, run, events, |events|);
      }
    } else {
      var f := HandleOneByOne(ok, |ok| - 1);
      Extend(ok, f, Push);
      f := Next(ok, f, Push);
      Extend(ok, f, CountFailed);
      f := Next(ok, f, CountFailed);
      Extend(ok, f, SendFailed);
      assert Next(ok, f, SendFailed).panicked;
    }
  }

  // ---- Results ----------------------------------------------------------------------------------------

  ghost predicate Within(n: nat, got: seq<nat>)
  {
    forall k :: 0 <= k < |got| ==> got[k] < n
  }

  /** Taking the largest number out of a listing of all numbers up to it. */
  lemma WithoutLargest(n: nat, got: seq<nat>, k: nat)
    requires NoDup(got) && Within(n + 1, got) && (forall j: nat :: j <= n ==> j in got)
    requires k < |got| && got[k] == n
    ensures var rest := got[..k] + got[k + 1..];
            NoDup(rest) && Within(n, rest) && forall j: nat :: j < n ==> j in rest
  {
    var rest := got[..k] + got[k + 1..];
    forall j: nat | j < n ensures j in rest {
      assert j in got;
      var m: nat :| m < |got| && got[m] == j;
      assert rest[if m < k then m else m - 1] == j;
    }
  }

  lemma InsertedUser(us: seq<UserID>, vs: seq<UserID>, k: nat, u: UserID)
    requires k <= |us| && |vs| == |us| + 1 && vs[k] == u
    requires forall i :: 0 <= i < k ==> vs[i] == us[i]
    requires forall i :: k <= i < |us| ==> vs[i + 1] == us[i]
    ensures multiset(vs) == multiset(us) + multiset{u}
  {
    assert vs == us[..k] + [u] + us[k..];
    assert us == us[..k] + us[k..];
  }

  /** A listing of all request numbers without repetition names every requested user as often as
      it was requested. */
  lemma {:induction false} ListingIsRequest(req: seq<UserID>, got: seq<nat>)
    requires NoDup(got) && Within(|req|, got) && forall j: nat :: j < |req| ==> j in got
    ensures multiset(Pick(req, got)) == multiset(req)
  {
    if req != [] {
      var n := |req| - 1;
      assert n in got;
      var k: nat :| k < |got| && got[k] == n;
      var rest, front := got[..k] + got[k + 1..], req[..n];
      WithoutLargest(n, got, k);
      ListingIsRequest(front, rest);
      InsertedUser(Pick(front, rest), Pick(req, got), k, req[n]);
      assert req == front + [req[n]];
    }
  }

  /** A normal return answers for exactly the requested users, with multiplicity. */
  lemma CompleteAnswer(req: seq<UserID>, ok: seq<bool>, run: seq<Fan>, events: seq<Event>, k: nat)
    requires |ok| == |req| && IsRun(ok, run, events) && k < |run| && !run[k].panicked
    requires run[k].main.Returned? && run[k].main.complete
    ensures Within(|req|, run[k].got)
    ensures multiset(Pick(req, run[k].got)) == multiset(req)
  {
    RunKeeps(ok, run, events, k);
    ClosedOnceAfterLastSend(ok, run, events, k);
    assert run[k].got + run[k].chan == run[k].got;
    assert forall i :: 0 <= i < |run[k].got| ==> run[k].got[i] in run[k].got;
    ListingIsRequest(req, run[k].got);
  }

  datatype Result = Result(user: UserID, onlinePush: bool)

  function Answered(results: seq<Result>): set<UserID>
  {
    set r | r in results :: r.user
  }

  /** The answer on cancellation: what was received, then one failed result for each requested user
      without one, in any order. */
  ghost predicate IsCancelAnswer(req: seq<UserID>, received: seq<Result>, answer: seq<Result>)
  {
    && |answer| >= |received| && answer[..|received|] == received
    && (forall u :: u in req ==> u in Answered(answer))
    && (forall i :: |received| <= i < |answer| ==>
          answer[i].user in req && answer[i].user !in Answered(received) && !answer[i].onlinePush)
    && (forall i, j :: |received| <= i < j < |answer| ==> answer[i].user != answer[j].user)
  }

  /** The collector's answer on cancellation. */
  method AnswerOnCancel(req: seq<UserID>, received: seq<Result>) returns (answer: seq<Result>)
    ensures IsCancelAnswer(req, received, answer)
  {
    var missing: set<UserID> := {};
    for i := 0 to |req|
      invariant forall u :: u in missing <==> u in req[..i]
    {
      missing := missing + {req[i]};
    }
    for i := 0 to |received|
      invariant forall u :: u in missing <==> u in req && u !in Answered(received[..i])
    {
      missing := missing - {received[i].user};
      assert received[..i + 1] == received[..i] + [received[i]];
    }
    answer := received;
    ghost var all := missing;
    assert received[..|received|] == received;
    while missing != {}
      invariant missing <= all
      invariant |answer| >= |received| && answer[..|received|] == received
      invariant forall u :: u in all ==> u in missing || u in Answered(answer)
      invariant forall u :: u in Answered(received) ==> u in Answered(answer)
      invariant forall i :: |received| <= i < |answer| ==>
                  answer[i].user in all && answer[i].user !in missing && !answer[i].onlinePush
      invariant forall i, j :: |received| <= i < j < |answer| ==> answer[i].user != answer[j].user
    {
      var u :| u in missing;
      missing := missing - {u};
      ghost var before := answer;
      answer := answer + [Result(u, false)];
      assert answer[|answer| - 1] in answer;
      assert forall r :: r in before ==> r in answer;
    }
  }

  /** The results received so far are those of the requests in `got`. */
  ghost predicate AreResults(req: seq<UserID>, got: seq<nat>, received: seq<Result>)
  {
    |received| == |got| && forall i :: 0 <= i < |got| && got[i] < |req| ==> received[i].user == req[got[i]]
  }

  /** What the collector has received so far is for distinct requests. */
  lemma ReceivedDistinct(req: seq<UserID>, ok: seq<bool>, run: seq<Fan>, events: seq<Event>, k: nat)
    requires |ok| == |req| && IsRun(ok, run, events) && k < |run| && !run[k].panicked
    ensures Within(|req|, run[k].got) && NoDup(run[k].got)
  {
    RunKeeps(ok, run, events, k);
    var got, all := run[k].got, run[k].got + run[k].chan;
    forall i | 0 <= i < |got| ensures got[i] < |req| { assert all[i] == got[i] && all[i] in all; }
    forall i, j | 0 <= i < j < |got| ensures got[i] != got[j] { assert all[i] == got[i] && all[j] == got[j]; }
  }

  /** In every run that returns on cancellation, at whatever point of the protocol: the answer names
      every requested user and nobody else, and each exactly once if the request names no user twice. */
  lemma CancelledRunAnswersAll(req: seq<UserID>, ok: seq<bool>, run: seq<Fan>, events: seq<Event>, k: nat,
                               received: seq<Result>, answer: seq<Result>)
    requires |ok| == |req| && IsRun(ok, run, events) && k < |run| && !run[k].panicked
    requires run[k].main.Returned? && !run[k].main.complete
    requires AreResults(req, run[k].got, received) && IsCancelAnswer(req, received, answer)
    ensures forall u :: u in req <==> u in Answered(answer)
    ensures (forall i, j :: 0 <= i < j < |req| ==> req[i] != req[j]) ==>
              forall i, j :: 0 <= i < j < |answer| ==> answer[i].user != answer[j].user
  {
    ReceivedDistinct(req, ok, run, events, k);
    assert forall i :: 0 <= i < |received| ==> answer[i] == received[i];
    if forall i, j :: 0 <= i < j < |req| ==> req[i] != req[j] {
      forall i, j | 0 <= i < j < |answer| ensures answer[i].user != answer[j].user {
        if i < |received| <= j { assert received[i] in received; }
      }
    }
  }
}
