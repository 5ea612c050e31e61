/** The reporter's buffers and request channels as objects (internal/msggateway/online.go:35-83):
    pushUserState and pushAllUserState, proved against module StatusShards. */
module StatusReporter {
  import opened Common
  import opened Presence
  import opened StatusShards

  class Reporter {
    const hash: UserID -> nat
    const changeStatus: array<Batch>
    const requestChs: array<seq<Batch>>
    ghost var offered: seq<seq<Offer>>
    ghost var taken: seq<seq<Batch>>

    ghost predicate Valid()
      reads this
    {
      && changeStatus.Length == requestChs.Length == |offered| == |taken| >= 1
      && (changeStatus as object) != (requestChs as object)
    }

    ghost function View(): (shards: seq<Shard>)
      requires Valid()
      reads this, changeStatus, requestChs
      ensures |shards| >= 1
    {
      seq(changeStatus.Length, i requires 0 <= i < changeStatus.Length reads this, changeStatus, requestChs requires Valid() =>
        Shard(changeStatus[i], requestChs[i], offered[i], taken[i]))
    }

    constructor (concurrent: int, hash: UserID -> nat)
      ensures Valid() && fresh(changeStatus) && fresh(requestChs) && this.hash == hash
      ensures View() == seq(Concurrency(concurrent), _ => EMPTY)
    {
      this.hash := hash;
      var n := Concurrency(concurrent);
      changeStatus := new Batch[n](_ => []);
      requestChs := new seq<Batch>[n](_ => []);
      offered := seq(n, _ => []);
      taken := seq(n, _ => []);
    }

    /** Hand the buffer over as one request; a full channel drops it. */
    method Offer(i: nat)
      requires Valid() && i < changeStatus.Length
      modifies this, changeStatus, requestChs
      ensures Valid() && View() == old(View())[i := HandOver(old(View())[i])]
    {
      var request := changeStatus[i];
      changeStatus[i] := [];
      offered := offered[i := offered[i] + [StatusShards.Offer(request, |requestChs[i]| < REQUESTS)]];
      if |requestChs[i]| < REQUESTS {
        requestChs[i] := requestChs[i] + [request];
      }
    }

    method PushOne(u: UserState)
      requires Valid()
      modifies this, changeStatus, requestChs
      ensures Valid() && View() == Route(old(View()), hash, u)
    {
      var i := ShardOf(hash, changeStatus.Length, u.user);
      changeStatus[i] := changeStatus[i] + [u];
      if |changeStatus[i]| == BATCH {
        Offer(i);
      }
    }

    method PushUserState(us: seq<UserState>)
      requires Valid()
      modifies this, changeStatus, requestChs
      ensures Valid() && View() == RouteAll(old(View()), hash, us)
    {
      for k := 0 to |us|
        invariant Valid() && View() == RouteAll(old(View()), hash, us[..k])
      {
        assert us[..k + 1][..k] == us[..k];
        PushOne(us[k]);
      }
      assert us[..|us|] == us;
    }

    method PushAllUserState()
      requires Valid()
      modifies this, changeStatus, requestChs
      ensures Valid() && View() == FlushAll(old(View()))
    {
      ghost var was := View();
      for i := 0 to changeStatus.Length
        invariant Valid() && View() == seq(|was|, k requires 0 <= k < |was| => if k < i then Flush(was[k]) else was[k])
      {
        if |changeStatus[i]| != 0 {
          Offer(i);
        }
      }
    }

    /** A worker receives its shard's first request, if there is one. */
    method TakeRequest(i: nat) returns (request: Batch, ok: bool)
      requires Valid() && i < changeStatus.Length
      modifies this, requestChs
      ensures Valid() && View() == old(View())[i := Take(old(View())[i])]
      ensures ok == (old(requestChs[i]) != []) && (ok ==> request == old(requestChs[i])[0])
    {
      ok, request := |requestChs[i]| > 0, [];
      if ok {
        request := requestChs[i][0];
        requestChs[i] := requestChs[i][1..];
        taken := taken[i := taken[i] + [request]];
      }
    }
  }
}
