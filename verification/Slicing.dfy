/** The slicing loops: the stride loop of internal/push/onlinepusher.go:182-196, 284-298 and the
    counted loop of pkg/notification/msg.go:447-467, both proved to give the same chunks. */
module Slicing {
  import opened Common

  /** Consecutive chunks of k elements; the last may be shorter. */
  function Chunks<T>(s: seq<T>, k: nat): seq<seq<T>>
    requires k > 0
    decreases |s|
  {
    if s == [] then []
    else if |s| <= k then [s]
    else [s[..k]] + Chunks(s[k..], k)
  }

  /** The number of chunks, rounded up. */
  function CountFor(n: nat, k: nat): nat
    requires k > 0
  {
    (n + k - 1) / k
  }

  lemma QuotientBounds(n: nat, k: nat)
    requires k > 0
    ensures CountFor(n, k) * k >= n && (n > 0 ==> CountFor(n, k) > 0 && (CountFor(n, k) - 1) * k < n)
  {
    var c := CountFor(n, k);
    assert c * k <= n + k - 1 < c * k + k;
    assert (c - 1) * k == c * k - k;
  }

  lemma CountUnique(n: nat, k: nat, c: nat)
    requires k > 0 && n > 0 && c > 0 && (c - 1) * k < n <= c * k
    ensures c == CountFor(n, k)
  {
    QuotientBounds(n, k);
    var d := CountFor(n, k);
    assert (c - 1) * k == c * k - k && (d - 1) * k == d * k - k;
    if c < d { MulStep(c, d, k); } else if d < c { MulStep(d, c, k); }
  }

  lemma MulStep(c: nat, d: nat, k: nat)
    requires c < d
    ensures (c + 1) * k <= d * k
  {
    assert (d - (c + 1)) * k >= 0;
    assert d * k == (c + 1) * k + (d - (c + 1)) * k;
  }

  lemma CountStep(n: nat, k: nat)
    requires k > 0 && n > k
    ensures CountFor(n, k) == CountFor(n - k, k) + 1
  {
    var c := CountFor(n - k, k);
    QuotientBounds(n - k, k);
    assert (c - 1) * k == c * k - k && (c + 1) * k == c * k + k;
    CountUnique(n, k, c + 1);
  }

  /** The chunks concatenate to the input, none is empty or too long, only the last may be short,
      and their number is the rounded-up quotient. */
  lemma {:induction false} ChunksAreExact<T>(s: seq<T>, k: nat)
    requires k > 0
    ensures Concat(Chunks(s, k)) == s
    ensures |Chunks(s, k)| == CountFor(|s|, k)
    ensures forall j :: 0 <= j < |Chunks(s, k)| ==> 1 <= |Chunks(s, k)[j]| <= k
    ensures forall j :: 0 <= j < |Chunks(s, k)| - 1 ==> |Chunks(s, k)[j]| == k
    decreases |s|
  {
    if s == [] {
      assert (k - 1) / k == 0 by { QuotientBounds(0, k); SmallQuotient(k); }
    } else if |s| <= k {
      CountUnique(|s|, k, 1);
      ConcatHead([s]);
    } else {
      ChunksAreExact(s[k..], k);
      CountStep(|s|, k);
      ConcatHead(Chunks(s, k));
      assert Chunks(s, k)[1..] == Chunks(s[k..], k);
      assert s == s[..k] + s[k..];
    }
  }

  lemma SmallQuotient(k: nat)
    requires k > 0
    ensures (k - 1) / k == 0
  {
  }

  function Min(a: nat, b: nat): nat
  {
    if a <= b then a else b
  }

  lemma {:induction false} ChunkAt<T>(s: seq<T>, k: nat, j: nat)
    requires k > 0 && j < |Chunks(s, k)|
    ensures j * k < |s| && Chunks(s, k)[j] == s[j * k..Min(j * k + k, |s|)]
    decreases j
  {
    if j > 0 {
      ChunkAt(s[k..], k, j - 1);
      assert (j - 1) * k + k == j * k;
      assert s[k..][(j - 1) * k..Min((j - 1) * k + k, |s| - k)] == s[j * k..Min(j * k + k, |s|)];
    }
  }

  /** The stride loop. */
  method SliceByStride<T>(users: seq<T>, size: nat) returns (batches: seq<seq<T>>)
    requires size > 0
    ensures batches == Chunks(users, size)
  {
    batches := [];
    var i := 0;
    while i < |users|
      invariant 0 <= i
      invariant if i <= |users| then batches + Chunks(users[i..], size) == Chunks(users, size)
                else batches == Chunks(users, size)
      decreases |users| - i
    {
      var end := i + size;
      if end > |users| {
        end := |users|;
      }
      assert users[i..][..end - i] == users[i..end];
      assert end == |users| ==> users[i..end] == users[i..];
      assert end < |users| ==> users[i..][size..] == users[end..];
      ghost var rest := Chunks(users[i..], size);
      assert rest == [users[i..end]] + (if end < |users| then Chunks(users[end..], size) else []);
      assert batches + rest == batches + [users[i..end]] + (if end < |users| then Chunks(users[end..], size) else []);
      batches := batches + [users[i..end]];
      i := i + size;
    }
  }

  /** The counted loop, filling a slice of a size computed first. */
  method SplitSeqsIntoBatches(seqs: seq<int>, size: nat) returns (batches: array?<seq<int>>)
    requires size > 0
    ensures seqs == [] ==> batches == null
    ensures seqs != [] ==> batches != null && fresh(batches) && batches[..] == Chunks(seqs, size)
  {
    if seqs == [] { return null; }
    var n := (|seqs| + size - 1) / size;
    ChunksAreExact(seqs, size);
    var filled := new seq<int>[n];
    var i := 0;
    while i < n
      invariant 0 <= i <= n
      invariant forall j :: 0 <= j < i ==> filled[j] == Chunks(seqs, size)[j]
    {
      ChunkAt(seqs, size, i);
      var start := i * size;
      var end := start + size;
      if end > |seqs| {
        end := |seqs|;
      }
      filled[i] := seqs[start..end];
      i := i + 1;
    }
    batches := filled;
  }

  /** Batch sizes by audience. */
  function MessageBatchSize(n: nat): nat
  {
    if n > 3000 then 200 else if n > 1000 then 150 else 100
  }

  function ReceiptBatchSize(n: nat): nat
  {
    if n > 3000 then 300 else if n > 1000 then 250 else 200
  }
}
