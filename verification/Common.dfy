/** What several components share: user IDs, optional values and sequences. */
module Common {

  type UserID = string

  datatype Option<T> = None | Some(value: T)

  /** No element occurs twice. */
  ghost predicate NoDup<T>(s: seq<T>)
  {
    forall i, j :: 0 <= i < j < |s| ==> s[i] != s[j]
  }

  function Elems<T(==)>(s: seq<T>): set<T>
  {
    set x | x in s
  }

  /** The elements at the given positions, in order. */
  function Pick<T>(s: seq<T>, ps: seq<nat>): (r: seq<T>)
    requires forall k :: 0 <= k < |ps| ==> ps[k] < |s|
    ensures |r| == |ps| && forall k :: 0 <= k < |ps| ==> r[k] == s[ps[k]]
  {
    seq(|ps|, k requires 0 <= k < |ps| => s[ps[k]])
  }

  function Concat<T>(parts: seq<seq<T>>): seq<T>
  {
    if parts == [] then [] else Concat(parts[..|parts| - 1]) + parts[|parts| - 1]
  }

  lemma ConcatAppend<T>(parts: seq<seq<T>>, last: seq<T>)
    ensures Concat(parts + [last]) == Concat(parts) + last
  {
    assert (parts + [last])[..|parts|] == parts;
  }

  lemma {:induction false} ConcatCons<T>(first: seq<T>, rest: seq<seq<T>>)
    ensures Concat([first] + rest) == first + Concat(rest)
  {
    if rest == [] {
      assert [first] + rest == [first] && [first][..0] == [];
    } else {
      var front, last := rest[..|rest| - 1], rest[|rest| - 1];
      ConcatCons(first, front);
      assert ([first] + rest)[..|rest|] == [first] + front;
      Associative(first, Concat(front), last);
    }
  }

  lemma Associative<T>(a: seq<T>, b: seq<T>, c: seq<T>)
    ensures a + b + c == a + (b + c)
  {
  }

  lemma ConcatHead<T>(parts: seq<seq<T>>)
    requires parts != []
    ensures Concat(parts) == parts[0] + Concat(parts[1..])
  {
    assert parts == [parts[0]] + parts[1..];
    ConcatCons(parts[0], parts[1..]);
  }
}
