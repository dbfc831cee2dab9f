/** Small vocabulary shared by the other modules: optional values, results that may fail,
    sums over sequences, and the sizes of sets built from sequences. */
module Util {

  datatype Option<+T> = None | Some(value: T)

  datatype Result<+T, +E> = Ok(value: T) | Err(error: E)

  /** Document ids, as text. */
  type DocId = string

  function Min(a: int, b: int): int {
    if a <= b then a else b
  }

  /** Python's s[:n] for any integer n that is not negative. */
  function Take<T>(s: seq<T>, n: nat): seq<T> {
    if n <= |s| then s[..n] else s
  }

  lemma TakeIs<T>(s: seq<T>, n: nat)
    ensures Take(s, n) == s[..Min(n, |s|)]
  {}

  function Elements<T>(s: seq<T>): set<T> {
    set x | x in s
  }

  ghost predicate Distinct<T>(s: seq<T>) {
    forall i, j :: 0 <= i < j < |s| ==> s[i] != s[j]
  }

  lemma ElementsConcat<T>(s: seq<T>, t: seq<T>)
    ensures Elements(s + t) == Elements(s) + Elements(t)
  {
    assert forall y :: y in s + t <==> y in s || y in t;
  }

  lemma ElementsAppend<T>(s: seq<T>, x: T)
    ensures Elements(s + [x]) == Elements(s) + {x}
  {
    assert forall y :: y in s + [x] <==> y in s || y == x;
  }

  lemma {:induction false} ElementsSize<T>(s: seq<T>)
    ensures |Elements(s)| <= |s|
    ensures Distinct(s) ==> |Elements(s)| == |s|
  {
    if s == [] {
    } else {
      var front := s[..|s| - 1];
      ElementsSize(front);
      assert Elements(s) == Elements(front) + {s[|s| - 1]};
    }
  }

  /** A subset that is as large as the whole set is the whole set. */
  lemma SubsetOfSameSize<T>(a: set<T>, b: set<T>)
    requires a <= b
    ensures |a| <= |b|
    ensures |a| == |b| ==> a == b
  {
    assert b == a + (b - a);
  }

  /** The positions below n that satisfy keep, in ascending order. */
  ghost function Positions(n: nat, keep: nat -> bool): (s: seq<nat>)
    ensures forall i: nat :: i in s <==> i < n && keep(i)
    ensures forall a, b :: 0 <= a < b < |s| ==> s[a] < s[b]
  {
    if n == 0 then [] else
      var before := Positions(n - 1, keep);
      assert forall a :: 0 <= a < |before| ==> before[a] in before;
      if keep(n - 1) then before + [n - 1] else before
  }

  /** The members of s at the positions that satisfy keep, in their own order. */
  ghost function Kept<T>(s: seq<T>, n: nat, keep: nat -> bool): seq<T>
    requires n <= |s|
  {
    if n == 0 then []
    else if keep(n - 1) then Kept(s, n - 1, keep) + [s[n - 1]]
    else Kept(s, n - 1, keep)
  }

  /** Kept picks the positions of s in ascending order. */
  lemma {:induction false} KeptInOrder<T>(s: seq<T>, n: nat, keep: nat -> bool)
    requires n <= |s|
    ensures var at := Positions(n, keep);
            && |Kept(s, n, keep)| == |at|
            && forall k :: 0 <= k < |at| ==> at[k] in at && at[k] < n && Kept(s, n, keep)[k] == s[at[k]]
  {
    if n > 0 {
      KeptInOrder(s, n - 1, keep);
    }
  }

  lemma {:induction false} KeptStays<T>(s: seq<T>, n: nat, m: nat, keep: nat -> bool)
    requires n <= m <= |s|
    requires forall i: nat :: n <= i < m ==> !keep(i)
    ensures Kept(s, m, keep) == Kept(s, n, keep)
  {
    if n < m {
      KeptStays(s, n, m - 1, keep);
    }
  }

  lemma EmptyDifference<T>(a: set<T>, b: set<T>)
    ensures a - b == {} <==> a <= b
  {
    if a - b == {} {
      forall x | x in a ensures x in b {
        assert x !in a - b;
      }
    }
  }

  ghost function Flatten<T>(parts: seq<seq<T>>): seq<T> {
    if parts == [] then [] else Flatten(parts[..|parts| - 1]) + parts[|parts| - 1]
  }

  function Sum(s: seq<int>): int {
    if s == [] then 0 else Sum(s[..|s| - 1]) + s[|s| - 1]
  }

  lemma {:induction false} SumUpdate(s: seq<int>, i: nat, v: int)
    requires i < |s|
    ensures Sum(s[i := v]) == Sum(s) - s[i] + v
  {
    var last := |s| - 1;
    if i == last {
      assert s[i := v][..last] == s[..last];
    } else {
      assert s[i := v][..last] == s[..last][i := v];
      SumUpdate(s[..last], i, v);
    }
  }

  lemma {:induction false} SumAppend(s: seq<int>, t: seq<int>)
    ensures Sum(s + t) == Sum(s) + Sum(t)
  {
    if t == [] {
      assert s + t == s;
    } else {
      assert (s + t)[..|s + t| - 1] == s + t[..|t| - 1];
      SumAppend(s, t[..|t| - 1]);
    }
  }

  lemma {:induction false} SumZeros(s: seq<int>)
    requires forall i :: 0 <= i < |s| ==> s[i] == 0
    ensures Sum(s) == 0
  {
    if s != [] {
      SumZeros(s[..|s| - 1]);
    }
  }
}
