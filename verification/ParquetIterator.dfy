/** The iterator over the train files of a vector dataset. A file is the sequence of its batches. */
module ParquetIterator {
  import opened Util

  /** The batches of file i and the files after it, up to the k-th file without batches. */
  ghost function UpToGaps<T>(files: seq<seq<T>>, i: nat, k: nat): seq<T>
    decreases |files| - i
  {
    if i >= |files| || k == 0 then []
    else if files[i] == [] then UpToGaps(files, i + 1, k - 1)
    else files[i] + UpToGaps(files, i + 1, k)
  }

  /** The batches of file i and all the files after it. */
  ghost function Suffix<T>(files: seq<seq<T>>, i: nat): seq<T>
    decreases |files| - i
  {
    if i >= |files| then [] else files[i] + Suffix(files, i + 1)
  }

  /** What k loops over a new iterator receive, one after the other: an empty first file is skipped, each
      later one ends a loop, and the next loop goes on behind it. */
  ghost function Delivered<T>(files: seq<seq<T>>, k: nat): seq<T> {
    if files == [] || k == 0 then [] else files[0] + UpToGaps(files, 1, k)
  }

  /** What k loops receive when file i is open and open.value is left of it. */
  ghost function RestOf<T>(files: seq<seq<T>>, i: nat, open: Option<seq<T>>, k: nat): seq<T>
    requires i < |files|
  {
    if k == 0 then [] else (if open.None? then files[i] else open.value) + UpToGaps(files, i + 1, k)
  }

  lemma TakeOne<T>(files: seq<seq<T>>, i: nat, left: seq<T>, k: nat)
    requires i < |files| && left != [] && k > 0
    ensures RestOf(files, i, Some(left), k) == [left[0]] + RestOf(files, i, Some(left[1..]), k)
  {
    var tail := UpToGaps(files, i + 1, k);
    assert left + tail == [left[0]] + (left[1..] + tail);
  }

  lemma NextFile<T>(files: seq<seq<T>>, i: nat, k: nat)
    requires i < |files| && k > 0
    ensures RestOf(files, i, Some([]), k)
         == if i + 1 == |files| then []
            else RestOf(files, i + 1, Some(files[i + 1]), if files[i + 1] == [] then k - 1 else k)
    ensures RestOf(files, i, None, k) == RestOf(files, i, Some(files[i]), k)
  {
    assert RestOf(files, i, Some([]), k) == UpToGaps(files, i + 1, k);
  }

  lemma AtTheEnd<T>(files: seq<seq<T>>, i: nat, k: nat)
    requires i + 1 == |files|
    ensures RestOf(files, i, Some([]), k) == []
  {}

  class ParquetDatasetIterator<T> {
    const trainFiles: seq<seq<T>>
    var idx: nat
    /** What is left of the open file. */
    var cur: Option<seq<T>>

    ghost predicate Valid()
      reads this
    {
      idx <= |trainFiles| && (idx == |trainFiles| ==> idx == 0)
    }

    /** What the next k loops receive. */
    ghost function Rest(k: nat): seq<T>
      reads this
      requires Valid()
    {
      if idx == |trainFiles| then [] else RestOf(trainFiles, idx, cur, k)
    }

    constructor (trainFiles: seq<seq<T>>)
      ensures Valid() && this.trainFiles == trainFiles && forall k: nat :: Rest(k) == Delivered(trainFiles, k)
    {
      this.trainFiles, idx, cur := trainFiles, 0, None;
    }

    /** How many batches lie ahead, whoever receives them. */
    ghost function Ahead(): nat
      reads this
      requires Valid()
    {
      if idx == |trainFiles| then 0
      else |if cur.None? then trainFiles[idx] else cur.value| + |Suffix(trainFiles, idx + 1)|
    }

    /** A batch, or the end of this loop; what comes after is left for the loops that follow. k is any number
        of loops. */
    method Next(ghost k: nat) returns (r: Option<T>)
      requires Valid() && k > 0
      modifies this
      ensures Valid() && Ahead() <= old(Ahead())
      ensures r.Some? ==> old(Rest(k)) == [r.value] + Rest(k) && Ahead() < old(Ahead())
      ensures r.None? ==> old(Rest(k)) == Rest(k - 1)
    {
      if |trainFiles| == 0 {
        return None;
      }
      if cur.None? {
        OpenFirstFile(k);
      }
      if cur.value == [] {
        if idx == |trainFiles| - 1 {
          AtTheEnd(trainFiles, idx, k);
          AtTheEnd(trainFiles, idx, k - 1);
          return None;
        }
        OpenNextFile(k);
        if cur.value == [] {
          return None;
        }
      }
      var batch := TakeBatch(k);
      r := Some(batch);
    }

    method OpenFirstFile(ghost k: nat)
      requires Valid() && trainFiles != [] && cur.None? && k > 0
      modifies this
      ensures Valid() && idx < |trainFiles| && cur.Some? && Ahead() == old(Ahead()) && Rest(k) == old(Rest(k))
    {
      cur := Some(trainFiles[idx]);
    }

    method OpenNextFile(ghost k: nat)
      requires Valid() && idx + 1 < |trainFiles| && cur == Some([]) && k > 0
      modifies this
      ensures Valid() && idx < |trainFiles| && cur == Some(trainFiles[idx]) && Ahead() == old(Ahead())
      ensures old(Rest(k)) == if cur == Some([]) then Rest(k - 1) else Rest(k)
    {
      NextFile(trainFiles, idx, k);
      idx := idx + 1;
      cur := Some(trainFiles[idx]);
    }

    /** next() on the open file. */
    method TakeBatch(ghost k: nat) returns (r: T)
      requires Valid() && idx < |trainFiles| && cur.Some? && cur.value != [] && k > 0
      modifies this
      ensures Valid() && old(Rest(k)) == [r] + Rest(k) && Ahead() < old(Ahead())
    {
      TakeOne(trainFiles, idx, cur.value, k);
      r, cur := cur.value[0], Some(cur.value[1..]);
    }

    /** One loop that consumes the iterator, the first of any number k of them. */
    method Drain(ghost k: nat) returns (batches: seq<T>)
      requires Valid() && k > 0
      modifies this
      ensures Valid() && old(Rest(k)) == batches + Rest(k - 1)
    {
      batches := [];
      ghost var all, left := Rest(k), Rest(k);
      var batch := Next(k);
      while batch.Some?
        invariant Valid() && all == batches + left
        invariant left == if batch.Some? then [batch.value] + Rest(k) else Rest(k - 1)
        decreases Ahead(), batch.Some?
      {
        left := Rest(k);
        Reassociate(batches, batch.value, left);
        batches := batches + [batch.value];
        batch := Next(k);
      }
    }

    /** Several loops, as several workers make them that share the iterator: each stops at its first end. */
    method DrainBy(loops: nat) returns (batches: seq<T>)
      requires Valid()
      modifies this
      ensures Valid() && batches == old(Rest(loops))
    {
      batches := [];
      var done := 0;
      ghost var all, left := Rest(loops), loops;
      while done < loops
        invariant done + left == loops && Valid() && all == batches + Rest(left)
      {
        var more := Drain(left);
        Concatenate(batches, more, Rest(left - 1));
        left := left - 1;
        batches := batches + more;
        done := done + 1;
      }
    }
  }

  lemma Concatenate<T>(s: seq<T>, t: seq<T>, u: seq<T>)
    ensures s + (t + u) == (s + t) + u
  {}

  lemma Reassociate<T>(s: seq<T>, x: T, t: seq<T>)
    ensures s + ([x] + t) == (s + [x]) + t
  {}

  lemma {:induction false} SuffixOneMore<T>(files: seq<seq<T>>, last: seq<T>, i: nat)
    requires i <= |files|
    ensures Suffix(files + [last], i) == Suffix(files, i) + last
    decreases |files| - i
  {
    if i < |files| {
      SuffixOneMore(files, last, i + 1);
    } else {
      assert Suffix(files + [last], i + 1) == [];
    }
  }

  lemma {:induction false} SuffixIsFlatten<T>(files: seq<seq<T>>)
    ensures Suffix(files, 0) == Flatten(files)
  {
    if files != [] {
      var front, last := files[..|files| - 1], files[|files| - 1];
      SuffixIsFlatten(front);
      SuffixOneMore(front, last, 0);
      assert files == front + [last];
    }
  }

  ghost predicate AllEmpty<T>(files: seq<seq<T>>, i: nat) {
    forall j :: i <= j < |files| ==> files[j] == []
  }

  lemma {:induction false} EmptySuffix<T>(files: seq<seq<T>>, i: nat)
    ensures Suffix(files, i) == [] <==> AllEmpty(files, i)
    decreases |files| - i
  {
    if i < |files| {
      EmptySuffix(files, i + 1);
    }
  }

  /** How many of the files from i on and below j are empty. */
  ghost function Gaps<T>(files: seq<seq<T>>, i: nat, j: nat): nat
    requires j <= |files|
    decreases j - i
  {
    if i >= j then 0 else (if files[i] == [] then 1 else 0) + Gaps(files, i + 1, j)
  }

  /** Fewer than k empty files lie before any file that has batches, counted from file i on. */
  ghost predicate FewGaps<T>(files: seq<seq<T>>, i: nat, k: nat) {
    forall j :: i <= j < |files| && files[j] != [] ==> Gaps(files, i, j) < k
  }

  lemma FewGapsStep<T>(files: seq<seq<T>>, i: nat, k: nat)
    requires i < |files| && k > 0
    ensures FewGaps(files, i, k) <==> FewGaps(files, i + 1, if files[i] == [] then k - 1 else k)
  {
    assert forall j :: i + 1 <= j < |files| ==>
      Gaps(files, i, j) == (if files[i] == [] then 1 else 0) + Gaps(files, i + 1, j);
  }

  lemma {:induction false} UpToGapsIsPrefix<T>(files: seq<seq<T>>, i: nat, k: nat)
    ensures UpToGaps(files, i, k) <= Suffix(files, i)
    ensures UpToGaps(files, i, k) == Suffix(files, i) <==> FewGaps(files, i, k)
    decreases |files| - i
  {
    EmptySuffix(files, i);
    if i < |files| && k > 0 {
      FewGapsStep(files, i, k);
      if files[i] == [] {
        UpToGapsIsPrefix(files, i + 1, k - 1);
      } else {
        UpToGapsIsPrefix(files, i + 1, k);
        var tail, full := UpToGaps(files, i + 1, k), Suffix(files, i + 1);
        assert (files[i] + full)[|files[i]|..] == full && (files[i] + tail)[|files[i]|..] == tail;
      }
    } else if i < |files| {
      assert FewGaps(files, i, 0) <==> AllEmpty(files, i);
    }
  }

  /** The batches come in dataset order, without repeats, and k loops receive all of them if and only if fewer
      than k empty files, not counting the first file, lie before any file that has batches. */
  lemma AllDeliveredIff<T>(files: seq<seq<T>>, k: nat)
    requires k > 0
    ensures Delivered(files, k) <= Flatten(files)
    ensures Delivered(files, k) == Flatten(files) <==> FewGaps(files, 1, k)
  {
    SuffixIsFlatten(files);
    if files != [] {
      UpToGapsIsPrefix(files, 1, k);
      var tail, full := UpToGaps(files, 1, k), Suffix(files, 1);
      assert Flatten(files) == files[0] + full;
      assert (files[0] + full)[|files[0]|..] == full && (files[0] + tail)[|files[0]|..] == tail;
    }
  }

  lemma {:induction false} UpToGap<T>(files: seq<seq<T>>, i: nat, k: nat, j: nat)
    requires i <= j < |files| && files[j] == [] && Gaps(files, i, j) + 1 == k
    ensures UpToGaps(files, i, k) == Suffix(files[..j], i)
    decreases j - i
  {
    if i < j {
      UpToGap(files, i + 1, if files[i] == [] then k - 1 else k, j);
    }
  }

  /** When there is a k-th empty file, k loops receive exactly the files before it. */
  lemma DeliveredUpToGap<T>(files: seq<seq<T>>, k: nat, j: nat)
    requires 1 <= j < |files| && files[j] == [] && Gaps(files, 1, j) + 1 == k
    ensures Delivered(files, k) == Flatten(files[..j])
  {
    UpToGap(files, 1, k, j);
    SuffixIsFlatten(files[..j]);
  }

  /** Three files, the middle one empty: one loop never reads the last, two loops do. */
  lemma GapLosesBatches()
    ensures Flatten([[1], [], [2]]) == [1, 2]
    ensures Delivered([[1], [], [2]], 1) == [1] && Delivered([[1], [], [2]], 2) == [1, 2]
  {
    var files: seq<seq<int>> := [[1], [], [2]];
    SuffixIsFlatten(files);
    assert Suffix(files, 3) == [] && Suffix(files, 2) == [2] && Suffix(files, 1) == [2];
    assert UpToGaps(files, 2, 0) == [] && UpToGaps(files, 1, 1) == [];
    assert UpToGaps(files, 3, 1) == [] && UpToGaps(files, 2, 1) == [2] && UpToGaps(files, 1, 2) == [2];
  }
}
