/** The capacity case: insert one batch of rows over and over, with growing ids, until the database
    refuses. A database may insert only a prefix of a request, with or without an error. */
module CapacityLoad {
  import opened Util
  import opened Arith

  const LOAD_MAX_TRY_COUNT: nat := 10

  datatype Answer = Answer(inserted: nat, failed: bool)

  datatype LoadError = DatabaseError | ShortInsert | Timeout | NoRows | CannotConnect

  class VectorDb {
    const answers: nat -> Answer   // what it does with each call
    var calls: nat
    var log: seq<int>              // the ids of the rows it holds, in insertion order

    constructor (answers: nat -> Answer)
      ensures this.answers == answers && calls == 0 && log == []
    {
      this.answers, calls, log := answers, 0, [];
    }

    method InsertEmbeddings(metadata: seq<int>) returns (count: nat, failed: bool)
      modifies this
      ensures count <= |metadata| && log == old(log) + metadata[..count]
      ensures count == Min(answers(old(calls)).inserted, |metadata|) && failed == answers(old(calls)).failed
      ensures calls == old(calls) + 1
    {
      var a := answers(calls);
      count, failed := Min(a.inserted, |metadata|), a.failed;
      log := log + metadata[..count];
      calls := calls + 1;
    }
  }

  function Shifted(ids: seq<int>, leftId: int): (r: seq<int>)
    ensures |r| == |ids| && forall i :: 0 <= i < |r| ==> r[i] == ids[i] + leftId
  {
    seq(|ids|, i requires 0 <= i < |ids| => ids[i] + leftId)
  }

  /** The rows that the calls from..to would take. */
  ghost function Offered(answers: nat -> Answer, from: nat, to: nat): nat
    requires from <= to
  {
    if from == to then 0 else Offered(answers, from, to - 1) + answers(to - 1).inserted
  }

  /** The calls from..to are the tries of one batch: each but the last failed, and the last one did only if it
      was the tenth. */
  ghost predicate Tried(answers: nat -> Answer, from: nat, to: nat) {
    && from < to <= from + LOAD_MAX_TRY_COUNT
    && (forall i: nat :: from <= i < to - 1 ==> answers(i).failed)
    && (answers(to - 1).failed ==> to == from + LOAD_MAX_TRY_COUNT)
  }

  ghost predicate BatchStored(answers: nat -> Answer, from: nat, to: nat, n: int) {
    Tried(answers, from, to) && !answers(to - 1).failed && Offered(answers, from, to) >= n
  }

  ghost predicate BatchFails(answers: nat -> Answer, from: nat, to: nat, n: int, e: LoadError) {
    && Tried(answers, from, to)
    && match e
       case DatabaseError => answers(to - 1).failed
       case ShortInsert => !answers(to - 1).failed && Offered(answers, from, to) < n
       case _ => false
  }

  /** The retry loop for one batch: each retry sends only what is still missing. */
  method InsertBatch(db: VectorDb, metadata: seq<int>) returns (r: Result<nat, LoadError>, ghost done: nat)
    modifies db
    ensures db.calls > old(db.calls)
    ensures done == Min(|metadata|, Offered(db.answers, old(db.calls), db.calls))
    ensures db.log == old(db.log) + metadata[..done]
    ensures r.Ok? ==> r.value == |metadata| && BatchStored(db.answers, old(db.calls), db.calls, |metadata|)
    ensures r.Err? ==> BatchFails(db.answers, old(db.calls), db.calls, |metadata|, r.error)
  {
    var retryCount, already := 0, 0;
    while retryCount < LOAD_MAX_TRY_COUNT
      invariant db.calls == old(db.calls) + retryCount
      invariant already == Min(|metadata|, Offered(db.answers, old(db.calls), db.calls))
      invariant db.log == old(db.log) + metadata[..already]
      invariant retryCount < LOAD_MAX_TRY_COUNT
      invariant forall i: nat :: old(db.calls) <= i < db.calls ==> db.answers(i).failed
      decreases LOAD_MAX_TRY_COUNT - retryCount
    {
      var count, failed := db.InsertEmbeddings(metadata[already..]);
      assert metadata[..already] + metadata[already..][..count] == metadata[..already + count];
      already := already + count;
      if failed {
        retryCount := retryCount + 1;
        if retryCount >= LOAD_MAX_TRY_COUNT {
          return Err(DatabaseError), already;
        }
      } else {
        break;
      }
    }
    done := already;
    r := if already == |metadata| then Ok(already) else Err(ShortInsert);
  }

  /** The rows of batch b when n rows are sent size at a time. */
  function BatchLength(n: nat, size: nat, b: nat): int {
    Min((b + 1) * size, n) - b * size
  }

  /** Batch b is stored by the calls starts[b]..starts[b + 1]. */
  ghost predicate StoredAt(answers: nat -> Answer, starts: seq<nat>, n: nat, size: nat, b: nat)
    requires b + 1 < |starts|
  {
    BatchStored(answers, starts[b], starts[b + 1], BatchLength(n, size, b))
  }

  /** One batch after the other is stored, batch b from call starts[b] on. */
  ghost predicate AllStored(answers: nat -> Answer, starts: seq<nat>, n: nat, size: nat) {
    starts != [] && forall b: nat :: b + 1 < |starts| ==> StoredAt(answers, starts, n, size, b)
  }

  /** The calls from..to store all n rows. */
  ghost predicate LoadStored(answers: nat -> Answer, from: nat, to: nat, n: nat, size: nat)
    requires size > 0
  {
    exists starts ::
      && AllStored(answers, starts, n, size) && |starts| == CeilDiv(n, size) + 1
      && starts[0] == from && starts[|starts| - 1] == to
  }

  /** In the calls from..to the batches before one are stored, and that one ends the load with the error e. */
  ghost predicate LoadFails(answers: nat -> Answer, from: nat, to: nat, n: nat, size: nat, e: LoadError, done: nat)
  {
    exists starts ::
      && AllStored(answers, starts, n, size) && starts[0] == from
      && var b := |starts| - 1;
         && b * size < n && BatchFails(answers, starts[b], to, BatchLength(n, size, b), e)
         && done == b * size + Min(BatchLength(n, size, b), Offered(answers, starts[b], to))
  }

  lemma BatchEndsLoad(answers: nat -> Answer, starts: seq<nat>, to: nat, n: nat, size: nat, e: LoadError, done: nat)
    requires AllStored(answers, starts, n, size) && (|starts| - 1) * size < n
    requires var b := |starts| - 1;
             && BatchFails(answers, starts[b], to, BatchLength(n, size, b), e)
             && done == b * size + Min(BatchLength(n, size, b), Offered(answers, starts[b], to))
    ensures LoadFails(answers, starts[0], to, n, size, e, done)
  {}

  lemma AllBatchesStored(answers: nat -> Answer, starts: seq<nat>, n: nat, size: nat)
    requires size > 0 && AllStored(answers, starts, n, size) && |starts| == CeilDiv(n, size) + 1
    ensures LoadStored(answers, starts[0], starts[|starts| - 1], n, size)
  {}

  lemma OneMoreStored(answers: nat -> Answer, starts: seq<nat>, to: nat, n: nat, size: nat) returns (next: seq<nat>)
    requires AllStored(answers, starts, n, size)
    requires BatchStored(answers, starts[|starts| - 1], to, BatchLength(n, size, |starts| - 1))
    ensures AllStored(answers, next, n, size)
    ensures |next| == |starts| + 1 && next[0] == starts[0] && next[|starts|] == to
  {
    next := starts + [to];
    forall b: nat | b + 1 < |next| ensures StoredAt(answers, next, n, size, b) {
      assert b + 1 < |starts| ==> StoredAt(answers, starts, n, size, b);
    }
  }

  /** endless_insert_data: whatever fails, the rows stored are a prefix of the rows wanted. All of them are
      stored when every batch is, and else the load ends with the first batch that fails. */
  method EndlessInsertData(db: VectorDb, opens: bool, ids: seq<int>, leftId: int, batchSize: nat)
    returns (r: Result<nat, LoadError>, ghost done: nat)
    requires batchSize > 0
    modifies db
    ensures done <= |ids| && db.log == old(db.log) + Shifted(ids, leftId)[..done]
    ensures !opens ==> r == Err(CannotConnect) && done == 0 && db.calls == old(db.calls)
    ensures opens && r.Ok? ==>
              r.value == done == |ids| && LoadStored(db.answers, old(db.calls), db.calls, |ids|, batchSize)
    ensures opens && r.Err? ==>
              LoadFails(db.answers, old(db.calls), db.calls, |ids|, batchSize, r.error, done)
  {
    ghost var starts := [db.calls];
    if !opens {
      return Err(CannotConnect), 0;
    }
    var metadata := Shifted(ids, leftId);
    var numBatches := CeilDiv(|ids|, batchSize);
    BatchCount(|ids|, batchSize);
    var count, batchId := 0, 0;
    while batchId < numBatches
      invariant 0 <= batchId <= numBatches
      invariant count == Min(batchId * batchSize, |ids|)
      invariant db.log == old(db.log) + metadata[..count]
      invariant |starts| == batchId + 1 && starts[0] == old(db.calls) && starts[batchId] == db.calls
      invariant AllStored(db.answers, starts, |ids|, batchSize)
    {
      BatchStartsInside(|ids|, batchSize, batchId);
      var lo, hi := batchId * batchSize, Min((batchId + 1) * batchSize, |ids|);
      var inserted;
      ghost var part;
      inserted, part := InsertBatch(db, metadata[lo..hi]);
      PrefixOfSlice(old(db.log), metadata, lo, hi, part);
      if inserted.Err? {
        BatchEndsLoad(db.answers, starts, db.calls, |ids|, batchSize, inserted.error, lo + part);
        return inserted, lo + part;
      }
      starts := OneMoreStored(db.answers, starts, db.calls, |ids|, batchSize);
      count := count + inserted.value;
      batchId := batchId + 1;
    }
    AllBatchesStored(db.answers, starts, |ids|, batchSize);
    done := count;
    r := Ok(count);
  }

  lemma PrefixOfSlice(before: seq<int>, s: seq<int>, lo: nat, hi: nat, part: nat)
    requires lo <= hi <= |s| && part <= hi - lo
    ensures before + s[..lo] + s[lo..hi][..part] == before + s[..lo + part]
  {
    assert s[..lo] + s[lo..hi][..part] == s[..lo + part];
  }

  lemma BatchCount(n: nat, b: nat)
    requires b > 0
    ensures CeilDiv(n, b) * b >= n
  {
    assert (n + b - 1) == CeilDiv(n, b) * b + (n + b - 1) % b;
  }

  lemma BatchStartsInside(n: nat, b: nat, i: nat)
    requires b > 0 && i < CeilDiv(n, b)
    ensures i * b < n && (i + 1) * b == i * b + b
  {
    ScaledLe(i + 1, CeilDiv(n, b), b);
    Times(i, 1, b);
    assert (n + b - 1) == CeilDiv(n, b) * b + (n + b - 1) % b;
  }

  /** The k-th row that repeating the base ids asks for: the ids of each round are moved past those of the
      rounds before. */
  function Endless(ids: seq<int>, k: nat): int
    requires ids != []
  {
    ids[k % |ids|] + k / |ids| * |ids|
  }

  function EndlessPrefix(ids: seq<int>, n: nat): (r: seq<int>)
    requires ids != []
    ensures |r| == n && forall k :: 0 <= k < n ==> r[k] == Endless(ids, k)
  {
    seq(n, k requires 0 <= k => Endless(ids, k))
  }

  lemma NextRound(ids: seq<int>, times: nat, done: nat)
    requires ids != [] && done <= |ids|
    ensures EndlessPrefix(ids, times * |ids|) + Shifted(ids, times * |ids|)[..done]
         == EndlessPrefix(ids, times * |ids| + done)
  {
    var n := |ids|;
    forall i | 0 <= i < done ensures Endless(ids, times * n + i) == ids[i] + times * n {
      QuotientOf(times * n + i, n, times, i);
    }
  }

  /** Round after round all n rows are stored, round t from call marks[t] on. */
  ghost predicate RoundsStored(answers: nat -> Answer, marks: seq<nat>, n: nat, size: nat)
    requires size > 0
  {
    marks != [] && forall t: nat :: t + 1 < |marks| ==> RoundAt(answers, marks, n, size, t)
  }

  ghost predicate RoundAt(answers: nat -> Answer, marks: seq<nat>, n: nat, size: nat, t: nat)
    requires size > 0 && t + 1 < |marks|
  {
    LoadStored(answers, marks[t], marks[t + 1], n, size)
  }

  lemma OneMoreRound(answers: nat -> Answer, marks: seq<nat>, to: nat, n: nat, size: nat)
    requires size > 0 && RoundsStored(answers, marks, n, size)
    requires LoadStored(answers, marks[|marks| - 1], to, n, size)
    ensures RoundsStored(answers, marks + [to], n, size)
  {
    var next := marks + [to];
    forall t: nat | t + 1 < |next| ensures RoundAt(answers, next, n, size, t) {
      assert t + 1 < |marks| ==> RoundAt(answers, marks, n, size, t);
    }
  }

  ghost predicate RoundFails(answers: nat -> Answer, from: nat, to: nat, n: nat, size: nat, done: nat) {
    exists e :: LoadFails(answers, from, to, n, size, e, done)
  }

  /** run_endlessness: the rows stored are the first rows of the endless sequence, without gaps, whatever
      fails and however often. The count returned is a whole number of rounds and at most one round short
      of what is stored, and it is returned only when a round fails: it cannot connect, or a batch of it had
      its ten failures or came up short. rounds is how often the clock allows; opens(t): connecting for round
      t succeeds; round t starts with call marks[t]. */
  method RunEndlessness(db: VectorDb, opens: nat -> bool, ids: seq<int>, batchSize: nat, rounds: nat)
    returns (r: Result<nat, LoadError>, ghost times: nat, ghost marks: seq<nat>)
    requires batchSize > 0 && db.log == []
    modifies db
    ensures ids == [] <==> r == Err(NoRows)
    ensures ids != [] ==> db.log == EndlessPrefix(ids, |db.log|)
    ensures |marks| == times + 1 && marks[0] == old(db.calls) && RoundsStored(db.answers, marks, |ids|, batchSize)
    ensures forall t: nat :: t < times ==> opens(t)
    ensures r.Ok? ==> r.value == times * |ids| && r.value <= |db.log| <= r.value + |ids| && times < rounds
    ensures r.Ok? && !opens(times) ==> |db.log| == r.value && db.calls == marks[times]
    ensures r.Ok? && opens(times) ==>
              RoundFails(db.answers, marks[times], db.calls, |ids|, batchSize, |db.log| - r.value)
    ensures r.Err? && ids != [] ==> r.error == Timeout && times == rounds && |db.log| == rounds * |ids|
  {
    var maxLoadCount := 0;
    times, marks := 0, [db.calls];
    if ids == [] {
      return Err(NoRows), 0, marks;
    }
    var round := 0;
    while round < rounds
      invariant 0 <= round <= rounds && times == round
      invariant maxLoadCount == times * |ids| && db.log == EndlessPrefix(ids, maxLoadCount)
      invariant |marks| == times + 1 && marks[0] == old(db.calls) && marks[times] == db.calls
      invariant RoundsStored(db.answers, marks, |ids|, batchSize)
      invariant forall t: nat :: t < times ==> opens(t)
    {
      var count;
      ghost var done;
      count, done := EndlessInsertData(db, opens(round), ids, maxLoadCount, batchSize);
      NextRound(ids, times, done);
      assert db.log == EndlessPrefix(ids, maxLoadCount + done);
      if count.Err? {
        return Ok(maxLoadCount), times, marks;
      }
      OneMoreRound(db.answers, marks, db.calls, |ids|, batchSize);
      Times(times, 1, |ids|);
      maxLoadCount := maxLoadCount + count.value;
      times, marks := times + 1, marks + [db.calls];
      round := round + 1;
    }
    r := Err(Timeout);
  }

  /** No two base ids leave the same remainder. */
  ghost predicate DistinctRemainders(ids: seq<int>) {
    forall a, b :: 0 <= a < b < |ids| ==> (ids[a] - ids[b]) % |ids| != 0
  }

  ghost predicate NeverRepeats(ids: seq<int>)
    requires ids != []
  {
    forall j: nat, k: nat :: j < k ==> Endless(ids, j) != Endless(ids, k)
  }

  lemma EqualRows(ids: seq<int>, j: nat, k: nat)
    requires ids != [] && DistinctRemainders(ids) && Endless(ids, j) == Endless(ids, k)
    ensures j == k
  {
    var n := |ids|;
    var a, b, s, t := j % n, k % n, j / n, k / n;
    Times(t, s, n);
    assert ids[a] - ids[b] == (t - s) * n;
    QuotientOf(ids[a] - ids[b], n, t - s, 0);
    Times(s, t, n);
    QuotientOf(ids[b] - ids[a], n, s - t, 0);
    assert a == b;
    MultipleBounds(t - s, n);
  }

  lemma RepeatedRow(ids: seq<int>, a: nat, b: nat) returns (j: nat, k: nat)
    requires a < b < |ids| && (ids[a] - ids[b]) % |ids| == 0
    ensures j != k && Endless(ids, j) == Endless(ids, k)
  {
    var n := |ids|;
    var d := (ids[a] - ids[b]) / n;
    assert ids[a] - ids[b] == d * n;
    if d >= 0 {
      j, k := a, d * n + b;
      QuotientOf(a, n, 0, a);
      QuotientOf(k, n, d, b);
    } else {
      Times(0, d, n);
      j, k := -d * n + a, b;
      QuotientOf(j, n, -d, a);
      QuotientOf(b, n, 0, b);
    }
  }

  /** However long it runs, no id is inserted twice if and only if no two base ids leave the same remainder
      when divided by their number. */
  lemma NeverRepeatsIff(ids: seq<int>)
    requires ids != []
    ensures NeverRepeats(ids) <==> DistinctRemainders(ids)
  {
    if DistinctRemainders(ids) {
      forall j: nat, k: nat | j < k ensures Endless(ids, j) != Endless(ids, k) {
        if Endless(ids, j) == Endless(ids, k) {
          EqualRows(ids, j, k);
        }
      }
    }
    if NeverRepeats(ids) {
      forall a, b | 0 <= a < b < |ids| ensures (ids[a] - ids[b]) % |ids| != 0 {
        if (ids[a] - ids[b]) % |ids| == 0 {
          var j, k := RepeatedRow(ids, a, b);
        }
      }
    }
  }

  function Iota(n: nat): (r: seq<int>)
    ensures |r| == n && forall i :: 0 <= i < n ==> r[i] == i
  {
    seq(n, i => i)
  }

  /** With base ids 0 to n-1 the rows are numbered 0, 1, 2, ... */
  lemma IotaCountsUp(n: nat, k: nat)
    requires n > 0
    ensures Endless(Iota(n), k) == k
  {}
}
