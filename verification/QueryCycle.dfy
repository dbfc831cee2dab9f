/** The throughput search loop: each request takes the next nq queries, wrapping around. */
module QueryCycle {
  import opened Arith

  /** _query_at, as indices into the test data. */
  function QueryAt(num: nat, nq: nat, idx: nat): (r: seq<nat>)
    requires idx < num && nq > 0
    ensures |r| == nq
  {
    if nq == 1 then [idx] else seq(nq, offset => (idx + offset) % num)
  }

  /** The t-th query of a cycle through num queries that begins at start. */
  function Cyclic(num: nat, start: nat, n: nat): (r: seq<nat>)
    requires num > 0
    ensures |r| == n && forall t :: 0 <= t < n ==> r[t] == (start + t) % num
  {
    seq(n, t => (start + t) % num)
  }

  lemma ModuloStep(num: nat, start: nat, done: nat, offset: nat)
    requires num > 0
    ensures ((start + done) % num + offset) % num == (start + (done + offset)) % num
  {
    var x := start + done;
    assert x == (x / num) * num + x % num;
    SameRemainder(x + offset, x % num + offset, x / num, num);
  }

  lemma RequestContinuesCycle(num: nat, nq: nat, start: nat, done: nat)
    requires num > 0 && nq > 0
    ensures Cyclic(num, start, done) + QueryAt(num, nq, (start + done) % num) == Cyclic(num, start, done + nq)
  {
    var idx := (start + done) % num;
    forall offset | 0 <= offset < nq ensures QueryAt(num, nq, idx)[offset] == (start + (done + offset)) % num {
      ModuloStep(num, start, done, offset);
      SmallRemainder(idx, num);
    }
  }

  /** How many of the first n requests succeed. */
  ghost function Successes(n: nat, ok: nat -> bool): (r: nat)
    ensures r <= n
  {
    if n == 0 then 0 else Successes(n - 1, ok) + if ok(n - 1) then 1 else 0
  }

  lemma CountRequest(i: nat, nq: nat, ok: nat -> bool)
    ensures Successes(i + 1, ok) * nq == Successes(i, ok) * nq + if ok(i) then nq else 0
    ensures (i + 1 - Successes(i + 1, ok)) * nq == (i - Successes(i, ok)) * nq + if ok(i) then 0 else nq
  {
    Times(Successes(i, ok), 1, nq);
    Times(i - Successes(i, ok), 1, nq);
  }

  /** search_by_dur: requests is how many the clock allows, ok(i) whether request i succeeds.
      sent lists every query handed to the database. */
  method SearchByDur(num: nat, nq: nat, start: nat, requests: nat, ok: nat -> bool)
    returns (successCount: nat, failedCount: nat, sent: seq<nat>)
    requires start < num && nq > 0
    ensures sent == Cyclic(num, start, requests * nq)
    ensures successCount == Successes(requests, ok) * nq
    ensures failedCount == (requests - Successes(requests, ok)) * nq
  {
    var idx, i := start, 0;
    successCount, failedCount, sent := 0, 0, [];
    SmallRemainder(start, num);
    while i < requests
      invariant 0 <= i <= requests && successCount == Successes(i, ok) * nq
      invariant failedCount == (i - Successes(i, ok)) * nq
      invariant idx == (start + i * nq) % num && sent == Cyclic(num, start, i * nq)
    {
      RequestContinuesCycle(num, nq, start, i * nq);
      ModuloStep(num, start, i * nq, nq);
      Times(i, 1, nq);
      CountRequest(i, nq, ok);
      sent := sent + QueryAt(num, nq, idx);
      if ok(i) {
        successCount := successCount + nq;
      } else {
        failedCount := failedCount + nq;
      }
      idx := (idx + nq) % num;
      i := i + 1;
    }
  }

  /** How far behind start query q comes in the cycle. */
  function Lag(num: nat, start: nat, q: nat): (r: nat)
    requires start < num && q < num
    ensures r < num
  {
    (q - start) % num
  }

  lemma DivisionStep(x: nat, num: nat)
    requires num > 0
    ensures (x + 1) / num == x / num + if (x + 1) % num == 0 then 1 else 0
  {
    var q, r := x / num, x % num;
    if r == num - 1 {
      Times(q, 1, num);
      QuotientOf(x + 1, num, q + 1, 0);
    } else {
      QuotientOf(x + 1, num, q, r + 1);
    }
  }

  lemma RemainderIs(x: int, q: int, num: nat)
    requires 0 <= q < num
    ensures x % num == q <==> (x - q) % num == 0
  {
    if x % num == q {
      SameRemainder(x - q, 0, x / num, num);
    }
    if (x - q) % num == 0 {
      SameRemainder(x, q, (x - q) / num, num);
      SmallRemainder(q, num);
    }
  }

  lemma TurnOf(num: nat, start: nat, q: nat, n: nat)
    requires start < num && q < num
    ensures (start + n) % num == q <==> (n + num - Lag(num, start, q)) % num == 0
  {
    RemainderIs(start + n, q, num);
    var k := (q - start) / num;
    Times(1, k, num);
    SameRemainder(n + num - Lag(num, start, q), start + n - q, 1 + k, num);
  }

  /** Fair use: after n queries each one has been sent floor(n / num) or ceil(n / num) times; the
      extra turn goes to those that come first from the start. */
  lemma {:induction false} EachQueryFairly(num: nat, start: nat, n: nat, q: nat)
    requires start < num && q < num
    ensures multiset(Cyclic(num, start, n))[q] == (n + num - 1 - Lag(num, start, q)) / num
  {
    var lag := Lag(num, start, q);
    if n == 0 {
      assert Cyclic(num, start, 0) == [];
      QuotientOf(num - 1 - lag, num, 0, num - 1 - lag);
    } else {
      EachQueryFairly(num, start, n - 1, q);
      assert Cyclic(num, start, n) == Cyclic(num, start, n - 1) + [(start + (n - 1)) % num];
      DivisionStep(n - 1 + num - 1 - lag, num);
      TurnOf(num, start, q, n - 1);
    }
  }

  lemma FloorOrCeil(num: nat, start: nat, n: nat, q: nat)
    requires start < num && q < num
    ensures n / num <= multiset(Cyclic(num, start, n))[q] <= CeilDiv(n, num)
    ensures CeilDiv(n, num) <= n / num + 1
  {
    EachQueryFairly(num, start, n, q);
    var lag := Lag(num, start, q);
    QuotientLe(n, n + num - 1 - lag, num);
    QuotientLe(n + num - 1 - lag, n + num - 1, num);
    QuotientLe(n + num - 1, n + num, num);
    SameQuotientPlusOne(n, num);
  }

  lemma SameQuotientPlusOne(n: nat, num: nat)
    requires num > 0
    ensures (n + num) / num == n / num + 1
  {
    Times(n / num, 1, num);
    QuotientOf(n + num, num, n / num + 1, n % num);
  }
}
