/** Runs of the insert process in which the first futures are held back, and when a streaming case can lose
    its results although nothing fails: the exact condition on the configuration. */
module StreamingLoss {
  import opened Util
  import opened Arith
  import opened StreamingProtocol
  import opened StreamingGuarantees

  predicate AtLeast(f: nat, lo: nat) {
    lo <= f
  }

  function Range(lo: nat, hi: nat): set<nat> {
    set f: nat | f < hi && AtLeast(f, lo)
  }

  lemma {:induction false} RangeSize(n: nat)
    ensures |Range(0, n)| == n
  {
    if n > 0 {
      RangeSize(n - 1);
      assert Range(0, n) == Range(0, n - 1) + {n - 1};
    } else {
      assert Range(0, 0) == {};
    }
  }

  ghost predicate Started(c: Config, p: Producer) {
    Steps(c, PRODUCER_START, p)
  }

  lemma Then(c: Config, p: Producer, q: Producer)
    requires Started(c, p) && ProducerNext(c, p, q)
    ensures Started(c, q)
  {
    OneMoreStep(c, PRODUCER_START, p, q);
  }

  /** The rest of a submission round. */
  lemma SubmitAll(c: Config, p: Producer) returns (q: Producer)
    requires Started(c, p) && p.phase.Submitting?
    requires p.submitted + p.phase.left <= c.breaksAt || c.batches < c.breaksAt
    requires 1 <= p.phase.left <= c.batchRate && p.submitted < c.batches
    ensures Started(c, q) && q.phase == Waiting(false) && q.submitted == Min(p.submitted + p.phase.left, c.batches)
    ensures q.executing == p.executing + Range(p.submitted, q.submitted)
    decreases p.phase.left
  {
    q := Submit(c, p);
    Then(c, p, q);
    assert Range(p.submitted, p.submitted + 1) == {p.submitted};
    if p.phase.left > 1 {
      var next := q;
      if next.submitted == c.batches {
        q := Submit(c, next);
        Then(c, next, q);
      } else {
        q := SubmitAll(c, next);
      }
      assert Range(p.submitted, q.submitted) == {p.submitted} + Range(p.submitted + 1, q.submitted);
    }
  }

  /** The token loop before the dataset is exhausted. */
  lemma PostAll(c: Config, p: Producer) returns (q: Producer)
    requires c.Valid() && Started(c, p) && p.phase.Posting? && !p.phase.finished
    ensures Started(c, q) && q.phase == Round && q.submitted == p.submitted && q.executing == p.executing
    decreases p.sigIdx
  {
    q := Post(c, p);
    Then(c, p, q);
    if p.sigIdx >= c.batchRate {
      q := PostAll(c, q);
    }
  }

  /** The top of the outer loop when m batches are submitted and the first held ones keep running. */
  ghost predicate AtRound(c: Config, p: Producer, m: nat, held: nat) {
    && Started(c, p) && p.phase == Round && p.submitted == m <= c.batches
    && p.executing == Range(0, Min(m, held))
  }

  lemma EnterRound(c: Config, p: Producer, m: nat, held: nat) returns (q: Producer)
    requires AtRound(c, p, m, held) && held <= MAX_EXECUTING
    ensures Started(c, q) && q == p.(phase := Submitting(c.batchRate))
  {
    RangeSize(Min(m, held));
    q := Enter(c, p);
    Then(c, p, q);
  }

  /** One round in which all futures but the held ones come back. */
  lemma NextRound(c: Config, p: Producer, m: nat, held: nat) returns (q: Producer)
    requires c.Valid() && NoneFail(c) && (m + c.batchRate <= c.breaksAt || c.batches < c.breaksAt)
    requires AtRound(c, p, m, held) && held <= MAX_EXECUTING && m < c.batches
    ensures AtRound(c, q, Min(m + c.batchRate, c.batches), held)
  {
    q := EnterRound(c, p, m, held);
    var w := SubmitAll(c, q);
    StepsInv(c, w);
    var done := w.executing - Range(0, held);
    q := Reap(c, w, done);
    assert done * c.bad == {};
    assert IsReap(c, w, q, done);
    Then(c, w, q);
    assert q.executing == Range(0, Min(w.submitted, held));
    q := PostAll(c, q);
  }

  lemma AllRounds(c: Config, p: Producer, m: nat, held: nat) returns (q: Producer)
    requires c.Valid() && c.Sound() && NoneFail(c)
    requires AtRound(c, p, m, held) && held <= MAX_EXECUTING
    ensures AtRound(c, q, c.batches, held)
    decreases c.batches - m
  {
    q := p;
    if m < c.batches {
      q := NextRound(c, p, m, held);
      q := AllRounds(c, q, Min(m + c.batchRate, c.batches), held);
    }
  }

  /** Between rounds the counter is the remainder of what has come back. */
  lemma CounterAtRound(c: Config, p: Producer, held: nat)
    requires c.Valid() && AtRound(c, p, c.batches, held) && held <= c.batches
    ensures p.sigIdx == (c.batches - held) % c.batchRate
  {
    StepsInv(c, p);
    RangeSize(held);
    QuotientOf(c.batches - held, c.batchRate, Counted(p.posted), p.sigIdx);
  }

  lemma OneLessThanMultiple(batches: nat, rate: nat)
    requires rate > 0 && batches / rate > 0
    ensures batches % rate + 1 <= batches
    ensures (batches - (batches % rate + 1)) % rate == rate - 1
  {
    var q, r := batches / rate, batches % rate;
    MultipleBounds(q, rate);
    Times(q, 1, rate);
    QuotientOf(batches - (r + 1), rate, q - 1, rate - 1);
  }

  /** Wait for the held futures after the dataset is exhausted. */
  lemma ReapHeld(c: Config, p: Producer, held: nat) returns (q: Producer)
    requires c.Valid() && c.Sound() && NoneFail(c)
    requires AtRound(c, p, c.batches, held) && 0 < held <= MAX_EXECUTING && held <= c.batches
    ensures Started(c, q) && q.phase == Posting(true, true) && q.executing == {}
    ensures q.sigIdx == p.sigIdx + held && q.posted == p.posted
  {
    q := EnterRound(c, p, c.batches, held);
    var d := Submit(c, q);
    Then(c, q, d);
    var w := Drain(d);
    RangeSize(held);
    Then(c, d, w);
    StepsInv(c, w);
    q := Reap(c, w, w.executing);
    assert w.executing * c.bad == {};
    assert IsReap(c, w, q, w.executing);
    Then(c, w, q);
  }

  /** Holding back one more future than the remainder makes the closing token the last one posted. */
  lemma CloseLast(c: Config) returns (q: Producer)
    requires c.Valid() && c.Sound() && NoneFail(c)
    requires c.batches / c.batchRate > 0 && c.batches % c.batchRate < MAX_EXECUTING
    ensures Started(c, q) && q.phase == Ended && LastIs(q.posted, Closing)
  {
    var held := c.batches % c.batchRate + 1;
    NoSteps(c, PRODUCER_START);
    q := Connect(c, PRODUCER_START);
    Then(c, PRODUCER_START, q);
    assert Range(0, 0) == {};
    q := AllRounds(c, q, 0, held);
    OneLessThanMultiple(c.batches, c.batchRate);
    CounterAtRound(c, q, held);
    var before := ReapHeld(c, q, held);
    q := Post(c, before);
    Then(c, before, q);
    q := CloseDown(c, q);
  }

  lemma CloseDown(c: Config, p: Producer) returns (q: Producer)
    requires Started(c, p) && p.phase.Posting? && p.phase.finished && p.executing == {} && p.sigIdx < c.batchRate
    ensures Started(c, q) && q.phase == Ended && q.posted == p.posted
  {
    var d := Post(c, p);
    Then(c, p, d);
    q := Drain(d);
    Then(c, d, q);
  }

  // ---- the search process reads on to its end ----

  function StepsLeft(c: Config, posted: seq<Token>, s: Consumer): nat
    requires s.taken <= |posted| && s.stage <= |c.targets|
  {
    3 * (|c.targets| - s.stage) + (|posted| - s.taken)
    + match s.search
      case Counting => 2
      case Searching => 1
      case Flushing => 1
      case Finished => 0
      case GaveUp => 0
  }

  /** From any reachable state whose insert process is done the search process comes to a halt. */
  lemma SearchComesToAHalt(c: Config, a: State) returns (b: State)
    requires c.Valid() && Reachable(c, a) && (a.p.phase.Ended? || a.p.phase.Aborted? || a.p.phase.Died?)
    requires a.s.taken <= |a.p.posted| && a.s.stage <= |c.targets|
    ensures Reachable(c, b) && Halted(c, b) && b.p == a.p
    decreases StepsLeft(c, a.p.posted, a.s)
  {
    ReachableInv(c, a);
    if a.s.search.Finished? || a.s.search.GaveUp? || Blocked(c, a.p.posted, a.s) {
      b := a;
    } else {
      var t := ConsumerHasStep(c, a.p.posted, a.s);
      b := State(a.p, t);
      Extend(c, a, b);
      ReachableInv(c, b);
      b := SearchComesToAHalt(c, b);
    }
  }

  ghost predicate LosesResults(c: Config, a: State) {
    Reachable(c, a) && Over(a) && a.p.phase.Ended? && a.s.search.GaveUp?
  }

  /** A case in which nothing fails can lose the results of all its stages if and only if its last target
      takes every token there will be, at least one, and fewer batches than the insert process lets wait
      are left over after the last full second. */
  lemma ResultsCanBeLostIff(c: Config)
    requires c.Valid() && c.Sound() && NoneFail(c)
    ensures (exists a :: LosesResults(c, a)) <==>
            && |c.targets| > 0 && c.targets[|c.targets| - 1] >= c.batches / c.batchRate > 0
            && c.batches % c.batchRate < MAX_EXECUTING
  {
    if a :| LosesResults(c, a) {
      ReachableInv(c, a);
      TokensAtEnd(c, a);
      ResultsLostExactlyWhen(c, a);
    }
    if && |c.targets| > 0 && c.targets[|c.targets| - 1] >= c.batches / c.batchRate > 0
       && c.batches % c.batchRate < MAX_EXECUTING {
      var a := LosingRun(c);
    }
  }

  lemma LosingRun(c: Config) returns (a: State)
    requires c.Valid() && c.Sound() && NoneFail(c)
    requires |c.targets| > 0 && c.targets[|c.targets| - 1] >= c.batches / c.batchRate > 0
    requires c.batches % c.batchRate < MAX_EXECUTING
    ensures LosesResults(c, a)
  {
    var p := CloseLast(c);
    StepsAreReachable(c, p);
    a := SearchComesToAHalt(c, State(p, CONSUMER_START));
    HangsExactlyWhen(c, a);
    ResultsLostExactlyWhen(c, a);
  }

  const LOSSY := Config(3, 2, {}, [1], true, 4)

  /** Three rows at two rows per second with one stage at 0.5: every insert succeeds and no result is
      returned. */
  lemma ResultsCanBeLost() returns (a: State)
    ensures FromCase(LOSSY, 3, 1, 2, [0.5]) && EnoughRows(LOSSY, 3, 1)
    ensures LosesResults(LOSSY, a) && a.p.reaped == 3 && a.s.reported == []
  {
    assert CeilDiv(3, 2) == 2;
    assert StageTarget(2, 0.5) == 1;
    assert StageTargets(3, 2, [0.5]) == [1];
    a := LosingRun(LOSSY);
    TokensAtEnd(LOSSY, a);
    ReachableInv(LOSSY, a);
  }
}
