/** When the search process of a streaming case can, and when it must, wait for ever: exact conditions on
    the configuration of a case in which no insert fails. */
module StreamingHang {
  import opened Arith
  import opened Util
  import opened StreamingProtocol
  import opened StreamingGuarantees
  import opened StreamingLoss

  /** Where the round begins in which the dataset raises. */
  function LastStart(c: Config): nat
    requires c.batchRate > 0
  {
    c.breaksAt / c.batchRate * c.batchRate
  }

  predicate Breaks(c: Config) {
    c.opens && c.breaksAt <= c.batches
  }

  /** The fewest tokens the insert process can have posted when it stops: when the dataset raises, as many
      futures as may be outstanding at the start of a round have not come back. */
  function FewestTokens(c: Config): nat
    requires c.batchRate > 0
  {
    if !c.opens then 0
    else if c.breaksAt <= c.batches then (LastStart(c) - Min(LastStart(c), MAX_EXECUTING)) / c.batchRate
    else c.batches / c.batchRate
  }

  function MostTokens(c: Config): nat
    requires c.batchRate > 0
  {
    if !c.opens then 0 else if c.breaksAt <= c.batches then c.breaksAt / c.batchRate else c.batches / c.batchRate
  }

  // ---- a dataset that raises does so within full rounds ----

  ghost predicate RoundInv(c: Config, p: Producer)
    requires c.batchRate > 0
  {
    Breaks(c) ==>
      match p.phase
      case Opening => true
      case Round => p.submitted % c.batchRate == 0
      case Waiting(_) => p.submitted % c.batchRate == 0
      case Posting(_, _) => p.submitted % c.batchRate == 0
      case Submitting(left) =>
        var start := p.submitted - (c.batchRate - left);
        (p.submitted + left) % c.batchRate == 0 && p.reaped <= start <= p.reaped + MAX_EXECUTING
      case Died => p.reaped <= LastStart(c) <= p.reaped + MAX_EXECUTING
      case _ => true
  }

  lemma StartOfRound(n: nat, left: nat, rate: nat)
    requires 1 <= left <= rate && (n + left) % rate == 0
    ensures n + left - rate == n / rate * rate
  {
    var q := (n + left) / rate;
    Times(q, 1, rate);
    QuotientOf(n, rate, q - 1, rate - left);
  }

  lemma RoundStep(c: Config, p: Producer, q: Producer)
    requires c.Valid() && ProducerInv(c, p) && RoundInv(c, p) && ProducerNext(c, p, q)
    ensures RoundInv(c, q)
  {
    match p.phase
    case Round => SameRemainder(p.submitted + c.batchRate, p.submitted, 1, c.batchRate);
    case Submitting(left) =>
      if Breaks(c) {
        StartOfRound(p.submitted, left, c.batchRate);
      }
    case Waiting(_) =>
      var done :| IsReap(c, p, q, done);
    case _ =>
  }

  lemma {:induction false} RunKeepsRounds(c: Config, run: seq<State>)
    requires c.Valid() && IsRun(c, run)
    ensures RoundInv(c, run[|run| - 1].p)
  {
    if |run| > 1 {
      var front, a, b := run[..|run| - 1], run[|run| - 2], run[|run| - 1];
      RunKeepsRounds(c, front);
      RunKeepsInv(c, front);
      assert Next(c, a, b);
      if ProducerNext(c, a.p, b.p) {
        RoundStep(c, a.p, b.p);
      }
    }
  }

  lemma TokensWithin(c: Config, a: State)
    requires c.Valid() && NoneFail(c) && Reachable(c, a) && Halted(c, a)
    ensures FewestTokens(c) <= |a.p.posted| <= MostTokens(c)
    ensures !c.Sound() ==> AllProgress(a.p.posted)
    ensures c.Sound() ==> a.p.phase.Ended?
  {
    ReachableInv(c, a);
    HaltedProducer(c, a);
    if a.p.phase.Ended? {
      TokensAtEnd(c, a);
    } else if c.opens {
      var run :| IsRun(c, run) && run[|run| - 1] == a;
      RunKeepsRounds(c, run);
      TokensWhenDied(c, a.p);
    }
  }

  lemma TokensWhenDied(c: Config, p: Producer)
    requires c.Valid() && ProducerInv(c, p) && RoundInv(c, p) && p.phase.Died? && Breaks(c)
    ensures FewestTokens(c) <= |p.posted| <= MostTokens(c)
  {
    var start, r := LastStart(c), c.batchRate;
    QuotientOf(p.reaped, r, |p.posted|, p.sigIdx);
    QuotientLe(p.reaped, start, r);
    QuotientLe(start - Min(start, MAX_EXECUTING), p.reaped, r);
    QuotientOf(start, r, c.breaksAt / r, 0);
  }

  // ---- the runs that reach the bounds ----

  /** n full rounds before the dataset raises. */
  lemma FullRounds(c: Config, n: nat, held: nat) returns (q: Producer)
    requires c.Valid() && NoneFail(c) && c.opens && held <= MAX_EXECUTING
    requires n * c.batchRate <= c.breaksAt <= c.batches
    ensures AtRound(c, q, n * c.batchRate, held)
  {
    if n == 0 {
      NoSteps(c, PRODUCER_START);
      q := Connect(c, PRODUCER_START);
      Then(c, PRODUCER_START, q);
      assert Range(0, 0) == {};
    } else {
      Times(n, 1, c.batchRate);
      q := FullRounds(c, n - 1, held);
      q := NextRound(c, q, (n - 1) * c.batchRate, held);
    }
  }

  /** The round in which it raises. */
  lemma SubmitUntilItBreaks(c: Config, p: Producer) returns (q: Producer)
    requires Started(c, p) && p.phase.Submitting? && c.breaksAt <= c.batches
    requires p.submitted <= c.breaksAt < p.submitted + p.phase.left
    ensures Started(c, q) && q.phase == Died && q.reaped == p.reaped && q.posted == p.posted
    decreases p.phase.left
  {
    q := Submit(c, p);
    Then(c, p, q);
    if p.submitted < c.breaksAt {
      q := SubmitUntilItBreaks(c, q);
    }
  }

  lemma BreakingRun(c: Config, held: nat) returns (q: Producer)
    requires c.Valid() && NoneFail(c) && Breaks(c) && held <= MAX_EXECUTING
    ensures Started(c, q) && q.phase == Died && AllProgress(q.posted)
    ensures |q.posted| == (LastStart(c) - Min(LastStart(c), held)) / c.batchRate
  {
    var n, r := c.breaksAt / c.batchRate, c.batchRate;
    var start := FullRounds(c, n, held);
    RangeSize(Min(LastStart(c), held));
    StepsInv(c, start);
    q := EnterRound(c, start, LastStart(c), held);
    q := SubmitUntilItBreaks(c, q);
    StepsInv(c, q);
    QuotientOf(q.reaped, r, |q.posted|, q.sigIdx);
  }

  /** Nothing is held back and nothing raises: the insert process ends without a closing token. */
  lemma QuietRun(c: Config) returns (q: Producer)
    requires c.Valid() && NoneFail(c) && c.Sound()
    ensures Started(c, q) && q.phase == Ended && AllProgress(q.posted) && |q.posted| == c.batches / c.batchRate
  {
    NoSteps(c, PRODUCER_START);
    var p := Connect(c, PRODUCER_START);
    Then(c, PRODUCER_START, p);
    assert Range(0, 0) == {};
    p := AllRounds(c, p, 0, 0);
    StepsInv(c, p);
    var s := EnterRound(c, p, c.batches, 0);
    var d := Submit(c, s);
    Then(c, s, d);
    q := Drain(d);
    Then(c, d, q);
    QuotientOf(c.batches, c.batchRate, |q.posted|, q.sigIdx);
  }

  lemma ClosedRun(c: Config) returns (q: Producer)
    requires c.Valid() && !c.opens
    ensures Started(c, q) && q.phase == Died && q.posted == []
  {
    NoSteps(c, PRODUCER_START);
    q := Connect(c, PRODUCER_START);
    Then(c, PRODUCER_START, q);
  }

  lemma RunWithFewest(c: Config) returns (q: Producer)
    requires c.Valid() && NoneFail(c)
    ensures Started(c, q) && (q.phase.Died? || q.phase.Ended?)
    ensures AllProgress(q.posted) && |q.posted| == FewestTokens(c)
  {
    if !c.opens {
      q := ClosedRun(c);
    } else if c.breaksAt <= c.batches {
      q := BreakingRun(c, MAX_EXECUTING);
    } else {
      q := QuietRun(c);
    }
  }

  lemma RunWithMost(c: Config) returns (q: Producer)
    requires c.Valid() && NoneFail(c)
    ensures Started(c, q) && (q.phase.Died? || q.phase.Ended?)
    ensures AllProgress(q.posted) && |q.posted| == MostTokens(c)
  {
    if !c.opens {
      q := ClosedRun(c);
    } else if c.breaksAt <= c.batches {
      q := BreakingRun(c, 0);
      QuotientOf(LastStart(c), c.batchRate, c.breaksAt / c.batchRate, 0);
    } else {
      q := QuietRun(c);
    }
  }

  lemma HaltAfter(c: Config, p: Producer) returns (a: State)
    requires c.Valid() && Started(c, p) && (p.phase.Died? || p.phase.Ended?)
    ensures Reachable(c, a) && Halted(c, a) && a.p == p
    ensures Hangs(a) <==> AllProgress(p.posted) && |c.targets| > 0 && |p.posted| < c.targets[|c.targets| - 1]
  {
    StepsAreReachable(c, p);
    a := SearchComesToAHalt(c, State(p, CONSUMER_START));
    HangsExactlyWhen(c, a);
  }

  // ---- the conditions ----

  ghost predicate CanHang(c: Config) {
    exists a :: Reachable(c, a) && Halted(c, a) && Hangs(a)
  }

  ghost predicate MustHang(c: Config) {
    forall a :: Reachable(c, a) && Halted(c, a) ==> Hangs(a)
  }

  /** Some run leaves the search process waiting for ever if and only if its last target lies above the fewest
      tokens that can have been posted. */
  lemma CanHangIff(c: Config)
    requires c.Valid() && NoneFail(c)
    ensures CanHang(c) <==> |c.targets| > 0 && c.targets[|c.targets| - 1] > FewestTokens(c)
  {
    if CanHang(c) {
      var a :| Reachable(c, a) && Halted(c, a) && Hangs(a);
      HangsExactlyWhen(c, a);
      TokensWithin(c, a);
    }
    if |c.targets| > 0 && c.targets[|c.targets| - 1] > FewestTokens(c) {
      var p := RunWithFewest(c);
      var a := HaltAfter(c, p);
    }
  }

  /** A closing token can be posted: it ends the wait, though with no result. */
  predicate CanClose(c: Config)
    requires c.batchRate > 0
  {
    c.Sound() && c.batches / c.batchRate > 0 && c.batches % c.batchRate < MAX_EXECUTING
  }

  /** Every run does if and only if it lies above the most tokens, and no closing token can come. */
  lemma MustHangIff(c: Config)
    requires c.Valid() && NoneFail(c)
    ensures MustHang(c) <==> |c.targets| > 0 && c.targets[|c.targets| - 1] > MostTokens(c) && !CanClose(c)
  {
    if |c.targets| > 0 && c.targets[|c.targets| - 1] > MostTokens(c) && !CanClose(c) {
      forall a | Reachable(c, a) && Halted(c, a) ensures Hangs(a) {
        TokensWithin(c, a);
        HangsExactlyWhen(c, a);
        NoClosing(c, a);
      }
    }
    if MustHang(c) {
      var p := RunWithMost(c);
      var a := HaltAfter(c, p);
      if CanClose(c) {
        p := CloseLast(c);
        a := HaltAfter(c, p);
      }
    }
  }

  lemma NoClosing(c: Config, a: State)
    requires c.Valid() && NoneFail(c) && Reachable(c, a) && Halted(c, a) && !CanClose(c)
    ensures AllProgress(a.p.posted)
  {
    TokensWithin(c, a);
    ReachableInv(c, a);
    if c.Sound() {
      TokensAtEnd(c, a);
    }
  }

  /** With as many rows as declared, and nothing that raises, the search process never waits for ever. */
  lemma EnoughRowsNeverHang(c: Config, volume: nat, batchSize: nat, rate: nat, stages: seq<real>)
    requires FromCase(c, volume, batchSize, rate, stages) && EnoughRows(c, volume, batchSize)
    requires c.Sound() && NoneFail(c)
    ensures !CanHang(c)
  {
    CaseIsValid(c, volume, batchSize, rate, stages);
    EnoughTokens(c, volume, batchSize, rate, stages);
    CanHangIff(c);
  }

  // ---- cases that hang ----

  const CLOSED := Config(4, 1, {}, [2], false, 5)
  const UNREADABLE := Config(4, 1, {}, [2], true, 0)
  const NOT_LOADED := Config(0, 1, {}, [2], true, 1)

  /** Four rows declared, at one row per second, with one stage at 0.5. Every run leaves the search process
      waiting for ever when the database cannot be opened, when the first batch cannot be converted, and when
      the case runs without its LOAD stage, so that the insert process ends with nothing to insert. */
  lemma SearchHangs()
    ensures FromCase(CLOSED, 4, 1, 1, [0.5]) && EnoughRows(CLOSED, 4, 1) && MustHang(CLOSED)
    ensures FromCase(UNREADABLE, 4, 1, 1, [0.5]) && EnoughRows(UNREADABLE, 4, 1) && MustHang(UNREADABLE)
    ensures FromCase(NOT_LOADED, 4, 1, 1, [0.5]) && NOT_LOADED.Sound() && MustHang(NOT_LOADED)
  {
    assert CeilDiv(4, 1) == 4;
    assert StageTarget(4, 0.5) == 2;
    assert StageTargets(4, 1, [0.5]) == [2];
    MustHangIff(CLOSED);
    MustHangIff(UNREADABLE);
    MustHangIff(NOT_LOADED);
  }
}
