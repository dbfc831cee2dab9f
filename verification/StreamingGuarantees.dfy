/** What the streaming protocol guarantees in every reachable state, and when it does not. */
module StreamingGuarantees {
  import opened Arith
  import opened StreamingProtocol

  /** Token accounting: every token but an abnormal one stands for batchRate finished inserts, no
      batch is lost between submission and completion, and a normal or abnormal end is the last
      token there is. */
  lemma TokenAccounting(c: Config, a: State)
    requires c.Valid() && Reachable(c, a)
    ensures Counted(a.p.posted) * c.batchRate + a.p.sigIdx == a.p.reaped
    ensures a.p.submitted == |a.p.executing| + a.p.reaped <= c.batches
    ensures forall i :: 0 <= i < |a.p.posted| - 1 ==> a.p.posted[i] == Progress
    ensures LastIs(a.p.posted, Closing) ==> a.p.reaped == c.batches
    ensures LastIs(a.p.posted, Abort) <==> a.p.phase.Aborted?
    ensures a.p.phase.Ended? ==> NoneFail(c) && c.Sound()
    ensures a.p.phase.Aborted? ==> !NoneFail(c)
    ensures a.p.phase.Died? ==> !c.Sound()
  {
    ReachableInv(c, a);
  }

  /** A stage's search runs only once its target has been met by completed inserts. */
  lemma SearchStartsAfterInserts(c: Config, a: State)
    requires c.Valid() && Reachable(c, a) && a.s.search.Searching?
    ensures a.s.stage < |c.targets| && a.s.taken == c.targets[a.s.stage]
    ensures c.targets[a.s.stage] * c.batchRate <= a.p.reaped
  {
    ReachableInv(c, a);
    var target, counted := c.targets[a.s.stage], Counted(a.p.posted);
    assert target > 0 ==> a.p.posted[target - 1] == Progress;
    assert target <= counted;
    ScaledLe(target, counted, c.batchRate);
  }

  /** When no insert fails the producer ends with exactly floor(batches / batchRate) tokens. */
  lemma TokensAtEnd(c: Config, a: State)
    requires c.Valid() && Reachable(c, a) && a.p.phase.Ended?
    ensures |a.p.posted| == c.batches / c.batchRate
    ensures a.p.reaped == c.batches && a.p.sigIdx == c.batches % c.batchRate
  {
    ReachableInv(c, a);
    QuotientOf(c.batches, c.batchRate, |a.p.posted|, a.p.sigIdx);
  }

  // ---- targets of a streaming case ----

  function StageTarget(total: nat, stage: real): nat
    requires 0.0 <= stage < 1.0
  {
    (total as real * stage).Floor
  }

  /** The target is the one whole number that total * stage rounds down to. */
  lemma StageTargetIs(total: nat, stage: real, t: nat)
    requires 0.0 <= stage < 1.0
    ensures t == StageTarget(total, stage) <==> t as real <= total as real * stage < (t + 1) as real
  {
    var x := total as real * stage;
    assert x.Floor as real <= x < (x.Floor + 1) as real;
  }

  /** int(total_batch * stage) for every stage. */
  function StageTargets(volume: nat, rate: nat, stages: seq<real>): (t: seq<nat>)
    requires rate > 0 && forall i :: 0 <= i < |stages| ==> 0.0 <= stages[i] < 1.0
  {
    seq(|stages|, i requires 0 <= i < |stages| => StageTarget(CeilDiv(volume, rate), stages[i]))
  }

  lemma StageTargetBelow(total: nat, stage: real)
    requires 0.0 <= stage < 1.0
    ensures if total == 0 then StageTarget(total, stage) == 0 else StageTarget(total, stage) < total
  {
    if total > 0 {
      assert total as real * stage < total as real;
    }
  }

  /** A case as the runners' constructors accept it: sorted stages in [0, 1) and a rate that is a multiple of
      the batch size. Nothing ties the declared volume to the rows the dataset yields. */
  ghost predicate FromCase(c: Config, volume: nat, batchSize: nat, rate: nat, stages: seq<real>) {
    && batchSize > 0 && c.batchRate > 0 && rate == c.batchRate * batchSize
    && rate > 0
    && (forall i :: 0 <= i < |stages| ==> 0.0 <= stages[i] < 1.0)
    && (forall i, j :: 0 <= i < j < |stages| ==> stages[i] <= stages[j])
    && c.targets == StageTargets(volume, rate, stages)
  }

  /** The dataset yields at least the declared number of rows, in batches of at most batchSize rows. */
  predicate EnoughRows(c: Config, volume: nat, batchSize: nat) {
    volume <= c.batches * batchSize
  }

  /** The tokens taken are the share, rounded down, and that many seconds' worth of batches has come back. */
  ghost predicate SearchedAt(c: Config, a: State, share: real) {
    && a.s.taken as real <= share < (a.s.taken + 1) as real
    && a.p.reaped >= a.s.taken * c.batchRate
    && a.p.reaped as real > (share - 1.0) * c.batchRate as real
  }

  /** Every target is its stage's share of total seconds, rounded down. */
  ghost predicate TargetsAreShares(targets: seq<nat>, stages: seq<real>, total: nat) {
    && |targets| == |stages|
    && forall i :: 0 <= i < |stages| ==> targets[i] as real <= Share(total, stages[i]) < (targets[i] + 1) as real
  }

  function Share(total: nat, stage: real): real {
    total as real * stage
  }

  lemma CaseTargets(c: Config, volume: nat, batchSize: nat, rate: nat, stages: seq<real>, total: nat)
    requires FromCase(c, volume, batchSize, rate, stages) && IsCeiling(total, volume, rate)
    ensures TargetsAreShares(c.targets, stages, total)
  {
    forall i | 0 <= i < |stages|
      ensures c.targets[i] as real <= Share(total, stages[i]) < (c.targets[i] + 1) as real
    {
      TargetOfStage(c, volume, batchSize, rate, stages, total, i);
    }
  }

  lemma SearchAtTarget(c: Config, a: State, stages: seq<real>, total: nat)
    requires c.Valid() && Reachable(c, a) && a.s.search.Searching? && TargetsAreShares(c.targets, stages, total)
    ensures a.s.stage < |stages| && SearchedAt(c, a, Share(total, stages[a.s.stage]))
  {
    SearchingIsAtATarget(c, a);
    SearchAtShare(c, a, Share(total, stages[a.s.stage]));
  }

  /** In terms of the case alone: while a stage is searched, total being the seconds the declared volume takes
      at the rate, rounded up, the stage's share of them has been inserted. */
  lemma SearchAtItsStage(c: Config, a: State, volume: nat, batchSize: nat, rate: nat, stages: seq<real>, total: nat)
    requires FromCase(c, volume, batchSize, rate, stages) && IsCeiling(total, volume, rate)
    requires Reachable(c, a) && a.s.search.Searching?
    ensures a.s.stage < |stages| && SearchedAt(c, a, Share(total, stages[a.s.stage]))
  {
    CaseIsValid(c, volume, batchSize, rate, stages);
    CaseTargets(c, volume, batchSize, rate, stages, total);
    SearchAtTarget(c, a, stages, total);
  }

  lemma SearchingIsAtATarget(c: Config, a: State)
    requires c.Valid() && Reachable(c, a) && a.s.search.Searching?
    ensures a.s.stage < |c.targets|
  {
    SearchStartsAfterInserts(c, a);
  }

  lemma SearchAtShare(c: Config, a: State, share: real)
    requires c.Valid() && Reachable(c, a) && a.s.search.Searching? && a.s.stage < |c.targets|
    requires c.targets[a.s.stage] as real <= share < (c.targets[a.s.stage] + 1) as real
    ensures SearchedAt(c, a, share)
  {
    SearchStartsAfterInserts(c, a);
    ShareInserted(share, a.s.taken, c.batchRate, a.p.reaped);
  }

  lemma TargetOfStage(c: Config, volume: nat, batchSize: nat, rate: nat, stages: seq<real>, total: nat, i: nat)
    requires FromCase(c, volume, batchSize, rate, stages) && IsCeiling(total, volume, rate) && i < |c.targets|
    ensures |c.targets| == |stages|
    ensures c.targets[i] as real <= total as real * stages[i] < (c.targets[i] + 1) as real
  {
    CeilDivIs(total, volume, rate);
    StageTargetIs(total, stages[i], c.targets[i]);
  }

  lemma ShareInserted(share: real, taken: nat, batchRate: nat, reaped: nat)
    requires share < (taken + 1) as real && reaped >= taken * batchRate && batchRate > 0
    ensures reaped as real > (share - 1.0) * batchRate as real
  {
    ScaleStrictly(share - 1.0, taken as real, batchRate as real);
    assert (taken * batchRate) as real == taken as real * batchRate as real;
  }

  lemma ScaleStrictly(x: real, y: real, z: real)
    requires x < y && z > 0.0
    ensures x * z < y * z
  {}

  lemma StageTargetMonotone(total: nat, x: real, y: real)
    requires 0.0 <= x <= y < 1.0
    ensures StageTarget(total, x) <= StageTarget(total, y)
  {
    FloorMonotone(total as real * x, total as real * y);
  }

  lemma FloorMonotone(a: real, b: real)
    requires a <= b
    ensures a.Floor <= b.Floor
  {
    assert a.Floor as real <= a && b < (b.Floor + 1) as real;
  }

  lemma CaseIsValid(c: Config, volume: nat, batchSize: nat, rate: nat, stages: seq<real>)
    requires FromCase(c, volume, batchSize, rate, stages)
    ensures c.Valid()
  {
    var total := CeilDiv(volume, rate);
    forall i, j | 0 <= i < j < |c.targets| ensures c.targets[i] <= c.targets[j] {
      StageTargetMonotone(total, stages[i], stages[j]);
    }
  }

  /** The producer's token count is at least ceil(volume / rate) - 1, so at least every target. */
  lemma EnoughTokens(c: Config, volume: nat, batchSize: nat, rate: nat, stages: seq<real>)
    requires FromCase(c, volume, batchSize, rate, stages) && EnoughRows(c, volume, batchSize)
    ensures CeilDiv(volume, rate) <= c.batches / c.batchRate + 1
    ensures forall i :: 0 <= i < |c.targets| ==> c.targets[i] <= c.batches / c.batchRate
  {
    var tokens := c.batches / c.batchRate;
    assert c.batches == tokens * c.batchRate + c.batches % c.batchRate;
    assert c.batches <= (tokens + 1) * c.batchRate;
    ScaledLe(c.batches, (tokens + 1) * c.batchRate, batchSize);
    assert (tokens + 1) * c.batchRate * batchSize == (tokens + 1) * rate;
    CeilBelow(volume, rate, tokens + 1);
    forall i | 0 <= i < |c.targets| ensures c.targets[i] <= tokens {
      StageTargetBelow(CeilDiv(volume, rate), stages[i]);
    }
  }

  /** While the search process waits on an empty queue the insert process still has a step to take, unless it
      died of something other than a failed insert, or ended with fewer tokens than the stage needs. */
  lemma StarvesExactlyWhen(c: Config, a: State)
    requires c.Valid() && Reachable(c, a) && Blocked(c, a.p.posted, a.s)
    ensures (exists q :: ProducerNext(c, a.p, q)) <==> !a.p.phase.Died? && !a.p.phase.Ended?
    ensures a.p.phase.Died? ==> !c.Sound()
    ensures a.p.phase.Ended? ==> c.batches / c.batchRate < c.targets[a.s.stage]
  {
    ReachableInv(c, a);
    assert a.s.taken > 0 ==> a.p.posted[a.s.taken - 1] == Progress;
    if a.p.phase.Ended? {
      TokensAtEnd(c, a);
    } else if !a.p.phase.Died? {
      ProducerHasStep(c, a.p);
    }
  }

  /** With as many rows as declared the insert process never leaves it waiting by ending. */
  lemma NeverStarves(c: Config, a: State, volume: nat, batchSize: nat, rate: nat, stages: seq<real>)
    requires FromCase(c, volume, batchSize, rate, stages) && EnoughRows(c, volume, batchSize)
    requires Reachable(c, a) && Blocked(c, a.p.posted, a.s)
    ensures (exists q :: ProducerNext(c, a.p, q)) <==> !a.p.phase.Died?
    ensures c.Sound() ==> exists q :: ProducerNext(c, a.p, q)
  {
    CaseIsValid(c, volume, batchSize, rate, stages);
    EnoughTokens(c, volume, batchSize, rate, stages);
    StarvesExactlyWhen(c, a);
  }

  lemma ProducerHasStep(c: Config, p: Producer)
    requires !p.phase.Ended? && !p.phase.Aborted? && !p.phase.Died?
    ensures exists q :: ProducerNext(c, p, q)
  {
    match p.phase
    case Opening => assert ProducerNext(c, p, Connect(c, p));
    case Round => assert ProducerNext(c, p, Enter(c, p));
    case Submitting(_) => assert ProducerNext(c, p, Submit(c, p));
    case Waiting(_) =>
      assert IsReap(c, p, Reap(c, p, {}), {});
      assert ProducerNext(c, p, Reap(c, p, {}));
    case Posting(_, _) => assert ProducerNext(c, p, Post(c, p));
    case Draining => assert ProducerNext(c, p, Drain(p));
  }

  // ---- how the search process ends, as a function of the tokens posted ----

  datatype SearchEnd = Reported | NoResult | StillWaiting(stage: nat)

  function ProgressCount(tokens: seq<Token>): nat {
    if tokens != [] && tokens[|tokens| - 1] != Progress then |tokens| - 1 else |tokens|
  }

  /** The first stage whose target lies above n; the number of stages if there is none. */
  function FirstAbove(targets: seq<nat>, n: nat): (i: nat)
    ensures i <= |targets| && (i < |targets| ==> targets[i] > n)
    ensures forall k :: 0 <= k < i ==> targets[k] <= n
  {
    if targets == [] then 0
    else
      var front := targets[..|targets| - 1];
      var i := FirstAbove(front, n);
      assert forall k :: 0 <= k < |front| ==> front[k] == targets[k];
      if i < |front| then i else if targets[|front|] > n then |front| else |targets|
  }

  function SearchEndOf(tokens: seq<Token>, targets: seq<nat>): SearchEnd {
    if targets == [] || targets[|targets| - 1] <= ProgressCount(tokens) then Reported
    else if ProgressCount(tokens) < |tokens| then NoResult
    else StillWaiting(FirstAbove(targets, |tokens|))
  }

  ghost predicate Halted(c: Config, a: State) {
    forall b :: !Next(c, a, b)
  }

  lemma HaltedProducer(c: Config, a: State)
    requires Halted(c, a)
    ensures a.p.phase.Ended? || a.p.phase.Aborted? || a.p.phase.Died?
  {
    if !a.p.phase.Ended? && !a.p.phase.Aborted? && !a.p.phase.Died? {
      ProducerHasStep(c, a.p);
      var q :| ProducerNext(c, a.p, q);
      assert Next(c, a, State(q, a.s));
    }
  }

  lemma ConsumerHasStep(c: Config, posted: seq<Token>, s: Consumer) returns (t: Consumer)
    requires !s.search.Finished? && !s.search.GaveUp? && !Blocked(c, posted, s)
    requires s.search.Searching? ==> s.stage < |c.targets|
    ensures ConsumerNext(c, posted, s, t)
  {
    t := match s.search
      case Counting =>
        if s.stage >= |c.targets| then s.(search := Flushing)
        else if s.start >= c.targets[s.stage] then s.(search := Searching)
        else Take1(posted, s)
      case Searching =>
        s.(reported := s.reported + [s.stage], start := c.targets[s.stage], stage := s.stage + 1, search := Counting)
      case Flushing => if s.taken < |posted| then s.(taken := s.taken + 1) else s.(search := Finished)
      case _ => s;
  }

  lemma HaltedConsumer(c: Config, a: State)
    requires c.Valid() && Reachable(c, a) && Halted(c, a)
    ensures a.s.search.Finished? || a.s.search.GaveUp? || Blocked(c, a.p.posted, a.s)
  {
    if !(a.s.search.Finished? || a.s.search.GaveUp? || Blocked(c, a.p.posted, a.s)) {
      ReachableInv(c, a);
      var t := ConsumerHasStep(c, a.p.posted, a.s);
      assert Next(c, a, State(a.p, t));
    }
  }

  /** However the two processes interleaved, once neither can move the search process has ended as if
      it had read a finished queue: with every stage reported in order, with no result, or waiting
      for ever at the first stage whose target the tokens do not reach. */
  lemma HaltedOutcome(c: Config, a: State)
    requires c.Valid() && Reachable(c, a) && Halted(c, a)
    ensures match SearchEndOf(a.p.posted, c.targets)
            case Reported => a.s.search.Finished? && a.s.reported == seq(|c.targets|, i => i)
            case NoResult => a.s.search.GaveUp?
            case StillWaiting(stage) => Blocked(c, a.p.posted, a.s) && a.s.stage == stage
  {
    ReachableInv(c, a);
    HaltedConsumer(c, a);
    var posted, s := a.p.posted, a.s;
    if Blocked(c, posted, s) {
      assert s.taken > 0 ==> posted[s.taken - 1] == Progress;
      assert ProgressCount(posted) == |posted| == s.taken;
      assert c.targets[s.stage] <= c.targets[|c.targets| - 1];
      assert forall k :: 0 <= k < s.stage ==> c.targets[k] <= c.targets[s.stage - 1];
    } else if s.search.GaveUp? {
      assert c.targets[s.stage] <= c.targets[|c.targets| - 1];
    } else if c.targets != [] {
      var last := c.targets[|c.targets| - 1];
      assert last > 0 ==> posted[last - 1] == Progress;
    }
  }

  ghost predicate Hangs(a: State) {
    !a.s.search.Finished? && !a.s.search.GaveUp?
  }

  ghost predicate AllProgress(posted: seq<Token>) {
    forall i :: 0 <= i < |posted| ==> posted[i] == Progress
  }

  /** The search process waits for ever exactly when the insert process posted no closing or abnormal token,
      and fewer tokens than the last stage needs. It then has died, or has ended. */
  lemma HangsExactlyWhen(c: Config, a: State)
    requires c.Valid() && Reachable(c, a) && Halted(c, a)
    ensures Hangs(a) <==>
            AllProgress(a.p.posted) && |c.targets| > 0 && |a.p.posted| < c.targets[|c.targets| - 1]
    ensures Hangs(a) ==> a.p.phase.Died? || a.p.phase.Ended?
  {
    ReachableInv(c, a);
    HaltedProducer(c, a);
    HaltedConsumer(c, a);
    HaltedOutcome(c, a);
    assert AllProgress(a.p.posted) <==> ProgressCount(a.p.posted) == |a.p.posted|;
  }

  ghost predicate Over(a: State) {
    && (a.p.phase.Ended? || a.p.phase.Aborted? || a.p.phase.Died?)
    && (a.s.search.Finished? || a.s.search.GaveUp?)
  }

  /** When both processes are done: the results of all stages are returned, in order, unless a
      closing or abnormal token was itself one of the tokens the last stage needed. */
  lemma Outcome(c: Config, a: State)
    requires c.Valid() && Reachable(c, a) && Over(a)
    ensures a.s.search.Finished? ==> a.s.reported == seq(|c.targets|, i => i)
    ensures a.s.search.GaveUp? <==>
            && |c.targets| > 0 && 0 < |a.p.posted| <= c.targets[|c.targets| - 1]
            && a.p.posted[|a.p.posted| - 1] != Progress
  {
    ReachableInv(c, a);
  }

  /** With no failed insert the results are lost exactly when there is a closing token and the last stage
      needs it, although every batch was inserted. */
  lemma ResultsLostExactlyWhen(c: Config, a: State)
    requires c.Valid() && Reachable(c, a) && Over(a) && a.p.phase.Ended?
    ensures a.p.reaped == c.batches
    ensures a.s.search.GaveUp? <==>
            && |c.targets| > 0 && c.targets[|c.targets| - 1] >= c.batches / c.batchRate
            && LastIs(a.p.posted, Closing)
  {
    TokensAtEnd(c, a);
    TokenAccounting(c, a);
    Outcome(c, a);
  }

  /** If the rate divides the volume and every batch is full, all stages are reported. */
  lemma AllStagesWhenRateDivides(c: Config, a: State, volume: nat, batchSize: nat, rate: nat, stages: seq<real>)
    requires FromCase(c, volume, batchSize, rate, stages) && Reachable(c, a) && Over(a) && a.p.phase.Ended?
    requires volume > 0 && volume % rate == 0 && volume == c.batches * batchSize
    ensures a.s.search.Finished? && a.s.reported == seq(|stages|, i => i)
  {
    CaseIsValid(c, volume, batchSize, rate, stages);
    ResultsLostExactlyWhen(c, a);
    Outcome(c, a);
    if |stages| > 0 {
      LastTargetBelow(c, volume, batchSize, rate, stages);
    }
  }

  lemma LastTargetBelow(c: Config, volume: nat, batchSize: nat, rate: nat, stages: seq<real>)
    requires FromCase(c, volume, batchSize, rate, stages) && |stages| > 0
    requires volume > 0 && volume % rate == 0 && volume == c.batches * batchSize
    ensures c.targets[|c.targets| - 1] < c.batches / c.batchRate
  {
    QuotientScaled(c.batches, c.batchRate, batchSize);
    var total := volume / rate;
    assert total == c.batches / c.batchRate;
    MultipleBounds(total, rate);
    QuotientOf(volume + rate - 1, rate, total, rate - 1);
    StageTargetBelow(total, stages[|stages| - 1]);
  }
}
