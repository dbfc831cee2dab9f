/** The streaming insert/search protocol: an insert process posts a token for every batchRate
    finished batches, a search process counts tokens to decide when a stage may start.
    Both run side by side; every claim below is about all their interleavings. */
module StreamingProtocol {

  /** The queue carries False (progress), True (normal end) and None (abnormal end). */
  datatype Token = Progress | Closing | Abort

  /** batches: how many the dataset holds; bad: those whose insertion raises after its retries.
      opens: connecting to the database succeeds; breaksAt: asking for the batch of that number, or
      converting it, raises. A number past the end never comes up. */
  datatype Config = Config(batches: nat, batchRate: nat, bad: set<nat>, targets: seq<nat>, opens: bool,
                           breaksAt: nat) {
    ghost predicate Valid() {
      && batchRate > 0
      && (forall i, j :: 0 <= i < j < |targets| ==> targets[i] <= targets[j])
    }

    /** Nothing raises outside the inserts themselves. */
    predicate Sound() {
      opens && breaksAt > batches
    }
  }

  // ---- the insert process ----

  datatype Phase =
    | Opening                                  // about to connect
    | Round                                    // top of the outer loop
    | Submitting(left: nat)                    // inside submit_by_rate
    | Waiting(finished: bool)                  // about to wait for futures
    | Posting(finished: bool, idle: bool)      // turning finished futures into tokens
    | Draining                                 // the dataset is exhausted
    | Ended
    | Aborted                                  // an insert failed: None is on the queue
    | Died                                     // something else raised: nothing is on the queue

  datatype Producer = Producer(submitted: nat, executing: set<nat>, reaped: nat, sigIdx: nat,
                               posted: seq<Token>, phase: Phase)

  const MAX_EXECUTING: nat := 200

  function Connect(c: Config, p: Producer): Producer
    requires p.phase.Opening?
  {
    p.(phase := if c.opens then Round else Died)
  }

  function Enter(c: Config, p: Producer): Producer
    requires p.phase.Round?
  {
    p.(phase := if |p.executing| > MAX_EXECUTING then Waiting(false) else Submitting(c.batchRate))
  }

  /** One turn of the for loop over the dataset, or its end. */
  function Submit(c: Config, p: Producer): Producer
    requires p.phase.Submitting?
  {
    if p.submitted == c.breaksAt then p.(phase := Died)
    else if p.submitted < c.batches then
      p.(submitted := p.submitted + 1,
         executing := p.executing + {p.submitted},
         phase := if p.phase.left <= 1 then Waiting(false) else Submitting(p.phase.left - 1))
    else p.(phase := if p.phase.left == c.batchRate then Draining else Waiting(false))
  }

  /** wait() returned with an arbitrary part of the futures done. */
  function Reap(c: Config, p: Producer, done: set<nat>): Producer
    requires p.phase.Waiting? && done <= p.executing
  {
    if done * c.bad != {} then p.(posted := p.posted + [Abort], phase := Aborted)
    else p.(executing := p.executing - done,
            reaped := p.reaped + |done|,
            sigIdx := p.sigIdx + |done|,
            phase := Posting(p.phase.finished, p.executing - done == {}))
  }

  /** One turn of the token loop, or its end. */
  function Post(c: Config, p: Producer): Producer
    requires p.phase.Posting?
  {
    if p.sigIdx >= c.batchRate then
      var left := p.sigIdx - c.batchRate;
      p.(sigIdx := left,
         posted := p.posted + [if left < c.batchRate && p.phase.idle && p.phase.finished then Closing else Progress])
    else p.(phase := if p.phase.finished then Draining else Round)
  }

  function Drain(p: Producer): Producer
    requires p.phase.Draining?
  {
    p.(phase := if p.executing == {} then Ended else Waiting(true))
  }

  ghost predicate IsReap(c: Config, p: Producer, q: Producer, done: set<nat>)
    requires p.phase.Waiting?
  {
    done <= p.executing && q == Reap(c, p, done)
  }

  ghost predicate ProducerNext(c: Config, p: Producer, q: Producer) {
    match p.phase
    case Opening => q == Connect(c, p)
    case Round => q == Enter(c, p)
    case Submitting(_) => q == Submit(c, p)
    case Waiting(_) => exists done :: IsReap(c, p, q, done)
    case Posting(_, _) => q == Post(c, p)
    case Draining => q == Drain(p)
    case Ended => false
    case Aborted => false
    case Died => false
  }

  const PRODUCER_START := Producer(0, {}, 0, 0, [], Opening)

  // ---- the search process ----

  datatype Search =
    | Counting                 // wait_next_target
    | Searching                // the searches of one stage
    | Flushing                 // drain the queue after the last stage
    | Finished                 // returned the results of every stage
    | GaveUp                   // returned None

  datatype Consumer = Consumer(taken: nat, start: nat, stage: nat, reported: seq<nat>, search: Search)

  const CONSUMER_START := Consumer(0, 0, 0, [], Counting)

  /** One token off the queue inside wait_next_target. */
  function Take1(posted: seq<Token>, s: Consumer): Consumer
    requires s.taken < |posted|
  {
    if posted[s.taken] == Progress then s.(taken := s.taken + 1, start := s.start + 1)
    else s.(taken := s.taken + 1, search := GaveUp)
  }

  ghost predicate ConsumerNext(c: Config, posted: seq<Token>, s: Consumer, t: Consumer) {
    match s.search
    case Counting =>
      if s.stage >= |c.targets| then t == s.(search := Flushing)
      else if s.start >= c.targets[s.stage] then t == s.(search := Searching)
      else s.taken < |posted| && t == Take1(posted, s)
    case Searching =>
      && s.stage < |c.targets|
      && t == s.(reported := s.reported + [s.stage], start := c.targets[s.stage],
                 stage := s.stage + 1, search := Counting)
    case Flushing =>
      t == if s.taken < |posted| then s.(taken := s.taken + 1) else s.(search := Finished)
    case Finished => false
    case GaveUp => false
  }

  /** The search process waits in q.get() while the queue is empty. */
  ghost predicate Blocked(c: Config, posted: seq<Token>, s: Consumer) {
    s.search.Counting? && s.stage < |c.targets| && s.start < c.targets[s.stage] && s.taken >= |posted|
  }

  // ---- both together ----

  datatype State = State(p: Producer, s: Consumer)

  const START := State(PRODUCER_START, CONSUMER_START)

  ghost predicate Next(c: Config, a: State, b: State) {
    || (ProducerNext(c, a.p, b.p) && b.s == a.s)
    || (ConsumerNext(c, a.p.posted, a.s, b.s) && b.p == a.p)
  }

  ghost predicate IsRun(c: Config, run: seq<State>) {
    && |run| > 0 && run[0] == START
    && forall i :: 0 <= i < |run| - 1 ==> Next(c, run[i], run[i + 1])
  }

  ghost predicate Reachable(c: Config, a: State) {
    exists run :: IsRun(c, run) && run[|run| - 1] == a
  }

  // ---- what every step keeps ----

  /** Tokens that stand for batchRate finished batches each: all but an Abort. */
  ghost function Counted(posted: seq<Token>): nat {
    if posted != [] && posted[|posted| - 1] == Abort then |posted| - 1 else |posted|
  }

  ghost predicate AllButLastProgress(posted: seq<Token>) {
    forall i :: 0 <= i < |posted| - 1 ==> posted[i] == Progress
  }

  ghost predicate LastIs(posted: seq<Token>, t: Token) {
    posted != [] && posted[|posted| - 1] == t
  }

  ghost predicate NoneFail(c: Config) {
    forall f: nat :: f < c.batches ==> f !in c.bad
  }

  /** The outer loop has seen the end of the dataset. */
  ghost predicate Exhausted(p: Producer) {
    match p.phase
    case Draining => true
    case Ended => true
    case Waiting(finished) => finished
    case Posting(finished, _) => finished
    case _ => false
  }

  ghost predicate ProducerInv(c: Config, p: Producer) {
    && p.submitted <= c.batches
    && p.submitted == |p.executing| + p.reaped
    && (forall f :: f in p.executing ==> f < p.submitted)
    && Counted(p.posted) * c.batchRate + p.sigIdx == p.reaped
    && AllButLastProgress(p.posted)
    && p.submitted <= c.breaksAt
    && (p.phase.Opening? ==> p == PRODUCER_START)
    && (p.phase.Died? ==> !c.Sound())
    && (!c.opens ==> p.phase.Opening? || (p.phase.Died? && p.posted == []))
    && (!p.phase.Aborted? ==> forall f: nat :: f < p.submitted && f !in p.executing ==> f !in c.bad)
    && (p.phase.Aborted? ==> !NoneFail(c))
    && (p.phase.Submitting? ==> 1 <= p.phase.left <= c.batchRate)
    && (!p.phase.Posting? && !p.phase.Aborted? ==> p.sigIdx < c.batchRate)
    && (p.phase.Posting? ==> p.phase.idle == (p.executing == {}))
    && (p.phase.Submitting? && p.phase.left == c.batchRate ==> |p.executing| <= MAX_EXECUTING)
    && (Exhausted(p) ==> p.submitted == c.batches && c.Sound() && |p.executing| <= MAX_EXECUTING)
    && (p.phase.Posting? && p.phase.finished ==> p.sigIdx < c.batchRate + MAX_EXECUTING)
    && (p.phase.Ended? ==> p.executing == {})
    && (LastIs(p.posted, Abort) <==> p.phase.Aborted?)
    && (LastIs(p.posted, Closing) ==>
          && p.executing == {} && p.sigIdx < c.batchRate && p.sigIdx < MAX_EXECUTING && p.submitted == c.batches
          && (p.phase.Posting? || p.phase.Draining? || p.phase.Ended?)
          && (p.phase.Posting? ==> p.phase.finished))
  }

  ghost predicate ConsumerInv(c: Config, posted: seq<Token>, s: Consumer) {
    && s.taken <= |posted| && s.stage <= |c.targets|
    && s.reported == seq(s.stage, i => i)
    && (s.search.Counting? ==>
          && s.taken == s.start
          && (s.stage > 0 ==> c.targets[s.stage - 1] <= s.start)
          && (s.stage < |c.targets| ==> s.start <= c.targets[s.stage])
          && (s.stage == |c.targets| && s.stage > 0 ==> s.start == c.targets[s.stage - 1]))
    && (s.search.Searching? ==> s.stage < |c.targets| && s.taken == s.start == c.targets[s.stage])
    && (s.search.Flushing? || s.search.Finished? ==> s.stage == |c.targets|)
    && (s.search.Counting? || s.search.Searching? ==> forall i :: 0 <= i < s.taken ==> posted[i] == Progress)
    && (s.stage > 0 ==> c.targets[s.stage - 1] <= |posted|)
    && (s.stage > 0 ==> forall i :: 0 <= i < c.targets[s.stage - 1] ==> posted[i] == Progress)
    && (s.search.GaveUp? ==>
          && s.stage < |c.targets| && 0 < s.taken <= c.targets[s.stage]
          && s.taken == |posted| && posted[s.taken - 1] != Progress)
  }

  lemma PostedKeepsCount(posted: seq<Token>, t: Token)
    requires AllButLastProgress(posted)
    requires posted == [] || posted[|posted| - 1] == Progress
    ensures AllButLastProgress(posted + [t])
    ensures Counted(posted + [t]) == if t == Abort then Counted(posted) else Counted(posted) + 1
  {}

  lemma ReapKeepsInv(c: Config, p: Producer, done: set<nat>)
    requires c.Valid() && ProducerInv(c, p) && p.phase.Waiting? && done <= p.executing
    ensures ProducerInv(c, Reap(c, p, done))
  {
    PostedKeepsCount(p.posted, Abort);
    if done * c.bad != {} {
      var f :| f in done * c.bad;
      assert f in p.executing;
    }
    assert |p.executing - done| == |p.executing| - |done|;
  }

  lemma PostKeepsInv(c: Config, p: Producer)
    requires c.Valid() && ProducerInv(c, p) && p.phase.Posting?
    ensures ProducerInv(c, Post(c, p))
  {
    if p.sigIdx >= c.batchRate {
      PostedKeepsCount(p.posted, Closing);
      PostedKeepsCount(p.posted, Progress);
      assert (Counted(p.posted) + 1) * c.batchRate == Counted(p.posted) * c.batchRate + c.batchRate;
    }
  }

  lemma SubmitKeepsInv(c: Config, p: Producer)
    requires c.Valid() && ProducerInv(c, p) && p.phase.Submitting?
    ensures ProducerInv(c, Submit(c, p))
  {
    if p.submitted != c.breaksAt && p.submitted < c.batches {
      assert p.submitted !in p.executing;
      assert |p.executing + {p.submitted}| == |p.executing| + 1;
    }
  }

  lemma ProducerKeepsInv(c: Config, p: Producer, q: Producer)
    requires c.Valid() && ProducerInv(c, p) && ProducerNext(c, p, q)
    ensures ProducerInv(c, q) && p.posted <= q.posted
    ensures LastIs(p.posted, Closing) || LastIs(p.posted, Abort) ==> q.posted == p.posted
  {
    match p.phase
    case Submitting(_) => SubmitKeepsInv(c, p);
    case Waiting(_) =>
      var done :| IsReap(c, p, q, done);
      ReapKeepsInv(c, p, done);
    case Posting(_, _) => PostKeepsInv(c, p);
    case _ =>
  }

  lemma CountingKeepsInv(c: Config, p: Producer, s: Consumer)
    requires c.Valid() && ProducerInv(c, p) && ConsumerInv(c, p.posted, s)
    requires s.search.Counting? && s.stage < |c.targets| && s.start < c.targets[s.stage] && s.taken < |p.posted|
    ensures ConsumerInv(c, p.posted, Take1(p.posted, s))
  {}

  lemma SearchingKeepsInv(c: Config, p: Producer, s: Consumer, t: Consumer)
    requires c.Valid() && ProducerInv(c, p) && ConsumerInv(c, p.posted, s)
    requires s.search.Searching? && ConsumerNext(c, p.posted, s, t)
    ensures ConsumerInv(c, p.posted, t)
  {
    assert s.reported + [s.stage] == seq(s.stage + 1, i => i);
  }

  lemma ConsumerKeepsInv(c: Config, p: Producer, s: Consumer, t: Consumer)
    requires c.Valid() && ProducerInv(c, p) && ConsumerInv(c, p.posted, s) && ConsumerNext(c, p.posted, s, t)
    ensures ConsumerInv(c, p.posted, t)
  {
    match s.search
    case Counting =>
      if s.stage < |c.targets| && s.start < c.targets[s.stage] {
        CountingKeepsInv(c, p, s);
      }
    case Searching => SearchingKeepsInv(c, p, s, t);
    case _ =>
  }

  /** More tokens never disturb the search process; once it gave up there are no more. */
  lemma PostingKeepsConsumerInv(c: Config, p: Producer, q: Producer, s: Consumer)
    requires c.Valid() && ProducerInv(c, p) && ConsumerInv(c, p.posted, s)
    requires p.posted <= q.posted
    requires LastIs(p.posted, Closing) || LastIs(p.posted, Abort) ==> q.posted == p.posted
    ensures ConsumerInv(c, q.posted, s)
  {
    assert forall i :: 0 <= i < |p.posted| ==> q.posted[i] == p.posted[i];
  }

  ghost predicate Inv(c: Config, a: State) {
    ProducerInv(c, a.p) && ConsumerInv(c, a.p.posted, a.s)
  }

  lemma StepKeepsInv(c: Config, a: State, b: State)
    requires c.Valid() && Inv(c, a) && Next(c, a, b)
    ensures Inv(c, b)
  {
    if ProducerNext(c, a.p, b.p) && b.s == a.s {
      ProducerKeepsInv(c, a.p, b.p);
      PostingKeepsConsumerInv(c, a.p, b.p, a.s);
    } else {
      ConsumerKeepsInv(c, a.p, a.s, b.s);
    }
  }

  lemma {:induction false} RunKeepsInv(c: Config, run: seq<State>)
    requires c.Valid() && IsRun(c, run)
    ensures Inv(c, run[|run| - 1])
  {
    if |run| > 1 {
      RunKeepsInv(c, run[..|run| - 1]);
      StepKeepsInv(c, run[|run| - 2], run[|run| - 1]);
    }
  }

  lemma ReachableInv(c: Config, a: State)
    requires c.Valid() && Reachable(c, a)
    ensures Inv(c, a)
  {
    var run :| IsRun(c, run) && run[|run| - 1] == a;
    RunKeepsInv(c, run);
  }

  // ---- sequences of steps of the insert process ----

  ghost predicate IsTrace(c: Config, trace: seq<Producer>, p: Producer, q: Producer) {
    && |trace| > 0 && trace[0] == p && trace[|trace| - 1] == q
    && forall i :: 0 <= i < |trace| - 1 ==> ProducerNext(c, trace[i], trace[i + 1])
  }

  ghost predicate Steps(c: Config, p: Producer, q: Producer) {
    exists trace :: IsTrace(c, trace, p, q)
  }

  lemma NoSteps(c: Config, p: Producer)
    ensures Steps(c, p, p)
  {
    assert IsTrace(c, [p], p, p);
  }

  lemma OneMoreStep(c: Config, p: Producer, q: Producer, r: Producer)
    requires Steps(c, p, q) && ProducerNext(c, q, r)
    ensures Steps(c, p, r)
  {
    var trace :| IsTrace(c, trace, p, q);
    assert IsTrace(c, trace + [r], p, r);
  }

  lemma MoreSteps(c: Config, p: Producer, q: Producer, r: Producer)
    requires Steps(c, p, q) && Steps(c, q, r)
    ensures Steps(c, p, r)
  {
    var first :| IsTrace(c, first, p, q);
    var second :| IsTrace(c, second, q, r);
    var both := first + second[1..];
    forall i | 0 <= i < |both| - 1 ensures ProducerNext(c, both[i], both[i + 1]) {
      if i >= |first| - 1 {
        assert both[i] == second[i - (|first| - 1)] && both[i + 1] == second[i + 1 - (|first| - 1)];
      }
    }
    assert IsTrace(c, both, p, r);
  }

  /** Steps of the insert process alone are steps of the whole protocol. */
  lemma {:induction false} TraceIsReachable(c: Config, trace: seq<Producer>, p: Producer, q: Producer, s: Consumer)
    requires IsTrace(c, trace, p, q) && Reachable(c, State(p, s))
    ensures Reachable(c, State(q, s))
  {
    if |trace| > 1 {
      var before := trace[|trace| - 2];
      TraceIsReachable(c, trace[..|trace| - 1], p, before, s);
      Extend(c, State(before, s), State(q, s));
    }
  }

  lemma StepsAreReachable(c: Config, q: Producer)
    requires Steps(c, PRODUCER_START, q)
    ensures Reachable(c, State(q, CONSUMER_START))
  {
    var trace :| IsTrace(c, trace, PRODUCER_START, q);
    assert IsRun(c, [START]);
    TraceIsReachable(c, trace, PRODUCER_START, q, CONSUMER_START);
  }

  lemma Extend(c: Config, a: State, b: State)
    requires Reachable(c, a) && Next(c, a, b)
    ensures Reachable(c, b)
  {
    var run :| IsRun(c, run) && run[|run| - 1] == a;
    assert IsRun(c, run + [b]);
  }

  lemma StepsInv(c: Config, q: Producer)
    requires c.Valid() && Steps(c, PRODUCER_START, q)
    ensures ProducerInv(c, q)
  {
    StepsAreReachable(c, q);
    ReachableInv(c, State(q, CONSUMER_START));
  }
}
