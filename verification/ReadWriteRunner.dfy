/** The code of the two processes: the insert runner as an object whose fields its methods update,
    and the search loop. Each is shown to take only steps of the protocol. */
module ReadWriteRunner {
  import opened StreamingProtocol
  import opened StreamingGuarantees

  // ---- the insert runner ----

  /** How a submission round ends: after batchRate batches or fewer, with the dataset exhausted from
      the start, or with an exception of the dataset. */
  datatype SubmitEnd = More | Exhausted | Raised

  function AfterSubmit(e: SubmitEnd): Phase {
    match e
    case More => Waiting(false)
    case Exhausted => Draining
    case Raised => Died
  }

  /** How the insert process ends: normally, after a failed insert, or with any other exception. */
  datatype RunEnd = Completed | InsertFailed | Crashed

  function AfterRun(e: RunEnd): Phase {
    match e
    case Completed => Ended
    case InsertFailed => Aborted
    case Crashed => Died
  }

  class RatedMultiThreadingInsertRunner {
    const c: Config
    var submitted: nat            // how far the dataset iterator has been read
    var executing: set<nat>       // executing_futures
    var sigIdx: nat
    var queue: seq<Token>         // every token put on the queue so far
    ghost var reaped: nat

    ghost function Now(phase: Phase): Producer
      reads this
    {
      Producer(submitted, executing, reaped, sigIdx, queue, phase)
    }

    constructor (c: Config)
      ensures this.c == c && Now(Opening) == PRODUCER_START
    {
      this.c := c;
      submitted, executing, sigIdx, queue, reaped := 0, {}, 0, [], 0;
    }

    method SubmitByRate() returns (end: SubmitEnd)
      requires c.Valid() && submitted <= c.batches
      modifies this`submitted, this`executing
      ensures Steps(c, old(Now(Submitting(c.batchRate))), Now(AfterSubmit(end)))
      ensures old(submitted) <= submitted <= c.batches
      ensures end.Exhausted? ==> submitted == old(submitted) == c.batches && executing == old(executing)
      ensures end.More? ==> submitted > old(submitted)
      ensures end.Raised? <==> old(submitted) <= c.breaksAt == submitted < old(submitted) + c.batchRate
    {
      var rate := c.batchRate;
      NoSteps(c, Now(Submitting(rate)));
      while submitted < c.batches && submitted != c.breaksAt
        invariant 1 <= rate <= c.batchRate && old(submitted) <= submitted <= c.batches
        invariant submitted - old(submitted) == c.batchRate - rate
        invariant old(submitted) <= c.breaksAt ==> submitted <= c.breaksAt
        invariant Steps(c, old(Now(Submitting(c.batchRate))), Now(Submitting(rate)))
        invariant rate == c.batchRate ==> executing == old(executing)
      {
        ghost var before := Now(Submitting(rate));
        executing := executing + {submitted};
        submitted := submitted + 1;
        rate := rate - 1;
        OneMoreStep(c, old(Now(Submitting(c.batchRate))), before, Submit(c, before));
        if rate == 0 {
          return More;
        }
      }
      end := if submitted == c.breaksAt then Raised else if rate == c.batchRate then Exhausted else More;
      OneMoreStep(c, old(Now(Submitting(c.batchRate))), Now(Submitting(rate)), Submit(c, Now(Submitting(rate))));
    }

    /** ready: the futures that are done when wait() returns. */
    method CheckAndSendSignal(finished: bool, ready: set<nat>) returns (ok: bool)
      requires c.Valid()
      modifies this`executing, this`sigIdx, this`queue, this`reaped
      ensures Steps(c, old(Now(Waiting(finished))),
                    Now(if !ok then Aborted else if finished then Draining else Round))
      ensures ok ==> executing == old(executing) - ready
    {
      ghost var p := Now(Waiting(finished));
      NoSteps(c, p);
      var done := executing * ready;
      assert IsReap(c, p, Reap(c, p, done), done);
      OneMoreStep(c, p, p, Reap(c, p, done));
      if done * c.bad != {} {
        queue := queue + [Abort];
        return false;
      }
      executing := executing - done;
      var idle := executing == {};
      sigIdx := sigIdx + |done|;
      reaped := reaped + |done|;
      while sigIdx >= c.batchRate
        invariant executing == old(executing) - ready && idle == (executing == {})
        invariant Steps(c, p, Now(Posting(finished, idle)))
      {
        OneMoreStep(c, p, Now(Posting(finished, idle)), Post(c, Now(Posting(finished, idle))));
        sigIdx := sigIdx - c.batchRate;
        if sigIdx < c.batchRate && idle && finished {
          queue := queue + [Closing];
        } else {
          queue := queue + [Progress];
        }
      }
      OneMoreStep(c, p, Now(Posting(finished, idle)), Post(c, Now(Posting(finished, idle))));
      ok := true;
    }

    /** ready(i): the futures done at the i-th wait, any sets at all until the horizon, from where
        on every insert has come back (each one ends after finitely many retries). */
    method RunWithRate(ready: nat -> set<nat>, ghost horizon: nat) returns (end: RunEnd)
      requires c.Valid() && Now(Opening) == PRODUCER_START
      requires forall i: nat, f: nat :: i >= horizon && f < c.batches ==> f in ready(i)
      modifies this
      ensures Steps(c, PRODUCER_START, Now(AfterRun(end)))
      ensures end.Completed? <==> c.Sound() && NoneFail(c)
      ensures end.Completed? ==> |queue| == c.batches / c.batchRate && sigIdx == c.batches % c.batchRate
      ensures end.InsertFailed? ==> !NoneFail(c) && LastIs(queue, Abort)
      ensures end.Crashed? ==> !c.Sound() && forall k :: 0 <= k < |queue| ==> queue[k] == Progress
    {
      ghost var opening := Now(Opening);
      NoSteps(c, PRODUCER_START);
      OneMoreStep(c, PRODUCER_START, opening, Connect(c, opening));
      if !c.opens {
        AtTheEnd(c, Now(Died));
        return Crashed;
      }
      var i := 0;
      while true
        invariant Steps(c, PRODUCER_START, Now(Round))
        invariant submitted <= c.batches && forall f :: f in executing ==> f < submitted
        decreases 2 * (c.batches - submitted) + (if i < horizon then horizon - i else 0)
                  + (if |executing| > MAX_EXECUTING then 1 else 0)
      {
        ghost var entered := Now(Round);
        OneMoreStep(c, PRODUCER_START, entered, Enter(c, entered));
        if |executing| <= MAX_EXECUTING {
          ghost var submitting := Now(Submitting(c.batchRate));
          var submission := SubmitByRate();
          MoreSteps(c, PRODUCER_START, submitting, Now(AfterSubmit(submission)));
          if submission.Raised? {
            AtTheEnd(c, Now(Died));
            return Crashed;
          }
          if submission.Exhausted? {
            break;
          }
        }
        ghost var waiting := Now(Waiting(false));
        StepsInv(c, waiting);
        var ok := CheckAndSendSignal(false, ready(i));
        MoreSteps(c, PRODUCER_START, waiting, Now(if !ok then Aborted else Round));
        if !ok {
          AtTheEnd(c, Now(Aborted));
          return InsertFailed;
        }
        assert i >= horizon ==> executing == {};
        i := i + 1;
      }
      StepsInv(c, Now(Draining));
      end := DrainFutures(i, ready, horizon);
    }

    /** The loop that waits for what is left. */
    method DrainFutures(first: nat, ready: nat -> set<nat>, ghost horizon: nat) returns (end: RunEnd)
      requires c.Valid() && Steps(c, PRODUCER_START, Now(Draining))
      requires submitted == c.batches && forall f :: f in executing ==> f < submitted
      requires forall i: nat, f: nat :: i >= horizon && f < c.batches ==> f in ready(i)
      modifies this`executing, this`sigIdx, this`queue, this`reaped
      ensures Steps(c, PRODUCER_START, Now(AfterRun(end)))
      ensures end.Completed? <==> c.Sound() && NoneFail(c)
      ensures end.Completed? ==> |queue| == c.batches / c.batchRate && sigIdx == c.batches % c.batchRate
      ensures end.InsertFailed? ==> !NoneFail(c) && LastIs(queue, Abort)
      ensures !end.Crashed?
    {
      var i := first;
      while executing != {}
        invariant Steps(c, PRODUCER_START, Now(Draining))
        invariant submitted == c.batches && forall f :: f in executing ==> f < submitted
        decreases if i < horizon then horizon - i else 0, executing != {}
      {
        ghost var draining := Now(Draining);
        OneMoreStep(c, PRODUCER_START, draining, Drain(draining));
        ghost var waiting := Now(Waiting(true));
        var ok := CheckAndSendSignal(true, ready(i));
        MoreSteps(c, PRODUCER_START, waiting, Now(if !ok then Aborted else Draining));
        if !ok {
          AtTheEnd(c, Now(Aborted));
          return InsertFailed;
        }
        i := i + 1;
      }
      OneMoreStep(c, PRODUCER_START, Now(Draining), Drain(Now(Draining)));
      AtTheEnd(c, Now(Ended));
      end := Completed;
    }
  }

  lemma AtTheEnd(c: Config, q: Producer)
    requires c.Valid() && Steps(c, PRODUCER_START, q)
    ensures q.phase.Ended? ==> NoneFail(c) && c.Sound()
    ensures q.phase.Ended? ==> |q.posted| == c.batches / c.batchRate && q.sigIdx == c.batches % c.batchRate
    ensures q.phase.Aborted? ==> !NoneFail(c) && LastIs(q.posted, Abort)
    ensures q.phase.Died? ==> !c.Sound() && forall k :: 0 <= k < |q.posted| ==> q.posted[k] == Progress
  {
    StepsInv(c, q);
    StepsAreReachable(c, q);
    if q.phase.Ended? {
      TokensAtEnd(c, State(q, CONSUMER_START));
    }
  }

  // ---- the search loop ----

  /** Reading the queue the insert process leaves waits for ever exactly if no closing or abnormal token is on
      it, and fewer tokens than the last stage needs. With as many rows as declared that takes a process
      that died. */
  lemma FinalQueueSuffices(c: Config, q: Producer, volume: nat, batchSize: nat, rate: nat, stages: seq<real>)
    requires FromCase(c, volume, batchSize, rate, stages) && Steps(c, PRODUCER_START, q)
    requires q.phase.Ended? || q.phase.Aborted? || q.phase.Died?
    ensures AllButLastProgress(q.posted)
    ensures SearchEndOf(q.posted, c.targets).StillWaiting?
            <==> AllProgress(q.posted) && |c.targets| > 0 && |q.posted| < c.targets[|c.targets| - 1]
    ensures EnoughRows(c, volume, batchSize) && SearchEndOf(q.posted, c.targets).StillWaiting? ==> q.phase.Died?
  {
    CaseIsValid(c, volume, batchSize, rate, stages);
    AtTheEnd(c, q);
    StepsInv(c, q);
    assert AllProgress(q.posted) <==> ProgressCount(q.posted) == |q.posted|;
    if EnoughRows(c, volume, batchSize) {
      EnoughTokens(c, volume, batchSize, rate, stages);
    }
  }

  datatype Wait = Reached | Closed | Blocked

  /** wait_next_target: count progress tokens up to the target; Closed on any other token, Blocked in
      q.get() when no token is left. */
  method WaitNextTarget(tokens: seq<Token>, taken: nat, start: nat, target: nat) returns (r: Wait, took: nat)
    requires taken == start <= |tokens| && AllButLastProgress(tokens)
    requires forall i :: 0 <= i < taken ==> tokens[i] == Progress
    ensures took <= |tokens|
    ensures r.Reached? <==> start >= target || target <= ProgressCount(tokens)
    ensures r.Reached? ==> took == (if start <= target then target else start)
    ensures r.Reached? ==> forall i :: 0 <= i < took ==> tokens[i] == Progress
    ensures r.Closed? <==> ProgressCount(tokens) < |tokens| <= target && start < target
    ensures r.Blocked? ==> took == |tokens| < target && ProgressCount(tokens) == |tokens|
  {
    took := taken;
    var count := start;
    while count < target
      invariant count == took <= |tokens| && start <= count && (start <= target ==> count <= target)
      invariant start > target ==> count == start
      invariant forall i :: 0 <= i < took ==> tokens[i] == Progress
      decreases target - count
    {
      if took == |tokens| {
        return Blocked, took;
      }
      var sig := tokens[took];
      took := took + 1;
      if sig == Abort || sig == Closing {
        return Closed, took;
      }
      count := count + 1;
    }
    r := Reached;
  }

  /** run_search_by_sig on the tokens that will ever be posted. The searches themselves may fail without
      ending the loop. */
  method RunSearchBySig(tokens: seq<Token>, targets: seq<nat>) returns (end: SearchEnd, result: seq<nat>)
    requires AllButLastProgress(tokens)
    requires forall i, j :: 0 <= i < j < |targets| ==> targets[i] <= targets[j]
    ensures end == SearchEndOf(tokens, targets)
    ensures result == if end.Reported? then seq(|targets|, i => i) else []
  {
    var searched := [];
    var startBatch, taken := 0, 0;
    var idx := 0;
    while idx < |targets|
      invariant 0 <= idx <= |targets| && searched == seq(idx, i => i)
      invariant taken == startBatch <= |tokens| && startBatch == if idx == 0 then 0 else targets[idx - 1]
      invariant forall i :: 0 <= i < taken ==> tokens[i] == Progress
    {
      var got;
      got, taken := WaitNextTarget(tokens, taken, startBatch, targets[idx]);
      assert targets[idx] <= targets[|targets| - 1];
      match got {
        case Closed => return NoResult, [];
        case Blocked =>
          assert forall k :: 0 <= k < idx ==> targets[k] <= startBatch;
          return StillWaiting(idx), [];
        case Reached =>
      }
      searched := searched + [idx];
      startBatch := targets[idx];
      idx := idx + 1;
    }
    while taken < |tokens| {
      taken := taken + 1;
    }
    end, result := Reported, searched;
  }
}
