/** The loader's own code: what one of its workers runs while the other workers move as they like. Each
    method is shown to take steps of the loading protocol, so the protocol's guarantees apply. */
module ConcurrentRunner {
  import opened Util
  import opened ConcurrentLoad
  import opened LoadGuarantees

  /** The database: what it answers to each call, in call order. */
  class Client {
    const answers: nat -> Outcome
    var calls: nat

    constructor (answers: nat -> Outcome)
      ensures this.answers == answers && calls == 0
    {
      this.answers, calls := answers, 0;
    }

    method Insert() returns (o: Outcome)
      modifies this
      ensures calls == old(calls) + 1 && o == answers(old(calls))
    {
      o := answers(calls);
      calls := calls + 1;
    }
  }

  // ---- the other workers ----

  ghost predicate OtherNext(c: Config, me: nat, s: State, t: State) {
    Shape(c, s) && exists v: nat :: v != me && WorkerNext(c, s, t, v)
  }

  ghost predicate IsOthersPath(c: Config, me: nat, path: seq<State>) {
    |path| > 0 && forall i :: 0 <= i < |path| - 1 ==> OtherNext(c, me, path[i], path[i + 1])
  }

  ghost predicate OthersReach(c: Config, me: nat, s: State, t: State) {
    exists path :: IsOthersPath(c, me, path) && path[0] == s && path[|path| - 1] == t
  }

  /** What the other workers do: at any moment, until a lock that one of them holds is free, and until all
      of them are done. The numbers tell the moments apart. */
  datatype Others = Others(move: (nat, State) -> State, release: (nat, State) -> State, finish: State -> State)

  ghost predicate Legal(c: Config, me: nat, o: Others) {
    && (forall k, s :: Reachable(c, s) ==> OthersReach(c, me, s, o.move(k, s)))
    && (forall k, s :: Reachable(c, s) && s.lock != Some(me) ==>
          OthersReach(c, me, s, o.release(k, s)) && o.release(k, s).lock.None?)
    && (forall s :: Reachable(c, s) && me < |s.pcs| && (s.pcs[me].Returned? || s.pcs[me].Raised?) ==>
          OthersReach(c, me, s, o.finish(s)) && AllDone(o.finish(s)))
  }

  /** The others never touch what belongs to one worker, and never take a batch back. */
  ghost predicate KeepsMine(s: State, t: State, me: nat) {
    && me < |s.pcs| == |t.pcs| == |s.totals| == |t.totals| == |s.completed| == |t.completed|
    && t.pcs[me] == s.pcs[me] && t.totals[me] == s.totals[me] && t.completed[me] == s.completed[me]
    && |s.pulled| <= |t.pulled| && (s.stop ==> t.stop) && (s.source.broken ==> t.source.broken)
  }

  lemma OtherKeepsMine(c: Config, me: nat, s: State, t: State)
    requires TriesBounded(s.pcs) && me < c.workers && OtherNext(c, me, s, t)
    ensures KeepsMine(s, t, me)
  {
    var v: nat :| v != me && WorkerNext(c, s, t, v);
    StepShape(c, s, t, v);
    if s.pcs[v].Inserting? {
      var answer :| IsAnswer(c, s, t, v, answer);
    }
  }

  lemma {:induction false} OthersKeepMine(c: Config, me: nat, path: seq<State>)
    requires IsOthersPath(c, me, path) && Reachable(c, path[0]) && me < c.workers
    ensures Reachable(c, path[|path| - 1]) && KeepsMine(path[0], path[|path| - 1], me)
  {
    EachBatchOnce(c, path[0]);
    assert KeepsMine(path[0], path[0], me) by { ReachableInv(c, path[0]); }
    if |path| > 1 {
      var front, s, t := path[..|path| - 1], path[|path| - 2], path[|path| - 1];
      OthersKeepMine(c, me, front);
      assert front[|front| - 1] == s && OtherNext(c, me, s, t);
      EachBatchOnce(c, s);
      OtherKeepsMine(c, me, s, t);
      var v: nat :| v != me && WorkerNext(c, s, t, v);
      ReachableStep(c, s, t, v);
    }
  }

  lemma ReachableStep(c: Config, s: State, t: State, w: nat)
    requires Reachable(c, s) && Shape(c, s) && WorkerNext(c, s, t, w)
    ensures Reachable(c, t)
  {
    var run :| IsRun(c, run) && run[|run| - 1] == s;
    assert Next(c, s, t);
    assert IsRun(c, run + [t]);
  }

  // ---- that is not asking too much of them ----

  lemma OthersStand(c: Config, me: nat, s: State)
    ensures OthersReach(c, me, s, s)
  {
    assert IsOthersPath(c, me, [s]);
  }

  lemma OthersThen(c: Config, me: nat, s: State, t: State, u: State)
    requires OtherNext(c, me, s, t) && OthersReach(c, me, t, u)
    ensures OthersReach(c, me, s, u)
  {
    var path :| IsOthersPath(c, me, path) && path[0] == t && path[|path| - 1] == u;
    assert IsOthersPath(c, me, [s] + path);
  }

  /** A lock that another worker holds can be given back without this one moving. */
  lemma OthersCanRelease(c: Config, me: nat, s: State) returns (t: State)
    requires Reachable(c, s) && s.lock != Some(me)
    ensures OthersReach(c, me, s, t) && t.lock.None?
  {
    ReachableInv(c, s);
    t := s;
    OthersStand(c, me, s);
    if s.lock.Some? {
      LockIsHeld(c, s);
      var v: nat :| v < |s.pcs| && (s.pcs[v].Holding? || s.pcs[v].Armed?);
      t := OwnerReleases(c, me, s, v);
    }
  }

  lemma OwnerReleases(c: Config, me: nat, s: State, v: nat) returns (t: State)
    requires Inv(c, s) && v < |s.pcs| && v != me && (s.pcs[v].Holding? || s.pcs[v].Armed?)
    ensures OthersReach(c, me, s, t) && t.lock.None?
    decreases s.pcs[v].Holding?
  {
    if s.pcs[v].Holding? && !s.stop {
      var a := At(s, v, Armed);
      assert WorkerNext(c, s, a, v);
      StepKeepsInv(c, s, a);
      t := OwnerReleases(c, me, a, v);
      OthersThen(c, me, s, a, t);
    } else {
      t := if s.pcs[v].Armed? then PullStep(c, s, v) else At(s, v, Returned).(lock := None);
      assert WorkerNext(c, s, t, v);
      OthersStand(c, me, t);
      OthersThen(c, me, s, t, t);
    }
  }

  lemma OneOtherMoves(c: Config, me: nat, s: State) returns (t: State)
    requires Reachable(c, s) && me < |s.pcs| && (s.pcs[me].Returned? || s.pcs[me].Raised?) && !AllDone(s)
    ensures OtherNext(c, me, s, t) && Reachable(c, t)
    ensures me < |t.pcs| && t.pcs[me] == s.pcs[me]
  {
    EachBatchOnce(c, s);
    NoDeadlock(c, s);
    t :| Next(c, s, t);
    var w: nat :| WorkerNext(c, s, t, w);
    ReachableStep(c, s, t, w);
    assert OtherNext(c, me, s, t);
    OtherKeepsMine(c, me, s, t);
  }

  lemma MeasureNonNegative(c: Config, s: State)
    requires Reachable(c, s)
    ensures TriesBounded(s.pcs) && 0 <= Measure(c, s)
  {
    EachBatchOnce(c, s);
    SumNonNegative(Weights(s.pcs));
  }

  lemma MeasureFalls(c: Config, s: State, t: State)
    requires Reachable(c, s) && Reachable(c, t) && Next(c, s, t)
    ensures TriesBounded(s.pcs) && TriesBounded(t.pcs) && 0 <= Measure(c, t) < Measure(c, s)
  {
    MeasureNonNegative(c, s);
    MeasureNonNegative(c, t);
    StepLowersMeasure(c, s, t);
  }

  /** Once a worker is done the others can get done too. */
  lemma OthersCanFinish(c: Config, me: nat, s: State, bound: nat) returns (t: State)
    requires Reachable(c, s) && me < |s.pcs| && (s.pcs[me].Returned? || s.pcs[me].Raised?)
    requires TriesBounded(s.pcs) && Measure(c, s) <= bound
    ensures OthersReach(c, me, s, t) && AllDone(t)
    decreases bound
  {
    t := s;
    OthersStand(c, me, s);
    if !AllDone(s) {
      var n := OneOtherMoves(c, me, s);
      MeasureFalls(c, s, n);
      t := OthersCanFinish(c, me, n, bound - 1);
      OthersThen(c, me, s, n, t);
    }
  }

  ghost function SomeRelease(c: Config, me: nat, s: State): State {
    if t :| OthersReach(c, me, s, t) && t.lock.None? then t else s
  }

  ghost function SomeFinish(c: Config, me: nat, s: State): State {
    if t :| OthersReach(c, me, s, t) && AllDone(t) then t else s
  }

  ghost function SomeOthers(c: Config, me: nat): Others {
    Others((k: nat, s: State) => s, (k: nat, s: State) => SomeRelease(c, me, s), (s: State) => SomeFinish(c, me, s))
  }

  /** There are such others for every load and every worker. */
  lemma LegalOthersExist(c: Config, me: nat)
    ensures Legal(c, me, SomeOthers(c, me))
  {
    forall s | Reachable(c, s)
      ensures OthersReach(c, me, s, s)
      ensures s.lock != Some(me) ==> OthersReach(c, me, s, SomeRelease(c, me, s)) && SomeRelease(c, me, s).lock.None?
      ensures me < |s.pcs| && (s.pcs[me].Returned? || s.pcs[me].Raised?) ==>
                OthersReach(c, me, s, SomeFinish(c, me, s)) && AllDone(SomeFinish(c, me, s))
    {
      OthersStand(c, me, s);
      if s.lock != Some(me) {
        var t := OthersCanRelease(c, me, s);
      }
      if me < |s.pcs| && (s.pcs[me].Returned? || s.pcs[me].Raised?) {
        MeasureNonNegative(c, s);
        var t := OthersCanFinish(c, me, s, Measure(c, s));
      }
    }
  }

  lemma FinishedWhole(c: Config, s: State)
    requires Reachable(c, s) && AllDone(s) && NoMore(c, s) && !SomeRaised(s.pcs)
    ensures |s.pulled| == |c.sizes| && (Truthful(c, s) && c.workers > 0 ==> Sum(s.totals) == Sum(c.sizes))
  {
    ReachableInv(c, s);
    assert !SomeBreaking(s.pcs);
    if c.workers > 0 {
      CountIsRows(c, s);
      assert c.sizes[..|c.sizes|] == c.sizes;
    }
  }

  lemma PulledWithin(c: Config, s: State)
    requires Reachable(c, s)
    ensures |s.pulled| <= |c.sizes|
  {
    ReachableInv(c, s);
  }

  // ---- one worker among them ----

  /** Why a worker may stop asking for batches, other than that the deadline has passed. */
  ghost predicate NoMore(c: Config, s: State) {
    s.stop || s.source.broken || |s.pulled| == |c.sizes|
  }

  datatype Pulled = Batch(index: nat) | Nothing | IteratorRaised

  datatype TurnEnd = Did(rows: nat) | Stopped | Failed(error: string)

  /** The deadline had not passed when any of the first n batches was asked for. */
  ghost predicate InTime(deadline: nat -> bool, n: nat) {
    forall i: nat :: i < n ==> !deadline(i)
  }

  function AfterPull(r: Pulled): Pc {
    match r
    case Batch(b) => Inserting(b, 0)
    case Nothing => Returned
    case IteratorRaised => Breaking
  }

  /** What the retries of one batch come to, from the given call and number of tries on: how many calls have
      been made then, and the rows reported, if any try went through. */
  function Attempts(answers: nat -> Outcome, call: nat, tries: nat): (nat, Option<nat>)
    requires tries <= MAX_INSERT_RETRY
    decreases MAX_INSERT_RETRY - tries
  {
    match answers(call)
    case Inserted(rows) => (call + 1, Some(rows))
    case Fatal => (call + 1, None)
    case Retryable => if tries < MAX_INSERT_RETRY then Attempts(answers, call + 1, tries + 1) else (call + 1, None)
  }

  /** A batch is tried until a try goes through, is refused for good, or is the last one allowed. */
  lemma {:induction false} AttemptsEnd(answers: nat -> Outcome, call: nat, tries: nat)
    requires tries <= MAX_INSERT_RETRY
    ensures var (next, rows) := Attempts(answers, call, tries);
            && call < next <= call + (MAX_INSERT_RETRY + 1 - tries)
            && (forall i: nat :: call <= i < next - 1 ==> answers(i) == Retryable)
            && (rows.Some? <==> answers(next - 1).Inserted?)
            && (rows.Some? ==> answers(next - 1) == Inserted(rows.value))
            && (answers(next - 1) == Retryable ==> next == call + (MAX_INSERT_RETRY + 1 - tries))
    decreases MAX_INSERT_RETRY - tries
  {
    if answers(call) == Retryable && tries < MAX_INSERT_RETRY {
      AttemptsEnd(answers, call + 1, tries + 1);
    }
  }

  class ConcurrentInsertRunner {
    const c: Config
    const me: nat
    const others: Others
    /** What the workers share, and what each of them holds. */
    var s: State
    var moment: nat

    ghost predicate Valid()
      reads this
    {
      me < c.workers && Legal(c, me, others) && Reachable(c, s) && Shape(c, s)
    }

    constructor (c: Config, me: nat, others: Others)
      requires me < c.workers && Legal(c, me, others)
      ensures this.c == c && this.me == me && this.others == others && Valid() && s == Start(c)
    {
      this.c, this.me, this.others, s, moment := c, me, others, Start(c), 0;
      new;
      assert IsRun(c, [s]);
    }

    /** One step of this worker, then any steps of the others. */
    method Step(t: State)
      requires Valid() && WorkerNext(c, s, t, me) && Shape(c, t)
      modifies this
      ensures Valid() && KeepsMine(t, s, me)
    {
      ReachableStep(c, s, t, me);
      s := others.move(moment, t);
      moment := moment + 1;
      ghost var path :| IsOthersPath(c, me, path) && path[0] == t && path[|path| - 1] == s;
      OthersKeepMine(c, me, path);
      ReachableInv(c, s);
    }

    /** Waiting for the lock. */
    method AwaitLock()
      requires Valid() && s.pcs[me].Wanting?
      modifies this
      ensures Valid() && KeepsMine(old(s), s, me) && s.lock.None?
    {
      ReachableInv(c, s);
      ghost var before := s;
      s := others.release(moment, s);
      moment := moment + 1;
      ghost var path :| IsOthersPath(c, me, path) && path[0] == before && path[|path| - 1] == s;
      OthersKeepMine(c, me, path);
      ReachableInv(c, s);
    }

    /** next() on the iterator, or the batch fetched ahead; the lock is released on the way out. */
    method PullBatch() returns (r: Pulled)
      requires Valid() && s.pcs[me].Armed?
      modifies this
      ensures Valid() && s.totals[me] == old(s.totals[me]) && s.completed[me] == old(s.completed[me])
      ensures s.pcs[me] == AfterPull(r)
      ensures r.Batch? ==> |old(s.pulled)| <= r.index < |s.pulled|
      ensures |old(s.pulled)| <= |s.pulled|
      ensures r.Nothing? ==> NoMore(c, s)
    {
      ReachableInv(c, s);
      NextInOrder(c, s);
      r := if Breaks(c, s.source) then IteratorRaised
           else match Pull(c, s.source).0
                case None => Nothing
                case Some(b) => Batch(b);
      Step(PullStep(c, s, me));
      PulledWithin(c, s);
    }

    /** The body of the lock's with statement. */
    method TakeUnderLock() returns (r: Pulled)
      requires Valid() && s.pcs[me].Holding?
      modifies this
      ensures Valid() && s.totals[me] == old(s.totals[me]) && s.completed[me] == old(s.completed[me])
      ensures s.pcs[me] == AfterPull(r)
      ensures r.Batch? ==> |old(s.pulled)| <= r.index < |s.pulled|
      ensures old(s.stop) ==> r.Nothing?
      ensures |old(s.pulled)| <= |s.pulled|
      ensures r.Nothing? ==> NoMore(c, s)
    {
      if s.stop {
        Step(At(s, me, Returned).(lock := None));
        return Nothing;
      }
      Step(At(s, me, Armed));
      r := PullBatch();
    }

    /** _next_vector_batch and _next_fts_batch. */
    method NextBatch(deadlinePassed: bool) returns (r: Pulled)
      requires Valid() && s.pcs[me].Ready? && (deadlinePassed ==> c.deadline)
      modifies this
      ensures Valid() && s.totals[me] == old(s.totals[me]) && s.completed[me] == old(s.completed[me])
      ensures s.pcs[me] == AfterPull(r)
      ensures r.Batch? ==> |old(s.pulled)| <= r.index < |s.pulled|
      ensures old(s.stop) || deadlinePassed ==> r.Nothing?
      ensures |old(s.pulled)| <= |s.pulled|
      ensures r.Nothing? ==> deadlinePassed || NoMore(c, s)
    {
      if s.stop || deadlinePassed {
        Step(At(s, me, Returned));
        return Nothing;
      }
      Step(At(s, me, Wanting));
      AwaitLock();
      Step(At(s, me, Holding).(lock := Some(me)));
      r := TakeUnderLock();
    }

    /** One call of the database, during which the others move, and its answer. */
    method Ask(client: Client, batch: nat, ghost tries: nat) returns (answer: Outcome)
      requires Valid() && s.pcs[me] == Inserting(batch, tries)
      modifies this, client
      ensures Valid() && client.calls == old(client.calls) + 1 && answer == client.answers(old(client.calls))
      ensures |old(s.pulled)| <= |s.pulled|
      ensures s.pcs[me] == if answer.Inserted? then Ready
                           else if answer.Retryable? && tries + 1 <= MAX_INSERT_RETRY then Inserting(batch, tries + 1)
                           else Failing(batch)
      ensures s.totals[me] == old(s.totals[me]) + if answer.Inserted? then answer.rows else 0
      ensures s.completed[me] == old(s.completed[me]) + if answer.Inserted? then 1 else 0
    {
      answer := client.Insert();
      ReachableInv(c, s);
      ghost var t := AnswerStep(c, s, me, answer);
      assert IsAnswer(c, s, t, me, answer);
      Step(AnswerStep(c, s, me, answer));
    }

    method InsertBatchWithRetry(client: Client, retryIdx: nat, batch: nat) returns (r: Option<nat>)
      requires Valid() && s.pcs[me] == Inserting(batch, retryIdx) && retryIdx <= MAX_INSERT_RETRY
      modifies this, client
      ensures Valid() && |old(s.pulled)| <= |s.pulled|
      ensures s.pcs[me] == if r.Some? then Ready else Failing(batch)
      ensures s.totals[me] == old(s.totals[me]) + if r.Some? then r.value else 0
      ensures s.completed[me] == old(s.completed[me]) + if r.Some? then 1 else 0
      ensures (client.calls, r) == Attempts(client.answers, old(client.calls), retryIdx)
      decreases MAX_INSERT_RETRY + 1 - retryIdx
    {
      var answer := Ask(client, batch, retryIdx);
      match answer {
        case Inserted(rows) => r := Some(rows);
        case Fatal => r := None;
        case Retryable =>
          r := None;
          if retryIdx + 1 <= MAX_INSERT_RETRY {
            r := InsertBatchWithRetry(client, retryIdx + 1, batch);
          }
      }
    }

    /** The exception handler of the worker loop. */
    method Raise()
      requires Valid() && (s.pcs[me].Failing? || s.pcs[me].Breaking?)
      modifies this
      ensures Valid() && s.pcs[me] == Raised && s.stop && s.completed[me] == old(s.completed[me])
    {
      ReachableInv(c, s);
      if s.pcs[me].Breaking? {
        Step(At(s, me, Raised).(stop := true));
      } else {
        Step(RaiseStep(c, s, me));
      }
    }

    /** _worker_insert, and the handler if it raises. */
    method InsertOrRaise(client: Client, batch: nat) returns (r: Option<nat>)
      requires Valid() && s.pcs[me] == Inserting(batch, 0)
      modifies this, client
      ensures Valid() && s.completed[me] == old(s.completed[me]) + if r.Some? then 1 else 0
      ensures r.None? ==> s.pcs[me] == Raised && s.stop
      ensures r.Some? ==> s.pcs[me] == Ready && s.totals[me] == old(s.totals[me]) + r.value
      ensures r.Some? ==> |old(s.pulled)| <= |s.pulled|
    {
      r := InsertBatchWithRetry(client, 0, batch);
      if r.None? {
        Raise();
      }
    }

    /** Ready for another batch, with so many rows and batches to its name. */
    ghost predicate ReadyWith(total: nat, asked: nat)
      reads this
    {
      Valid() && s.pcs[me].Ready? && s.totals[me] == total && s.completed[me] == asked && |s.pulled| <= |c.sizes|
    }

    /** Done with so many batches: returned its total, or raised with the stop flag set. */
    ghost predicate DoneWith(r: Result<nat, string>, asked: nat)
      reads this
    {
      && Valid() && s.completed[me] == asked
      && match r
         case Ok(total) => s.pcs[me] == Returned && s.totals[me] == total
         case Err(_) => s.pcs[me] == Raised && s.stop
    }

    /** One turn of the worker loop. */
    method Turn(client: Client, deadlinePassed: bool, ghost total: nat, ghost asked: nat) returns (t: TurnEnd)
      requires ReadyWith(total, asked) && (deadlinePassed ==> c.deadline)
      modifies this, client
      ensures Valid()
      ensures t.Did? ==> ReadyWith(total + t.rows, asked + 1) && |old(s.pulled)| < |s.pulled| && !deadlinePassed
      ensures t.Stopped? ==> DoneWith(Ok(total), asked) && (deadlinePassed || NoMore(c, s))
      ensures t.Failed? ==> DoneWith(Err(t.error), asked)
    {
      var batch := NextBatch(deadlinePassed);
      match batch {
        case Nothing =>
          t := Stopped;
        case IteratorRaised =>
          Raise();
          t := Failed("dataset iterator failed");
        case Batch(index) =>
          var inserted := InsertOrRaise(client, index);
          t := if inserted.Some? then Did(inserted.value) else Failed("insert failed");
          PulledWithin(c, s);
      }
    }

    /** deadline(i): the deadline has passed when the i-th batch is asked for. */
    method WorkerLoop(client: Client, deadline: nat -> bool) returns (r: Result<nat, string>)
      requires ReadyWith(0, 0) && (c.deadline || forall i :: !deadline(i))
      modifies this, client
      ensures Valid() && DoneWith(r, s.completed[me])
      ensures r.Ok? ==> NoMore(c, s) || deadline(s.completed[me])
      ensures InTime(deadline, s.completed[me])
    {
      var total: nat, asked: nat := 0, 0;
      while true
        invariant ReadyWith(total, asked) && InTime(deadline, asked)
        decreases |c.sizes| - |s.pulled|
      {
        var turn := Turn(client, deadline(asked), total, asked);
        match turn {
          case Stopped => return Ok(total);
          case Failed(error) => return Err(error);
          case Did(rows) => total, asked := total + rows, asked + 1;
        }
      }
    }

    /** executor.wait_all(). What made this worker stop still holds then. */
    method WaitAll()
      requires Valid() && (s.pcs[me].Returned? || s.pcs[me].Raised?)
      modifies this
      ensures Valid() && AllDone(s)
      ensures NoMore(c, old(s)) ==> NoMore(c, s)
      ensures s.completed[me] == old(s.completed[me])
    {
      ghost var before := s;
      s := others.finish(s);
      ghost var path :| IsOthersPath(c, me, path) && path[0] == before && path[|path| - 1] == s;
      OthersKeepMine(c, me, path);
      ReachableInv(c, s);
    }

    /** The results of the futures: the first error, or the sum. */
    method CollectResults() returns (r: Result<int, string>)
      requires Valid()
      ensures r == TaskResult(s)
    {
      var i := 0;
      while i < |s.pcs|
        invariant 0 <= i <= |s.pcs| && forall w :: 0 <= w < i ==> !s.pcs[w].Raised?
      {
        if s.pcs[i].Raised? {
          return Err("insert failed");
        }
        i := i + 1;
      }
      r := Ok(Sum(s.totals));
    }

    /** task(), seen from one of its workers: it raises when any worker raised, else it returns the sum of
        what the workers return. */
    method Task(client: Client, deadline: nat -> bool) returns (r: Result<int, string>)
      requires ReadyWith(0, 0) && (c.deadline || forall i :: !deadline(i))
      modifies this, client
      ensures Valid() && AllDone(s) && r == TaskResult(s)
      ensures InTime(deadline, s.completed[me])
      ensures r.Err? <==> SomeLost(s.status) || s.source.broken
      ensures r.Ok? ==> r.value == Sum(Reported(s.status)) && |s.pulled| <= |c.sizes|
      ensures r.Ok? && Truthful(c, s) ==> r.value == Sum(c.sizes[..|s.pulled|])
      ensures r.Ok? && (forall i :: !deadline(i)) ==> |s.pulled| == |c.sizes|
      ensures r.Ok? && (forall i :: !deadline(i)) && Truthful(c, s) ==> r.value == Sum(c.sizes)
    {
      var mine := WorkerLoop(client, deadline);
      WaitAll();
      r := CollectResults();
      CountIsRows(c, s);
      if !SomeRaised(s.pcs) && NoMore(c, s) {
        FinishedWhole(c, s);
      }
    }
  }
}
