/** What the concurrent loader guarantees under every interleaving of its workers. */
module LoadGuarantees {
  import opened Util
  import opened ConcurrentLoad

  /** Batches are pulled in dataset order without gaps, every pulled batch is with exactly one
      worker, loaded or lost, and no two workers ever work on the same batch. */
  lemma EachBatchOnce(c: Config, s: State)
    requires Reachable(c, s)
    ensures |s.pulled| <= |c.sizes| && forall i :: 0 <= i < |s.pulled| ==> s.pulled[i] == i
    ensures |s.status| == |c.sizes| && |s.pcs| == c.workers
    ensures forall b :: 0 <= b < |c.sizes| ==> (s.status[b].Unread? <==> b >= |s.pulled|)
    ensures forall b, w :: 0 <= b < |c.sizes| && 0 <= w < c.workers ==>
              (s.status[b] == InFlight(w) <==> BatchOf(s.pcs[w]) == Some(b))
    ensures forall v, w :: 0 <= v < w < c.workers && BatchOf(s.pcs[v]).Some? ==>
              BatchOf(s.pcs[v]) != BatchOf(s.pcs[w])
    ensures forall w :: 0 <= w < c.workers && s.pcs[w].Inserting? ==> s.pcs[w].tries <= MAX_INSERT_RETRY
  {
    ReachableInv(c, s);
  }

  ghost predicate AllDone(s: State) {
    forall w :: 0 <= w < |s.pcs| ==> s.pcs[w].Returned? || s.pcs[w].Raised?
  }

  /** task(): raise the first error, else the sum of the workers' totals. */
  ghost function TaskResult(s: State): Result<int, string> {
    if SomeRaised(s.pcs) then Err("insert failed") else Ok(Sum(s.totals))
  }

  ghost predicate Truthful(c: Config, s: State) {
    forall b :: 0 <= b < |s.status| && b < |c.sizes| && s.status[b].Loaded? ==> s.status[b].rows == c.sizes[b]
  }

  lemma {:induction false} ReportedPrefix(c: Config, s: State, n: nat)
    requires |s.status| == |c.sizes| && Truthful(c, s) && n <= |s.status|
    requires forall b :: 0 <= b < n ==> s.status[b].Loaded?
    requires forall b :: n <= b < |s.status| ==> !s.status[b].Loaded?
    ensures Sum(Reported(s.status)) == Sum(c.sizes[..n])
  {
    var r := Reported(s.status);
    assert r == c.sizes[..n] + r[n..];
    SumAppend(c.sizes[..n], r[n..]);
    SumZeros(r[n..]);
  }

  /** When all workers are done: the task raises exactly when some batch was lost or the iterator has
      raised, which it does only where it must; otherwise every
      pulled batch is loaded, all batches unless a deadline cut the load, and the count is the sum of
      what the database reported for them. If those reports are right it is the number of rows. */
  lemma CountIsRows(c: Config, s: State)
    requires Reachable(c, s) && AllDone(s) && c.workers > 0
    ensures |s.pulled| <= |c.sizes| && |s.status| == |c.sizes|
    ensures TaskResult(s).Err? <==> SomeLost(s.status) || s.source.broken
    ensures s.source.broken ==> |s.pulled| == c.breaksAt
    ensures !c.deadline && !SomeLost(s.status) ==> (TaskResult(s).Err? <==> c.breaksAt <= |c.sizes|)
    ensures TaskResult(s).Ok? ==>
              && (forall b :: 0 <= b < |s.pulled| ==> s.status[b].Loaded?)
              && (forall b :: |s.pulled| <= b < |c.sizes| ==> s.status[b].Unread?)
              && (!c.deadline ==> |s.pulled| == |c.sizes|)
              && TaskResult(s) == Ok(Sum(Reported(s.status)))
    ensures TaskResult(s).Ok? && Truthful(c, s) ==> TaskResult(s) == Ok(Sum(c.sizes[..|s.pulled|]))
    ensures TaskResult(s).Ok? && Truthful(c, s) && !c.deadline ==> TaskResult(s) == Ok(Sum(c.sizes))
  {
    ReachableInv(c, s);
    assert !SomeBreaking(s.pcs);
    if !SomeRaised(s.pcs) {
      forall b | 0 <= b < |s.pulled| ensures s.status[b].Loaded? {
        assert s.status[b].Lost? ==> SomeLost(s.status);
      }
      if Truthful(c, s) {
        ReportedPrefix(c, s, |s.pulled|);
      }
      assert s.pcs[0].Raised? ==> SomeRaised(s.pcs);
      if !c.deadline {
        assert c.sizes[..|c.sizes|] == c.sizes;
      }
    }
  }

  // ---- after the stop flag is set ----

  function Weight(pc: Pc): nat
    requires pc.Inserting? ==> pc.tries <= MAX_INSERT_RETRY
  {
    match pc
    case Ready => 5
    case Wanting => 4
    case Holding => 3
    case Armed => 2
    case Breaking => 1
    case Inserting(_, tries) => 6 + MAX_INSERT_RETRY - tries
    case Failing(_) => 1
    case Returned => 0
    case Raised => 0
  }

  /** Batches a worker can still complete once the flag is set. */
  function Budget(pc: Pc): nat {
    if pc.Armed? || pc.Inserting? then 1 else 0
  }

  /** Batches all workers together can still pull once the flag is set. */
  ghost function PullsLeft(s: State): nat {
    if exists w :: 0 <= w < |s.pcs| && s.pcs[w].Armed? then 1 else 0
  }

  /** What a step does to the worker that takes it, and that it touches no other worker. */
  lemma StepShape(c: Config, s: State, t: State, w: nat)
    requires Shape(c, s) && WorkerNext(c, s, t, w)
    requires s.pcs[w].Inserting? ==> s.pcs[w].tries <= MAX_INSERT_RETRY
    ensures Shape(c, t) && t.pcs == s.pcs[w := t.pcs[w]] && (s.stop ==> t.stop)
    ensures t.pcs[w].Inserting? ==> t.pcs[w].tries <= MAX_INSERT_RETRY
    ensures if t.pulled == s.pulled then Weight(t.pcs[w]) < Weight(s.pcs[w])
            else s.pcs[w].Armed? && |t.pulled| == |s.pulled| + 1 && t.pcs[w].Inserting? && t.pcs[w].tries == 0
    ensures t.completed == if s.pcs[w].Inserting? && t.pcs[w].Ready? then s.completed[w := s.completed[w] + 1]
                           else s.completed
    ensures s.stop ==> !t.pcs[w].Armed?
    ensures t.lock.Some? ==> t.lock == s.lock || t.lock == Some(w)
  {
    if s.pcs[w].Inserting? {
      var answer :| IsAnswer(c, s, t, w, answer);
    }
  }

  /** What may still be completed, per worker, and pulled, in all, never grows. */
  ghost predicate NoMoreThan(s: State, t: State) {
    && |t.pcs| == |s.pcs| == |s.completed| == |t.completed|
    && (forall w :: 0 <= w < |s.pcs| ==> t.completed[w] + Budget(t.pcs[w]) <= s.completed[w] + Budget(s.pcs[w]))
    && |t.pulled| + PullsLeft(t) <= |s.pulled| + PullsLeft(s)
  }

  lemma StopStep(c: Config, s: State, t: State)
    requires Inv(c, s) && s.stop && Next(c, s, t)
    ensures t.stop && NoMoreThan(s, t)
  {
    var w: nat :| WorkerNext(c, s, t, w);
    StepShape(c, s, t, w);
    ArmedOnlyLoses(s, t, w);
    if t.pulled != s.pulled {
      PullerWasAlone(c, s, t, w);
    }
  }

  lemma PullerWasAlone(c: Config, s: State, t: State, w: nat)
    requires Inv(c, s) && w < c.workers && s.pcs[w].Armed? && |t.pcs| == |s.pcs|
    requires t.pcs == s.pcs[w := t.pcs[w]] && !t.pcs[w].Armed?
    ensures PullsLeft(s) == 1 && PullsLeft(t) == 0
  {
    forall v | 0 <= v < |t.pcs| ensures !t.pcs[v].Armed? {
      assert v != w ==> s.lock == Some(w);
    }
  }

  lemma ArmedOnlyLoses(s: State, t: State, w: nat)
    requires w < |s.pcs| == |t.pcs| && t.pcs == s.pcs[w := t.pcs[w]] && !t.pcs[w].Armed?
    ensures PullsLeft(t) <= PullsLeft(s)
  {
    if v :| 0 <= v < |t.pcs| && t.pcs[v].Armed? {
      assert s.pcs[v].Armed?;
    }
  }

  ghost predicate Path(c: Config, path: seq<State>) {
    |path| > 0 && forall i :: 0 <= i < |path| - 1 ==> Next(c, path[i], path[i + 1])
  }

  lemma {:induction false} PathKeepsInv(c: Config, path: seq<State>)
    requires Path(c, path) && Inv(c, path[0])
    ensures Inv(c, path[|path| - 1])
  {
    if |path| > 1 {
      var front, s, t := path[..|path| - 1], path[|path| - 2], path[|path| - 1];
      assert Path(c, front) && front[0] == path[0];
      PathKeepsInv(c, front);
      assert front[|front| - 1] == s;
      StepKeepsInv(c, s, t);
    }
  }

  lemma NoMoreThanTransitive(r: State, s: State, t: State)
    requires NoMoreThan(r, s) && NoMoreThan(s, t)
    ensures NoMoreThan(r, t)
  {}

  lemma {:induction false} StopPath(c: Config, path: seq<State>)
    requires Path(c, path) && Inv(c, path[0]) && path[0].stop
    ensures path[|path| - 1].stop && NoMoreThan(path[0], path[|path| - 1])
  {
    if |path| > 1 {
      var front := path[..|path| - 1];
      StopPath(c, front);
      assert front[|front| - 1] == path[|path| - 2];
      assert Inv(c, path[|path| - 2]) by { PathKeepsInv(c, front); }
      assert path[|path| - 1].stop && NoMoreThan(path[|path| - 2], path[|path| - 1]) by {
        StopStep(c, path[|path| - 2], path[|path| - 1]);
      }
      NoMoreThanTransitive(path[0], path[|path| - 2], path[|path| - 1]);
    }
  }

  /** From the moment the flag is set, however long the run goes on, every worker completes at
      most one more batch, and all of them together pull at most one more. */
  lemma StopBoundsWork(c: Config, path: seq<State>)
    requires Path(c, path) && Reachable(c, path[0]) && path[0].stop
    ensures var s, t := path[0], path[|path| - 1];
            && |s.completed| == |t.completed| == c.workers
            && (forall w :: 0 <= w < c.workers ==> t.completed[w] <= s.completed[w] + 1)
            && |t.pulled| <= |s.pulled| + 1
  {
    ReachableInv(c, path[0]);
    StopPath(c, path);
  }

  // ---- every run ends ----

  ghost predicate TriesBounded(pcs: seq<Pc>) {
    forall w :: 0 <= w < |pcs| && pcs[w].Inserting? ==> pcs[w].tries <= MAX_INSERT_RETRY
  }

  ghost function Weights(pcs: seq<Pc>): (r: seq<int>)
    requires TriesBounded(pcs)
    ensures |r| == |pcs|
  {
    seq(|pcs|, w requires 0 <= w < |pcs| => Weight(pcs[w]))
  }

  const BATCH_WEIGHT: nat := MAX_INSERT_RETRY + 7

  /** Falls with every step and is never negative. */
  ghost function Measure(c: Config, s: State): int
    requires TriesBounded(s.pcs)
  {
    (|c.sizes| - |s.pulled|) * BATCH_WEIGHT + Sum(Weights(s.pcs))
  }

  lemma {:induction false} SumNonNegative(s: seq<int>)
    requires forall i :: 0 <= i < |s| ==> s[i] >= 0
    ensures Sum(s) >= 0
  {
    if s != [] {
      SumNonNegative(s[..|s| - 1]);
    }
  }

  lemma StepLowersMeasure(c: Config, s: State, t: State)
    requires TriesBounded(s.pcs) && Next(c, s, t)
    ensures TriesBounded(t.pcs) && Measure(c, t) < Measure(c, s)
  {
    var w: nat :| WorkerNext(c, s, t, w);
    StepShape(c, s, t, w);
    WeightChange(s.pcs, w, t.pcs[w]);
  }

  lemma WeightChange(pcs: seq<Pc>, w: nat, pc: Pc)
    requires w < |pcs| && (pc.Inserting? ==> pc.tries <= MAX_INSERT_RETRY)
    requires TriesBounded(pcs)
    ensures TriesBounded(pcs[w := pc])
    ensures Sum(Weights(pcs[w := pc])) == Sum(Weights(pcs)) - Weight(pcs[w]) + Weight(pc)
  {
    SumUpdate(Weights(pcs), w, Weight(pc));
    assert Weights(pcs[w := pc]) == Weights(pcs)[w := Weight(pc)];
  }

  lemma {:induction false} RunIsShort(c: Config, path: seq<State>)
    requires Path(c, path) && TriesBounded(path[0].pcs)
    ensures TriesBounded(path[|path| - 1].pcs)
    ensures |path| - 1 + Measure(c, path[|path| - 1]) <= Measure(c, path[0])
  {
    if |path| > 1 {
      RunIsShort(c, path[..|path| - 1]);
      StepLowersMeasure(c, path[|path| - 2], path[|path| - 1]);
    }
  }

  lemma {:induction false} SumConstant(s: seq<int>, v: int)
    requires forall i :: 0 <= i < |s| ==> s[i] == v
    ensures Sum(s) == |s| * v
  {
    if s != [] {
      SumConstant(s[..|s| - 1], v);
    }
  }

  /** Every run ends: its length is bounded by the configuration alone. */
  lemma EveryRunEnds(c: Config, run: seq<State>)
    requires IsRun(c, run)
    ensures |run| - 1 <= |c.sizes| * BATCH_WEIGHT + 5 * c.workers
  {
    MeasureAtStart(c);
    RunIsShort(c, run);
    RunKeepsInv(c, run);
    MeasureIsNatural(c, run[|run| - 1]);
  }

  lemma MeasureAtStart(c: Config)
    ensures TriesBounded(Start(c).pcs) && Measure(c, Start(c)) == |c.sizes| * BATCH_WEIGHT + 5 * c.workers
  {
    SumConstant(Weights(Start(c).pcs), 5);
  }

  lemma MeasureIsNatural(c: Config, s: State)
    requires Inv(c, s) && TriesBounded(s.pcs)
    ensures Measure(c, s) >= 0
  {
    SumNonNegative(Weights(s.pcs));
  }

  /** And it only ends when all workers are done: there is no deadlock on the lock. */
  lemma NoDeadlock(c: Config, s: State)
    requires Reachable(c, s) && !AllDone(s)
    ensures exists t :: Next(c, s, t)
  {
    ReachableInv(c, s);
    var w: nat :| w < |s.pcs| && !s.pcs[w].Returned? && !s.pcs[w].Raised?;
    if s.pcs[w].Wanting? && s.lock.Some? {
      LockOwnerMoves(c, s);
    } else {
      WorkerMoves(c, s, w);
    }
  }

  lemma WorkerMoves(c: Config, s: State, w: nat)
    requires Inv(c, s) && w < c.workers && !s.pcs[w].Returned? && !s.pcs[w].Raised?
    requires s.pcs[w].Wanting? ==> s.lock.None?
    ensures exists t :: Next(c, s, t)
  {
    var t := match s.pcs[w]
      case Ready => if s.stop then At(s, w, Returned) else At(s, w, Wanting)
      case Wanting => At(s, w, Holding).(lock := Some(w))
      case Holding => if s.stop then At(s, w, Returned).(lock := None) else At(s, w, Armed)
      case Armed => PullStep(c, s, w)
      case Inserting(_, _) => AnswerStep(c, s, w, Fatal)
      case Failing(_) => RaiseStep(c, s, w)
      case Breaking => At(s, w, Raised).(stop := true)
      case _ => s;
    if s.pcs[w].Inserting? {
      assert IsAnswer(c, s, t, w, Fatal);
    }
    assert WorkerNext(c, s, t, w);
    assert Next(c, s, t);
  }

  lemma LockOwnerMoves(c: Config, s: State)
    requires Reachable(c, s) && Inv(c, s) && s.lock.Some?
    ensures exists t :: Next(c, s, t)
  {
    LockIsHeld(c, s);
    var v: nat :| v < |s.pcs| && (s.pcs[v].Holding? || s.pcs[v].Armed?);
    WorkerMoves(c, s, v);
  }

  /** A taken lock belongs to some worker. */
  lemma {:induction false} LockHeldOnRun(c: Config, run: seq<State>)
    requires IsRun(c, run)
    ensures var s := run[|run| - 1]; s.lock.Some? ==> s.lock.value < |s.pcs|
  {
    if |run| > 1 {
      LockHeldOnRun(c, run[..|run| - 1]);
      var s, t := run[|run| - 2], run[|run| - 1];
      assert Next(c, s, t);
      var w: nat :| WorkerNext(c, s, t, w);
      if s.pcs[w].Inserting? {
        var answer :| IsAnswer(c, s, t, w, answer);
      }
    }
  }

  lemma LockIsHeld(c: Config, s: State)
    requires Reachable(c, s) && Inv(c, s) && s.lock.Some?
    ensures exists v: nat :: v < |s.pcs| && (s.pcs[v].Holding? || s.pcs[v].Armed?)
  {
    var run :| IsRun(c, run) && run[|run| - 1] == s;
    LockHeldOnRun(c, run);
    assert s.pcs[s.lock.value].Holding? || s.pcs[s.lock.value].Armed?;
  }
}
