/** The concurrent loader as a protocol: workers share one dataset iterator behind a lock and a
    stop flag that a failing worker sets without holding that lock. */
module ConcurrentLoad {
  import opened Util

  const MAX_INSERT_RETRY: nat := 5

  /** rows of each batch; whether the first batch is fetched ahead (full text); whether a deadline
      may end the load at any moment; breaksAt: asking the iterator for the batch of that number raises.
      A number past the end never comes up. */
  datatype Config = Config(sizes: seq<nat>, workers: nat, prefetch: bool, deadline: bool, breaksAt: nat)

  /** One call of the database client: inserted so many rows, or failed. */
  datatype Outcome = Inserted(rows: nat) | Retryable | Fatal

  datatype Pc =
    | Ready                               // about to ask for the next batch
    | Wanting                             // passed the checks made before taking the lock
    | Holding                             // owns the lock
    | Armed                               // owns the lock and found the stop flag clear
    | Inserting(batch: nat, tries: nat)   // tries failed attempts so far
    | Failing(batch: nat)                 // an exception is on its way to the handler
    | Breaking                            // so is one of the iterator's: no batch was handed out
    | Returned
    | Raised

  /** Who has each batch. */
  datatype Status = Unread | InFlight(worker: nat) | Loaded(worker: nat, rows: nat) | Lost(worker: nat)

  /** The shared iterator with the batch fetched ahead. Once it has raised it is exhausted. */
  datatype Source = Source(next: nat, ahead: Option<nat>, broken: bool)

  datatype State = State(source: Source, lock: Option<nat>, stop: bool, pcs: seq<Pc>, totals: seq<nat>,
                         pulled: seq<nat>, status: seq<Status>, completed: seq<nat>)

  /** An iterator that raises when the first batch is fetched ahead is taken to raise when a worker asks:
      either way the load raises before any batch is inserted. */
  function StartSource(c: Config): Source {
    if c.prefetch && |c.sizes| > 0 && c.breaksAt > 0 then Source(1, Some(0), false) else Source(0, None, false)
  }

  predicate Breaks(c: Config, s: Source) {
    s.ahead.None? && !s.broken && s.next == c.breaksAt
  }

  /** The batch fetched ahead if there is one, else the iterator's next. */
  function Pull(c: Config, s: Source): (Option<nat>, Source) {
    if s.ahead.Some? then (s.ahead, s.(ahead := None))
    else if s.next < |c.sizes| && !s.broken then (Some(s.next), s.(next := s.next + 1))
    else (None, s)
  }

  function Start(c: Config): State {
    State(StartSource(c), None, false, seq(c.workers, i => Ready), seq(c.workers, i => 0),
          [], seq(|c.sizes|, i => Unread), seq(c.workers, i => 0))
  }

  ghost predicate Shape(c: Config, s: State) {
    |s.pcs| == |s.totals| == |s.completed| == c.workers && |s.status| == |c.sizes|
  }

  function At(s: State, w: nat, pc: Pc): State
    requires w < |s.pcs|
  {
    s.(pcs := s.pcs[w := pc])
  }

  /** Under the lock: take a batch, or find there is none, and release the lock. */
  function PullStep(c: Config, s: State, w: nat): State
    requires Shape(c, s) && w < c.workers
  {
    if Breaks(c, s.source) then At(s, w, Breaking).(source := s.source.(broken := true), lock := None)
    else
    var (batch, source) := Pull(c, s.source);
    match batch
    case None => At(s, w, Returned).(source := source, lock := None)
    case Some(b) =>
      At(s, w, Inserting(b, 0)).(
        source := source, lock := None, pulled := s.pulled + [b],
        status := if b < |s.status| then s.status[b := InFlight(w)] else s.status)
  }

  /** What one answer of the database does to the worker that asked. */
  function AnswerStep(c: Config, s: State, w: nat, answer: Outcome): State
    requires Shape(c, s) && w < c.workers && s.pcs[w].Inserting? && s.pcs[w].batch < |s.status|
  {
    var b, tries := s.pcs[w].batch, s.pcs[w].tries;
    match answer
    case Inserted(rows) =>
      At(s, w, Ready).(totals := s.totals[w := s.totals[w] + rows], status := s.status[b := Loaded(w, rows)],
                       completed := s.completed[w := s.completed[w] + 1])
    case Retryable => At(s, w, if tries + 1 <= MAX_INSERT_RETRY then Inserting(b, tries + 1) else Failing(b))
    case Fatal => At(s, w, Failing(b))
  }

  /** The handler: set the stop flag, whoever holds the lock, and raise. */
  function RaiseStep(c: Config, s: State, w: nat): State
    requires Shape(c, s) && w < c.workers && s.pcs[w].Failing? && s.pcs[w].batch < |s.status|
  {
    At(s, w, Raised).(stop := true, status := s.status[s.pcs[w].batch := Lost(w)])
  }

  ghost predicate IsAnswer(c: Config, s: State, t: State, w: nat, answer: Outcome)
    requires Shape(c, s) && w < c.workers && s.pcs[w].Inserting?
  {
    s.pcs[w].batch < |s.status| && t == AnswerStep(c, s, w, answer)
  }

  ghost predicate WorkerNext(c: Config, s: State, t: State, w: nat)
    requires Shape(c, s)
  {
    && w < c.workers
    && match s.pcs[w]
       case Ready => if s.stop then t == At(s, w, Returned)
                     else t == At(s, w, Wanting) || (c.deadline && t == At(s, w, Returned))
       case Wanting => s.lock.None? && t == At(s, w, Holding).(lock := Some(w))
       case Holding => t == if s.stop then At(s, w, Returned).(lock := None) else At(s, w, Armed)
       case Armed => t == PullStep(c, s, w)
       case Inserting(_, _) => exists answer :: IsAnswer(c, s, t, w, answer)
       case Failing(b) => b < |s.status| && t == RaiseStep(c, s, w)
       case Breaking => t == At(s, w, Raised).(stop := true)
       case Returned => false
       case Raised => false
  }

  ghost predicate Next(c: Config, s: State, t: State) {
    Shape(c, s) && exists w: nat :: WorkerNext(c, s, t, w)
  }

  ghost predicate IsRun(c: Config, run: seq<State>) {
    && |run| > 0 && run[0] == Start(c)
    && forall i :: 0 <= i < |run| - 1 ==> Next(c, run[i], run[i + 1])
  }

  ghost predicate Reachable(c: Config, s: State) {
    exists run :: IsRun(c, run) && run[|run| - 1] == s
  }

  // ---- what every step keeps ----

  function BatchOf(pc: Pc): Option<nat> {
    match pc
    case Inserting(b, _) => Some(b)
    case Failing(b) => Some(b)
    case _ => None
  }

  /** The rows the database reported for each batch. */
  function Reported(status: seq<Status>): seq<int> {
    seq(|status|, i requires 0 <= i < |status| => if status[i].Loaded? then status[i].rows else 0)
  }

  /** Pulling follows dataset order and skips nothing. */
  ghost predicate SourceInv(c: Config, s: State) {
    && |s.pulled| <= |c.sizes|
    && (forall i :: 0 <= i < |s.pulled| ==> s.pulled[i] == i)
    && (if s.source.ahead.Some? then s.pulled == [] && s.source == Source(1, Some(0), false) && |c.sizes| > 0
        else s.source.next == |s.pulled|)
    && s.source.next <= c.breaksAt
    && (s.source.broken ==> |s.pulled| == c.breaksAt)
  }

  ghost predicate OwnerInv(c: Config, s: State) {
    && (forall b :: 0 <= b < |s.status| ==> (s.status[b].Unread? <==> b >= |s.pulled|))
    && (forall w :: 0 <= w < |s.pcs| && BatchOf(s.pcs[w]).Some? ==>
          BatchOf(s.pcs[w]).value < |s.status| && s.status[BatchOf(s.pcs[w]).value] == InFlight(w))
    && (forall b :: 0 <= b < |s.status| && s.status[b].InFlight? ==>
          s.status[b].worker < |s.pcs| && BatchOf(s.pcs[s.status[b].worker]) == Some(b))
    && (forall b :: 0 <= b < |s.status| && s.status[b].Lost? ==>
          s.status[b].worker < |s.pcs| && s.pcs[s.status[b].worker].Raised?)
  }

  ghost predicate SomeRaised(pcs: seq<Pc>) {
    exists w :: 0 <= w < |pcs| && pcs[w].Raised?
  }

  ghost predicate SomeBreaking(pcs: seq<Pc>) {
    exists w :: 0 <= w < |pcs| && pcs[w].Breaking?
  }

  ghost predicate SomeLost(status: seq<Status>) {
    exists b :: 0 <= b < |status| && status[b].Lost?
  }

  ghost predicate LockInv(s: State) {
    forall w :: 0 <= w < |s.pcs| ==> (s.pcs[w].Holding? || s.pcs[w].Armed? <==> s.lock == Some(w))
  }

  ghost predicate FlagInv(c: Config, s: State) {
    && (s.stop <==> SomeRaised(s.pcs))
    && (SomeLost(s.status) ==> s.stop)
    && (s.stop ==> SomeLost(s.status) || s.source.broken)
    && (s.source.broken ==> s.stop || SomeBreaking(s.pcs))
    && (SomeBreaking(s.pcs) ==> s.source.broken)
    && (forall w :: 0 <= w < |s.pcs| && s.pcs[w].Inserting? ==> s.pcs[w].tries <= MAX_INSERT_RETRY)
    && (forall w :: 0 <= w < |s.pcs| && s.pcs[w].Returned? && !s.stop && !c.deadline ==>
          s.source.broken || (|s.pulled| == |c.sizes| < c.breaksAt))
  }

  ghost predicate SumInv(c: Config, s: State) {
    Sum(s.totals) == Sum(Reported(s.status))
  }

  ghost predicate Inv(c: Config, s: State) {
    Shape(c, s) && SourceInv(c, s) && OwnerInv(c, s) && LockInv(s) && FlagInv(c, s) && SumInv(c, s)
  }

  lemma StartInv(c: Config)
    ensures Inv(c, Start(c))
  {
    var s := Start(c);
    SumZeros(s.totals);
    SumZeros(Reported(s.status));
  }

  lemma SameReports(status: seq<Status>, b: nat, x: Status)
    requires b < |status| && !x.Loaded? && !status[b].Loaded?
    ensures Reported(status[b := x]) == Reported(status)
  {}

  lemma RaisedUnchanged(pcs: seq<Pc>, w: nat, pc: Pc)
    requires w < |pcs| && !pcs[w].Raised? && !pc.Raised?
    ensures SomeRaised(pcs[w := pc]) <==> SomeRaised(pcs)
  {
    if v :| 0 <= v < |pcs| && pcs[v].Raised? {
      assert pcs[w := pc][v].Raised?;
    }
  }

  lemma BreakingUnchanged(pcs: seq<Pc>, w: nat, pc: Pc)
    requires w < |pcs| && !pcs[w].Breaking? && !pc.Breaking?
    ensures SomeBreaking(pcs[w := pc]) <==> SomeBreaking(pcs)
  {
    if v :| 0 <= v < |pcs| && pcs[v].Breaking? {
      assert pcs[w := pc][v].Breaking?;
    }
  }

  lemma LostUnchanged(status: seq<Status>, b: nat, x: Status)
    requires b < |status| && !status[b].Lost? && !x.Lost?
    ensures SomeLost(status[b := x]) <==> SomeLost(status)
  {
    if a :| 0 <= a < |status| && status[a].Lost? {
      assert status[b := x][a].Lost?;
    }
  }

  /** A worker that owns no batch before or after changes nobody's ownership. */
  lemma MoveKeepsOwner(c: Config, s: State, t: State, w: nat, pc: Pc)
    requires Shape(c, s) && OwnerInv(c, s) && w < c.workers && BatchOf(pc) == BatchOf(s.pcs[w])
    requires !s.pcs[w].Raised? && t.pcs == s.pcs[w := pc] && t.status == s.status && t.pulled == s.pulled
    ensures OwnerInv(c, t)
  {}

  lemma PullKeepsInv(c: Config, s: State, w: nat)
    requires Inv(c, s) && w < c.workers && s.pcs[w].Armed?
    ensures Inv(c, PullStep(c, s, w))
  {
    var t := PullStep(c, s, w);
    if Breaks(c, s.source) {
      RaisedUnchanged(s.pcs, w, t.pcs[w]);
      MoveKeepsOwner(c, s, t, w, Breaking);
      assert t.pcs[w].Breaking?;
    } else if Pull(c, s.source).0.Some? {
      TakeKeepsInv(c, s, w);
    } else {
      RaisedUnchanged(s.pcs, w, t.pcs[w]);
      BreakingUnchanged(s.pcs, w, t.pcs[w]);
      NextInOrder(c, s);
      MoveKeepsOwner(c, s, t, w, Returned);
    }
  }

  lemma TakeKeepsInv(c: Config, s: State, w: nat)
    requires Inv(c, s) && w < c.workers && s.pcs[w].Armed?
    requires !Breaks(c, s.source) && Pull(c, s.source).0.Some?
    ensures Inv(c, PullStep(c, s, w))
  {
    var t, b := PullStep(c, s, w), Pull(c, s.source).0.value;
    RaisedUnchanged(s.pcs, w, t.pcs[w]);
    BreakingUnchanged(s.pcs, w, t.pcs[w]);
    NextInOrder(c, s);
    SameReports(s.status, b, InFlight(w));
    LostUnchanged(s.status, b, InFlight(w));
    TakeKeepsOwner(c, s, t, w, b);
    assert FlagInv(c, t) by { TakeKeepsFlags(c, s, t, w, b); }
  }

  lemma NextInOrder(c: Config, s: State)
    requires SourceInv(c, s)
    ensures var (batch, source) := Pull(c, s.source);
            if batch.Some? then
              batch == Some(|s.pulled|) && |s.pulled| < |c.sizes| && source == Source(|s.pulled| + 1, None, false)
            else source == s.source && (s.source.broken || |s.pulled| == |c.sizes|)
  {}

  lemma TakeKeepsFlags(c: Config, s: State, t: State, w: nat, b: nat)
    requires Shape(c, s) && FlagInv(c, s) && w < c.workers && s.pcs[w].Armed? && b < |c.sizes|
    requires |s.pulled| < |c.sizes| && !s.source.broken && !t.source.broken
    requires t.stop == s.stop && t.pcs == s.pcs[w := Inserting(b, 0)]
    requires (SomeRaised(t.pcs) <==> SomeRaised(s.pcs)) && (SomeBreaking(t.pcs) <==> SomeBreaking(s.pcs))
    requires SomeLost(t.status) <==> SomeLost(s.status)
    ensures FlagInv(c, t)
  {}

  lemma TakeKeepsOwner(c: Config, s: State, t: State, w: nat, b: nat)
    requires Shape(c, s) && OwnerInv(c, s) && w < c.workers && s.pcs[w].Armed? && b == |s.pulled| < |s.status|
    requires t.pcs == s.pcs[w := Inserting(b, 0)] && t.status == s.status[b := InFlight(w)]
    requires t.pulled == s.pulled + [b]
    ensures OwnerInv(c, t)
  {}

  lemma CountKeepsSum(totals: seq<nat>, status: seq<Status>, w: nat, b: nat, rows: nat)
    requires w < |totals| && b < |status| && !status[b].Loaded? && Sum(totals) == Sum(Reported(status))
    ensures Sum(totals[w := totals[w] + rows]) == Sum(Reported(status[b := Loaded(w, rows)]))
  {
    SumUpdate(totals, w, totals[w] + rows);
    SumUpdate(Reported(status), b, rows);
    assert Reported(status[b := Loaded(w, rows)]) == Reported(status)[b := rows];
  }

  lemma AnswerKeepsInv(c: Config, s: State, w: nat, answer: Outcome)
    requires Inv(c, s) && w < c.workers && s.pcs[w].Inserting? && s.pcs[w].batch < |s.status|
    ensures Inv(c, AnswerStep(c, s, w, answer))
  {
    if answer.Inserted? {
      LoadKeepsInv(c, s, w, answer.rows);
    } else {
      var t := AnswerStep(c, s, w, answer);
      RaisedUnchanged(s.pcs, w, t.pcs[w]);
      BreakingUnchanged(s.pcs, w, t.pcs[w]);
      MoveKeepsOwner(c, s, t, w, t.pcs[w]);
    }
  }

  lemma LoadKeepsInv(c: Config, s: State, w: nat, rows: nat)
    requires Inv(c, s) && w < c.workers && s.pcs[w].Inserting? && s.pcs[w].batch < |s.status|
    ensures Inv(c, AnswerStep(c, s, w, Inserted(rows)))
  {
    var t, b := AnswerStep(c, s, w, Inserted(rows)), s.pcs[w].batch;
    RaisedUnchanged(s.pcs, w, Ready);
    BreakingUnchanged(s.pcs, w, Ready);
    CountKeepsSum(s.totals, s.status, w, b, rows);
    LostUnchanged(s.status, b, Loaded(w, rows));
    SettleKeepsOwner(c, s, t, w, b, Ready, Loaded(w, rows));
  }

  lemma SettleKeepsOwner(c: Config, s: State, t: State, w: nat, b: nat, pc: Pc, x: Status)
    requires Shape(c, s) && OwnerInv(c, s) && w < c.workers && BatchOf(s.pcs[w]) == Some(b) && BatchOf(pc).None?
    requires b < |s.status| && (x.Loaded? || (x == Lost(w) && pc.Raised?))
    requires t.pcs == s.pcs[w := pc] && t.status == s.status[b := x] && t.pulled == s.pulled
    ensures OwnerInv(c, t)
  {}

  lemma RaiseKeepsInv(c: Config, s: State, w: nat)
    requires Inv(c, s) && w < c.workers && s.pcs[w].Failing? && s.pcs[w].batch < |s.status|
    ensures Inv(c, RaiseStep(c, s, w))
  {
    var t := RaiseStep(c, s, w);
    BreakingUnchanged(s.pcs, w, Raised);
    SameReports(s.status, s.pcs[w].batch, Lost(w));
    SettleKeepsOwner(c, s, t, w, s.pcs[w].batch, Raised, Lost(w));
    assert t.pcs[w].Raised? && t.status[s.pcs[w].batch].Lost?;
  }

  lemma BreakKeepsInv(c: Config, s: State, w: nat)
    requires Inv(c, s) && w < c.workers && s.pcs[w].Breaking?
    ensures Inv(c, At(s, w, Raised).(stop := true))
  {
    var t := At(s, w, Raised).(stop := true);
    MoveRaisedKeepsOwner(c, s, t, w);
    assert SomeBreaking(s.pcs) && t.pcs[w].Raised?;
    assert SomeBreaking(t.pcs) ==> SomeBreaking(s.pcs);
  }

  lemma MoveRaisedKeepsOwner(c: Config, s: State, t: State, w: nat)
    requires Shape(c, s) && OwnerInv(c, s) && w < c.workers && s.pcs[w].Breaking?
    requires t.pcs == s.pcs[w := Raised] && t.status == s.status && t.pulled == s.pulled
    ensures OwnerInv(c, t)
  {}

  lemma StepKeepsInv(c: Config, s: State, t: State)
    requires Inv(c, s) && Next(c, s, t)
    ensures Inv(c, t)
  {
    var w: nat :| WorkerNext(c, s, t, w);
    match s.pcs[w]
    case Armed => PullKeepsInv(c, s, w);
    case Inserting(_, _) =>
      var answer :| IsAnswer(c, s, t, w, answer);
      AnswerKeepsInv(c, s, w, answer);
    case Failing(_) => RaiseKeepsInv(c, s, w);
    case Breaking => BreakKeepsInv(c, s, w);
    case _ => QuietStepKeepsInv(c, s, t, w);
  }

  lemma QuietStepKeepsInv(c: Config, s: State, t: State, w: nat)
    requires Inv(c, s) && WorkerNext(c, s, t, w)
    requires s.pcs[w].Ready? || s.pcs[w].Wanting? || s.pcs[w].Holding?
    ensures Inv(c, t)
  {
    RaisedUnchanged(s.pcs, w, t.pcs[w]);
    BreakingUnchanged(s.pcs, w, t.pcs[w]);
    MoveKeepsOwner(c, s, t, w, t.pcs[w]);
    assert LockInv(t);
  }

  lemma {:induction false} RunKeepsInv(c: Config, run: seq<State>)
    requires IsRun(c, run)
    ensures Inv(c, run[|run| - 1])
  {
    if |run| == 1 {
      StartInv(c);
    } else {
      var before, last := run[..|run| - 1], run[|run| - 1];
      RunKeepsInv(c, before);
      StepKeepsInv(c, before[|before| - 1], last);
    }
  }

  lemma ReachableInv(c: Config, s: State)
    requires Reachable(c, s)
    ensures Inv(c, s)
  {
    var run :| IsRun(c, run) && run[|run| - 1] == s;
    RunKeepsInv(c, run);
  }
}
