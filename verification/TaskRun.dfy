/** The task worker: it runs the assembled cases one after the other, skips dropping and loading
    when the data it needs was loaded last, and reports every case to the interface. */
module TaskRun {
  import opened Util
  import opened Assembler
  import opened ReuseKey

  /** Where a case keeps its data: the server it connects to, and the collection or table there. */
  datatype Place = Place(server: nat, collection: nat)

  /** load_reuse_key: the place together with everything else it collects (case configuration, dataset,
      batch size, properties, tenancy), flattened. */
  datatype Key = Key(place: Place, rest: Hashed)

  /** What the worker looks at in a case. */
  datatype Case = Case(kind: CaseLabel, place: Place, settings: Value, dropStage: bool, loadStage: bool)

  function KeyOf(c: Case): Key {
    Key(c.place, HashableValue(c.settings))
  }

  /** How far a failing case got: before it touched the database, after the drop, while it inserted,
      or after everything was inserted. */
  datatype Reached = Nothing | Dropped | Writing | Written

  datatype Outcome = Success(loadDuration: real) | Failed(reached: Reached, timeout: bool)

  datatype ResultLabel = Normal | OutOfRange | FailedLabel

  datatype CaseResult = CaseResult(index: nat, verdict: ResultLabel, loadDuration: real)

  datatype Signal = Wip(index: nat) | SuccessSignal | ErrorSignal

  function LoadReuseKey(c: Case): Option<Key> {
    if c.kind == Performance then Some(KeyOf(c)) else None
  }

  // ---- what running a case does to the database ----

  /** What a place can hold: the complete data of a key, or rows some case left there. */
  datatype Piece = Whole(key: Key) | Part(writer: nat)

  type Database = map<Place, seq<Piece>>

  function At(db: Database, p: Place): seq<Piece> {
    if p in db then db[p] else []
  }

  /** Capacity, streaming and cloud insert cases insert without a drop. They insert what was prepared, and
      without the LOAD stage no train files are. */
  predicate InsertsUndropped(c: Case) {
    c.loadStage && (c.kind == Load || c.kind == Streaming || c.kind == CloudInsert)
  }

  /** A cold-latency case that would drop or load is refused before it connects. */
  predicate DropsCollection(c: Case, drops: bool) {
    drops && c.kind != CloudColdLatency
  }

  predicate Inserts(c: Case, drops: bool) {
    InsertsUndropped(c) || (drops && c.loadStage && (c.kind == Performance || c.kind == FullTextSearch))
  }

  function ReachedBy(o: Outcome): Reached {
    if o.Success? then Written else o.reached
  }

  /** Case i runs with its drop decision taken and gets as far as reached: the collection is dropped,
      then filled. */
  function Content(before: seq<Piece>, i: nat, c: Case, drops: bool, reached: Reached): seq<Piece> {
    var kept := if DropsCollection(c, drops) then [] else before;
    match reached
    case Nothing => before
    case Dropped => kept
    case Writing => if Inserts(c, drops) then kept + [Part(i)] else kept
    case Written =>
      if !Inserts(c, drops) then kept
      else kept + [if c.kind == Performance then Whole(KeyOf(c)) else Part(i)]
  }

  function RunOn(db: Database, i: nat, c: Case, drops: bool, reached: Reached): Database {
    db[c.place := Content(At(db, c.place), i, c, drops, reached)]
  }

  // ---- what the worker remembers ----

  /** latest and cached are the worker's variables; latestBy is the case that set them. */
  datatype Memory = Memory(latest: Option<Key>, cached: real, latestBy: nat)

  datatype World = World(m: Memory, db: Database)

  const START := World(Memory(None, 0.0, 0), map[])

  /** The drop_old decision. */
  function DropsOld(m: Memory, c: Case, dropOld: bool): bool {
    dropOld && c.dropStage && !Reuses(m, c)
  }

  /** A reused load: the drop is skipped because the key is the latest loaded one. */
  predicate Reuses(m: Memory, c: Case) {
    LoadReuseKey(c).Some? && LoadReuseKey(c) == m.latest
  }

  predicate Records(c: Case, drops: bool, o: Outcome) {
    o.Success? && drops && c.loadStage && LoadReuseKey(c).Some?
  }

  function Remember(m: Memory, i: nat, c: Case, dropOld: bool, o: Outcome): Memory {
    if Records(c, DropsOld(m, c, dropOld), o) then Memory(LoadReuseKey(c), o.loadDuration, i) else m
  }

  function After(w: World, i: nat, c: Case, dropOld: bool, o: Outcome): World {
    World(Remember(w.m, i, c, dropOld, o), RunOn(w.db, i, c, DropsOld(w.m, c, dropOld), ReachedBy(o)))
  }

  /** The load_duration in the metrics that run() returns. */
  function LoadMetric(c: Case, drops: bool, loadDuration: real): real {
    if drops && c.loadStage && (c.kind == Performance || c.kind == FullTextSearch) then loadDuration else 0.0
  }

  /** The duration a successful case reports: the cached one for a reused load, else its own. */
  function ReportedDuration(m: Memory, c: Case, dropOld: bool, o: Outcome): real
    requires o.Success?
  {
    var drops := DropsOld(m, c, dropOld);
    if !drops && Reuses(m, c) then m.cached else LoadMetric(c, drops, o.loadDuration)
  }

  function ResultOf(m: Memory, i: nat, c: Case, dropOld: bool, o: Outcome): CaseResult {
    match o
    case Success(_) => CaseResult(i, Normal, ReportedDuration(m, c, dropOld, o))
    case Failed(_, timeout) => CaseResult(i, if timeout then OutOfRange else FailedLabel, 0.0)
  }

  /** The label tells how the case ended, and only a successful one reports a load time: its own when it dropped
      and loaded for a search, the remembered one when it reuses that load, and else none. */
  lemma ResultMeans(m: Memory, i: nat, c: Case, dropOld: bool, o: Outcome)
    ensures var r := ResultOf(m, i, c, dropOld, o);
            var reused := c.kind == Performance && m.latest == Some(KeyOf(c));
            var loads := && dropOld && c.dropStage && c.loadStage && !reused
                         && (c.kind == Performance || c.kind == FullTextSearch);
            && r.index == i
            && (r.verdict == Normal <==> o.Success?)
            && (r.verdict == OutOfRange <==> o.Failed? && o.timeout)
            && (o.Failed? || !(loads || reused) ==> r.loadDuration == 0.0)
            && (o.Success? && loads ==> r.loadDuration == o.loadDuration)
            && (o.Success? && reused ==> r.loadDuration == m.cached)
  {}

  /** The worker's memory changes exactly when a performance case drops, loads and succeeds. */
  lemma RememberMeans(m: Memory, i: nat, c: Case, dropOld: bool, o: Outcome)
    ensures var after := Remember(m, i, c, dropOld, o);
            if && c.kind == Performance && dropOld && c.dropStage && c.loadStage && o.Success?
               && m.latest != Some(KeyOf(c))
            then after == Memory(Some(KeyOf(c)), o.loadDuration, i)
            else after == m
  {}

  /** Memory and database before case n. */
  ghost function WorldAt(cases: seq<Case>, dropOld: bool, outcomes: nat -> Outcome, n: nat): World
    requires n <= |cases|
  {
    if n == 0 then START
    else After(WorldAt(cases, dropOld, outcomes, n - 1), n - 1, cases[n - 1], dropOld, outcomes(n - 1))
  }

  ghost function MemoryAt(cases: seq<Case>, dropOld: bool, outcomes: nat -> Outcome, n: nat): Memory
    requires n <= |cases|
  {
    WorldAt(cases, dropOld, outcomes, n).m
  }

  ghost function Wips(n: nat): (r: seq<Signal>)
    ensures |r| == n && forall i :: 0 <= i < n ==> r[i] == Wip(i)
  {
    seq(n, i requires 0 <= i < n => Wip(i))
  }

  /** What a worker with n cases sends: one WIP for each of the first k cases in order, then one
      terminal signal, which is SUCCESS only when all n cases were reported. */
  ghost predicate WorkerSends(n: nat, sent: seq<Signal>) {
    && 0 < |sent| <= n + 1 && sent[..|sent| - 1] == Wips(|sent| - 1)
    && !sent[|sent| - 1].Wip? && (sent[|sent| - 1].SuccessSignal? ==> |sent| == n + 1)
  }

  lemma TerminalLast(n: nat, k: nat, terminal: Signal)
    requires k <= n && !terminal.Wip? && (terminal.SuccessSignal? ==> k == n)
    ensures WorkerSends(n, Wips(k) + [terminal])
  {
    assert (Wips(k) + [terminal])[..k] == Wips(k);
  }

  ghost function Results(cases: seq<Case>, dropOld: bool, outcomes: nat -> Outcome, n: nat): (r: seq<CaseResult>)
    requires n <= |cases|
    ensures |r| == n
  {
    if n == 0 then []
    else Results(cases, dropOld, outcomes, n - 1)
         + [ResultOf(MemoryAt(cases, dropOld, outcomes, n - 1), n - 1, cases[n - 1], dropOld, outcomes(n - 1))]
  }

  lemma {:induction false} ResultsAt(cases: seq<Case>, dropOld: bool, outcomes: nat -> Outcome, n: nat, i: nat)
    requires i < n <= |cases|
    ensures Results(cases, dropOld, outcomes, n)[i]
         == ResultOf(MemoryAt(cases, dropOld, outcomes, i), i, cases[i], dropOld, outcomes(i))
  {
    if i < n - 1 {
      ResultsAt(cases, dropOld, outcomes, n - 1, i);
    }
  }

  lemma LabelsFollow(cases: seq<Case>, dropOld: bool, outcomes: nat -> Outcome, n: nat)
    requires n <= |cases|
    ensures var results := Results(cases, dropOld, outcomes, n);
            forall i :: 0 <= i < n ==>
              && results[i].index == i
              && (results[i].verdict == Normal <==> outcomes(i).Success?)
              && (results[i].verdict == OutOfRange <==> outcomes(i).Failed? && outcomes(i).timeout)
  {
    forall i | 0 <= i < n
      ensures Results(cases, dropOld, outcomes, n)[i]
           == ResultOf(MemoryAt(cases, dropOld, outcomes, i), i, cases[i], dropOld, outcomes(i))
    {
      ResultsAt(cases, dropOld, outcomes, n, i);
    }
  }

  function CachedBy(m: Memory): Option<real> {
    if m.latest.Some? then Some(m.cached) else None
  }

  /** The try block of one case, and what its handlers leave. */
  method RunCase(ghost m: Memory, latest: Option<Key>, cached: Option<real>, idx: nat, c: Case, dropOld: bool,
                 o: Outcome)
    returns (latestAfter: Option<Key>, cachedAfter: Option<real>, result: CaseResult)
    requires latest == m.latest && cached == CachedBy(m)
    ensures var after := Remember(m, idx, c, dropOld, o);
            latestAfter == after.latest && cachedAfter == CachedBy(after)
    ensures result == ResultOf(m, idx, c, dropOld, o)
  {
    latestAfter, cachedAfter := latest, cached;
    var drops := c.dropStage;
    var reuseKey := LoadReuseKey(c);
    if reuseKey.Some? && reuseKey == latest {
      drops := false;
    }
    if !dropOld {
      drops := false;
    }
    match o {
      case Success(loadDuration) =>
        var duration := LoadMetric(c, drops, loadDuration);
        if drops && c.loadStage && reuseKey.Some? {
          latestAfter, cachedAfter := reuseKey, Some(duration);
        }
        if !drops && reuseKey.Some? && reuseKey == latestAfter {
          duration := if cachedAfter.Some? then cachedAfter.value else 0.0;
        }
        result := CaseResult(idx, Normal, duration);
      case Failed(_, timeout) =>
        result := CaseResult(idx, if timeout then OutOfRange else FailedLabel, 0.0);
    }
  }

  /** What the worker holds before case n of its list. */
  ghost predicate Holding(cases: seq<Case>, dropOld: bool, outcomes: nat -> Outcome, n: nat, latest: Option<Key>,
                          cached: Option<real>, results: seq<CaseResult>, sent: seq<Signal>)
  {
    && n <= |cases| && results == Results(cases, dropOld, outcomes, n) && sent == Wips(n)
    && latest == MemoryAt(cases, dropOld, outcomes, n).latest
    && cached == CachedBy(MemoryAt(cases, dropOld, outcomes, n))
  }

  lemma OneMoreCase(cases: seq<Case>, dropOld: bool, outcomes: nat -> Outcome, n: nat, latest: Option<Key>,
                    cached: Option<real>, results: seq<CaseResult>, sent: seq<Signal>)
    requires Holding(cases, dropOld, outcomes, n, latest, cached, results, sent) && n < |cases|
    ensures var m := MemoryAt(cases, dropOld, outcomes, n);
            var after := Remember(m, n, cases[n], dropOld, outcomes(n));
            Holding(cases, dropOld, outcomes, n + 1, after.latest, CachedBy(after),
                    results + [ResultOf(m, n, cases[n], dropOld, outcomes(n))], sent + [Wip(n)])
  {
    assert sent + [Wip(n)] == Wips(n + 1);
  }

  /** _async_task_v2. badMetadata(i): validating the dataset metadata of case i raises, which only the
      outer handler catches; flushFails: writing the results raises. */
  method AsyncTask(cases: seq<Case>, dropOld: bool, outcomes: nat -> Outcome, badMetadata: nat -> bool,
                   flushFails: bool)
    returns (results: seq<CaseResult>, sent: seq<Signal>)
    ensures |results| <= |cases| && results == Results(cases, dropOld, outcomes, |results|)
    ensures sent == Wips(|results|) + [if |results| == |cases| && !flushFails then SuccessSignal else ErrorSignal]
    ensures WorkerSends(|cases|, sent)
    ensures forall i :: 0 <= i < |results| ==>
              && results[i].index == i
              && (results[i].verdict == Normal <==> outcomes(i).Success?)
              && (results[i].verdict == OutOfRange <==> outcomes(i).Failed? && outcomes(i).timeout)
    ensures |results| < |cases| ==> badMetadata(|results|)
    ensures forall i: nat :: i < |results| ==> !badMetadata(i)
  {
    results, sent := [], [];
    var latestLoadedReuseKey: Option<Key>, cachedLoadDuration: Option<real> := None, None;
    var idx := 0;
    while idx < |cases|
      invariant 0 <= idx <= |cases| && |results| == idx
      invariant Holding(cases, dropOld, outcomes, idx, latestLoadedReuseKey, cachedLoadDuration, results, sent)
      invariant forall i: nat :: i < idx ==> !badMetadata(i)
    {
      var result;
      OneMoreCase(cases, dropOld, outcomes, idx, latestLoadedReuseKey, cachedLoadDuration, results, sent);
      latestLoadedReuseKey, cachedLoadDuration, result :=
        RunCase(MemoryAt(cases, dropOld, outcomes, idx), latestLoadedReuseKey, cachedLoadDuration, idx, cases[idx],
                dropOld, outcomes(idx));
      if badMetadata(idx) {
        sent := sent + [ErrorSignal];
        TerminalLast(|cases|, idx, ErrorSignal);
        LabelsFollow(cases, dropOld, outcomes, idx);
        return;
      }
      results := results + [result];
      sent := sent + [Wip(idx)];
      idx := idx + 1;
    }
    sent := sent + [if flushFails then ErrorSignal else SuccessSignal];
    LabelsFollow(cases, dropOld, outcomes, idx);
    TerminalLast(|cases|, idx, if flushFails then ErrorSignal else SuccessSignal);
  }

  // ---- load reuse agrees with the database ----

  /** A case that comes after first was loaded, at the same place, and spoils what first loaded: by a drop
      of its own, or by inserting without one. A case with first's own key does not drop. */
  predicate Disturbs(first: Case, c: Case, dropOld: bool, o: Outcome) {
    var drops := && dropOld && c.dropStage && c.kind != CloudColdLatency
                 && !(c.kind == Performance && KeyOf(c) == KeyOf(first));
    && c.place == first.place
    && match ReachedBy(o)
       case Nothing => false
       case Dropped => drops
       case Writing => drops || InsertsUndropped(c)
       case Written => drops || InsertsUndropped(c)
  }

  ghost predicate Undisturbed(cases: seq<Case>, dropOld: bool, outcomes: nat -> Outcome, i: nat, n: nat)
    requires i < |cases| && n <= |cases|
  {
    forall k: nat :: i < k < n ==> !Disturbs(cases[i], cases[k], dropOld, outcomes(k))
  }

  /** What the worker remembers is the last load that succeeded after a drop, and how it ended. */
  ghost predicate LatestFacts(cases: seq<Case>, dropOld: bool, outcomes: nat -> Outcome, n: nat)
    requires n <= |cases|
  {
    var m := MemoryAt(cases, dropOld, outcomes, n);
    m.latest.Some? ==>
      && m.latestBy < n && outcomes(m.latestBy) == Success(m.cached)
      && LoadReuseKey(cases[m.latestBy]) == m.latest
      && dropOld && cases[m.latestBy].dropStage && cases[m.latestBy].loadStage
      && (forall k: nat :: m.latestBy < k <= n ==> MemoryAt(cases, dropOld, outcomes, k) == m)
  }

  lemma {:induction false} MemoryFacts(cases: seq<Case>, dropOld: bool, outcomes: nat -> Outcome, n: nat)
    requires n <= |cases|
    ensures LatestFacts(cases, dropOld, outcomes, n)
  {
    if n > 0 {
      MemoryFacts(cases, dropOld, outcomes, n - 1);
    }
  }

  /** One case after the recorded load of key: a disturbance, and nothing else, ends the state in which
      the place holds exactly that key's data, and no case without a record restores it. */
  lemma OneCaseLater(first: Case, db: Database, m: Memory, n: nat, c: Case, dropOld: bool, o: Outcome)
    requires first.kind == Performance && m.latest == LoadReuseKey(first) && !Records(c, DropsOld(m, c, dropOld), o)
    ensures var key, after := m.latest.value, RunOn(db, n, c, DropsOld(m, c, dropOld), ReachedBy(o));
            At(after, first.place) == [Whole(key)]
            <==> At(db, first.place) == [Whole(key)] && !Disturbs(first, c, dropOld, o)
  {
    if c.place == first.place {
      var drops := DropsOld(m, c, dropOld);
      var before, after := At(db, first.place), Content(At(db, first.place), n, c, drops, ReachedBy(o));
      if Disturbs(first, c, dropOld, o) {
        assert after == [] || after[|after| - 1] != Whole(m.latest.value);
      } else {
        assert after == before;
      }
    }
  }

  lemma JustLoaded(w: World, i: nat, c: Case, dropOld: bool, o: Outcome)
    requires LoadReuseKey(c).Some? && Records(c, DropsOld(w.m, c, dropOld), o)
    ensures At(After(w, i, c, dropOld, o).db, c.place) == [Whole(LoadReuseKey(c).value)]
  {}

  lemma NotRecorded(cases: seq<Case>, dropOld: bool, outcomes: nat -> Outcome, m: Memory, k: nat)
    requires k < |cases| && m.latestBy < k
    requires MemoryAt(cases, dropOld, outcomes, k) == m && MemoryAt(cases, dropOld, outcomes, k + 1) == m
    ensures !Records(cases[k], DropsOld(m, cases[k], dropOld), outcomes(k))
  {}

  lemma UndisturbedStep(cases: seq<Case>, dropOld: bool, outcomes: nat -> Outcome, i: nat, n: nat)
    requires i < n < |cases|
    ensures Undisturbed(cases, dropOld, outcomes, i, n + 1)
        <==> Undisturbed(cases, dropOld, outcomes, i, n) && !Disturbs(cases[i], cases[n], dropOld, outcomes(n))
  {}

  ghost predicate Holds(cases: seq<Case>, dropOld: bool, outcomes: nat -> Outcome, i: nat, n: nat)
    requires i < |cases| && n <= |cases|
  {
    At(WorldAt(cases, dropOld, outcomes, n).db, cases[i].place) == [Whole(KeyOf(cases[i]))]
  }

  lemma HoldsStep(cases: seq<Case>, dropOld: bool, outcomes: nat -> Outcome, i: nat, n: nat, m: Memory)
    requires i < n < |cases| && cases[i].kind == Performance && m.latest == Some(KeyOf(cases[i])) && m.latestBy == i
    requires MemoryAt(cases, dropOld, outcomes, n) == m && MemoryAt(cases, dropOld, outcomes, n + 1) == m
    ensures Holds(cases, dropOld, outcomes, i, n + 1)
        <==> Holds(cases, dropOld, outcomes, i, n) && !Disturbs(cases[i], cases[n], dropOld, outcomes(n))
  {
    NotRecorded(cases, dropOld, outcomes, m, n);
    OneCaseLater(cases[i], WorldAt(cases, dropOld, outcomes, n).db, m, n, cases[n], dropOld, outcomes(n));
  }

  lemma HeldAtFirst(cases: seq<Case>, dropOld: bool, outcomes: nat -> Outcome, i: nat)
    requires i < |cases| && cases[i].kind == Performance
    requires Records(cases[i], DropsOld(MemoryAt(cases, dropOld, outcomes, i), cases[i], dropOld), outcomes(i))
    ensures Holds(cases, dropOld, outcomes, i, i + 1)
  {
    JustLoaded(WorldAt(cases, dropOld, outcomes, i), i, cases[i], dropOld, outcomes(i));
  }

  lemma {:induction false} HeldUntilDisturbed(cases: seq<Case>, dropOld: bool, outcomes: nat -> Outcome, i: nat,
                                              n: nat, m: Memory)
    requires i < n <= |cases| && cases[i].kind == Performance
    requires Records(cases[i], DropsOld(MemoryAt(cases, dropOld, outcomes, i), cases[i], dropOld), outcomes(i))
    requires m.latest == Some(KeyOf(cases[i])) && m.latestBy == i
    requires forall k: nat :: i < k <= n ==> MemoryAt(cases, dropOld, outcomes, k) == m
    ensures Holds(cases, dropOld, outcomes, i, n) <==> Undisturbed(cases, dropOld, outcomes, i, n)
  {
    if n == i + 1 {
      HeldAtFirst(cases, dropOld, outcomes, i);
    } else {
      HeldUntilDisturbed(cases, dropOld, outcomes, i, n - 1, m);
      HoldsStep(cases, dropOld, outcomes, i, n - 1, m);
      UndisturbedStep(cases, dropOld, outcomes, i, n - 1);
    }
  }

  lemma {:induction false} RecordedWhen(cases: seq<Case>, dropOld: bool, outcomes: nat -> Outcome, n: nat)
    requires n <= |cases| && MemoryAt(cases, dropOld, outcomes, n).latest.Some?
    ensures var i := MemoryAt(cases, dropOld, outcomes, n).latestBy;
            && i < n
            && Records(cases[i], DropsOld(MemoryAt(cases, dropOld, outcomes, i), cases[i], dropOld), outcomes(i))
  {
    var before := MemoryAt(cases, dropOld, outcomes, n - 1);
    if !Records(cases[n - 1], DropsOld(before, cases[n - 1], dropOld), outcomes(n - 1)) {
      RecordedWhen(cases, dropOld, outcomes, n - 1);
    }
  }

  /** A case that reuses a load finds at its place exactly the data of its key if and only if no case
      since that load has disturbed the place; and if it succeeds it reports that load's duration. */
  lemma ReuseFindsData(cases: seq<Case>, dropOld: bool, outcomes: nat -> Outcome, j: nat)
    requires j < |cases| && Reuses(MemoryAt(cases, dropOld, outcomes, j), cases[j])
    ensures var w, key := WorldAt(cases, dropOld, outcomes, j), KeyOf(cases[j]);
            var i := w.m.latestBy;
            && i < j && outcomes(i).Success? && LoadReuseKey(cases[i]) == Some(key)
            && dropOld && cases[i].dropStage && cases[i].loadStage
            && (At(w.db, cases[j].place) == [Whole(key)] <==> Undisturbed(cases, dropOld, outcomes, i, j))
            && !DropsOld(w.m, cases[j], dropOld)
            && (outcomes(j).Success? ==>
                  ResultOf(w.m, j, cases[j], dropOld, outcomes(j)).loadDuration == outcomes(i).loadDuration)
  {
    MemoryFacts(cases, dropOld, outcomes, j);
    RecordedWhen(cases, dropOld, outcomes, j);
    var m := MemoryAt(cases, dropOld, outcomes, j);
    HeldUntilDisturbed(cases, dropOld, outcomes, m.latestBy, j, m);
  }

  // ---- over an assembled list ----

  /** The cases of the arranged runners, in their order. view reads a runner's configuration. */
  ghost function CasesOf(runners: seq<Runner>, view: Runner -> Case): (cases: seq<Case>)
    ensures |cases| == |runners| && forall i :: 0 <= i < |runners| ==> cases[i] == view(runners[i])
  {
    seq(|runners|, i requires 0 <= i < |runners| => view(runners[i]))
  }

  /** Every performance case that drops also loads, and succeeds. */
  ghost predicate DropsLoadAndSucceed(cases: seq<Case>, dropOld: bool, outcomes: nat -> Outcome) {
    forall k: nat :: k < |cases| && cases[k].kind == Performance
      && DropsOld(MemoryAt(cases, dropOld, outcomes, k), cases[k], dropOld)
      ==> cases[k].loadStage && outcomes(k).Success?
  }

  ghost predicate InAssembledOrder(cases: seq<Case>) {
    forall i, j :: 0 <= i < j < |cases| ==> Rank(cases[i].kind) <= Rank(cases[j].kind)
  }

  lemma ArrangedInOrder(runners: seq<Runner>, view: Runner -> Case)
    requires forall r :: view(r).kind == r.kind
    ensures InAssembledOrder(CasesOf(Arranged(runners), view))
  {
    ArrangedRanked(runners);
  }

  lemma SearchDoesNotDisturb(first: Case, m: Memory, c: Case, dropOld: bool, o: Outcome)
    requires first.kind == Performance && m.latest == LoadReuseKey(first)
    requires Rank(c.kind) == 3 && !Records(c, DropsOld(m, c, dropOld), o)
    requires c.kind == Performance && DropsOld(m, c, dropOld) ==> c.loadStage && o.Success?
    ensures !Disturbs(first, c, dropOld, o)
  {}

  lemma ReuseInOrder(cases: seq<Case>, dropOld: bool, outcomes: nat -> Outcome, j: nat)
    requires j < |cases| && Reuses(MemoryAt(cases, dropOld, outcomes, j), cases[j])
    requires InAssembledOrder(cases) && DropsLoadAndSucceed(cases, dropOld, outcomes)
    ensures At(WorldAt(cases, dropOld, outcomes, j).db, cases[j].place) == [Whole(KeyOf(cases[j]))]
  {
    ReuseFindsData(cases, dropOld, outcomes, j);
    MemoryFacts(cases, dropOld, outcomes, j);
    var m := MemoryAt(cases, dropOld, outcomes, j);
    forall k: nat | m.latestBy < k < j ensures !Disturbs(cases[m.latestBy], cases[k], dropOld, outcomes(k)) {
      assert Rank(cases[m.latestBy].kind) <= Rank(cases[k].kind) <= Rank(cases[j].kind);
      NotRecorded(cases, dropOld, outcomes, m, k);
      SearchDoesNotDisturb(cases[m.latestBy], m, cases[k], dropOld, outcomes(k));
    }
  }

  /** Whatever tasks are assembled: when every effective drop loads and succeeds, every case that reuses
      a load finds exactly the data of its key. */
  lemma ReuseIsSound(runners: seq<Runner>, view: Runner -> Case, dropOld: bool, outcomes: nat -> Outcome, j: nat)
    requires forall r :: view(r).kind == r.kind
    requires j < |Arranged(runners)|
    requires Reuses(MemoryAt(CasesOf(Arranged(runners), view), dropOld, outcomes, j), view(Arranged(runners)[j]))
    requires DropsLoadAndSucceed(CasesOf(Arranged(runners), view), dropOld, outcomes)
    ensures var c := view(Arranged(runners)[j]);
            At(WorldAt(CasesOf(Arranged(runners), view), dropOld, outcomes, j).db, c.place) == [Whole(KeyOf(c))]
  {
    ArrangedInOrder(runners, view);
    ReuseInOrder(CasesOf(Arranged(runners), view), dropOld, outcomes, j);
  }

  /** And that data was loaded under the same configuration, as far as the two cases have one schema: up to the
      secrets inside their models, and altogether if these hold none. */
  lemma ReusedUnderSameSettings(cases: seq<Case>, dropOld: bool, outcomes: nat -> Outcome, j: nat)
    requires j < |cases| && Reuses(MemoryAt(cases, dropOld, outcomes, j), cases[j])
    requires forall a, b :: 0 <= a < |cases| && 0 <= b < |cases| ==>
               Alike(Strip(cases[a].settings), Strip(cases[b].settings))
    ensures var i := MemoryAt(cases, dropOld, outcomes, j).latestBy;
            && i < j && cases[i].place == cases[j].place && Strip(cases[i].settings) == Strip(cases[j].settings)
            && (NothingMasked(cases[i].settings) && NothingMasked(cases[j].settings) ==>
                  Meaning(cases[i].settings) == Meaning(cases[j].settings))
  {
    ReuseFindsData(cases, dropOld, outcomes, j);
    SameKeyIff(cases[MemoryAt(cases, dropOld, outcomes, j).latestBy].settings, cases[j].settings);
  }

  /** A cloud insert case at the same place, between a load and its reuse: with its LOAD stage it adds its rows
      to the collection, without it there is nothing to insert. */
  lemma InsertionBetween(load: bool)
    ensures var outcomes := (i: nat) => Success(1.0);
            var first := Perf(0, "16");
            var cases := [first, Case(CloudInsert, first.place, Atom("16"), false, load), first];
            && Reuses(MemoryAt(cases, true, outcomes, 2), first)
            && At(WorldAt(cases, true, outcomes, 2).db, first.place)
               == [Whole(KeyOf(first))] + if load then [Part(1)] else []
  {
    var outcomes := (i: nat) => Success(1.0);
    var first := Perf(0, "16");
    var cases := [first, Case(CloudInsert, first.place, Atom("16"), false, load), first];
    assert WorldAt(cases, true, outcomes, 0) == START;
    assert WorldAt(cases, true, outcomes, 1).m == Memory(Some(KeyOf(first)), 1.0, 0);
    assert At(WorldAt(cases, true, outcomes, 1).db, first.place) == [Whole(KeyOf(first))];
  }

  /** The success hypothesis is needed: when a case at the same place fails after its drop, the worker still
      believes in the load before it, and the next case with that key searches an empty collection. At
      another place the same failure does no harm. */
  lemma FailureBreaksReuse()
    ensures var outcomes := (i: nat) => if i == 1 then Failed(Dropped, false) else Success(1.0);
            var first, second, elsewhere := Perf(0, "16"), Perf(0, "32"), Perf(1, "32");
            var same, other := [first, second, first], [first, elsewhere, first];
            && Reuses(MemoryAt(same, true, outcomes, 2), first)
            && At(WorldAt(same, true, outcomes, 2).db, first.place) == []
            && Reuses(MemoryAt(other, true, outcomes, 2), first)
            && At(WorldAt(other, true, outcomes, 2).db, first.place) == [Whole(KeyOf(first))]
  {
    var outcomes := (i: nat) => if i == 1 then Failed(Dropped, false) else Success(1.0);
    var first, second, elsewhere := Perf(0, "16"), Perf(0, "32"), Perf(1, "32");
    var same, other := [first, second, first], [first, elsewhere, first];
    assert WorldAt(same, true, outcomes, 0) == START == WorldAt(other, true, outcomes, 0);
    assert WorldAt(same, true, outcomes, 1).m == Memory(Some(KeyOf(first)), 1.0, 0);
    assert WorldAt(other, true, outcomes, 1).m == Memory(Some(KeyOf(first)), 1.0, 0);
    assert At(WorldAt(other, true, outcomes, 1).db, first.place) == [Whole(KeyOf(first))];
  }

  /** A performance case that drops and loads. */
  function Perf(collection: nat, setting: string): Case {
    Case(Performance, Place(0, collection), Atom(setting), true, true)
  }
}
