/** Assembler.assemble_all: the tasks become case runners, regrouped so that cases which can share
    a loaded collection run one after another. */
module Assembler {
  import opened Util

  datatype CaseLabel = Load | Performance | Streaming | CloudInsert | CloudColdLatency | FullTextSearch

  /** A case runner with what the assembler looks at. tag tells equal runners apart. */
  datatype Runner = Runner(tag: nat, db: string, kind: CaseLabel, datasetSize: nat, labelFilter: bool,
                           filterSupported: bool, fullTextSupported: bool)

  datatype AssembleError =
    | ClientMissing(db: string)
    | FullTextNotSupported(db: string)
    | FilterNotSupported(db: string)

  // ---- selecting, and sorting as Python's list.sort does ----

  function Select(s: seq<Runner>, keep: Runner -> bool): seq<Runner> {
    if s == [] then []
    else
      var last := s[|s| - 1];
      Select(s[..|s| - 1], keep) + if keep(last) then [last] else []
  }

  function HasLabel(l: CaseLabel): Runner -> bool {
    (r: Runner) => r.kind == l
  }

  function OfDb(db: string): Runner -> bool {
    (r: Runner) => r.db == db
  }

  /** The sort key: dataset size, label filters first. */
  function Key(r: Runner): (nat, nat) {
    (r.datasetSize, if r.labelFilter then 0 else 1)
  }

  predicate KeyLe(a: (nat, nat), b: (nat, nat)) {
    a.0 < b.0 || (a.0 == b.0 && a.1 <= b.1)
  }

  /** The order of two runners: the smaller dataset first, and for one size those with a label filter first. */
  lemma KeyOrder(a: Runner, b: Runner)
    ensures KeyLe(Key(a), Key(b))
            <==> a.datasetSize < b.datasetSize || (a.datasetSize == b.datasetSize && (b.labelFilter ==> a.labelFilter))
  {}

  function HasKey(k: (nat, nat)): Runner -> bool {
    (r: Runner) => Key(r) == k
  }

  ghost predicate Sorted(s: seq<Runner>) {
    forall i, j :: 0 <= i < j < |s| ==> KeyLe(Key(s[i]), Key(s[j]))
  }

  /** Insert after every runner whose key is not larger. */
  function Insert(s: seq<Runner>, r: Runner): seq<Runner> {
    if s == [] || KeyLe(Key(s[|s| - 1]), Key(r)) then s + [r]
    else Insert(s[..|s| - 1], r) + [s[|s| - 1]]
  }

  function StableSort(s: seq<Runner>): seq<Runner> {
    if s == [] then [] else Insert(StableSort(s[..|s| - 1]), s[|s| - 1])
  }

  lemma SelectAppend(s: seq<Runner>, r: Runner, keep: Runner -> bool)
    ensures Select(s + [r], keep) == Select(s, keep) + if keep(r) then [r] else []
  {
    assert (s + [r])[..|s|] == s;
  }

  lemma {:induction false} InsertHolds(s: seq<Runner>, r: Runner)
    ensures multiset(Insert(s, r)) == multiset(s) + multiset{r}
  {
    if s != [] && !KeyLe(Key(s[|s| - 1]), Key(r)) {
      InsertHolds(s[..|s| - 1], r);
      assert s == s[..|s| - 1] + [s[|s| - 1]];
    }
  }

  ghost predicate AllBelow(s: seq<Runner>, k: (nat, nat)) {
    forall i :: 0 <= i < |s| ==> KeyLe(Key(s[i]), k)
  }

  lemma SortedAppend(s: seq<Runner>, last: Runner)
    ensures Sorted(s + [last]) <==> Sorted(s) && AllBelow(s, Key(last))
  {
    var t := s + [last];
    if Sorted(t) {
      assert forall i :: 0 <= i < |s| ==> s[i] == t[i];
      assert t[|s|] == last;
    }
  }

  lemma {:induction false} InsertBelow(s: seq<Runner>, r: Runner, k: (nat, nat))
    requires AllBelow(s, k) && KeyLe(Key(r), k)
    ensures AllBelow(Insert(s, r), k)
  {
    if s != [] && !KeyLe(Key(s[|s| - 1]), Key(r)) {
      InsertBelow(s[..|s| - 1], r, k);
    }
  }

  lemma {:induction false} InsertSorted(s: seq<Runner>, r: Runner)
    requires Sorted(s)
    ensures Sorted(Insert(s, r))
  {
    if s == [] {
    } else {
      var front, last := s[..|s| - 1], s[|s| - 1];
      assert s == front + [last];
      SortedAppend(front, last);
      if KeyLe(Key(last), Key(r)) {
        SortedAppend(s, r);
      } else {
        InsertSorted(front, r);
        InsertBelow(front, r, Key(last));
        SortedAppend(Insert(front, r), last);
      }
    }
  }

  /** Swapping two neighbours with different keys does not change what one key sees. */
  lemma SelectSwap(s: seq<Runner>, a: Runner, b: Runner, k: (nat, nat))
    requires Key(a) != Key(b)
    ensures Select(s + [a] + [b], HasKey(k)) == Select(s + [b] + [a], HasKey(k))
  {
    SelectAppend(s, a, HasKey(k));
    SelectAppend(s, b, HasKey(k));
    SelectAppend(s + [a], b, HasKey(k));
    SelectAppend(s + [b], a, HasKey(k));
  }

  /** Inserting keeps the order of the runners of each key. */
  lemma {:induction false} InsertStable(s: seq<Runner>, r: Runner, k: (nat, nat))
    ensures Select(Insert(s, r), HasKey(k)) == Select(s + [r], HasKey(k))
  {
    if s != [] && !KeyLe(Key(s[|s| - 1]), Key(r)) {
      var front, last := s[..|s| - 1], s[|s| - 1];
      InsertStable(front, r, k);
      calc {
        Select(Insert(s, r), HasKey(k));
        { SelectAppend(Insert(front, r), last, HasKey(k)); SelectAppend(front + [r], last, HasKey(k)); }
        Select(front + [r] + [last], HasKey(k));
        { SelectSwap(front, r, last, k); }
        Select(front + [last] + [r], HasKey(k));
        { assert s == front + [last]; }
        Select(s + [r], HasKey(k));
      }
    }
  }

  lemma {:induction false} SortStable(s: seq<Runner>, k: (nat, nat))
    ensures Select(StableSort(s), HasKey(k)) == Select(s, HasKey(k))
  {
    if s != [] {
      var front, last := s[..|s| - 1], s[|s| - 1];
      calc {
        Select(StableSort(s), HasKey(k));
        { InsertStable(StableSort(front), last, k); }
        Select(StableSort(front) + [last], HasKey(k));
        { SelectAppend(StableSort(front), last, HasKey(k)); SortStable(front, k); }
        Select(front, HasKey(k)) + if HasKey(k)(last) then [last] else [];
        Select(s, HasKey(k));
      }
    }
  }

  lemma {:induction false} SortSorted(s: seq<Runner>)
    ensures Sorted(StableSort(s)) && multiset(StableSort(s)) == multiset(s)
  {
    if s != [] {
      var front, last := s[..|s| - 1], s[|s| - 1];
      SortSorted(front);
      InsertSorted(StableSort(front), last);
      InsertHolds(StableSort(front), last);
      assert s == front + [last];
    }
  }

  /** The result is sorted, a permutation, and ties stay in the order they came in. */
  lemma StableSortCorrect(s: seq<Runner>)
    ensures Sorted(StableSort(s)) && multiset(StableSort(s)) == multiset(s)
    ensures forall k :: Select(StableSort(s), HasKey(k)) == Select(s, HasKey(k))
  {
    SortSorted(s);
    forall k ensures Select(StableSort(s), HasKey(k)) == Select(s, HasKey(k)) {
      SortStable(s, k);
    }
  }

  lemma LastSelected(s: seq<Runner>)
    requires s != []
    ensures var last := s[|s| - 1];
            Select(s, HasKey(Key(last))) == Select(s[..|s| - 1], HasKey(Key(last))) + [last]
  {}

  /** The last runner of a sorted list, if it occurs in another one, is not past that one's last. */
  lemma LastIsLargest(a: seq<Runner>, b: seq<Runner>)
    requires a != [] && Sorted(b)
    requires var k := Key(a[|a| - 1]); Select(a, HasKey(k)) == Select(b, HasKey(k))
    ensures b != [] && KeyLe(Key(a[|a| - 1]), Key(b[|b| - 1]))
  {
    var last := a[|a| - 1];
    LastSelected(a);
    assert last in Select(a, HasKey(Key(last)));
    SelectMembers(b, HasKey(Key(last)));
    var i :| 0 <= i < |b| && b[i] == last;
    assert i < |b| - 1 ==> KeyLe(Key(b[i]), Key(b[|b| - 1]));
  }

  /** Only one list is sorted and keeps the runners of every key in the order they came in. */
  lemma {:induction false} StableSortUnique(a: seq<Runner>, b: seq<Runner>)
    requires Sorted(a) && Sorted(b)
    requires forall k :: Select(a, HasKey(k)) == Select(b, HasKey(k))
    ensures a == b
  {
    if a != [] || b != [] {
      if a != [] { LastIsLargest(a, b); }
      if b != [] { LastIsLargest(b, a); }
      var frontA, lastA := a[..|a| - 1], a[|a| - 1];
      var frontB, lastB := b[..|b| - 1], b[|b| - 1];
      assert a == frontA + [lastA] && b == frontB + [lastB];
      LastSelected(a);
      LastSelected(b);
      assert lastA == lastB by {
        var chosen := Select(a, HasKey(Key(lastA)));
        assert chosen[|chosen| - 1] == lastA == lastB;
      }
      forall k ensures Select(frontA, HasKey(k)) == Select(frontB, HasKey(k)) {
        SameFront(frontA, frontB, lastA, k);
      }
      StableSortUnique(frontA, frontB);
    }
  }

  lemma SameFront(a: seq<Runner>, b: seq<Runner>, r: Runner, k: (nat, nat))
    requires Select(a + [r], HasKey(k)) == Select(b + [r], HasKey(k))
    ensures Select(a, HasKey(k)) == Select(b, HasKey(k))
  {
    SelectAppend(a, r, HasKey(k));
    SelectAppend(b, r, HasKey(k));
    var tail := if HasKey(k)(r) then [r] else [];
    assert (Select(a, HasKey(k)) + tail)[..|Select(a, HasKey(k))|] == Select(a, HasKey(k));
  }

  // ---- grouping ----

  /** The databases in the order they first occur: the insertion order of the dictionary. */
  function Dbs(s: seq<Runner>): seq<string> {
    if s == [] then []
    else
      var before, last := Dbs(s[..|s| - 1]), s[|s| - 1];
      if last.db in before then before else before + [last.db]
  }

  lemma {:induction false} DbsFacts(s: seq<Runner>)
    ensures Distinct(Dbs(s))
    ensures forall i :: 0 <= i < |s| ==> s[i].db in Dbs(s)
  {
    if s != [] {
      var front := s[..|s| - 1];
      DbsFacts(front);
      assert forall i :: 0 <= i < |front| ==> front[i] == s[i];
    }
  }

  /** Some runner of the database a comes before all runners of the database b. */
  ghost predicate OccursBefore(s: seq<Runner>, a: string, b: string) {
    exists i :: 0 <= i < |s| && s[i].db == a && forall j :: 0 <= j <= i ==> s[j].db != b
  }

  lemma {:induction false} DbsInOrder(s: seq<Runner>, g: nat, h: nat)
    requires g < h < |Dbs(s)|
    ensures OccursBefore(s, Dbs(s)[g], Dbs(s)[h])
  {
    var front, last := s[..|s| - 1], s[|s| - 1];
    var a, b := Dbs(s)[g], Dbs(s)[h];
    if h < |Dbs(front)| {
      DbsInOrder(front, g, h);
      var i :| 0 <= i < |front| && front[i].db == a && forall j :: 0 <= j <= i ==> front[j].db != b;
      assert s[i].db == a && forall j :: 0 <= j <= i ==> s[j] == front[j];
    } else {
      DbsOccur(front, g);
      var i :| 0 <= i < |front| && front[i].db == a;
      DbsFacts(front);
      assert s[i].db == a && forall j :: 0 <= j <= i ==> s[j] == front[j] && front[j].db in Dbs(front);
    }
  }

  /** The sorted groups, one database after the other. */
  function Groups(dbs: seq<string>, s: seq<Runner>): seq<Runner> {
    if dbs == [] then []
    else Groups(dbs[..|dbs| - 1], s) + StableSort(Select(s, OfDb(dbs[|dbs| - 1])))
  }

  ghost function SearchRunners(runners: seq<Runner>): seq<Runner> {
    Select(runners, HasLabel(Performance)) + Select(runners, HasLabel(CloudColdLatency))
  }

  ghost function Arranged(runners: seq<Runner>): seq<Runner> {
    var search := SearchRunners(runners);
    Select(runners, HasLabel(Load)) + Select(runners, HasLabel(Streaming)) + Select(runners, HasLabel(CloudInsert))
      + Groups(Dbs(search), search) + Select(runners, HasLabel(FullTextSearch))
  }

  // ---- the checks, in the order the source makes them ----

  /** assemble() on one task: a full-text case needs its client and full-text support. */
  function TaskProblem(installed: string -> bool, r: Runner): Option<AssembleError> {
    if r.kind != FullTextSearch then None
    else if !installed(r.db) then Some(ClientMissing(r.db))
    else if !r.fullTextSupported then Some(FullTextNotSupported(r.db))
    else None
  }

  function FirstTaskProblem(installed: string -> bool, runners: seq<Runner>): Option<AssembleError> {
    if runners == [] then None
    else
      var before := FirstTaskProblem(installed, runners[..|runners| - 1]);
      if before.Some? then before else TaskProblem(installed, runners[|runners| - 1])
  }

  ghost predicate AllFiltersSupported(s: seq<Runner>) {
    forall i :: 0 <= i < |s| ==> s[i].filterSupported
  }

  /** The check of one database's search runners. */
  ghost function DbProblem(installed: string -> bool, db: string, group: seq<Runner>): Option<AssembleError> {
    if !installed(db) then Some(ClientMissing(db))
    else if !AllFiltersSupported(group) then Some(FilterNotSupported(db))
    else None
  }

  ghost function FirstDbProblem(installed: string -> bool, dbs: seq<string>, search: seq<Runner>):
    Option<AssembleError>
  {
    if dbs == [] then None
    else
      var before, last := FirstDbProblem(installed, dbs[..|dbs| - 1], search), dbs[|dbs| - 1];
      if before.Some? then before else DbProblem(installed, last, Select(search, OfDb(last)))
  }

  ghost function FirstProblem(installed: string -> bool, runners: seq<Runner>): Option<AssembleError> {
    var search := SearchRunners(runners);
    var first := FirstTaskProblem(installed, runners);
    if first.Some? then first else FirstDbProblem(installed, Dbs(search), search)
  }

  ghost predicate FullTextReady(installed: string -> bool, runners: seq<Runner>) {
    forall i :: 0 <= i < |runners| && runners[i].kind == FullTextSearch ==>
      installed(runners[i].db) && runners[i].fullTextSupported
  }

  ghost predicate SearchReady(installed: string -> bool, search: seq<Runner>) {
    forall i :: 0 <= i < |search| ==> installed(search[i].db) && search[i].filterSupported
  }

  lemma {:induction false} NoTaskProblem(installed: string -> bool, runners: seq<Runner>)
    ensures FirstTaskProblem(installed, runners).None? <==> FullTextReady(installed, runners)
  {
    if runners != [] {
      var front := runners[..|runners| - 1];
      NoTaskProblem(installed, front);
      assert forall i :: 0 <= i < |front| ==> front[i] == runners[i];
    }
  }

  ghost predicate DbReady(installed: string -> bool, search: seq<Runner>, db: string) {
    installed(db) && AllFiltersSupported(Select(search, OfDb(db)))
  }

  ghost predicate AllDbsReady(installed: string -> bool, dbs: seq<string>, search: seq<Runner>) {
    forall g :: 0 <= g < |dbs| ==> DbReady(installed, search, dbs[g])
  }

  lemma {:induction false} NoDbProblem(installed: string -> bool, dbs: seq<string>, search: seq<Runner>)
    ensures FirstDbProblem(installed, dbs, search).None? <==> AllDbsReady(installed, dbs, search)
  {
    if dbs != [] {
      var front := dbs[..|dbs| - 1];
      NoDbProblem(installed, front, search);
      assert forall g :: 0 <= g < |front| ==> front[g] == dbs[g];
    }
  }

  lemma GroupIsReady(installed: string -> bool, search: seq<Runner>, g: nat)
    requires SearchReady(installed, search) && g < |Dbs(search)|
    ensures DbReady(installed, search, Dbs(search)[g])
  {
    DbsOccur(search, g);
    var group := Select(search, OfDb(Dbs(search)[g]));
    SelectMembers(search, OfDb(Dbs(search)[g]));
    assert forall i :: 0 <= i < |group| ==> group[i] in group;
  }

  lemma MemberIsReady(installed: string -> bool, search: seq<Runner>, db: string, r: Runner)
    requires DbReady(installed, search, db) && r in search && r.db == db
    ensures installed(db) && r.filterSupported
  {
    SelectMembers(search, OfDb(db));
    var j :| 0 <= j < |Select(search, OfDb(db))| && Select(search, OfDb(db))[j] == r;
  }

  lemma RunnerIsReady(installed: string -> bool, search: seq<Runner>, i: nat)
    requires AllDbsReady(installed, Dbs(search), search) && i < |search|
    ensures installed(search[i].db) && search[i].filterSupported
  {
    DbsFacts(search);
    var dbs, r := Dbs(search), search[i];
    var g :| 0 <= g < |dbs| && dbs[g] == r.db;
    MemberIsReady(installed, search, dbs[g], r);
  }

  /** The groups are ready exactly when every runner is. */
  lemma ReadyByGroup(installed: string -> bool, search: seq<Runner>)
    ensures SearchReady(installed, search) <==> AllDbsReady(installed, Dbs(search), search)
  {
    if SearchReady(installed, search) {
      forall g | 0 <= g < |Dbs(search)| ensures DbReady(installed, search, Dbs(search)[g]) {
        GroupIsReady(installed, search, g);
      }
    }
    if AllDbsReady(installed, Dbs(search), search) {
      forall i | 0 <= i < |search| ensures installed(search[i].db) && search[i].filterSupported {
        RunnerIsReady(installed, search, i);
      }
    }
  }

  lemma {:induction false} DbsOccur(s: seq<Runner>, g: nat)
    requires g < |Dbs(s)|
    ensures exists i :: 0 <= i < |s| && s[i].db == Dbs(s)[g]
  {
    var front := s[..|s| - 1];
    if g < |Dbs(front)| {
      DbsOccur(front, g);
      var i :| 0 <= i < |front| && front[i].db == Dbs(front)[g];
      assert s[i].db == Dbs(s)[g];
    } else {
      assert s[|s| - 1].db == Dbs(s)[g];
    }
  }

  /** Assembling goes through exactly when the client of every full-text and search case is installed and
      supports what the case needs. */
  lemma AssemblesExactlyWhen(installed: string -> bool, runners: seq<Runner>)
    ensures FirstProblem(installed, runners).None?
            <==> FullTextReady(installed, runners) && SearchReady(installed, SearchRunners(runners))
  {
    var search := SearchRunners(runners);
    NoTaskProblem(installed, runners);
    NoDbProblem(installed, Dbs(search), search);
    ReadyByGroup(installed, search);
  }

  /** The first i tasks assemble, and the next one is refused for the reason e. */
  ghost predicate StopsAtTask(installed: string -> bool, runners: seq<Runner>, i: nat, e: AssembleError) {
    && i < |runners| && FullTextReady(installed, runners[..i]) && runners[i].kind == FullTextSearch
    && var db := runners[i].db;
       if !installed(db) then e == ClientMissing(db) else !runners[i].fullTextSupported && e == FullTextNotSupported(db)
  }

  /** The search runners of the first g databases pass, and the next database is refused for the reason e. */
  ghost predicate StopsAtDb(installed: string -> bool, search: seq<Runner>, g: nat, e: AssembleError) {
    && g < |Dbs(search)|
    && (forall r :: r in search && r.db in Dbs(search)[..g] ==> installed(r.db) && r.filterSupported)
    && var db := Dbs(search)[g];
       if !installed(db) then e == ClientMissing(db)
       else e == FilterNotSupported(db) && (exists r :: r in search && r.db == db && !r.filterSupported)
  }

  lemma {:induction false} FirstTask(installed: string -> bool, runners: seq<Runner>)
    requires FirstTaskProblem(installed, runners).Some?
    ensures exists i: nat :: StopsAtTask(installed, runners, i, FirstTaskProblem(installed, runners).value)
  {
    var e, front := FirstTaskProblem(installed, runners).value, runners[..|runners| - 1];
    if FirstTaskProblem(installed, front).Some? {
      FirstTask(installed, front);
      var i: nat :| StopsAtTask(installed, front, i, e);
      assert front[..i] == runners[..i];
      assert StopsAtTask(installed, runners, i, e);
    } else {
      NoTaskProblem(installed, front);
      assert StopsAtTask(installed, runners, |front|, e);
    }
  }

  lemma {:induction false} FirstDb(installed: string -> bool, search: seq<Runner>, n: nat)
    requires n <= |Dbs(search)| && FirstDbProblem(installed, Dbs(search)[..n], search).Some?
    ensures exists g: nat :: StopsAtDb(installed, search, g, FirstDbProblem(installed, Dbs(search)[..n], search).value)
  {
    var dbs, e := Dbs(search), FirstDbProblem(installed, Dbs(search)[..n], search).value;
    assert dbs[..n][..n - 1] == dbs[..n - 1];
    if FirstDbProblem(installed, dbs[..n - 1], search).Some? {
      FirstDb(installed, search, n - 1);
    } else {
      NoDbProblem(installed, dbs[..n - 1], search);
      forall r | r in search && r.db in dbs[..n - 1] ensures installed(r.db) && r.filterSupported {
        var g :| 0 <= g < n - 1 && dbs[..n - 1][g] == r.db;
        MemberIsReady(installed, search, r.db, r);
      }
      var group := Select(search, OfDb(dbs[n - 1]));
      SelectMembers(search, OfDb(dbs[n - 1]));
      if !AllFiltersSupported(group) {
        var i :| 0 <= i < |group| && !group[i].filterSupported;
        assert group[i] in group;
      }
      assert StopsAtDb(installed, search, n - 1, e);
    }
  }

  /** The error is that of the first task that fails; only when all tasks assemble it is that of the first
      database, in the order the databases occur, that fails. */
  lemma FirstProblemIsFirst(installed: string -> bool, runners: seq<Runner>)
    requires FirstProblem(installed, runners).Some?
    ensures var e, search := FirstProblem(installed, runners).value, SearchRunners(runners);
            if FullTextReady(installed, runners) then exists g: nat :: StopsAtDb(installed, search, g, e)
            else exists i: nat :: StopsAtTask(installed, runners, i, e)
  {
    var search := SearchRunners(runners);
    NoTaskProblem(installed, runners);
    if FullTextReady(installed, runners) {
      assert Dbs(search)[..|Dbs(search)|] == Dbs(search);
      FirstDb(installed, search, |Dbs(search)|);
    } else {
      FirstTask(installed, runners);
    }
  }

  lemma {:induction false} SelectMembers(s: seq<Runner>, keep: Runner -> bool)
    ensures forall x :: x in Select(s, keep) <==> x in s && keep(x)
  {
    if s != [] {
      SelectMembers(s[..|s| - 1], keep);
      assert s == s[..|s| - 1] + [s[|s| - 1]];
    }
  }

  ghost predicate IsGrouping(s: seq<Runner>, dbs: seq<string>, db2runner: map<string, seq<Runner>>) {
    && dbs == Dbs(s) && db2runner.Keys == Elements(dbs)
    && (forall db :: db in db2runner ==> db2runner[db] == Select(s, OfDb(db)))
  }

  function Entry(db2runner: map<string, seq<Runner>>, db: string): seq<Runner> {
    if db in db2runner then db2runner[db] else []
  }

  lemma GroupsAfterOneMore(s: seq<Runner>, r: Runner, db2runner: map<string, seq<Runner>>, db: string)
    requires Entry(db2runner, r.db) == Select(s, OfDb(r.db))
    requires db in db2runner ==> db2runner[db] == Select(s, OfDb(db))
    requires db in db2runner || db == r.db
    ensures db2runner[r.db := Entry(db2runner, r.db) + [r]][db] == Select(s + [r], OfDb(db))
  {
    SelectAppend(s, r, OfDb(db));
  }

  lemma DbsAppend(s: seq<Runner>, r: Runner)
    ensures Dbs(s + [r]) == if r.db in Dbs(s) then Dbs(s) else Dbs(s) + [r.db]
  {
    assert (s + [r])[..|s|] == s;
  }

  lemma GroupOneMore(s: seq<Runner>, r: Runner, dbs: seq<string>, db2runner: map<string, seq<Runner>>)
    requires IsGrouping(s, dbs, db2runner)
    ensures r.db in db2runner <==> r.db in dbs
    ensures IsGrouping(s + [r], if r.db in dbs then dbs else dbs + [r.db],
                       db2runner[r.db := Entry(db2runner, r.db) + [r]])
  {
    assert r.db in dbs <==> r.db in Elements(dbs);
    DbsAppend(s, r);
    ElementsAppend(dbs, r.db);
    assert Entry(db2runner, r.db) == Select(s, OfDb(r.db)) by {
      if r.db !in db2runner {
        DbsFacts(s);
        SelectNothing(s, OfDb(r.db));
      }
    }
    var after := db2runner[r.db := Entry(db2runner, r.db) + [r]];
    forall db | db in after ensures after[db] == Select(s + [r], OfDb(db)) {
      GroupsAfterOneMore(s, r, db2runner, db);
    }
  }

  lemma EmptyEntryFirst(db2runner: map<string, seq<Runner>>, r: Runner)
    ensures r.db !in db2runner ==>
      var opening := db2runner[r.db := []];
      opening[r.db := opening[r.db] + [r]] == db2runner[r.db := Entry(db2runner, r.db) + [r]]
    ensures r.db in db2runner ==> Entry(db2runner, r.db) == db2runner[r.db]
  {}

  /** The grouping loop over a dictionary of lists. */
  method GroupByDb(search: seq<Runner>) returns (dbs: seq<string>, db2runner: map<string, seq<Runner>>)
    ensures IsGrouping(search, dbs, db2runner)
  {
    dbs, db2runner := [], map[];
    var i := 0;
    while i < |search|
      invariant 0 <= i <= |search| && IsGrouping(search[..i], dbs, db2runner)
    {
      var r := search[i];
      GroupOneMore(search[..i], r, dbs, db2runner);
      assert search[..i + 1] == search[..i] + [r];
      EmptyEntryFirst(db2runner, r);
      if r.db !in db2runner {
        dbs := dbs + [r.db];
        db2runner := db2runner[r.db := []];
      }
      db2runner := db2runner[r.db := db2runner[r.db] + [r]];
      i := i + 1;
    }
    assert search[..i] == search;
  }

  method GroupSupported(group: seq<Runner>) returns (ok: bool)
    ensures ok <==> AllFiltersSupported(group)
  {
    var j := 0;
    while j < |group|
      invariant 0 <= j <= |group| && AllFiltersSupported(group[..j])
    {
      if !group[j].filterSupported {
        return false;
      }
      assert forall i :: 0 <= i < j ==> group[i] == group[..j][i];
      j := j + 1;
    }
    assert group[..j] == group;
    ok := true;
  }

  lemma DbProblemStep(installed: string -> bool, search: seq<Runner>, dbs: seq<string>, g: nat)
    requires g < |dbs| && FirstDbProblem(installed, dbs[..g], search).None?
    ensures FirstDbProblem(installed, dbs[..g + 1], search)
         == DbProblem(installed, dbs[g], Select(search, OfDb(dbs[g])))
  {
    assert dbs[..g + 1][..g] == dbs[..g];
  }

  lemma {:induction false} DbProblemStays(installed: string -> bool, search: seq<Runner>, dbs: seq<string>, g: nat)
    requires g <= |dbs| && FirstDbProblem(installed, dbs[..g], search).Some?
    ensures FirstDbProblem(installed, dbs, search) == FirstDbProblem(installed, dbs[..g], search)
  {
    if g < |dbs| {
      assert dbs[..|dbs| - 1][..g] == dbs[..g];
      DbProblemStays(installed, search, dbs[..|dbs| - 1], g);
    } else {
      assert dbs[..g] == dbs;
    }
  }

  method CheckFilters(installed: string -> bool, ghost search: seq<Runner>, dbs: seq<string>,
                      db2runner: map<string, seq<Runner>>)
    returns (bad: Option<AssembleError>)
    requires IsGrouping(search, dbs, db2runner)
    ensures bad == FirstDbProblem(installed, dbs, search)
  {
    var g := 0;
    while g < |dbs|
      invariant 0 <= g <= |dbs| && FirstDbProblem(installed, dbs[..g], search).None?
    {
      var db := dbs[g];
      DbProblemStep(installed, search, dbs, g);
      GroupOf(search, dbs, db2runner, g);
      var supported := GroupSupported(db2runner[db]);
      if !installed(db) || !supported {
        DbProblemStays(installed, search, dbs, g + 1);
        return Some(if !installed(db) then ClientMissing(db) else FilterNotSupported(db));
      }
      g := g + 1;
    }
    assert dbs[..g] == dbs;
    bad := None;
  }

  lemma GroupOf(search: seq<Runner>, dbs: seq<string>, db2runner: map<string, seq<Runner>>, g: nat)
    requires IsGrouping(search, dbs, db2runner) && g < |dbs|
    ensures dbs[g] in db2runner && db2runner[dbs[g]] == Select(search, OfDb(dbs[g]))
  {
    assert dbs[g] in Elements(dbs);
  }

  lemma {:induction false} TaskProblemStays(installed: string -> bool, runners: seq<Runner>, n: nat)
    requires n <= |runners| && FirstTaskProblem(installed, runners[..n]).Some?
    ensures FirstTaskProblem(installed, runners) == FirstTaskProblem(installed, runners[..n])
  {
    if n < |runners| {
      assert runners[..|runners| - 1][..n] == runners[..n];
      TaskProblemStays(installed, runners[..|runners| - 1], n);
    } else {
      assert runners[..n] == runners;
    }
  }

  /** assemble() on every task, up to the first that raises. */
  method AssembleEach(installed: string -> bool, runners: seq<Runner>) returns (bad: Option<AssembleError>)
    ensures bad == FirstTaskProblem(installed, runners)
  {
    var i := 0;
    while i < |runners|
      invariant 0 <= i <= |runners| && FirstTaskProblem(installed, runners[..i]).None?
    {
      bad := TaskProblem(installed, runners[i]);
      assert runners[..i + 1][..i] == runners[..i];
      if bad.Some? {
        TaskProblemStays(installed, runners, i + 1);
        return;
      }
      i := i + 1;
    }
    assert runners[..i] == runners;
    bad := None;
  }

  lemma GroupsStep(dbs: seq<string>, g: nat, s: seq<Runner>)
    requires g < |dbs|
    ensures Groups(dbs[..g + 1], s) == Groups(dbs[..g], s) + StableSort(Select(s, OfDb(dbs[g])))
  {
    assert dbs[..g + 1][..g] == dbs[..g];
  }

  lemma AppendAssociates(a: seq<Runner>, b: seq<Runner>, c: seq<Runner>)
    ensures (a + b) + c == a + (b + c)
  {}

  lemma GroupsOneMore(all: seq<Runner>, first: seq<Runner>, search: seq<Runner>, dbs: seq<string>,
                      db2runner: map<string, seq<Runner>>, g: nat)
    requires IsGrouping(search, dbs, db2runner) && g < |dbs| && all == first + Groups(dbs[..g], search)
    ensures dbs[g] in db2runner && all + StableSort(db2runner[dbs[g]]) == first + Groups(dbs[..g + 1], search)
  {
    assert dbs[g] in Elements(dbs);
    GroupsStep(dbs, g, search);
    AppendAssociates(first, Groups(dbs[..g], search), StableSort(db2runner[dbs[g]]));
  }

  /** Sort every group and append it. */
  method AppendGroups(first: seq<Runner>, ghost search: seq<Runner>, dbs: seq<string>,
                      db2runner: map<string, seq<Runner>>)
    returns (all: seq<Runner>)
    requires IsGrouping(search, dbs, db2runner)
    ensures all == first + Groups(dbs, search)
  {
    all := first;
    var g := 0;
    while g < |dbs|
      invariant 0 <= g <= |dbs| && all == first + Groups(dbs[..g], search)
    {
      GroupsOneMore(all, first, search, dbs, db2runner, g);
      all := all + StableSort(db2runner[dbs[g]]);
      g := g + 1;
    }
    assert dbs[..g] == dbs;
  }

  method AssembleAll(installed: string -> bool, runners: seq<Runner>) returns (r: Result<seq<Runner>, AssembleError>)
    ensures r == match FirstProblem(installed, runners)
                 case None => Ok(Arranged(runners))
                 case Some(problem) => Err(problem)
  {
    var bad := AssembleEach(installed, runners);
    if bad.Some? {
      return Err(bad.value);
    }
    var search := Select(runners, HasLabel(Performance)) + Select(runners, HasLabel(CloudColdLatency));
    var dbs, db2runner := GroupByDb(search);
    bad := CheckFilters(installed, search, dbs, db2runner);
    if bad.Some? {
      return Err(bad.value);
    }
    var all := Select(runners, HasLabel(Load)) + Select(runners, HasLabel(Streaming))
               + Select(runners, HasLabel(CloudInsert));
    all := AppendGroups(all, search, dbs, db2runner);
    r := Ok(all + Select(runners, HasLabel(FullTextSearch)));
  }

  // ---- nothing is lost, and runners that share a database stay together ----

  lemma {:induction false} SelectCount(s: seq<Runner>, keep: Runner -> bool, x: Runner)
    ensures multiset(Select(s, keep))[x] == if keep(x) then multiset(s)[x] else 0
  {
    if s != [] {
      SelectCount(s[..|s| - 1], keep, x);
      assert s == s[..|s| - 1] + [s[|s| - 1]];
    }
  }

  lemma {:induction false} SelectAll(s: seq<Runner>, keep: Runner -> bool)
    requires forall i :: 0 <= i < |s| ==> keep(s[i])
    ensures Select(s, keep) == s
  {
    if s != [] {
      SelectAll(s[..|s| - 1], keep);
      assert s == s[..|s| - 1] + [s[|s| - 1]];
    }
  }

  /** The groups of some databases hold exactly the runners of those databases. */
  lemma {:induction false} GroupsCount(dbs: seq<string>, s: seq<Runner>, x: Runner)
    requires Distinct(dbs)
    ensures multiset(Groups(dbs, s))[x] == if x.db in dbs then multiset(s)[x] else 0
  {
    if dbs != [] {
      var front, last := dbs[..|dbs| - 1], dbs[|dbs| - 1];
      GroupsCount(front, s, x);
      SortSorted(Select(s, OfDb(last)));
      SelectCount(s, OfDb(last), x);
      assert dbs == front + [last];
    }
  }

  /** assemble_all loses and duplicates nothing. */
  lemma ArrangedIsPermutation(runners: seq<Runner>)
    ensures multiset(Arranged(runners)) == multiset(runners)
  {
    forall x ensures multiset(Arranged(runners))[x] == multiset(runners)[x] {
      ArrangedCount(runners, x);
    }
  }

  lemma ArrangedCount(runners: seq<Runner>, x: Runner)
    ensures multiset(Arranged(runners))[x] == multiset(runners)[x]
  {
    var search := SearchRunners(runners);
    SelectCount(runners, HasLabel(Load), x);
    SelectCount(runners, HasLabel(Streaming), x);
    SelectCount(runners, HasLabel(CloudInsert), x);
    SelectCount(runners, HasLabel(FullTextSearch), x);
    SearchCount(runners, x);
    GroupedCount(search, x);
    CountOfFive(Select(runners, HasLabel(Load)), Select(runners, HasLabel(Streaming)),
                Select(runners, HasLabel(CloudInsert)), Groups(Dbs(search), search),
                Select(runners, HasLabel(FullTextSearch)), x);
  }

  lemma CountOfFive(a: seq<Runner>, b: seq<Runner>, c: seq<Runner>, d: seq<Runner>, e: seq<Runner>, x: Runner)
    ensures multiset(a + b + c + d + e)[x]
         == multiset(a)[x] + multiset(b)[x] + multiset(c)[x] + multiset(d)[x] + multiset(e)[x]
  {}

  lemma SearchCount(runners: seq<Runner>, x: Runner)
    ensures multiset(SearchRunners(runners))[x] == if Rank(x.kind) == 3 then multiset(runners)[x] else 0
  {
    SelectCount(runners, HasLabel(Performance), x);
    SelectCount(runners, HasLabel(CloudColdLatency), x);
  }

  lemma GroupedCount(search: seq<Runner>, x: Runner)
    ensures multiset(Groups(Dbs(search), search))[x] == multiset(search)[x]
  {
    DbsFacts(search);
    GroupsCount(Dbs(search), search, x);
    if x in search {
      var i :| 0 <= i < |search| && search[i] == x;
      assert x.db in Dbs(search);
    }
    assert x in multiset(search) <==> x in search;
  }

  /** Each database's search runners stand together, sorted, with ties as they came. */
  ghost predicate Contiguous(s: seq<Runner>) {
    && (forall i, j, k :: 0 <= i < j < k < |s| && s[i].db == s[k].db ==> s[j].db == s[i].db)
    && (forall i, j :: 0 <= i < j < |s| && s[i].db == s[j].db ==> KeyLe(Key(s[i]), Key(s[j])))
  }

  lemma GroupMembers(s: seq<Runner>, db: string)
    ensures forall x :: x in StableSort(Select(s, OfDb(db))) ==> x in s && x.db == db
  {
    var group := Select(s, OfDb(db));
    SortSorted(group);
    SelectMembers(s, OfDb(db));
    forall x | x in StableSort(group) ensures x in group {
      assert x in multiset(StableSort(group));
    }
  }

  lemma {:induction false} GroupsContiguous(dbs: seq<string>, s: seq<Runner>)
    requires Distinct(dbs)
    ensures Contiguous(Groups(dbs, s))
    ensures forall i :: 0 <= i < |Groups(dbs, s)| ==> Groups(dbs, s)[i].db in dbs && Groups(dbs, s)[i] in s
  {
    if dbs != [] {
      var front, last := dbs[..|dbs| - 1], dbs[|dbs| - 1];
      GroupsContiguous(front, s);
      SortSorted(Select(s, OfDb(last)));
      GroupMembers(s, last);
      JoinContiguous(Groups(front, s), StableSort(Select(s, OfDb(last))), front, last);
      assert dbs == front + [last];
    }
  }

  lemma JoinContiguous(a: seq<Runner>, b: seq<Runner>, dbs: seq<string>, db: string)
    requires Contiguous(a) && Sorted(b) && db !in dbs
    requires forall i :: 0 <= i < |a| ==> a[i].db in dbs
    requires forall x :: x in b ==> x.db == db
    ensures Contiguous(a + b)
  {
    assert forall i :: 0 <= i < |b| ==> b[i] in b;
  }

  lemma {:induction false} GroupsAscend(dbs: seq<string>, s: seq<Runner>, i: nat, j: nat)
    requires Distinct(dbs) && i < j < |Groups(dbs, s)| && Groups(dbs, s)[i].db != Groups(dbs, s)[j].db
    ensures exists g, h :: 0 <= g < h < |dbs| && dbs[g] == Groups(dbs, s)[i].db && dbs[h] == Groups(dbs, s)[j].db
  {
    var front, last := dbs[..|dbs| - 1], dbs[|dbs| - 1];
    var before, group := Groups(front, s), StableSort(Select(s, OfDb(last)));
    assert Groups(dbs, s) == before + group;
    if j < |before| {
      GroupsAscend(front, s, i, j);
      var g, h :| 0 <= g < h < |front| && front[g] == before[i].db && front[h] == before[j].db;
      assert dbs[g] == front[g] && dbs[h] == front[h];
    } else {
      GroupMembers(s, last);
      assert forall k :: 0 <= k < |group| ==> group[k] in group;
      GroupsContiguous(front, s);
      var g :| 0 <= g < |front| && front[g] == before[i].db;
      assert dbs[g] == front[g];
    }
  }

  /** The groups follow each other as the databases first occur among the search cases. */
  lemma GroupsInOrder(runners: seq<Runner>, i: nat, j: nat)
    requires var search := SearchRunners(runners);
             var groups := Groups(Dbs(search), search);
             i < j < |groups| && groups[i].db != groups[j].db
    ensures var search := SearchRunners(runners);
            var groups := Groups(Dbs(search), search);
            OccursBefore(search, groups[i].db, groups[j].db)
  {
    var search := SearchRunners(runners);
    var dbs := Dbs(search);
    DbsFacts(search);
    GroupsAscend(dbs, search, i, j);
    var g, h :| 0 <= g < h < |dbs| && dbs[g] == Groups(dbs, search)[i].db && dbs[h] == Groups(dbs, search)[j].db;
    DbsInOrder(search, g, h);
  }

  lemma OneDbOfGroup(s: seq<Runner>, db: string, other: string)
    ensures Select(StableSort(Select(s, OfDb(other))), OfDb(db))
         == if db == other then StableSort(Select(s, OfDb(db))) else []
  {
    var group := StableSort(Select(s, OfDb(other)));
    GroupMembers(s, other);
    assert forall i :: 0 <= i < |group| ==> group[i] in group;
    if db == other {
      SelectAll(group, OfDb(db));
    } else {
      SelectNothing(group, OfDb(db));
    }
  }

  lemma {:induction false} OneDbOfGroups(dbs: seq<string>, s: seq<Runner>, db: string)
    requires Distinct(dbs)
    ensures Select(Groups(dbs, s), OfDb(db)) == if db in dbs then StableSort(Select(s, OfDb(db))) else []
  {
    if dbs != [] {
      var front, last := dbs[..|dbs| - 1], dbs[|dbs| - 1];
      assert dbs == front + [last];
      OneDbOfGroups(front, s, db);
      calc {
        Select(Groups(dbs, s), OfDb(db));
        Select(Groups(front, s) + StableSort(Select(s, OfDb(last))), OfDb(db));
        { SelectConcat(Groups(front, s), StableSort(Select(s, OfDb(last))), OfDb(db)); }
        Select(Groups(front, s), OfDb(db)) + Select(StableSort(Select(s, OfDb(last))), OfDb(db));
        { OneDbOfGroup(s, db, last); }
        (if db in front then StableSort(Select(s, OfDb(db))) else [])
          + if db == last then StableSort(Select(s, OfDb(db))) else [];
      }
    }
  }

  lemma {:induction false} SelectNothing(s: seq<Runner>, keep: Runner -> bool)
    requires forall i :: 0 <= i < |s| ==> !keep(s[i])
    ensures Select(s, keep) == []
  {
    if s != [] {
      SelectNothing(s[..|s| - 1], keep);
    }
  }

  lemma {:induction false} SelectConcat(s: seq<Runner>, t: seq<Runner>, keep: Runner -> bool)
    ensures Select(s + t, keep) == Select(s, keep) + Select(t, keep)
  {
    if t == [] {
      assert s + t == s;
    } else {
      SelectConcat(s, t[..|t| - 1], keep);
      assert (s + t)[..|s + t| - 1] == s + t[..|t| - 1];
    }
  }

  /** How the case kinds follow each other in the arranged list. */
  function Rank(l: CaseLabel): nat {
    match l
    case Load => 0
    case Streaming => 1
    case CloudInsert => 2
    case Performance => 3
    case CloudColdLatency => 3
    case FullTextSearch => 4
  }

  ghost predicate RankedBetween(s: seq<Runner>, lo: nat, hi: nat) {
    && (forall i :: 0 <= i < |s| ==> lo <= Rank(s[i].kind) <= hi)
    && (forall i, j :: 0 <= i < j < |s| ==> Rank(s[i].kind) <= Rank(s[j].kind))
  }

  lemma SelectRanked(s: seq<Runner>, l: CaseLabel)
    ensures RankedBetween(Select(s, HasLabel(l)), Rank(l), Rank(l))
  {
    SelectMembers(s, HasLabel(l));
    assert forall i :: 0 <= i < |Select(s, HasLabel(l))| ==> Select(s, HasLabel(l))[i] in Select(s, HasLabel(l));
  }

  lemma JoinRanked(s: seq<Runner>, t: seq<Runner>, lo: nat, mid: nat, hi: nat)
    requires RankedBetween(s, lo, mid) && RankedBetween(t, mid, hi) && lo <= mid <= hi
    ensures RankedBetween(s + t, lo, hi)
  {}

  /** The search cases of every database are contiguous, sorted by dataset size with label filters
      first, and stable. */
  lemma SearchOrder(runners: seq<Runner>)
    ensures var search := SearchRunners(runners);
            && Contiguous(Groups(Dbs(search), search))
            && forall db :: Select(Groups(Dbs(search), search), OfDb(db)) == StableSort(Select(search, OfDb(db)))
  {
    var search := SearchRunners(runners);
    DbsFacts(search);
    GroupsContiguous(Dbs(search), search);
    forall db ensures Select(Groups(Dbs(search), search), OfDb(db)) == StableSort(Select(search, OfDb(db))) {
      OneDbOfGroups(Dbs(search), search, db);
      if db !in Dbs(search) {
        SelectNothing(search, OfDb(db));
      }
    }
  }

  lemma SearchRanked(runners: seq<Runner>)
    ensures RankedBetween(Groups(Dbs(SearchRunners(runners)), SearchRunners(runners)), 3, 3)
  {
    var search := SearchRunners(runners);
    DbsFacts(search);
    GroupsContiguous(Dbs(search), search);
    SelectMembers(runners, HasLabel(Performance));
    SelectMembers(runners, HasLabel(CloudColdLatency));
  }

  lemma Widen(s: seq<Runner>, lo: nat, hi: nat, lo': nat, hi': nat)
    requires RankedBetween(s, lo, hi) && lo' <= lo && hi <= hi'
    ensures RankedBetween(s, lo', hi')
  {}

  /** Cases that write outside the load-reuse scheme come before every search case, or after all of
      them in the full-text section. */
  lemma ArrangedRanked(runners: seq<Runner>)
    ensures RankedBetween(Arranged(runners), 0, 4)
  {
    var search := SearchRunners(runners);
    var a, b := Select(runners, HasLabel(Load)), Select(runners, HasLabel(Streaming));
    var c := Select(runners, HasLabel(CloudInsert));
    var groups, f := Groups(Dbs(search), search), Select(runners, HasLabel(FullTextSearch));
    SelectRanked(runners, Load);
    SelectRanked(runners, Streaming);
    SelectRanked(runners, CloudInsert);
    SelectRanked(runners, FullTextSearch);
    SearchRanked(runners);
    Widen(b, 1, 1, 0, 1);
    JoinRanked(a, b, 0, 0, 1);
    Widen(c, 2, 2, 1, 2);
    JoinRanked(a + b, c, 0, 1, 2);
    Widen(groups, 3, 3, 2, 3);
    JoinRanked(a + b + c, groups, 0, 2, 3);
    Widen(f, 4, 4, 3, 4);
    JoinRanked(a + b + c + groups, f, 0, 3, 4);
  }

  lemma KeepsLabel(s: seq<Runner>, own: CaseLabel, l: CaseLabel)
    ensures Select(Select(s, HasLabel(own)), HasLabel(l)) == if own == l then Select(s, HasLabel(l)) else []
  {
    var section := Select(s, HasLabel(own));
    SelectMembers(s, HasLabel(own));
    assert forall i :: 0 <= i < |section| ==> section[i] in section;
    if own == l {
      SelectAll(section, HasLabel(l));
    } else {
      SelectNothing(section, HasLabel(l));
    }
  }

  lemma SearchHasNone(runners: seq<Runner>, l: CaseLabel)
    requires Rank(l) != 3
    ensures Select(Groups(Dbs(SearchRunners(runners)), SearchRunners(runners)), HasLabel(l)) == []
  {
    SearchRanked(runners);
    SelectNothing(Groups(Dbs(SearchRunners(runners)), SearchRunners(runners)), HasLabel(l));
  }

  /** The cases of every kind outside the search section stay in the order of the tasks. */
  lemma SectionsKeepOrder(runners: seq<Runner>, l: CaseLabel)
    requires Rank(l) != 3
    ensures Select(Arranged(runners), HasLabel(l)) == Select(runners, HasLabel(l))
  {
    var search := SearchRunners(runners);
    var a, b := Select(runners, HasLabel(Load)), Select(runners, HasLabel(Streaming));
    var c, f := Select(runners, HasLabel(CloudInsert)), Select(runners, HasLabel(FullTextSearch));
    var groups := Groups(Dbs(search), search);
    SearchHasNone(runners, l);
    KeepsLabel(runners, Load, l);
    KeepsLabel(runners, Streaming, l);
    KeepsLabel(runners, CloudInsert, l);
    KeepsLabel(runners, FullTextSearch, l);
    SelectFive(a, b, c, groups, f, HasLabel(l));
    OnlyOne(Select(a, HasLabel(l)), Select(b, HasLabel(l)), Select(c, HasLabel(l)), Select(f, HasLabel(l)),
            Select(runners, HasLabel(l)));
  }

  lemma OnlyOne(a: seq<Runner>, b: seq<Runner>, c: seq<Runner>, e: seq<Runner>, x: seq<Runner>)
    requires || (a == x && b == c == e == []) || (b == x && a == c == e == [])
             || (c == x && a == b == e == []) || (e == x && a == b == c == [])
    ensures a + b + c + [] + e == x
  {}

  lemma SelectFive(a: seq<Runner>, b: seq<Runner>, c: seq<Runner>, d: seq<Runner>, e: seq<Runner>,
                   keep: Runner -> bool)
    ensures Select(a + b + c + d + e, keep)
         == Select(a, keep) + Select(b, keep) + Select(c, keep) + Select(d, keep) + Select(e, keep)
  {
    SelectConcat(a, b, keep);
    SelectConcat(a + b, c, keep);
    SelectConcat(a + b + c, d, keep);
    SelectConcat(a + b + c + d, e, keep);
  }

  /** Among the search cases of one database that the sort does not tell apart, the performance cases come
      before the cold-latency cases, and either kind is in the order of the tasks. */
  lemma SearchTies(runners: seq<Runner>, db: string, k: (nat, nat))
    ensures var search := SearchRunners(runners);
            Select(Select(Groups(Dbs(search), search), OfDb(db)), HasKey(k))
            == Select(Select(Select(runners, HasLabel(Performance)), OfDb(db)), HasKey(k))
               + Select(Select(Select(runners, HasLabel(CloudColdLatency)), OfDb(db)), HasKey(k))
  {
    var search := SearchRunners(runners);
    var hot, cold := Select(runners, HasLabel(Performance)), Select(runners, HasLabel(CloudColdLatency));
    SearchOrder(runners);
    SortStable(Select(search, OfDb(db)), k);
    SelectConcat(hot, cold, OfDb(db));
    SelectConcat(Select(hot, OfDb(db)), Select(cold, OfDb(db)), HasKey(k));
  }
}
