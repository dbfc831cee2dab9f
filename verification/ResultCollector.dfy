/** Collecting result files into groups, and merging a directory of them into one file per database. */
module ResultCollector {
  import opened Util

  /** One case result; body stands for everything but the database it belongs to. */
  datatype CaseEntry = CaseEntry(db: string, body: nat)

  datatype TestResult = TestResult(runId: string, taskLabel: string, results: seq<CaseEntry>, timestamp: int)

  datatype GroupBy = ByRunId | ByDb

  /** A file's place below the result directory. */
  datatype Path = Path(dir: string, name: string)

  type Files = map<Path, TestResult>

  function GroupKey(f: TestResult, groupBy: GroupBy): string {
    if groupBy == ByRunId || f.results == [] then f.runId else f.results[0].db
  }

  /** Files of one run share a group; or those of one database, where a file without results is known by its
      run alone. */
  lemma SameGroup(a: TestResult, b: TestResult)
    ensures GroupKey(a, ByRunId) == GroupKey(b, ByRunId) <==> a.runId == b.runId
    ensures a.results != [] && b.results != [] ==>
              (GroupKey(a, ByDb) == GroupKey(b, ByDb) <==> a.results[0].db == b.results[0].db)
    ensures a.results == [] && b.results == [] ==> (GroupKey(a, ByDb) == GroupKey(b, ByDb) <==> a.runId == b.runId)
    ensures a.results == [] && b.results != [] ==>
              (GroupKey(a, ByDb) == GroupKey(b, ByDb) <==> a.runId == b.results[0].db)
  {}

  /** All case results of some files, one file after the other. */
  function AllResults(s: seq<TestResult>): seq<CaseEntry> {
    if s == [] then [] else AllResults(s[..|s| - 1]) + s[|s| - 1].results
  }

  // ---- collect ----

  /** The group keys in the order they first occur. */
  function Keys(s: seq<TestResult>, groupBy: GroupBy): seq<string> {
    if s == [] then []
    else
      var before, key := Keys(s[..|s| - 1], groupBy), GroupKey(s[|s| - 1], groupBy);
      if key in before then before else before + [key]
  }

  function Extended(g: TestResult, f: TestResult): TestResult {
    g.(results := g.results + f.results)
  }

  function OneMore(d: map<string, TestResult>, f: TestResult, groupBy: GroupBy): map<string, TestResult> {
    var key := GroupKey(f, groupBy);
    d[key := if key in d then Extended(d[key], f) else f]
  }

  /** The dictionary of groups: the first file of a key, extended by the later ones. */
  function Grouped(s: seq<TestResult>, groupBy: GroupBy): map<string, TestResult> {
    if s == [] then map[] else OneMore(Grouped(s[..|s| - 1], groupBy), s[|s| - 1], groupBy)
  }

  function Values(keys: seq<string>, d: map<string, TestResult>): (r: seq<TestResult>)
    requires forall i :: 0 <= i < |keys| ==> keys[i] in d
    ensures |r| == |keys|
  {
    if keys == [] then [] else Values(keys[..|keys| - 1], d) + [d[keys[|keys| - 1]]]
  }

  lemma {:induction false} KeysFacts(s: seq<TestResult>, groupBy: GroupBy)
    ensures Distinct(Keys(s, groupBy)) && Elements(Keys(s, groupBy)) == Grouped(s, groupBy).Keys
    ensures forall i :: 0 <= i < |Keys(s, groupBy)| ==> Keys(s, groupBy)[i] in Grouped(s, groupBy)
  {
    if s != [] {
      KeysFacts(s[..|s| - 1], groupBy);
      var before, key := Keys(s[..|s| - 1], groupBy), GroupKey(s[|s| - 1], groupBy);
      assert key in before <==> key in Elements(before);
      ElementsAppend(before, key);
    }
    assert forall i :: 0 <= i < |Keys(s, groupBy)| ==> Keys(s, groupBy)[i] in Elements(Keys(s, groupBy));
  }

  ghost function Collected(s: seq<TestResult>, groupBy: GroupBy): seq<TestResult> {
    KeysFacts(s, groupBy);
    Values(Keys(s, groupBy), Grouped(s, groupBy))
  }

  /** The reading and grouping of collect, on the contents of the files in sorted order. */
  method Collect(s: seq<TestResult>, groupBy: GroupBy) returns (r: seq<TestResult>)
    ensures r == Collected(s, groupBy)
  {
    KeysFacts(s, groupBy);
    if |s| == 0 {
      return [];
    }
    var keys: seq<string>, results: map<string, TestResult> := [], map[];
    var i := 0;
    while i < |s|
      invariant 0 <= i <= |s| && keys == Keys(s[..i], groupBy) && results == Grouped(s[..i], groupBy)
    {
      var fileResult := s[i];
      var key := GroupKey(fileResult, groupBy);
      KeysFacts(s[..i], groupBy);
      assert s[..i + 1][..i] == s[..i];
      assert key in keys <==> key in Elements(keys);
      if key in results {
        results := results[key := Extended(results[key], fileResult)];
      } else {
        keys, results := keys + [key], results[key := fileResult];
      }
      i := i + 1;
    }
    assert s[..i] == s;
    r := Values(keys, results);
  }

  lemma {:induction false} ValuesFrame(keys: seq<string>, d: map<string, TestResult>, key: string, g: TestResult)
    requires forall i :: 0 <= i < |keys| ==> keys[i] in d
    requires key !in keys
    ensures Values(keys, d[key := g]) == Values(keys, d)
  {
    if keys != [] {
      ValuesFrame(keys[..|keys| - 1], d, key, g);
    }
  }

  /** Extending one group adds exactly the new file's results. */
  lemma {:induction false} ExtendConserves(keys: seq<string>, d: map<string, TestResult>, key: string, f: TestResult)
    requires forall i :: 0 <= i < |keys| ==> keys[i] in d
    requires Distinct(keys) && key in keys
    ensures multiset(AllResults(Values(keys, d[key := Extended(d[key], f)])))
         == multiset(AllResults(Values(keys, d))) + multiset(f.results)
  {
    var front, last := keys[..|keys| - 1], keys[|keys| - 1];
    var after := d[key := Extended(d[key], f)];
    assert keys == front + [last];
    ResultsAppend(Values(front, d), d[last]);
    ResultsAppend(Values(front, after), after[last]);
    if last == key {
      ValuesFrame(front, d, key, Extended(d[key], f));
      ThreeParts(AllResults(Values(front, d)), d[last].results, f.results);
    } else {
      ExtendConserves(front, d, key, f);
      ExtendEarlier(AllResults(Values(front, after)), AllResults(Values(front, d)), d[last].results, f.results);
    }
  }

  lemma ThreeParts(a: seq<CaseEntry>, b: seq<CaseEntry>, c: seq<CaseEntry>)
    ensures multiset(a + (b + c)) == multiset(a + b) + multiset(c)
  {}

  lemma ExtendEarlier(after: seq<CaseEntry>, before: seq<CaseEntry>, last: seq<CaseEntry>, more: seq<CaseEntry>)
    requires multiset(after) == multiset(before) + multiset(more)
    ensures multiset(after + last) == multiset(before + last) + multiset(more)
  {}

  lemma ResultsAppend(s: seq<TestResult>, f: TestResult)
    ensures AllResults(s + [f]) == AllResults(s) + f.results
  {
    assert (s + [f])[..|s|] == s;
  }

  /** Grouping conserves the case results, whatever the keys. */
  lemma {:induction false} CollectConserves(s: seq<TestResult>, groupBy: GroupBy)
    ensures multiset(AllResults(Collected(s, groupBy))) == multiset(AllResults(s))
  {
    if s != [] {
      var front, f := s[..|s| - 1], s[|s| - 1];
      var keys, d, key := Keys(front, groupBy), Grouped(front, groupBy), GroupKey(f, groupBy);
      CollectConserves(front, groupBy);
      KeysFacts(front, groupBy);
      KeysFacts(s, groupBy);
      assert key in keys <==> key in Elements(keys);
      if key in d {
        ExtendConserves(keys, d, key, f);
      } else {
        ValuesFrame(keys, d, key, f);
        assert (keys + [key])[..|keys|] == keys;
        ResultsAppend(Values(keys, d), f);
      }
    }
  }

  /** In a grouping by database the key of a group with results is its first result's database. */
  lemma {:induction false} GroupedByFirstDb(s: seq<TestResult>, key: string)
    requires key in Grouped(s, ByDb) && Grouped(s, ByDb)[key].results != []
    ensures Grouped(s, ByDb)[key].results[0].db == key
  {
    var front := s[..|s| - 1];
    if key in Grouped(front, ByDb) && Grouped(front, ByDb)[key].results != [] {
      GroupedByFirstDb(front, key);
    }
  }

  /** The files of one key, in their order. */
  ghost function OfKey(s: seq<TestResult>, groupBy: GroupBy, key: string): (r: seq<TestResult>)
    ensures forall f :: f in r <==> f in s && GroupKey(f, groupBy) == key
  {
    if s == [] then []
    else
      var before, last := OfKey(s[..|s| - 1], groupBy, key), s[|s| - 1];
      if GroupKey(last, groupBy) == key then before + [last] else before
  }

  /** A group is the first file of its key with the results of all files of that key, in their order. */
  ghost predicate MadeFrom(g: TestResult, own: seq<TestResult>) {
    own != [] && g == TestResult(own[0].runId, own[0].taskLabel, AllResults(own), own[0].timestamp)
  }

  lemma {:induction false} GroupIs(s: seq<TestResult>, groupBy: GroupBy, key: string)
    ensures key in Grouped(s, groupBy) <==> OfKey(s, groupBy, key) != []
    ensures key in Grouped(s, groupBy) ==> MadeFrom(Grouped(s, groupBy)[key], OfKey(s, groupBy, key))
  {
    if s != [] {
      var front, f := s[..|s| - 1], s[|s| - 1];
      GroupIs(front, groupBy, key);
      ResultsAppend(OfKey(front, groupBy, key), f);
      assert AllResults([f]) == f.results by { ResultsAppend([], f); }
    }
  }

  /** Some file of the key a comes before all files of the key b. */
  ghost predicate OccursBefore(s: seq<TestResult>, groupBy: GroupBy, a: string, b: string) {
    exists i :: 0 <= i < |s| && GroupKey(s[i], groupBy) == a && forall j :: 0 <= j <= i ==> GroupKey(s[j], groupBy) != b
  }

  lemma {:induction false} KeysCover(s: seq<TestResult>, groupBy: GroupBy)
    ensures forall i :: 0 <= i < |s| ==> GroupKey(s[i], groupBy) in Keys(s, groupBy)
  {
    if s != [] {
      var front := s[..|s| - 1];
      KeysCover(front, groupBy);
      assert forall i :: 0 <= i < |front| ==> s[i] == front[i];
    }
  }

  lemma {:induction false} KeyOccurs(s: seq<TestResult>, groupBy: GroupBy, g: nat) returns (i: nat)
    requires g < |Keys(s, groupBy)|
    ensures i < |s| && GroupKey(s[i], groupBy) == Keys(s, groupBy)[g]
  {
    var front := s[..|s| - 1];
    i := |front|;
    if g < |Keys(front, groupBy)| {
      i := KeyOccurs(front, groupBy, g);
    }
  }

  lemma {:induction false} KeysInOrder(s: seq<TestResult>, groupBy: GroupBy, g: nat, h: nat)
    requires g < h < |Keys(s, groupBy)|
    ensures OccursBefore(s, groupBy, Keys(s, groupBy)[g], Keys(s, groupBy)[h])
  {
    var front := s[..|s| - 1];
    var before, a, b := Keys(front, groupBy), Keys(s, groupBy)[g], Keys(s, groupBy)[h];
    assert forall j :: 0 <= j < |front| ==> s[j] == front[j];
    if h < |before| {
      KeysInOrder(front, groupBy, g, h);
      var i :| 0 <= i < |front| && GroupKey(front[i], groupBy) == a
               && forall j :: 0 <= j <= i ==> GroupKey(front[j], groupBy) != b;
      assert GroupKey(s[i], groupBy) == a;
    } else {
      KeysCover(front, groupBy);
      var i := KeyOccurs(front, groupBy, g);
      assert GroupKey(s[i], groupBy) == a && forall j :: 0 <= j <= i ==> GroupKey(front[j], groupBy) in before;
    }
  }

  lemma {:induction false} ValuesAt(keys: seq<string>, d: map<string, TestResult>, j: nat)
    requires forall i :: 0 <= i < |keys| ==> keys[i] in d
    requires j < |keys|
    ensures Values(keys, d)[j] == d[keys[j]]
  {
    if j < |keys| - 1 {
      ValuesAt(keys[..|keys| - 1], d, j);
    }
  }

  /** collect gives one group per key, in the order in which the keys first occur, each made from all files of
      its key. */
  lemma CollectedAre(s: seq<TestResult>, groupBy: GroupBy, j: nat)
    requires j < |Collected(s, groupBy)|
    ensures |Keys(s, groupBy)| == |Collected(s, groupBy)|
    ensures MadeFrom(Collected(s, groupBy)[j], OfKey(s, groupBy, Keys(s, groupBy)[j]))
    ensures forall h :: j < h < |Keys(s, groupBy)| ==>
              OccursBefore(s, groupBy, Keys(s, groupBy)[j], Keys(s, groupBy)[h])
  {
    KeysFacts(s, groupBy);
    ValuesAt(Keys(s, groupBy), Grouped(s, groupBy), j);
    GroupIs(s, groupBy, Keys(s, groupBy)[j]);
    forall h | j < h < |Keys(s, groupBy)|
      ensures OccursBefore(s, groupBy, Keys(s, groupBy)[j], Keys(s, groupBy)[h])
    {
      KeysInOrder(s, groupBy, j, h);
    }
  }

  ghost predicate DistinctKeys(s: seq<TestResult>, groupBy: GroupBy) {
    forall i, j :: 0 <= i < j < |s| ==> GroupKey(s[i], groupBy) != GroupKey(s[j], groupBy)
  }

  lemma CollectOneAlone(s: seq<TestResult>, f: TestResult, groupBy: GroupBy)
    requires GroupKey(f, groupBy) !in Keys(s, groupBy)
    ensures Collected(s + [f], groupBy) == Collected(s, groupBy) + [f]
    ensures Keys(s + [f], groupBy) == Keys(s, groupBy) + [GroupKey(f, groupBy)]
  {
    var keys, d, key := Keys(s, groupBy), Grouped(s, groupBy), GroupKey(f, groupBy);
    KeysFacts(s, groupBy);
    KeysFacts(s + [f], groupBy);
    assert (s + [f])[..|s|] == s;
    assert key !in d by {
      assert key !in Elements(keys);
    }
    ValuesFrame(keys, d, key, f);
    assert (keys + [key])[..|keys|] == keys;
  }

  /** Files whose keys differ are collected as they are. */
  lemma {:induction false} CollectAlone(s: seq<TestResult>, groupBy: GroupBy)
    requires DistinctKeys(s, groupBy)
    ensures Collected(s, groupBy) == s && |Keys(s, groupBy)| == |s|
    ensures forall i :: 0 <= i < |s| ==> Keys(s, groupBy)[i] == GroupKey(s[i], groupBy)
  {
    if s != [] {
      var front, f := s[..|s| - 1], s[|s| - 1];
      CollectAlone(front, groupBy);
      CollectOneAlone(front, f, groupBy);
      assert s == front + [f];
    }
  }

  // ---- merge_by_db ----

  /** How a merged file is named and written. lower is str.lower; planned and written are the dates the
      clock shows when output j is named in the report and when it is written. */
  datatype Merge = Merge(taskLabel: string, lower: string -> string, planned: nat -> string, written: nat -> string)

  function FileName(date: string, taskLabel: string, db: string): string {
    "result_" + date + "_" + taskLabel + "_" + db + ".json"
  }

  function OutputPath(m: Merge, date: string, g: TestResult): Path
    requires g.results != []
  {
    var db := g.results[0].db;
    Path(db, FileName(date, m.taskLabel, m.lower(db)))
  }

  function MergedResult(m: Merge, g: TestResult): TestResult
    requires g.results != []
  {
    TestResult(m.taskLabel + "_" + m.lower(g.results[0].db), m.taskLabel, g.results, g.timestamp)
  }

  ghost predicate NoneEmpty(groups: seq<TestResult>) {
    forall j :: 0 <= j < |groups| ==> groups[j].results != []
  }

  /** The groups that have results. */
  function NonEmpty(groups: seq<TestResult>): (r: seq<TestResult>)
    ensures forall j :: 0 <= j < |r| ==> r[j].results != []
  {
    if groups == [] then []
    else if groups[|groups| - 1].results == [] then NonEmpty(groups[..|groups| - 1])
    else NonEmpty(groups[..|groups| - 1]) + [groups[|groups| - 1]]
  }

  ghost function Paths(m: Merge, dates: nat -> string, groups: seq<TestResult>): (r: seq<Path>)
    requires NoneEmpty(groups)
    ensures |r| == |groups|
  {
    if groups == [] then []
    else
      var n := |groups| - 1;
      Paths(m, dates, groups[..n]) + [OutputPath(m, dates(n), groups[n])]
  }

  /** The directory after writing every group, in order. */
  ghost function Written(files: Files, m: Merge, groups: seq<TestResult>): Files
    requires NoneEmpty(groups)
  {
    if groups == [] then files
    else
      var n, g := |groups| - 1, groups[|groups| - 1];
      Written(files, m, groups[..n])[OutputPath(m, m.written(n), g) := MergedResult(m, g)]
  }

  ghost function Deletable(sources: seq<Path>, outputs: seq<Path>): set<Path> {
    Elements(sources) - Elements(outputs)
  }

  function Contents(files: Files, paths: seq<Path>): (r: seq<TestResult>)
    requires forall i :: 0 <= i < |paths| ==> paths[i] in files
    ensures |r| == |paths| && forall i :: 0 <= i < |paths| ==> r[i] == files[paths[i]]
  {
    seq(|paths|, i requires 0 <= i < |paths| => files[paths[i]])
  }

  /** sorted(rglob("result_*.json")): every result file once. */
  ghost predicate Lists(sources: seq<Path>, files: Files) {
    Distinct(sources) && Elements(sources) == files.Keys && forall i :: 0 <= i < |sources| ==> sources[i] in files
  }

  ghost function Groups(files: Files, sources: seq<Path>): (r: seq<TestResult>)
    requires Lists(sources, files)
    ensures NoneEmpty(r)
  {
    NonEmpty(Collected(Contents(files, sources), ByDb))
  }

  ghost function Outputs(files: Files, sources: seq<Path>, m: Merge): seq<Path>
    requires Lists(sources, files)
  {
    Paths(m, m.planned, Groups(files, sources))
  }

  /** The directory after merge_by_db. */
  ghost function AfterMerge(files: Files, sources: seq<Path>, m: Merge, replace: bool): Files
    requires Lists(sources, files)
  {
    var written := Written(files, m, Groups(files, sources));
    if replace then written - Deletable(sources, Outputs(files, sources, m)) else written
  }

  class ResultDir {
    var files: Files

    method WriteFile(p: Path, r: TestResult)
      modifies this
      ensures files == old(files)[p := r]
    {
      files := files[p := r];
    }

    method Unlink(p: Path)
      modifies this
      ensures files == old(files) - {p}
    {
      files := files - {p};
    }

    method UnlinkSources(sources: seq<Path>, outputs: seq<Path>)
      modifies this
      ensures files == old(files) - Deletable(sources, outputs)
    {
      var i := 0;
      while i < |sources|
        invariant 0 <= i <= |sources| && files == old(files) - Deletable(sources[..i], outputs)
      {
        var p := sources[i];
        assert sources[..i + 1] == sources[..i] + [p];
        ElementsAppend(sources[..i], p);
        assert p in outputs <==> p in Elements(outputs);
        if p !in outputs && p in files {
          Unlink(p);
        }
        i := i + 1;
      }
      assert sources[..i] == sources;
    }

    method MergeByDb(sources: seq<Path>, m: Merge, replace: bool, dryRun: bool) returns (outputs: seq<Path>)
      requires Lists(sources, files)
      modifies this
      ensures outputs == Outputs(old(files), sources, m)
      ensures files == if dryRun then old(files) else AfterMerge(old(files), sources, m, replace)
    {
      var merged := Collect(Contents(files, sources), ByDb);
      ghost var before := files;
      outputs := [];
      var i := 0;
      while i < |merged|
        invariant 0 <= i <= |merged| && InProgress(before, m, dryRun, merged, i, outputs, files)
      {
        var result := merged[i];
        MergeOneMore(before, m, dryRun, merged, i, outputs, files);
        if result.results != [] {
          var n := |outputs|;
          outputs := outputs + [OutputPath(m, m.planned(n), result)];
          if !dryRun {
            WriteFile(OutputPath(m, m.written(n), result), MergedResult(m, result));
          }
        }
        i := i + 1;
      }
      MergeDone(before, m, dryRun, merged, outputs, files);
      if replace && !dryRun {
        UnlinkSources(sources, outputs);
      }
    }
  }

  /** The merging loop before group i. */
  ghost predicate InProgress(before: Files, m: Merge, dryRun: bool, merged: seq<TestResult>, i: nat,
                             outputs: seq<Path>, files: Files)
  {
    && i <= |merged| && outputs == Paths(m, m.planned, NonEmpty(merged[..i]))
    && files == if dryRun then before else Written(before, m, NonEmpty(merged[..i]))
  }

  lemma NonEmptyOneMore(merged: seq<TestResult>, i: nat)
    requires i < |merged|
    ensures NonEmpty(merged[..i + 1]) == NonEmpty(merged[..i]) + if merged[i].results == [] then [] else [merged[i]]
  {
    assert merged[..i + 1][..i] == merged[..i];
  }

  lemma WrittenOneMore(before: Files, m: Merge, groups: seq<TestResult>, g: TestResult)
    requires NoneEmpty(groups) && g.results != []
    ensures Paths(m, m.planned, groups + [g])
         == Paths(m, m.planned, groups) + [OutputPath(m, m.planned(|groups|), g)]
    ensures Written(before, m, groups + [g])
         == Written(before, m, groups)[OutputPath(m, m.written(|groups|), g) := MergedResult(m, g)]
  {
    assert (groups + [g])[..|groups|] == groups;
  }

  lemma MergeOneMore(before: Files, m: Merge, dryRun: bool, merged: seq<TestResult>, i: nat,
                     outputs: seq<Path>, files: Files)
    requires i < |merged| && InProgress(before, m, dryRun, merged, i, outputs, files)
    ensures var g, n := merged[i], |outputs|;
            if g.results == [] then InProgress(before, m, dryRun, merged, i + 1, outputs, files)
            else InProgress(before, m, dryRun, merged, i + 1, outputs + [OutputPath(m, m.planned(n), g)],
                            if dryRun then files else files[OutputPath(m, m.written(n), g) := MergedResult(m, g)])
  {
    NonEmptyOneMore(merged, i);
    var groups := NonEmpty(merged[..i]);
    if merged[i].results == [] {
      assert groups + [] == groups;
    } else {
      WrittenOneMore(before, m, groups, merged[i]);
    }
  }

  lemma MergeDone(before: Files, m: Merge, dryRun: bool, merged: seq<TestResult>, outputs: seq<Path>, files: Files)
    requires InProgress(before, m, dryRun, merged, |merged|, outputs, files)
    ensures outputs == Paths(m, m.planned, NonEmpty(merged))
    ensures files == if dryRun then before else Written(before, m, NonEmpty(merged))
  {
    assert merged[..|merged|] == merged;
  }

  // ---- one output per database, and no case result is lost ----

  lemma {:induction false} NonEmptyResults(groups: seq<TestResult>)
    ensures AllResults(NonEmpty(groups)) == AllResults(groups)
  {
    if groups != [] {
      var front, last := groups[..|groups| - 1], groups[|groups| - 1];
      NonEmptyResults(front);
      assert AllResults(front) + [] == AllResults(front);
      if last.results != [] {
        ResultsAppend(NonEmpty(front), last);
      }
    }
  }

  ghost predicate KeysWithin(groups: seq<TestResult>, keys: seq<string>) {
    forall j :: 0 <= j < |groups| ==> GroupKey(groups[j], ByDb) in keys
  }

  /** The groups that have results belong to different databases. */
  lemma {:induction false} NonEmptyKeys(keys: seq<string>, d: map<string, TestResult>)
    requires Distinct(keys) && forall i :: 0 <= i < |keys| ==> keys[i] in d
    requires forall k :: k in d && d[k].results != [] ==> d[k].results[0].db == k
    ensures DistinctKeys(NonEmpty(Values(keys, d)), ByDb)
    ensures KeysWithin(NonEmpty(Values(keys, d)), keys)
  {
    if keys != [] {
      var front, last := keys[..|keys| - 1], keys[|keys| - 1];
      NonEmptyKeys(front, d);
      assert keys == front + [last] && last !in front;
      NonEmptyAppend(Values(front, d), d[last]);
      var before, groups := NonEmpty(Values(front, d)), NonEmpty(Values(keys, d));
      forall j | 0 <= j < |groups|
        ensures if j < |before| then groups[j] == before[j] && GroupKey(groups[j], ByDb) in front
                else j == |before| && GroupKey(groups[j], ByDb) == last
      {
        assert j < |before| ==> GroupKey(before[j], ByDb) in front;
      }
    }
  }

  lemma NonEmptyAppend(s: seq<TestResult>, f: TestResult)
    ensures NonEmpty(s + [f]) == if f.results == [] then NonEmpty(s) else NonEmpty(s) + [f]
  {
    assert (s + [f])[..|s|] == s;
  }

  lemma GroupsFacts(files: Files, sources: seq<Path>)
    requires Lists(sources, files)
    ensures DistinctKeys(Groups(files, sources), ByDb)
    ensures multiset(AllResults(Groups(files, sources))) == multiset(AllResults(Contents(files, sources)))
  {
    var s := Contents(files, sources);
    KeysFacts(s, ByDb);
    var d := Grouped(s, ByDb);
    forall k | k in d && d[k].results != [] ensures d[k].results[0].db == k {
      GroupedByFirstDb(s, k);
    }
    NonEmptyKeys(Keys(s, ByDb), d);
    NonEmptyResults(Collected(s, ByDb));
    CollectConserves(s, ByDb);
  }

  lemma {:induction false} PathsAt(m: Merge, dates: nat -> string, groups: seq<TestResult>, j: nat)
    requires NoneEmpty(groups) && j < |groups|
    ensures Paths(m, dates, groups)[j] == OutputPath(m, dates(j), groups[j])
  {
    if j < |groups| - 1 {
      PathsAt(m, dates, groups[..|groups| - 1], j);
    }
  }

  /** Outputs of different databases have different paths, whatever the date. */
  lemma PathsDistinct(m: Merge, dates: nat -> string, groups: seq<TestResult>)
    requires NoneEmpty(groups) && DistinctKeys(groups, ByDb)
    ensures Distinct(Paths(m, dates, groups))
  {
    var paths := Paths(m, dates, groups);
    forall i, j | 0 <= i < j < |paths| ensures paths[i] != paths[j] {
      PathsAt(m, dates, groups, i);
      PathsAt(m, dates, groups, j);
    }
  }

  lemma {:induction false} WrittenKeys(files: Files, m: Merge, groups: seq<TestResult>)
    requires NoneEmpty(groups)
    ensures Written(files, m, groups).Keys == files.Keys + Elements(Paths(m, m.written, groups))
  {
    if groups != [] {
      var n := |groups| - 1;
      WrittenKeys(files, m, groups[..n]);
      ElementsAppend(Paths(m, m.written, groups[..n]), OutputPath(m, m.written(n), groups[n]));
    }
  }

  lemma {:induction false} WrittenAt(files: Files, m: Merge, groups: seq<TestResult>, j: nat)
    requires NoneEmpty(groups) && DistinctKeys(groups, ByDb) && j < |groups|
    ensures var p := OutputPath(m, m.written(j), groups[j]);
            p in Written(files, m, groups) && Written(files, m, groups)[p] == MergedResult(m, groups[j])
  {
    var n := |groups| - 1;
    if j < n {
      assert GroupKey(groups[j], ByDb) != GroupKey(groups[n], ByDb);
      WrittenAt(files, m, groups[..n], j);
    }
  }

  lemma SameNameSameDate(d: string, e: string, taskLabel: string, db: string)
    requires FileName(d, taskLabel, db) == FileName(e, taskLabel, db)
    ensures d == e
  {
    var head, tail := "result_", "_" + taskLabel + "_" + db + ".json";
    assert FileName(d, taskLabel, db) == head + d + tail && FileName(e, taskLabel, db) == head + e + tail;
    assert (head + d + tail)[|head|..|head| + |d|] == d && (head + e + tail)[|head|..|head| + |e|] == e;
  }

  /** A planned name is a written one only for the same output, and only if the date did not change. */
  lemma SamePath(m: Merge, groups: seq<TestResult>, i: nat, j: nat, d: string, e: string)
    requires NoneEmpty(groups) && DistinctKeys(groups, ByDb) && i < |groups| && j < |groups|
    ensures OutputPath(m, d, groups[i]) == OutputPath(m, e, groups[j]) <==> i == j && d == e
  {
    if OutputPath(m, d, groups[i]) == OutputPath(m, e, groups[j]) {
      assert GroupKey(groups[i], ByDb) == GroupKey(groups[j], ByDb);
      var db := groups[i].results[0].db;
      SameNameSameDate(d, e, m.taskLabel, m.lower(db));
    }
  }

  lemma AmongPaths(m: Merge, dates: nat -> string, groups: seq<TestResult>, j: nat, e: string)
    requires NoneEmpty(groups) && DistinctKeys(groups, ByDb) && j < |groups|
    ensures OutputPath(m, e, groups[j]) in Elements(Paths(m, dates, groups)) <==> dates(j) == e
  {
    PathsAt(m, dates, groups, j);
    if OutputPath(m, e, groups[j]) in Elements(Paths(m, dates, groups)) {
      var i :| 0 <= i < |groups| && Paths(m, dates, groups)[i] == OutputPath(m, e, groups[j]);
      PathsAt(m, dates, groups, i);
      SamePath(m, groups, i, j, dates(i), e);
    }
  }

  /** The date turned between naming output j in the report and writing it. */
  predicate DateTurned(m: Merge, j: nat) {
    m.planned(j) != m.written(j)
  }

  ghost function PlannedPath(files: Files, sources: seq<Path>, m: Merge, j: nat): Path
    requires Lists(sources, files) && j < |Groups(files, sources)|
  {
    OutputPath(m, m.planned(j), Groups(files, sources)[j])
  }

  ghost function WrittenPath(files: Files, sources: seq<Path>, m: Merge, j: nat): Path
    requires Lists(sources, files) && j < |Groups(files, sources)|
  {
    OutputPath(m, m.written(j), Groups(files, sources)[j])
  }

  /** After the sources are deleted output j is gone exactly when the date turned and a source bore the name
      it was written under; the file it was to replace is still there, unmerged, exactly when the
      date turned and a source bore the name in the report. */
  lemma OutputSurvives(files: Files, sources: seq<Path>, m: Merge, j: nat)
    requires Lists(sources, files) && j < |Groups(files, sources)|
    ensures var p, q := PlannedPath(files, sources, m, j), WrittenPath(files, sources, m, j);
            var after := AfterMerge(files, sources, m, true);
            && (q !in after <==> DateTurned(m, j) && q in sources)
            && (q in after ==> after[q] == MergedResult(m, Groups(files, sources)[j]))
            && (DateTurned(m, j) ==> (p in after <==> p in sources))
  {
    var groups := Groups(files, sources);
    GroupsFacts(files, sources);
    WrittenAt(files, m, groups, j);
    WrittenKeys(files, m, groups);
    var p, q := PlannedPath(files, sources, m, j), WrittenPath(files, sources, m, j);
    AmongPaths(m, m.planned, groups, j, m.written(j));
    AmongPaths(m, m.planned, groups, j, m.planned(j));
    AmongPaths(m, m.written, groups, j, m.planned(j));
    assert (q in sources <==> q in Elements(sources)) && (p in sources <==> p in Elements(sources));
  }

  lemma {:induction false} NonEmptyMember(groups: seq<TestResult>, j: nat)
    requires j < |NonEmpty(groups)|
    ensures exists i :: 0 <= i < |groups| && groups[i] == NonEmpty(groups)[j]
  {
    var front := groups[..|groups| - 1];
    if j < |NonEmpty(front)| {
      NonEmptyMember(front, j);
      var i :| 0 <= i < |front| && front[i] == NonEmpty(front)[j];
      assert groups[i] == NonEmpty(groups)[j];
    } else {
      assert groups[|groups| - 1] == NonEmpty(groups)[j];
    }
  }

  /** A merged group is made from all files that its database's name groups. */
  lemma GroupFiles(files: Files, sources: seq<Path>, j: nat)
    requires Lists(sources, files) && j < |Groups(files, sources)|
    ensures var g := Groups(files, sources)[j];
            MadeFrom(g, OfKey(Contents(files, sources), ByDb, g.results[0].db))
  {
    var s := Contents(files, sources);
    var all := Collected(s, ByDb);
    NonEmptyMember(all, j);
    var i :| 0 <= i < |all| && all[i] == Groups(files, sources)[j];
    KeysFacts(s, ByDb);
    ValuesAt(Keys(s, ByDb), Grouped(s, ByDb), i);
    var key := Keys(s, ByDb)[i];
    GroupIs(s, ByDb, key);
    GroupedByFirstDb(s, key);
  }

  /** What an output holds that is not deleted again: all results of its database's files in their order, the time
      of the first of them, and the label of the merge, under a name made of date, label and database. */
  lemma OutputHolds(files: Files, sources: seq<Path>, m: Merge, replace: bool, j: nat)
    requires Lists(sources, files) && j < |Groups(files, sources)|
    requires replace && DateTurned(m, j) ==> WrittenPath(files, sources, m, j) !in sources
    ensures var q, after := WrittenPath(files, sources, m, j), AfterMerge(files, sources, m, replace);
            var own := OfKey(Contents(files, sources), ByDb, q.dir);
            && q.name == "result_" + m.written(j) + "_" + m.taskLabel + "_" + m.lower(q.dir) + ".json"
            && q in after && own != []
            && after[q] == TestResult(m.taskLabel + "_" + m.lower(q.dir), m.taskLabel, AllResults(own),
                                      own[0].timestamp)
  {
    GroupFiles(files, sources, j);
    GroupsFacts(files, sources);
    if replace {
      OutputSurvives(files, sources, m, j);
    } else {
      WrittenAt(files, m, Groups(files, sources), j);
    }
  }

  /** Every written output is in the directory with its merged result. */
  ghost predicate HoldsOutputs(after: Files, m: Merge, groups: seq<TestResult>)
    requires NoneEmpty(groups)
  {
    forall j :: 0 <= j < |groups| ==>
      var p := OutputPath(m, m.written(j), groups[j]);
      p in after && after[p] == MergedResult(m, groups[j])
  }

  lemma {:induction false} HeldResults(after: Files, m: Merge, groups: seq<TestResult>)
    requires NoneEmpty(groups) && HoldsOutputs(after, m, groups)
    ensures var paths := Paths(m, m.written, groups);
            && (forall i :: 0 <= i < |paths| ==> paths[i] in after)
            && AllResults(Contents(after, paths)) == AllResults(groups)
  {
    var paths := Paths(m, m.written, groups);
    forall i | 0 <= i < |paths| ensures paths[i] in after {
      PathsAt(m, m.written, groups, i);
    }
    if groups != [] {
      var n := |groups| - 1;
      HeldResults(after, m, groups[..n]);
      PathsAt(m, m.written, groups, n);
      assert Contents(after, paths)[..n] == Contents(after, Paths(m, m.written, groups[..n]));
    }
  }

  /** merge_by_db conserves the case results: the files written hold, together, the same multiset of
      results as the source files. With replace this needs that no output is deleted again. */
  lemma MergeConserves(files: Files, sources: seq<Path>, m: Merge, replace: bool)
    requires Lists(sources, files)
    requires replace ==> forall j :: 0 <= j < |Groups(files, sources)| && DateTurned(m, j) ==>
                           WrittenPath(files, sources, m, j) !in sources
    ensures var after, paths := AfterMerge(files, sources, m, replace), Paths(m, m.written, Groups(files, sources));
            && Distinct(paths)
            && (forall i :: 0 <= i < |paths| ==> paths[i] in after)
            && multiset(AllResults(Contents(after, paths))) == multiset(AllResults(Contents(files, sources)))
  {
    var groups, after := Groups(files, sources), AfterMerge(files, sources, m, replace);
    GroupsFacts(files, sources);
    PathsDistinct(m, m.written, groups);
    forall j | 0 <= j < |groups|
      ensures var p := OutputPath(m, m.written(j), groups[j]); p in after && after[p] == MergedResult(m, groups[j])
    {
      if replace {
        OutputSurvives(files, sources, m, j);
      } else {
        WrittenAt(files, m, groups, j);
      }
    }
    HeldResults(after, m, groups);
  }

  /** No source bears either name of an output whose date turned. */
  ghost predicate Untouched(files: Files, sources: seq<Path>, m: Merge, j: nat)
    requires Lists(sources, files) && j < |Groups(files, sources)|
  {
    DateTurned(m, j) ==>
      PlannedPath(files, sources, m, j) !in sources && WrittenPath(files, sources, m, j) !in sources
  }

  ghost predicate AllUntouched(files: Files, sources: seq<Path>, m: Merge) {
    && Lists(sources, files)
    && forall j :: 0 <= j < |Groups(files, sources)| ==> Untouched(files, sources, m, j)
  }

  lemma AfterKeys(files: Files, sources: seq<Path>, m: Merge, x: Path)
    requires Lists(sources, files)
    ensures var outputs := Elements(Outputs(files, sources, m));
            var written := Elements(Paths(m, m.written, Groups(files, sources)));
            x in AfterMerge(files, sources, m, true) <==>
              if x in Elements(sources) then x in outputs else x in written
  {
    WrittenKeys(files, m, Groups(files, sources));
  }

  lemma OnlyOutputsLeft(files: Files, sources: seq<Path>, m: Merge, x: Path)
    requires AllUntouched(files, sources, m)
    ensures x in AfterMerge(files, sources, m, true) <==> x in Elements(Paths(m, m.written, Groups(files, sources)))
  {
    var groups := Groups(files, sources);
    GroupsFacts(files, sources);
    AfterKeys(files, sources, m, x);
    if x in Elements(sources) {
      if x in Elements(Outputs(files, sources, m)) {
        var j :| 0 <= j < |groups| && Outputs(files, sources, m)[j] == x;
        PathsAt(m, m.planned, groups, j);
        assert Untouched(files, sources, m, j);
        AmongPaths(m, m.written, groups, j, m.planned(j));
      }
      if x in Elements(Paths(m, m.written, groups)) {
        var j :| 0 <= j < |groups| && Paths(m, m.written, groups)[j] == x;
        PathsAt(m, m.written, groups, j);
        assert Untouched(files, sources, m, j);
        AmongPaths(m, m.planned, groups, j, m.written(j));
      }
    }
  }

  /** Replacing leaves exactly the files that were written if and only if no source bears a name of an output
      whose date turned while it was merged. */
  lemma ReplaceExactly(files: Files, sources: seq<Path>, m: Merge)
    requires Lists(sources, files)
    ensures AfterMerge(files, sources, m, true).Keys == Elements(Paths(m, m.written, Groups(files, sources)))
            <==> AllUntouched(files, sources, m)
  {
    var after, groups := AfterMerge(files, sources, m, true), Groups(files, sources);
    if after.Keys == Elements(Paths(m, m.written, groups)) {
      GroupsFacts(files, sources);
      forall j | 0 <= j < |groups| ensures Untouched(files, sources, m, j) {
        OutputSurvives(files, sources, m, j);
        AmongPaths(m, m.written, groups, j, m.planned(j));
        AmongPaths(m, m.written, groups, j, m.written(j));
      }
    }
    if AllUntouched(files, sources, m) {
      forall x ensures x in after.Keys <==> x in Elements(Paths(m, m.written, groups)) {
        OnlyOutputsLeft(files, sources, m, x);
      }
    }
  }

  /** And then they hold every case result of the sources exactly as often. */
  lemma ReplaceConserves(files: Files, sources: seq<Path>, m: Merge)
    requires AllUntouched(files, sources, m)
    ensures var after, paths := AfterMerge(files, sources, m, true), Paths(m, m.written, Groups(files, sources));
            && Lists(paths, after)
            && multiset(AllResults(Contents(after, paths))) == multiset(AllResults(Contents(files, sources)))
  {
    ReplaceExactly(files, sources, m);
    forall j | 0 <= j < |Groups(files, sources)| && DateTurned(m, j)
      ensures WrittenPath(files, sources, m, j) !in sources
    {
      assert Untouched(files, sources, m, j);
    }
    MergeConserves(files, sources, m, true);
  }

  lemma OneListed(p: Path, f: TestResult)
    ensures Lists([p], map[p := f]) && Contents(map[p := f], [p]) == [f]
  {
    assert Elements([p]) == {p} == map[p := f].Keys;
  }

  lemma CollectOne(f: TestResult)
    requires f.results != []
    ensures NonEmpty(Collected([f], ByDb)) == [f]
  {
    CollectAlone([f], ByDb);
    NonEmptyAll([f]);
  }

  lemma OneGroup(p: Path, f: TestResult)
    requires f.results != []
    ensures Lists([p], map[p := f]) && Groups(map[p := f], [p]) == [f]
  {
    OneListed(p, f);
    CollectOne(f);
  }

  lemma OneWritten(files: Files, f: TestResult, m: Merge)
    requires f.results != []
    ensures NoneEmpty([f]) && Paths(m, m.planned, [f]) == [OutputPath(m, m.planned(0), f)]
    ensures Written(files, m, [f]) == files[OutputPath(m, m.written(0), f) := MergedResult(m, f)]
  {
    PathsAt(m, m.planned, [f], 0);
    assert [f][..0] == [];
    assert Written(files, m, []) == files;
  }

  lemma OneDeletable(p: Path, q: Path)
    ensures Deletable([p], [q]) == if p == q then {} else {p}
  {
    assert Elements([p]) == {p} && Elements([q]) == {q};
  }

  lemma MergeOne(p: Path, f: TestResult, m: Merge)
    requires f.results != []
    ensures Lists([p], map[p := f])
    ensures AfterMerge(map[p := f], [p], m, true)
         == map[p := f][OutputPath(m, m.written(0), f) := MergedResult(m, f)]
            - if p == OutputPath(m, m.planned(0), f) then {} else {p}
  {
    OneGroup(p, f);
    OneWritten(map[p := f], f, m);
    OneDeletable(p, OutputPath(m, m.planned(0), f));
  }

  const ONE_RESULT := TestResult("run", "fts", [CaseEntry("Milvus", 1)], 0)
  const OVER_MIDNIGHT := Merge("fts", (db: string) => db, (j: nat) => "day1", (j: nat) => "day2")

  /** One file, reported under the first day and written under the second. If it bore the first day's
      name it stays beside its merged copy and every result is there twice; if it bore the second
      day's, it is overwritten and deleted and nothing is left. */
  lemma MidnightBreaksReplace()
    ensures var m, f := OVER_MIDNIGHT, ONE_RESULT;
            var first, second := OutputPath(m, "day1", f), OutputPath(m, "day2", f);
            && Lists([first], map[first := f]) && Lists([second], map[second := f])
            && AfterMerge(map[first := f], [first], m, true) == map[first := f, second := MergedResult(m, f)]
            && AfterMerge(map[second := f], [second], m, true) == map[]
  {
    var m, f := OVER_MIDNIGHT, ONE_RESULT;
    var first, second := OutputPath(m, "day1", f), OutputPath(m, "day2", f);
    MergeOne(first, f, m);
    MergeOne(second, f, m);
    assert first != second by {
      if first == second {
        SameNameSameDate("day1", "day2", "fts", "Milvus");
      }
    }
  }

  /** The clock shows one date throughout. */
  ghost predicate SameDay(m: Merge, today: string) {
    forall j: nat :: m.planned(j) == today && m.written(j) == today
  }

  lemma {:induction false} SamePaths(m: Merge, today: string, groups: seq<TestResult>)
    requires NoneEmpty(groups) && SameDay(m, today)
    ensures Paths(m, m.planned, groups) == Paths(m, m.written, groups)
  {
    if groups != [] {
      SamePaths(m, today, groups[..|groups| - 1]);
    }
  }

  /** Within one day the files left are the reported ones. */
  lemma SameDayLeavesOutputs(files: Files, sources: seq<Path>, m: Merge, today: string)
    requires Lists(sources, files) && SameDay(m, today)
    ensures AfterMerge(files, sources, m, true).Keys == Elements(Outputs(files, sources, m))
  {
    SamePaths(m, today, Groups(files, sources));
    ReplaceExactly(files, sources, m);
  }

  /** A file as a merge on that day writes it. */
  ghost predicate IsOutput(m: Merge, today: string, p: Path, f: TestResult) {
    f.results != [] && p == OutputPath(m, today, f) && f == MergedResult(m, f)
  }

  lemma AfterAreOutputs(files: Files, sources: seq<Path>, m: Merge, today: string, p: Path)
    requires Lists(sources, files) && SameDay(m, today) && p in AfterMerge(files, sources, m, true)
    ensures IsOutput(m, today, p, AfterMerge(files, sources, m, true)[p])
  {
    var groups, outputs := Groups(files, sources), Outputs(files, sources, m);
    SameDayLeavesOutputs(files, sources, m, today);
    assert p in Elements(outputs);
    var j :| 0 <= j < |outputs| && outputs[j] == p;
    PathsAt(m, m.planned, groups, j);
    OutputSurvives(files, sources, m, j);
  }

  lemma {:induction false} NonEmptyAll(groups: seq<TestResult>)
    requires NoneEmpty(groups)
    ensures NonEmpty(groups) == groups
  {
    if groups != [] {
      NonEmptyAll(groups[..|groups| - 1]);
    }
  }

  lemma OutputsKeys(files: Files, sources: seq<Path>, m: Merge, today: string)
    requires Lists(sources, files)
    requires forall p :: p in files ==> IsOutput(m, today, p, files[p])
    ensures DistinctKeys(Contents(files, sources), ByDb) && NoneEmpty(Contents(files, sources))
  {
    var s := Contents(files, sources);
    forall i, j | 0 <= i < j < |s| ensures GroupKey(s[i], ByDb) != GroupKey(s[j], ByDb) {
      assert sources[i] != sources[j];
    }
  }

  lemma OutputsPaths(files: Files, sources: seq<Path>, m: Merge, today: string, s: seq<TestResult>)
    requires Lists(sources, files) && SameDay(m, today)
    requires forall p :: p in files ==> IsOutput(m, today, p, files[p])
    requires s == Contents(files, sources) && NoneEmpty(s)
    ensures Paths(m, m.planned, s) == sources
  {
    forall j | 0 <= j < |s| ensures Paths(m, m.planned, s)[j] == sources[j] {
      PathsAt(m, m.planned, s, j);
    }
  }

  /** A directory of outputs is collected into the same groups it consists of. */
  lemma OutputsAreGroups(files: Files, sources: seq<Path>, m: Merge, today: string)
    requires Lists(sources, files) && SameDay(m, today)
    requires forall p :: p in files ==> IsOutput(m, today, p, files[p])
    ensures Groups(files, sources) == Contents(files, sources)
    ensures DistinctKeys(Groups(files, sources), ByDb)
    ensures Outputs(files, sources, m) == sources
  {
    var s := Contents(files, sources);
    OutputsKeys(files, sources, m, today);
    CollectAlone(s, ByDb);
    NonEmptyAll(s);
    OutputsPaths(files, sources, m, today, s);
  }

  /** Writing outputs over themselves. */
  lemma WrittenOverThemselves(files: Files, sources: seq<Path>, m: Merge, today: string, groups: seq<TestResult>)
    requires Lists(sources, files) && SameDay(m, today) && NoneEmpty(groups) && DistinctKeys(groups, ByDb)
    requires forall p :: p in files ==> IsOutput(m, today, p, files[p])
    requires groups == Contents(files, sources) && Paths(m, m.written, groups) == sources
    ensures Written(files, m, groups) == files
  {
    WrittenKeys(files, m, groups);
    forall p | p in files ensures Written(files, m, groups)[p] == files[p] {
      assert p in Elements(sources);
      var j :| 0 <= j < |sources| && sources[j] == p;
      WrittenAt(files, m, groups, j);
    }
  }

  lemma OutputsStay(files: Files, sources: seq<Path>, m: Merge, today: string)
    requires Lists(sources, files) && SameDay(m, today)
    requires forall p :: p in files ==> IsOutput(m, today, p, files[p])
    ensures AfterMerge(files, sources, m, true) == files && Outputs(files, sources, m) == sources
  {
    OutputsAreGroups(files, sources, m, today);
    SamePaths(m, today, Groups(files, sources));
    WrittenOverThemselves(files, sources, m, today, Groups(files, sources));
  }

  /** Merging a second time on the same day changes nothing, in whatever order the files are read. */
  lemma MergeTwice(files: Files, sources: seq<Path>, m: Merge, today: string, again: seq<Path>)
    requires Lists(sources, files) && SameDay(m, today) && Lists(again, AfterMerge(files, sources, m, true))
    ensures var after := AfterMerge(files, sources, m, true);
            AfterMerge(after, again, m, true) == after && Outputs(after, again, m) == again
  {
    var after := AfterMerge(files, sources, m, true);
    forall p | p in after ensures IsOutput(m, today, p, after[p]) {
      AfterAreOutputs(files, sources, m, today, p);
    }
    OutputsStay(after, again, m, today);
  }
}
