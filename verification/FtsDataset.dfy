/** FtsDatasetManager and FtsDocumentIterator: the capped corpus is streamed twice, once to learn
    the filter ids of the judged documents and once to insert, and both passes must agree. */
module FtsDataset {
  import opened Util
  import opened FtsSelection
  import opened FilterIds
  import opened Arith

  datatype FtsDocument = FtsDocument(id: DocId, text: string, filterId: Option<nat>)

  type Qrels = map<DocId, int>

  // ---- one pass over the documents ----

  ghost function SelectedOnly(docs: seq<Document>, selected: Option<set<DocId>>): nat -> bool {
    (i: nat) => i < |docs| && (selected.None? || docs[i].id in selected.value)
  }

  /** The documents one pass yields: the selected ones in order, size at most, the k-th of them
      carrying the k-th permuted filter id when filter ids are wanted. */
  ghost function Emitted(docs: seq<Document>, selected: Option<set<DocId>>, size: nat,
                         p: Option<FtsFilterIdPermutation>): seq<FtsDocument>
    requires p.Some? ==> p.value.size == size > 0
  {
    Stamped(Take(Kept(docs, |docs|, SelectedOnly(docs, selected)), size), p)
  }

  function FilterIdAt(p: Option<FtsFilterIdPermutation>, ordinal: nat): Option<nat>
    requires p.Some? ==> ordinal < p.value.size
  {
    match p
    case None => None
    case Some(perm) => Some(perm.Map(ordinal).value)
  }

  ghost function Stamped(docs: seq<Document>, p: Option<FtsFilterIdPermutation>): (r: seq<FtsDocument>)
    requires p.Some? ==> |docs| <= p.value.size
    ensures |r| == |docs|
    ensures forall k :: 0 <= k < |r| ==> r[k] == FtsDocument(docs[k].id, docs[k].text, FilterIdAt(p, k))
  {
    seq(|docs|, k requires 0 <= k < |docs| => FtsDocument(docs[k].id, docs[k].text, FilterIdAt(p, k)))
  }

  lemma {:induction false} KeptPrefix<T>(s: seq<T>, m: nat, n: nat, keep: nat -> bool)
    requires m <= n <= |s|
    ensures Kept(s, m, keep) <= Kept(s, n, keep)
  {
    if m < n {
      KeptPrefix(s, m, n - 1, keep);
    }
  }

  lemma {:induction false} KeepAll<T>(s: seq<T>, n: nat, keep: nat -> bool)
    requires n <= |s| && forall i: nat :: i < n ==> keep(i)
    ensures Kept(s, n, keep) == s[..n]
  {
    if n > 0 {
      KeepAll(s, n - 1, keep);
      assert s[..n] == s[..n - 1] + [s[n - 1]];
    }
  }

  method EmitDocuments(docs: seq<Document>, selected: Option<set<DocId>>, size: nat, includeFilterIds: bool)
    returns (r: seq<FtsDocument>)
    requires size > 0
    ensures includeFilterIds ==> exists p :: IsPermutationFor(p, size) && r == Emitted(docs, selected, size, Some(p))
    ensures !includeFilterIds ==> r == Emitted(docs, selected, size, None)
  {
    var permutation := None;
    if includeFilterIds {
      var built := ForSize(size);
      permutation := Some(built.value);
    }
    r := [];
    var i := 0;
    ghost var keep := SelectedOnly(docs, selected);
    while |r| < size && i < |docs|
      invariant 0 <= i <= |docs|
      invariant |Kept(docs, i, keep)| <= size
      invariant r == Stamped(Kept(docs, i, keep), permutation)
    {
      var doc := docs[i];
      i := i + 1;
      if selected.Some? && doc.id !in selected.value {
        continue;
      }
      r := r + [FtsDocument(doc.id, doc.text, FilterIdAt(permutation, |r|))];
    }
    KeptPrefix(docs, i, |docs|, keep);
    assert Take(Kept(docs, |docs|, keep), size) == Kept(docs, i, keep);
  }

  /** One pass in terms of positions: the k-th document it yields is the one at the k-th selected position, size
      at most, with the k-th filter id if ids are wanted and none otherwise. */
  lemma EmittedMeans(docs: seq<Document>, selected: Option<set<DocId>>, size: nat, p: Option<FtsFilterIdPermutation>)
    requires p.Some? ==> p.value.size == size > 0
    ensures var r, at := Emitted(docs, selected, size, p), Positions(|docs|, SelectedOnly(docs, selected));
            && |r| == Min(size, |at|)
            && (forall k :: 0 <= k < |r| ==>
                  && at[k] in at && at[k] < |docs| && r[k].id == docs[at[k]].id && r[k].text == docs[at[k]].text
                  && r[k].filterId == if p.Some? then Some(p.value.Map(k).value) else None)
    ensures forall i: nat :: i in Positions(|docs|, SelectedOnly(docs, selected))
              <==> i < |docs| && (selected.None? || docs[i].id in selected.value)
  {
    KeptInOrder(docs, |docs|, SelectedOnly(docs, selected));
  }

  /** Without a selection and without ids a corpus of at most size documents is streamed as it is. */
  lemma PlainPass(docs: seq<Document>, size: nat)
    requires |docs| <= size
    ensures var r := Emitted(docs, None, size, None);
            |r| == |docs| && forall k :: 0 <= k < |r| ==> r[k] == FtsDocument(docs[k].id, docs[k].text, None)
  {
    KeepAll(docs, |docs|, SelectedOnly(docs, None));
    assert docs[..|docs|] == docs;
  }

  // ---- what the first pass records ----

  /** The dictionary built while streaming: a later copy of an id overwrites an earlier one. */
  ghost function Recorded(emitted: seq<FtsDocument>, judged: set<DocId>): (m: map<DocId, nat>)
    requires forall k :: 0 <= k < |emitted| ==> emitted[k].filterId.Some?
  {
    if emitted == [] then map[]
    else
      var last := emitted[|emitted| - 1];
      var before := Recorded(emitted[..|emitted| - 1], judged);
      if last.id in judged then before[last.id := last.filterId.value] else before
  }

  ghost predicate InsertedAt(emitted: seq<FtsDocument>, id: DocId, k: nat) {
    k < |emitted| && emitted[k].id == id
  }

  ghost predicate OneCopy(emitted: seq<FtsDocument>, id: DocId) {
    forall j: nat, k: nat :: InsertedAt(emitted, id, j) && InsertedAt(emitted, id, k) ==> j == k
  }

  ghost predicate LastCopy(emitted: seq<FtsDocument>, id: DocId, k: nat) {
    InsertedAt(emitted, id, k) && forall j: nat :: j > k ==> !InsertedAt(emitted, id, j)
  }

  /** The recorded ids are those of the judged documents streamed, each with the id of its last copy. */
  lemma {:induction false} RecordedIsLastCopy(emitted: seq<FtsDocument>, judged: set<DocId>, id: DocId)
    requires forall k :: 0 <= k < |emitted| ==> emitted[k].filterId.Some?
    ensures id in Recorded(emitted, judged) <==> id in judged && exists k: nat :: InsertedAt(emitted, id, k)
    ensures id in Recorded(emitted, judged) ==>
              exists k: nat :: LastCopy(emitted, id, k) && emitted[k].filterId == Some(Recorded(emitted, judged)[id])
  {
    if emitted != [] {
      var n := |emitted| - 1;
      var front := emitted[..n];
      RecordedIsLastCopy(front, judged, id);
      if emitted[n].id == id {
        assert LastCopy(emitted, id, n);
      } else {
        assert forall k: nat :: InsertedAt(emitted, id, k) <==> InsertedAt(front, id, k);
        var before := Recorded(front, judged);
        if k: nat :| LastCopy(front, id, k) && (id in before ==> front[k].filterId == Some(before[id])) {
          assert LastCopy(emitted, id, k);
        }
      }
    }
  }

  /** A judged document is only ever inserted under its recorded filter id exactly when the
      stream carries a single copy of it. */
  lemma RecordedAgrees(docs: seq<Document>, p: FtsFilterIdPermutation, judged: set<DocId>, id: DocId)
    requires p.Valid() && |docs| <= p.size
    requires id in Recorded(Stamped(docs, Some(p)), judged)
    ensures var emitted := Stamped(docs, Some(p));
            (forall k: nat :: InsertedAt(emitted, id, k) ==>
               emitted[k].filterId == Some(Recorded(emitted, judged)[id]))
              <==> OneCopy(emitted, id)
  {
    var emitted := Stamped(docs, Some(p));
    RecordedIsLastCopy(emitted, judged, id);
    var last: nat :| LastCopy(emitted, id, last) && emitted[last].filterId == Some(Recorded(emitted, judged)[id]);
    forall k: nat | InsertedAt(emitted, id, k) && emitted[k].filterId == emitted[last].filterId ensures k == last {
      MapInjective(p, k, last);
    }
  }

  /** The positions of a stream whose document passes. */
  ghost function StreamedPassing(emitted: seq<FtsDocument>, threshold: nat): (s: set<nat>)
    requires forall k :: 0 <= k < |emitted| ==> emitted[k].filterId.Some?
    ensures forall k: nat :: k in s <==> k < |emitted| && emitted[k].filterId.value >= threshold
  {
    set k: nat | k < |emitted| && emitted[k].filterId.value >= threshold
  }

  lemma StreamedAmongAll(docs: seq<Document>, p: FtsFilterIdPermutation, threshold: nat)
    requires p.Valid() && |docs| <= p.size
    ensures forall o: nat :: o in StreamedPassing(Stamped(docs, Some(p)), threshold)
                             <==> o in Passing(p, threshold) && o < |docs|
  {}

  /** matched_doc_count is size - threshold, whatever was streamed. So many documents pass if and only if every
      position with a passing id was streamed; all of them are when size documents are. */
  lemma MatchedDocCount(docs: seq<Document>, p: FtsFilterIdPermutation, threshold: nat)
    requires p.Valid() && |docs| <= p.size && threshold <= p.size
    ensures var passing := StreamedPassing(Stamped(docs, Some(p)), threshold);
            && |passing| <= p.size - threshold
            && (|passing| == p.size - threshold <==> forall o :: o in Passing(p, threshold) ==> o < |docs|)
  {
    StreamedAmongAll(docs, p, threshold);
    PassingCount(p, threshold);
    var passing, all := StreamedPassing(Stamped(docs, Some(p)), threshold), Passing(p, threshold);
    SubsetOfSameSize(passing, all);
    if forall o :: o in all ==> o < |docs| {
      assert passing == all;
    }
  }

  method BuildQrelFilterIds(emitted: seq<FtsDocument>, judged: set<DocId>)
    returns (r: Result<map<DocId, nat>, set<DocId>>)
    requires forall k :: 0 <= k < |emitted| ==> emitted[k].filterId.Some?
    ensures var m := Recorded(emitted, judged);
            r == if judged <= m.Keys then Ok(m) else Err(judged - m.Keys)
  {
    var m := map[];
    var i := 0;
    while i < |emitted|
      invariant 0 <= i <= |emitted|
      invariant m == Recorded(emitted[..i], judged)
    {
      assert emitted[..i + 1][..i] == emitted[..i];
      if emitted[i].id in judged {
        m := m[emitted[i].id := emitted[i].filterId.value];
      }
      i := i + 1;
    }
    assert emitted[..i] == emitted;
    var missing := judged - m.Keys;
    EmptyDifference(judged, m.Keys);
    r := if missing != {} then Err(missing) else Ok(m);
  }

  // ---- filtering the ground truth ----

  function FilterQrels(qrels: Qrels, ids: map<DocId, nat>, threshold: int): (r: Qrels)
    ensures FilteredFrom(qrels, ids, threshold, r)
  {
    map d | d in qrels && d in ids && ids[d] >= threshold :: qrels[d]
  }

  /** The documents of the original that have a recorded id of at least the threshold, with their grades. */
  ghost predicate FilteredFrom(original: Qrels, ids: map<DocId, nat>, threshold: int, filtered: Qrels) {
    && (forall d :: d in filtered <==> d in original && d in ids && ids[d] >= threshold)
    && (forall d :: d in filtered ==> filtered[d] == original[d])
  }

  /** A query stays when some judged document of it passes the filter. */
  ghost function Answerable(groundTruth: seq<Qrels>, ids: map<DocId, nat>, threshold: int): nat -> bool {
    (i: nat) => i < |groundTruth|
             && exists d :: d in groundTruth[i] && d in ids && ids[d] >= threshold
  }

  lemma NonEmptyWhenAnswerable(groundTruth: seq<Qrels>, ids: map<DocId, nat>, threshold: int, i: nat)
    requires i < |groundTruth|
    ensures Answerable(groundTruth, ids, threshold)(i) <==> FilterQrels(groundTruth[i], ids, threshold) != map[]
  {
    var filtered := FilterQrels(groundTruth[i], ids, threshold);
    assert forall d :: d in filtered <==> d in groundTruth[i] && d in ids && ids[d] >= threshold;
    assert filtered != map[] <==> exists d :: d in filtered.Keys;
  }

  /** Of the first n queries those with a passing judged document are kept, in their order, each with the
      filtered ground truth of its own. */
  ghost predicate KeptWithTruth<Q>(queries: seq<Q>, groundTruth: seq<Qrels>, ids: map<DocId, nat>, threshold: int,
                                   n: nat, keptQueries: seq<Q>, keptTruth: seq<Qrels>)
    requires n <= |queries| == |groundTruth|
  {
    var at := Positions(n, Answerable(groundTruth, ids, threshold));
    && |keptQueries| == |keptTruth| == |at|
    && (forall j :: 0 <= j < |at| ==> at[j] in at && at[j] < |queries| && keptQueries[j] == queries[at[j]])
    && (forall j :: 0 <= j < |at| ==>
          at[j] in at && FilteredFrom(groundTruth[at[j]], ids, threshold, keptTruth[j]))
  }

  lemma PositionsOneMore(n: nat, keep: nat -> bool)
    ensures Positions(n + 1, keep) == Positions(n, keep) + if keep(n) then [n] else []
  {}

  lemma KeepOneMore<Q>(queries: seq<Q>, groundTruth: seq<Qrels>, ids: map<DocId, nat>, threshold: int, n: nat,
                       keptQueries: seq<Q>, keptTruth: seq<Qrels>)
    requires n < |queries| == |groundTruth|
    requires KeptWithTruth(queries, groundTruth, ids, threshold, n, keptQueries, keptTruth)
    ensures var filtered := FilterQrels(groundTruth[n], ids, threshold);
            if filtered == map[]
            then KeptWithTruth(queries, groundTruth, ids, threshold, n + 1, keptQueries, keptTruth)
            else KeptWithTruth(queries, groundTruth, ids, threshold, n + 1, keptQueries + [queries[n]],
                               keptTruth + [filtered])
  {
    var keep := Answerable(groundTruth, ids, threshold);
    PositionsOneMore(n, keep);
    NonEmptyWhenAnswerable(groundTruth, ids, threshold, n);
    var at, next := Positions(n, keep), Positions(n + 1, keep);
    assert forall j :: 0 <= j < |at| ==> next[j] == at[j];
    assert forall j :: 0 <= j < |next| ==> next[j] in next;
  }

  method FilterQueries<Q>(queries: seq<Q>, groundTruth: seq<Qrels>, ids: map<DocId, nat>, threshold: int)
    returns (keptQueries: seq<Q>, keptTruth: seq<Qrels>)
    requires |queries| == |groundTruth|
    ensures KeptWithTruth(queries, groundTruth, ids, threshold, |queries|, keptQueries, keptTruth)
  {
    keptQueries, keptTruth := [], [];
    var i := 0;
    while i < |queries|
      invariant 0 <= i <= |queries| && KeptWithTruth(queries, groundTruth, ids, threshold, i, keptQueries, keptTruth)
    {
      var filtered := FilterQrels(groundTruth[i], ids, threshold);
      KeepOneMore(queries, groundTruth, ids, threshold, i, keptQueries, keptTruth);
      if filtered != map[] {
        keptQueries := keptQueries + [queries[i]];
        keptTruth := keptTruth + [filtered];
      }
      i := i + 1;
    }
  }

  /** Filtered ground truth holds exactly the judged documents a filtered search may return:
      those inserted with a filter id of at least the threshold, with their grades. */
  ghost predicate ExactTruth(emitted: seq<FtsDocument>, original: Qrels, filtered: Qrels, threshold: int)
    requires forall k :: 0 <= k < |emitted| ==> emitted[k].filterId.Some?
  {
    && (forall d :: d in filtered ==> d in original && filtered[d] == original[d])
    && (forall d :: d in original ==>
          (d in filtered <==> exists k: nat :: InsertedAt(emitted, d, k) && emitted[k].filterId.value >= threshold))
  }

  ghost predicate SomeCopyPasses(emitted: seq<FtsDocument>, d: DocId, threshold: int)
    requires forall k :: 0 <= k < |emitted| ==> emitted[k].filterId.Some?
  {
    exists k: nat :: InsertedAt(emitted, d, k) && emitted[k].filterId.value >= threshold
  }

  ghost predicate LastCopyPasses(emitted: seq<FtsDocument>, d: DocId, threshold: int)
    requires forall k :: 0 <= k < |emitted| ==> emitted[k].filterId.Some?
  {
    exists k: nat :: LastCopy(emitted, d, k) && emitted[k].filterId.value >= threshold
  }

  lemma KeptByLastCopy(emitted: seq<FtsDocument>, judged: set<DocId>, qrels: Qrels, threshold: int, d: DocId)
    requires forall k :: 0 <= k < |emitted| ==> emitted[k].filterId.Some?
    requires d in qrels && d in judged
    ensures d in FilterQrels(qrels, Recorded(emitted, judged), threshold) <==> LastCopyPasses(emitted, d, threshold)
  {
    RecordedIsLastCopy(emitted, judged, d);
    if k: nat :| LastCopy(emitted, d, k) {
      assert InsertedAt(emitted, d, k);
    }
  }

  /** A query's filtered ground truth is exact if and only if no judged document of it has a passing copy
      whose last copy does not pass. */
  lemma FilterQrelsExact(emitted: seq<FtsDocument>, judged: set<DocId>, qrels: Qrels, threshold: int)
    requires forall k :: 0 <= k < |emitted| ==> emitted[k].filterId.Some?
    requires qrels.Keys <= judged
    ensures ExactTruth(emitted, qrels, FilterQrels(qrels, Recorded(emitted, judged), threshold), threshold)
            <==> forall d :: d in qrels && SomeCopyPasses(emitted, d, threshold) ==>
                   LastCopyPasses(emitted, d, threshold)
  {
    var filtered := FilterQrels(qrels, Recorded(emitted, judged), threshold);
    forall d | d in qrels
      ensures d in filtered <==> LastCopyPasses(emitted, d, threshold)
      ensures LastCopyPasses(emitted, d, threshold) ==> SomeCopyPasses(emitted, d, threshold)
    {
      KeptByLastCopy(emitted, judged, qrels, threshold, d);
    }
    assert ExactTruth(emitted, qrels, filtered, threshold)
      <==> forall d :: d in qrels ==> (d in filtered <==> SomeCopyPasses(emitted, d, threshold));
  }

  lemma OneCopyPasses(emitted: seq<FtsDocument>, d: DocId, threshold: int)
    requires forall k :: 0 <= k < |emitted| ==> emitted[k].filterId.Some?
    requires OneCopy(emitted, d) && SomeCopyPasses(emitted, d, threshold)
    ensures LastCopyPasses(emitted, d, threshold)
  {
    var k: nat :| InsertedAt(emitted, d, k) && emitted[k].filterId.value >= threshold;
    assert LastCopy(emitted, d, k);
  }

  lemma SingleCopiesExact(emitted: seq<FtsDocument>, judged: set<DocId>, qrels: Qrels, threshold: int)
    requires forall k :: 0 <= k < |emitted| ==> emitted[k].filterId.Some?
    requires qrels.Keys <= judged && forall d :: OneCopy(emitted, d)
    ensures ExactTruth(emitted, qrels, FilterQrels(qrels, Recorded(emitted, judged), threshold), threshold)
  {
    forall d | d in qrels && SomeCopyPasses(emitted, d, threshold) ensures LastCopyPasses(emitted, d, threshold) {
      OneCopyPasses(emitted, d, threshold);
    }
    FilterQrelsExact(emitted, judged, qrels, threshold);
  }

  // ---- what two copies do ----

  ghost predicate TruthBreaks(emitted: seq<FtsDocument>, d: DocId, threshold: nat)
    requires forall k :: 0 <= k < |emitted| ==> emitted[k].filterId.Some?
  {
    SomeCopyPasses(emitted, d, threshold) && !LastCopyPasses(emitted, d, threshold)
  }

  ghost predicate LargerBeforeLast(emitted: seq<FtsDocument>, d: DocId, j: nat, k: nat)
    requires forall k :: 0 <= k < |emitted| ==> emitted[k].filterId.Some?
  {
    InsertedAt(emitted, d, j) && LastCopy(emitted, d, k) && emitted[j].filterId.value > emitted[k].filterId.value
  }

  /** Some threshold makes the ground truth of a judged document wrong if and only if a copy of it has a larger
      filter id than its last copy. */
  lemma TruthBreaksIff(emitted: seq<FtsDocument>, d: DocId)
    requires forall k :: 0 <= k < |emitted| ==> emitted[k].filterId.Some?
    requires exists k: nat :: LastCopy(emitted, d, k)
    ensures (exists threshold: nat :: TruthBreaks(emitted, d, threshold))
            <==> exists j: nat, k: nat :: LargerBeforeLast(emitted, d, j, k)
  {
    var last: nat :| LastCopy(emitted, d, last);
    if threshold: nat :| TruthBreaks(emitted, d, threshold) {
      var j: nat :| InsertedAt(emitted, d, j) && emitted[j].filterId.value >= threshold;
      assert LargerBeforeLast(emitted, d, j, last);
    }
    if j: nat, k: nat :| LargerBeforeLast(emitted, d, j, k) {
      assert k == last;
      assert TruthBreaks(emitted, d, emitted[j].filterId.value);
    }
  }

  /** An affine map that is not the identity steps down somewhere. */
  lemma StepDown(p: FtsFilterIdPermutation, n: nat) returns (x: nat)
    requires p.Valid() && 2 <= p.multiplier < p.size && n < p.size && p.Map(n).value == p.multiplier * n + p.offset
    ensures x + 1 < p.size && p.Map(x + 1).value < p.Map(x).value
    decreases p.size - n
  {
    var next := p.multiplier * n + p.offset + p.multiplier;
    Times(n, 1, p.multiplier);
    assert p.multiplier * (n + 1) + p.offset == next;
    if n + 1 == p.size {
      MultipleBounds(p.size - 1, p.multiplier);
      Times(p.size - 1, 2, p.multiplier);
      assert p.multiplier * n >= 2 * n by { ScaledLe(2, p.multiplier, n); }
      assert false;
    } else if next < p.size {
      SmallRemainder(next, p.size);
      x := StepDown(p, n + 1);
    } else {
      x := n;
      SameRemainder(next, next - p.size, 1, p.size);
      SmallRemainder(next - p.size, p.size);
    }
  }

  lemma LargeMultiplier(size: nat)
    requires size >= 4
    ensures Start(size) >= 2
  {
    assert size * GOLDEN_RATIO_64 >= 4 * GOLDEN_RATIO_64 by { ScaledLe(4, size, GOLDEN_RATIO_64); }
    QuotientLe(2 * TWO_64, size * GOLDEN_RATIO_64, TWO_64);
  }

  /** A corpus of the given size that holds the document "judged" at two neighbouring positions. */
  function TwoCopies(size: nat, x: nat): seq<Document> {
    seq(size, i => Document(if i == x || i == x + 1 then "judged" else "other", ""))
  }

  /** So for every corpus size from 4 on there is a corpus with two copies of a judged document, and a
      threshold, for which the filtered ground truth has dropped a document that the filter finds. */
  lemma TwoCopiesDisagree(size: nat) returns (docs: seq<Document>, threshold: nat)
    requires size >= 4
    ensures |docs| == size && threshold <= size
    ensures var emitted, qrels := Stamped(docs, Some(PermutationFor(size))), map["judged" := 1];
            && !ExactTruth(emitted, qrels, FilterQrels(qrels, Recorded(emitted, {"judged"}), threshold), threshold)
            && "judged" !in FilterQrels(qrels, Recorded(emitted, {"judged"}), threshold)
  {
    var p := PermutationFor(size);
    LargeMultiplier(size);
    SmallRemainder(p.offset, size);
    var x := StepDown(p, 0);
    docs, threshold := TwoCopies(size, x), p.Map(x).value;
    var emitted, qrels: Qrels := Stamped(docs, Some(p)), map["judged" := 1];
    assert LastCopy(emitted, "judged", x + 1) && InsertedAt(emitted, "judged", x);
    assert SomeCopyPasses(emitted, "judged", threshold) && !LastCopyPasses(emitted, "judged", threshold);
    KeptByLastCopy(emitted, {"judged"}, qrels, threshold, "judged");
    FilterQrelsExact(emitted, {"judged"}, qrels, threshold);
  }

  datatype PrepareError =
    | NoJudgedQueries
    | NotSelectable(reason: SelectionError)
    | ThresholdOutOfRange
    | MissingFilterIds(ids: set<DocId>)

  datatype FilterStats = FilterStats(threshold: int, multiplier: nat, offset: nat, matchedDocCount: int)

  ghost function Judged(groundTruth: seq<Qrels>): set<DocId> {
    set i, d | 0 <= i < |groundTruth| && d in groundTruth[i] :: d
  }

  /** Streaming a capped corpus yields each of its documents once, stamped by position. */
  lemma CappedEmission(corpus: seq<Document>, required: set<DocId>, size: nat, p: FtsFilterIdPermutation)
    requires size > 0 && p.size == size && Capped(corpus, required, size).Ok?
    ensures var docs := Capped(corpus, required, size).value;
            && |docs| == size && required <= Ids(docs)
            && Emitted(docs, None, size, Some(p)) == Stamped(docs, Some(p))
            && forall d :: OneCopy(Stamped(docs, Some(p)), d)
  {
    var docs := Capped(corpus, required, size).value;
    CappedMeans(corpus, required, size);
    EmittedWhole(docs, size, p);
  }

  lemma EmittedWhole(docs: seq<Document>, size: nat, p: FtsFilterIdPermutation)
    requires |docs| == size == p.size > 0
    ensures Emitted(docs, None, size, Some(p)) == Stamped(docs, Some(p))
  {
    KeepAll(docs, |docs|, SelectedOnly(docs, None));
    assert docs[..|docs|] == docs;
    assert Take(docs, size) == docs;
  }

  class FtsDatasetManager<Query> {
    const corpus: seq<Document>   // what the translator replays on every pass
    const size: nat               // the capped size
    const largest: bool           // size is the largest supported one: the corpus is used as it is

    var requiredDocIds: set<DocId>
    var preparedDocuments: Option<seq<Document>>
    var selectedDocIds: Option<set<DocId>>
    var qrelFilterIds: map<DocId, nat>
    var filterStats: Option<FilterStats>
    var recallQueries: seq<Query>
    var recallTruth: seq<Qrels>
    var recallSkipped: bool

    constructor (corpus: seq<Document>, size: nat, largest: bool)
      requires size > 0
      ensures this.corpus == corpus && this.size == size && this.largest == largest
    {
      this.corpus, this.size, this.largest := corpus, size, largest;
      requiredDocIds, preparedDocuments, selectedDocIds := {}, None, None;
      qrelFilterIds, filterStats, recallQueries, recallTruth, recallSkipped := map[], None, [], [], false;
    }

    ghost function Stream(): seq<Document>
      reads this`preparedDocuments
    {
      if preparedDocuments.Some? then preparedDocuments.value else corpus
    }

    /** What one pass with filter ids yields now; both passes are this one function of the state. */
    ghost function Emission(p: FtsFilterIdPermutation): seq<FtsDocument>
      requires p.size == size > 0
      reads this`preparedDocuments, this`selectedDocIds
    {
      Emitted(Stream(), selectedDocIds, size, Some(p))
    }

    method PrepareQrelPreservingDocuments() returns (r: Result<(), SelectionError>)
      modifies this`preparedDocuments
      ensures largest ==> r == Ok(()) && preparedDocuments == None
      ensures !largest ==> match Capped(corpus, requiredDocIds, size)
                           case Ok(written) => r == Ok(()) && preparedDocuments == Some(written)
                           case Err(reason) => r == Err(reason) && preparedDocuments == None
    {
      preparedDocuments := None;
      if largest {
        return Ok(());
      }
      var written := WriteCapped(corpus, requiredDocIds, size);
      match written {
        case Err(reason) => return Err(reason);
        case Ok(docs) => preparedDocuments := Some(docs);
      }
      r := Ok(());
    }

    /** One pass over the documents with filter ids. */
    method StreamWithFilterIds() returns (emitted: seq<FtsDocument>, ghost p: FtsFilterIdPermutation)
      requires size > 0
      ensures IsPermutationFor(p, size) && emitted == Emission(p)
    {
      emitted := EmitDocuments(Source(), selectedDocIds, size, true);
      p :| IsPermutationFor(p, size) && emitted == Emission(p);
    }

    /** Every judged document is streamed. */
    ghost predicate AllStreamed()
      requires size > 0
      reads this`preparedDocuments, this`selectedDocIds, this`requiredDocIds
    {
      forall d :: d in requiredDocIds ==> exists k: nat :: InsertedAt(Emission(PermutationFor(size)), d, k)
    }

    lemma RecordedWhenStreamed()
      requires size > 0
      ensures requiredDocIds <= Recorded(Emission(PermutationFor(size)), requiredDocIds).Keys <==> AllStreamed()
    {
      forall d | d in requiredDocIds
        ensures d in Recorded(Emission(PermutationFor(size)), requiredDocIds)
            <==> exists k: nat :: InsertedAt(Emission(PermutationFor(size)), d, k)
      {
        RecordedIsLastCopy(Emission(PermutationFor(size)), requiredDocIds, d);
      }
    }

    /** One pass that records the filter id of every judged document. */
    method RecordFilterIds() returns (r: Result<map<DocId, nat>, set<DocId>>)
      requires size > 0
      ensures r.Ok? <==> AllStreamed()
      ensures r.Ok? ==> r.value == Recorded(Emission(PermutationFor(size)), requiredDocIds)
    {
      var emitted;
      ghost var p;
      emitted, p := StreamWithFilterIds();
      PermutationForSizeUnique(p, PermutationFor(size), size);
      RecordedWhenStreamed();
      r := BuildQrelFilterIds(emitted, requiredDocIds);
    }

    method StatsFor(threshold: int) returns (stats: FilterStats)
      requires size > 0
      ensures var p := PermutationFor(size);
              stats == FilterStats(threshold, p.multiplier, p.offset, size - threshold)
    {
      var p := ForSize(size);
      PermutationForSizeUnique(p.value, PermutationFor(size), size);
      stats := FilterStats(threshold, p.value.multiplier, p.value.offset, size - threshold);
    }

    method ApplyIntegerFilter(queries: seq<Query>, groundTruth: seq<Qrels>, threshold: int)
      returns (r: Result<(), PrepareError>)
      requires size > 0 && |queries| == |groundTruth| > 0
      modifies this`qrelFilterIds, this`filterStats, this`recallQueries, this`recallTruth, this`recallSkipped
      ensures r == Err(ThresholdOutOfRange) <==> !(0 <= threshold <= size)
      ensures r.Ok? <==> 0 <= threshold <= size && AllStreamed()
      ensures r.Ok? ==> Filtered(queries, groundTruth, threshold)
      ensures r.Ok? ==> (recallSkipped <==> old(recallSkipped) || recallQueries == [])
    {
      if threshold < 0 || threshold > size {
        return Err(ThresholdOutOfRange);
      }
      var ids := RecordFilterIds();
      if ids.Err? {
        return Err(MissingFilterIds(ids.error));
      }
      var keptQueries, keptTruth := FilterQueries(queries, groundTruth, ids.value, threshold);
      var stats := StatsFor(threshold);
      qrelFilterIds, filterStats, recallQueries, recallTruth := ids.value, Some(stats), keptQueries, keptTruth;
      recallSkipped := recallSkipped || keptQueries == [];
      NowFiltered(queries, groundTruth, threshold);
      r := Ok(());
    }

    function Source(): (docs: seq<Document>)
      reads this`preparedDocuments
      ensures docs == Stream()
    {
      match preparedDocuments
      case Some(docs) => docs
      case None => corpus
    }

    /** The state a successful integer filter leaves behind. */
    ghost predicate Filtered(queries: seq<Query>, groundTruth: seq<Qrels>, threshold: int)
      requires size > 0 && |queries| == |groundTruth|
      reads this
    {
      var p := PermutationFor(size);
      && qrelFilterIds == Recorded(Emission(p), requiredDocIds)
      && KeptWithTruth(queries, groundTruth, qrelFilterIds, threshold, |queries|, recallQueries, recallTruth)
      && filterStats == Some(FilterStats(threshold, p.multiplier, p.offset, size - threshold))
    }

    lemma NowFiltered(queries: seq<Query>, groundTruth: seq<Qrels>, threshold: int)
      requires size > 0 && |queries| == |groundTruth|
      requires var p := PermutationFor(size);
               && qrelFilterIds == Recorded(Emission(p), requiredDocIds)
               && filterStats == Some(FilterStats(threshold, p.multiplier, p.offset, size - threshold))
      requires KeptWithTruth(queries, groundTruth, qrelFilterIds, threshold, |queries|, recallQueries, recallTruth)
      ensures Filtered(queries, groundTruth, threshold)
    {}

    /** _apply_filters_to_qrels: no filter, or an integer threshold. */
    method ApplyFiltersToQrels(queries: seq<Query>, groundTruth: seq<Qrels>, threshold: Option<int>)
      returns (r: Result<(), PrepareError>)
      requires size > 0 && |queries| == |groundTruth| > 0
      modifies this`qrelFilterIds, this`filterStats, this`recallQueries, this`recallTruth, this`recallSkipped
      ensures r.Ok? ==> FilterOutcome(queries, groundTruth, threshold)
      ensures r.Ok? <==> threshold.Some? ==> 0 <= threshold.value <= size && AllStreamed()
      ensures CappedFor(groundTruth) ==> (r.Ok? <==> threshold.Some? ==> 0 <= threshold.value <= size)
    {
      filterStats, qrelFilterIds, recallSkipped := None, map[], false;
      match threshold {
        case None =>
          recallQueries, recallTruth := queries, groundTruth;
          r := Ok(());
        case Some(value) =>
          r := ApplyIntegerFilter(queries, groundTruth, value);
          if r.Ok? && CappedFor(groundTruth) {
            CappedTruth(queries, groundTruth, value);
          }
          if CappedFor(groundTruth) {
            CappedStreamsAll(groundTruth);
          }
      }
    }

    /** The documents to stream are a capped corpus that keeps everything judged. */
    ghost predicate CappedFor(groundTruth: seq<Qrels>)
      reads this`preparedDocuments, this`selectedDocIds, this`requiredDocIds
    {
      && requiredDocIds == Judged(groundTruth) && selectedDocIds == None && preparedDocuments.Some?
      && Capped(corpus, requiredDocIds, size) == Ok(Stream())
    }

    ghost predicate FilterOutcome(queries: seq<Query>, groundTruth: seq<Qrels>, threshold: Option<int>)
      requires size > 0 && |queries| == |groundTruth|
      reads this
    {
      match threshold
      case None => recallQueries == queries && recallTruth == groundTruth && !recallSkipped && filterStats.None?
      case Some(value) =>
        && (recallSkipped <==> recallQueries == []) && Filtered(queries, groundTruth, value)
        && (CappedFor(groundTruth) ==> TruthMatchesInsertion(queries, groundTruth, value))
    }

    /** prepare(): load the judged queries, cap the corpus, filter the ground truth. */
    method Prepare(queries: seq<Query>, groundTruth: seq<Qrels>, threshold: Option<int>)
      returns (r: Result<(), PrepareError>)
      requires size > 0 && |queries| == |groundTruth|
      modifies this
      ensures queries == [] ==> r == Err(NoJudgedQueries)
      ensures r.Ok? ==> FilterOutcome(queries, groundTruth, threshold)
      ensures !largest && r.Ok? ==> CappedFor(groundTruth)
      ensures !largest ==> (r.Ok? <==> && queries != [] && Capped(corpus, Judged(groundTruth), size).Ok?
                                       && (threshold.Some? ==> 0 <= threshold.value <= size))
      ensures largest && queries != [] ==> Stream() == corpus && selectedDocIds == None
      ensures largest && queries != [] ==> requiredDocIds == Judged(groundTruth)
      ensures largest && queries != [] ==>
                (r.Ok? <==> threshold.Some? ==> 0 <= threshold.value <= size && AllStreamed())
    {
      if queries == [] {
        return Err(NoJudgedQueries);
      }
      requiredDocIds := set i, d | 0 <= i < |groundTruth| && d in groundTruth[i] :: d;
      selectedDocIds := None;
      var capped := PrepareQrelPreservingDocuments();
      if capped.Err? {
        return Err(NotSelectable(capped.error));
      }
      r := ApplyFiltersToQrels(queries, groundTruth, threshold);
    }

    /** What one pass yields in the present state: with filter ids once a filter is in place. */
    ghost function Pass(): seq<FtsDocument>
      requires size > 0
      reads this
    {
      Emitted(Stream(), selectedDocIds, size, if filterStats.Some? then Some(PermutationFor(size)) else None)
    }

    /** With a filter in place it is the very emission the recorded filter ids come from. */
    lemma PassIsEmission(p: FtsFilterIdPermutation)
      requires size > 0 && filterStats.Some? && IsPermutationFor(p, size)
      ensures Pass() == Emission(p)
    {
      PermutationForSizeUnique(p, PermutationFor(size), size);
    }

    method StartPass() returns (documents: seq<FtsDocument>)
      requires size > 0
      ensures documents == Pass()
    {
      if filterStats.Some? {
        ghost var p;
        documents, p := StreamWithFilterIds();
        PassIsEmission(p);
      } else {
        documents := EmitDocuments(Source(), selectedDocIds, size, false);
      }
    }

    /** iter_batches(): nothing is read yet. */
    method IterBatches(batchSize: int) returns (r: Result<FtsDocumentIterator<Query>, string>)
      requires size > 0
      ensures r.Ok? <==> batchSize > 0
      ensures r.Ok? ==> fresh(r.value) && r.value.Valid() && r.value.ds == this && r.value.batchSize == batchSize
                        && r.value.Rest() == Pass()
    {
      if batchSize <= 0 {
        return Err("insert batch size must be greater than 0");
      }
      var it := new FtsDocumentIterator(this, batchSize);
      r := Ok(it);
    }

    /** The recall ground truth of every kept query names exactly the judged documents that insertion stores with
        a passing filter id; of a query that is not kept it stores none. And as many documents pass as the
        statistics say. */
    ghost predicate TruthMatchesInsertion(queries: seq<Query>, groundTruth: seq<Qrels>, threshold: int)
      requires size > 0 && |queries| == |groundTruth|
      reads this
    {
      var emitted := Emission(PermutationFor(size));
      var at := Positions(|queries|, Answerable(groundTruth, qrelFilterIds, threshold));
      && |emitted| == size && |recallQueries| == |recallTruth| == |at|
      && (forall j :: 0 <= j < |at| ==>
            at[j] in at && at[j] < |queries| && recallQueries[j] == queries[at[j]]
            && ExactTruth(emitted, groundTruth[at[j]], recallTruth[j], threshold))
      && (forall i, d :: 0 <= i < |queries| && i !in at && d in groundTruth[i] ==>
            !SomeCopyPasses(emitted, d, threshold))
      && (0 <= threshold <= size ==>
            filterStats.Some? && filterStats.value.matchedDocCount == |StreamedPassing(emitted, threshold)|)
    }

    /** Every judged document of a capped corpus gets a filter id. */
    lemma CappedStreamsAll(groundTruth: seq<Qrels>)
      requires size > 0 && CappedFor(groundTruth)
      ensures AllStreamed()
    {
      var p := PermutationFor(size);
      CappedEmission(corpus, requiredDocIds, size, p);
      forall d | d in requiredDocIds ensures exists k: nat :: InsertedAt(Emission(p), d, k) {
        IdOf(Stream(), d);
        var k :| 0 <= k < |Stream()| && Stream()[k].id == d;
        assert InsertedAt(Emission(p), d, k);
      }
    }

    /** On a capped corpus filtering one query's ground truth is exact. */
    lemma CappedQrels(groundTruth: seq<Qrels>, threshold: int, i: nat, filtered: Qrels)
      requires size > 0 && CappedFor(groundTruth) && i < |groundTruth|
      requires qrelFilterIds == Recorded(Emission(PermutationFor(size)), requiredDocIds)
      requires FilteredFrom(groundTruth[i], qrelFilterIds, threshold, filtered)
      ensures ExactTruth(Emission(PermutationFor(size)), groundTruth[i], filtered, threshold)
    {
      var emitted, qrels := Emission(PermutationFor(size)), groundTruth[i];
      assert forall d :: d in qrels ==> d in Judged(groundTruth);
      CappedEmission(corpus, requiredDocIds, size, PermutationFor(size));
      SingleCopiesExact(emitted, requiredDocIds, qrels, threshold);
      assert filtered == FilterQrels(qrels, qrelFilterIds, threshold);
    }

    lemma CappedUnanswerable(groundTruth: seq<Qrels>, threshold: int, i: nat, d: DocId)
      requires size > 0 && CappedFor(groundTruth) && i < |groundTruth| && d in groundTruth[i]
      requires qrelFilterIds == Recorded(Emission(PermutationFor(size)), requiredDocIds)
      requires !Answerable(groundTruth, qrelFilterIds, threshold)(i)
      ensures !SomeCopyPasses(Emission(PermutationFor(size)), d, threshold)
    {
      var filtered := FilterQrels(groundTruth[i], qrelFilterIds, threshold);
      NonEmptyWhenAnswerable(groundTruth, qrelFilterIds, threshold, i);
      CappedQrels(groundTruth, threshold, i, filtered);
      assert d !in filtered;
    }

    lemma CappedCount(groundTruth: seq<Qrels>, threshold: int)
      requires size > 0 && CappedFor(groundTruth)
      ensures var emitted := Emission(PermutationFor(size));
              && |emitted| == size
              && (0 <= threshold <= size ==> |StreamedPassing(emitted, threshold)| == size - threshold)
    {
      CappedEmission(corpus, requiredDocIds, size, PermutationFor(size));
      if 0 <= threshold <= size {
        MatchedDocCount(Stream(), PermutationFor(size), threshold);
      }
    }

    lemma CappedTruth(queries: seq<Query>, groundTruth: seq<Qrels>, threshold: int)
      requires size > 0 && |queries| == |groundTruth| && CappedFor(groundTruth)
      requires Filtered(queries, groundTruth, threshold)
      ensures TruthMatchesInsertion(queries, groundTruth, threshold)
    {
      var p := PermutationFor(size);
      var keep := Answerable(groundTruth, qrelFilterIds, threshold);
      var at := Positions(|queries|, keep);
      CappedCount(groundTruth, threshold);
      forall j | 0 <= j < |at|
        ensures at[j] in at && ExactTruth(Emission(p), groundTruth[at[j]], recallTruth[j], threshold)
      {
        CappedQrels(groundTruth, threshold, at[j], recallTruth[j]);
      }
      forall i, d | 0 <= i < |queries| && i !in at && d in groundTruth[i]
        ensures !SomeCopyPasses(Emission(p), d, threshold)
      {
        CappedUnanswerable(groundTruth, threshold, i, d);
      }
    }
  }

  /** FtsDocumentIterator: the insertion pass, cut into batches. The pass starts with the first batch, from
      the state the dataset is in then. */
  class FtsDocumentIterator<Query> {
    const ds: FtsDatasetManager<Query>
    const batchSize: nat
    var docsIter: Option<seq<FtsDocument>>   // None until the first batch is asked for
    var position: nat
    var finished: bool

    ghost predicate Valid()
      reads this
    {
      && batchSize > 0 && ds.size > 0
      && (docsIter.None? ==> position == 0 && !finished)
      && (docsIter.Some? ==> position <= |docsIter.value| && (finished ==> position == |docsIter.value|))
    }

    ghost function Rest(): seq<FtsDocument>
      requires Valid()
      reads this, ds
    {
      if docsIter.None? then ds.Pass() else docsIter.value[position..]
    }

    constructor (ds: FtsDatasetManager<Query>, batchSize: nat)
      requires batchSize > 0 && ds.size > 0
      ensures Valid() && this.ds == ds && this.batchSize == batchSize && docsIter.None?
    {
      this.ds, this.batchSize, docsIter, position, finished := ds, batchSize, None, 0, false;
    }

    method Next() returns (batch: Option<seq<FtsDocument>>)
      requires Valid()
      modifies this
      ensures Valid()
      ensures batch.None? <==> old(Rest()) == []
      ensures batch.Some? ==> batch.value + Rest() == old(Rest()) && |batch.value| == Min(batchSize, |old(Rest())|)
      ensures batch.None? ==> Rest() == []
    {
      if finished {
        return None;
      }
      if docsIter.None? {
        var documents := ds.StartPass();
        docsIter := Some(documents);
      }
      var documents := docsIter.value;
      var items := [];
      ghost var start := position;
      while |items| < batchSize
        invariant Valid() && !finished && docsIter == Some(documents) && start <= position
        invariant items == documents[start..position] && |items| <= batchSize
        decreases batchSize - |items|
      {
        if position == |documents| {
          finished := true;
          return if items != [] then Some(items) else None;
        }
        items := items + [documents[position]];
        position := position + 1;
      }
      batch := Some(items);
    }

    /** A for loop over the iterator sees every document once, in order. */
    method Drain() returns (batches: seq<seq<FtsDocument>>)
      requires Valid()
      modifies this
      ensures Valid() && Rest() == []
      ensures Cut(batches, old(Rest()), [], batchSize)
    {
      batches := [];
      ghost var all, left := Rest(), Rest();
      var batch := Next();
      while batch.Some?
        invariant Valid() && Cut(batches, all, left, batchSize)
        invariant if batch.Some?
                  then batch.value + Rest() == left && |batch.value| == Min(batchSize, |left|) && left != []
                  else left == [] && Rest() == []
        decreases |left|
      {
        CutOneMore(batches, batch.value, all, left, Rest(), batchSize);
        batches := batches + [batch.value];
        left := Rest();
        batch := Next();
      }
    }
  }

  /** The batches are the beginning of all, rest is what remains of it; every batch is full unless
      nothing remains, and then only the last may be shorter. */
  ghost predicate Cut<T>(batches: seq<seq<T>>, all: seq<T>, rest: seq<T>, size: nat) {
    && Flatten(batches) + rest == all
    && (forall b :: 0 <= b < |batches| ==> 0 < |batches[b]| <= size)
    && (forall b :: 0 <= b < |batches| && |batches[b]| < size ==> b == |batches| - 1 && rest == [])
  }

  lemma CutOneMore<T>(batches: seq<seq<T>>, batch: seq<T>, all: seq<T>, left: seq<T>, rest: seq<T>, size: nat)
    requires size > 0 && left != [] && Cut(batches, all, left, size)
    requires batch + rest == left && |batch| == Min(size, |left|)
    ensures Cut(batches + [batch], all, rest, size)
  {
    assert (batches + [batch])[..|batches|] == batches;
    assert Flatten(batches) + (batch + rest) == (Flatten(batches) + batch) + rest;
  }
}
