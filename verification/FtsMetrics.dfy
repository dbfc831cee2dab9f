/** Full-text retrieval metrics: nDCG with graded relevance, recall and reciprocal rank. */
module FtsMetrics {
  import opened Util
  import opened Discount

  datatype GroundTruth = Graded(rels: map<DocId, int>) | Listed(ids: seq<DocId>)

  /** Judged with a grade above 0, or listed. */
  predicate IsRelevant(groundTruth: GroundTruth, x: DocId) {
    if groundTruth.Graded? then x in groundTruth.rels && groundTruth.rels[x] > 0 else x in groundTruth.ids
  }

  /** The judged documents with a positive grade; a plain list grades every document 1. */
  function PositiveQrels(groundTruth: GroundTruth): (q: map<DocId, int>)
    ensures forall x :: x in q ==> q[x] > 0
    ensures forall x :: x in q <==> IsRelevant(groundTruth, x)
    ensures groundTruth.Graded? ==> forall x :: x in q <==> x in groundTruth.rels && groundTruth.rels[x] > 0
    ensures groundTruth.Graded? ==> forall x :: x in q ==> q[x] == groundTruth.rels[x]
    ensures groundTruth.Listed? ==> forall x :: x in q <==> x in groundTruth.ids
    ensures groundTruth.Listed? ==> forall x :: x in q ==> q[x] == 1
  {
    match groundTruth
    case Graded(rels) => map x | x in rels && rels[x] > 0 :: rels[x]
    case Listed(ids) => map x | x in ids :: 1
  }

  ghost predicate Positive(q: map<DocId, int>) {
    forall x :: x in q ==> q[x] > 0
  }

  /** Discounted gain of the first n results; a repeated result counts at its first position only. */
  ghost function Dcg(q: map<DocId, int>, got: seq<DocId>, n: nat, d: nat -> real): real
    requires n <= |got|
  {
    if n == 0 then 0.0
    else Dcg(q, got, n - 1, d) + if Hit(q, got, n - 1) then q[got[n - 1]] as real * d(n - 1) else 0.0
  }

  ghost predicate Hit(q: map<DocId, int>, got: seq<DocId>, p: nat)
    requires p < |got|
  {
    got[p] in q && got[p] !in got[..p]
  }

  ghost function DcgAt(q: map<DocId, int>, got: seq<DocId>, k: nat, d: nat -> real): real {
    Dcg(q, got, Min(k, |got|), d)
  }

  /** v is the largest score at cutoff k that any list of results can reach. */
  ghost predicate IsBestDcg(v: real, q: map<DocId, int>, k: nat, d: nat -> real) {
    && (exists got :: DcgAt(q, got, k, d) == v)
    && (forall got :: DcgAt(q, got, k, d) <= v)
  }

  /** All judged documents, once each, by descending grade. */
  ghost predicate IsRanking(q: map<DocId, int>, order: seq<DocId>) {
    Distinct(order) && Elements(order) == q.Keys && Descending(q, order)
  }

  ghost predicate Descending(q: map<DocId, int>, order: seq<DocId>) {
    && (forall i :: 0 <= i < |order| ==> order[i] in q)
    && (forall i, j :: 0 <= i < j < |order| ==> q[order[i]] >= q[order[j]])
  }

  /** An unjudged document gains nothing. */
  ghost function Gain(q: map<DocId, int>, doc: DocId): int {
    if doc in q then q[doc] else 0
  }

  ghost function Gains(q: map<DocId, int>, docs: seq<DocId>): (g: seq<int>)
    ensures |g| == |docs|
    ensures forall i :: 0 <= i < |docs| ==> g[i] == Gain(q, docs[i])
  {
    seq(|docs|, i requires 0 <= i < |docs| => Gain(q, docs[i]))
  }

  /** The judged documents among the first n results, in the order they first appear. */
  ghost function Relevant(q: map<DocId, int>, got: seq<DocId>, n: nat): (docs: seq<DocId>)
    requires n <= |got|
    ensures |docs| <= n && Distinct(docs) && Elements(docs) == q.Keys * Elements(got[..n])
  {
    if n == 0 then []
    else
      var before := Relevant(q, got, n - 1);
      assert Elements(got[..n]) == Elements(got[..n - 1]) + {got[n - 1]};
      assert got[n - 1] in got[..n - 1] <==> got[n - 1] in Elements(got[..n - 1]);
      if Hit(q, got, n - 1) then
        assert got[n - 1] !in Elements(before);
        ElementsAppend(before, got[n - 1]);
        before + [got[n - 1]]
      else before
  }

  lemma GainsAppend(q: map<DocId, int>, docs: seq<DocId>, x: DocId)
    ensures Gains(q, docs + [x]) == Gains(q, docs) + [Gain(q, x)]
  {}

  /** In terms of the ground truth as given: the first occurrence of a document gains its grade, or 1 for a
      plain list, at the discount of its position; anything else gains nothing. */
  lemma GainIsGrade(groundTruth: GroundTruth, got: seq<DocId>, n: nat, d: nat -> real)
    requires n < |got|
    ensures var q := PositiveQrels(groundTruth);
            Dcg(q, got, n + 1, d) - Dcg(q, got, n, d)
              == if got[n] in got[..n] then 0.0
                 else match groundTruth
                      case Graded(rels) =>
                        if got[n] in rels && rels[got[n]] > 0 then rels[got[n]] as real * d(n) else 0.0
                      case Listed(ids) => if got[n] in ids then d(n) else 0.0
    ensures Dcg(PositiveQrels(groundTruth), got, 0, d) == 0.0
  {}

  lemma DcgOneMore(q: map<DocId, int>, got: seq<DocId>, n: nat, d: nat -> real)
    requires n < |got|
    ensures Relevant(q, got, n + 1) == Relevant(q, got, n) + if Hit(q, got, n) then [got[n]] else []
    ensures Dcg(q, got, n + 1, d) == Dcg(q, got, n, d) + if Hit(q, got, n) then q[got[n]] as real * d(n) else 0.0
  {}

  lemma ShiftUpTurn(q: map<DocId, int>, docs: seq<DocId>, doc: DocId, g: seq<int>, h: seq<int>, n: nat,
                    before: real, after: real, d: nat -> real)
    requires IsDiscount(d) && Positive(q) && doc in q && |docs| <= n
    requires g == Gains(q, docs) && h == Gains(q, docs + [doc])
    requires before <= Weighted(g, |g|, d) && after == before + q[doc] as real * d(n)
    ensures after <= Weighted(h, |h|, d)
  {
    GainsAppend(q, docs, doc);
    MoveUp(g, h, q[doc], n, before, after, d);
  }

  /** The score of the relevant documents moved up to the first positions. */
  ghost function Compacted(q: map<DocId, int>, docs: seq<DocId>, d: nat -> real): real {
    Weighted(Gains(q, docs), |docs|, d)
  }

  lemma HitMovesUp(q: map<DocId, int>, got: seq<DocId>, n: nat, d: nat -> real, docs: seq<DocId>,
                   before: real, after: real)
    requires n < |got| && Hit(q, got, n) && Positive(q) && IsDiscount(d) && |docs| <= n
    requires before <= Compacted(q, docs, d) && after == before + q[got[n]] as real * d(n)
    ensures after <= Compacted(q, docs + [got[n]], d)
  {
    ShiftUpTurn(q, docs, got[n], Gains(q, docs), Gains(q, docs + [got[n]]), n, before, after, d);
  }

  lemma ShiftUpStep(q: map<DocId, int>, got: seq<DocId>, n: nat, d: nat -> real)
    requires n < |got| && Positive(q) && IsDiscount(d)
    requires Dcg(q, got, n, d) <= Compacted(q, Relevant(q, got, n), d)
    ensures Dcg(q, got, n + 1, d) <= Compacted(q, Relevant(q, got, n + 1), d)
  {
    DcgOneMore(q, got, n, d);
    var docs, before, after := Relevant(q, got, n), Dcg(q, got, n, d), Dcg(q, got, n + 1, d);
    if Hit(q, got, n) {
      HitMovesUp(q, got, n, d, docs, before, after);
    }
  }

  /** Moving every relevant document up to the next free position never lowers the score. */
  lemma {:induction false} ShiftUp(q: map<DocId, int>, got: seq<DocId>, n: nat, d: nat -> real)
    requires n <= |got| && Positive(q) && IsDiscount(d)
    ensures Dcg(q, got, n, d) <= Compacted(q, Relevant(q, got, n), d)
  {
    if n > 0 {
      ShiftUp(q, got, n - 1, d);
      ShiftUpStep(q, got, n - 1, d);
    }
  }

  /** Some member of m distinct documents is graded no higher than the m-th ranked one. */
  lemma SomeLowMember(q: map<DocId, int>, docs: seq<DocId>, order: seq<DocId>) returns (j: nat)
    requires IsRanking(q, order) && Distinct(docs) && Elements(docs) <= q.Keys
    requires 0 < |docs| <= |order|
    ensures j < |docs| && docs[j] in q && order[|docs| - 1] in Elements(order)
    ensures q[docs[j]] <= q[order[|docs| - 1]]
  {
    var m := |docs|;
    assert order[m - 1] in Elements(order);
    if forall i :: 0 <= i < m ==> docs[i] in Elements(docs) && q[docs[i]] > q[order[m - 1]] {
      forall x | x in Elements(docs) ensures x in Elements(order[..m - 1]) {
        assert x in Elements(order);
        var p :| 0 <= p < |order| && order[p] == x;
        assert p < m - 1;
        assert order[..m - 1][p] == x;
      }
      ElementsSize(docs);
      ElementsSize(order[..m - 1]);
      SubsetOfSameSize(Elements(docs), Elements(order[..m - 1]));
      assert false;
    }
    j :| 0 <= j < m && !(docs[j] in Elements(docs) && q[docs[j]] > q[order[m - 1]]);
    assert docs[j] in Elements(docs);
  }

  lemma {:induction false} PrefixSumRemove(gains: seq<int>, j: nat)
    requires j < |gains|
    ensures PrefixSum(gains, |gains|) == PrefixSum(gains[..j] + gains[j + 1..], |gains| - 1) + gains[j]
  {
    var last := |gains| - 1;
    if j == last {
      assert gains[..j] + gains[j + 1..] == gains[..j];
      WeightedOfPrefix(gains, gains[..j], j, p => 1.0);
    } else {
      var front := gains[..last];
      PrefixSumRemove(front, j);
      WeightedOfPrefix(gains, front, last, p => 1.0);
      var rest := gains[..j] + gains[j + 1..];
      assert rest[last - 1] == gains[last];
      WeightedOfPrefix(rest, front[..j] + front[j + 1..], last - 1, p => 1.0);
    }
  }

  lemma RemoveMember(q: map<DocId, int>, docs: seq<DocId>, j: nat) returns (rest: seq<DocId>)
    requires j < |docs| && Distinct(docs) && Elements(docs) <= q.Keys && docs[j] in q
    ensures |rest| == |docs| - 1 && Distinct(rest) && Elements(rest) <= q.Keys
    ensures PrefixSum(Gains(q, docs), |docs|) == PrefixSum(Gains(q, rest), |rest|) + q[docs[j]]
  {
    rest := docs[..j] + docs[j + 1..];
    RestMembers(docs, j);
    PrefixSumRemove(Gains(q, docs), j);
    GainsRemove(q, docs, rest, j);
  }

  lemma RestMembers(docs: seq<DocId>, j: nat)
    requires j < |docs| && Distinct(docs)
    ensures Distinct(docs[..j] + docs[j + 1..]) && Elements(docs[..j] + docs[j + 1..]) <= Elements(docs)
  {
    var rest := docs[..j] + docs[j + 1..];
    assert forall i :: 0 <= i < |rest| ==> rest[i] == docs[if i < j then i else i + 1];
  }

  lemma GainsRemove(q: map<DocId, int>, docs: seq<DocId>, rest: seq<DocId>, j: nat)
    requires j < |docs| && rest == docs[..j] + docs[j + 1..]
    ensures Gains(q, rest) == Gains(q, docs)[..j] + Gains(q, docs)[j + 1..]
  {}

  /** No m distinct judged documents gain more than the m highest ranked ones. */
  lemma {:induction false} TopGainsLargest(q: map<DocId, int>, docs: seq<DocId>, order: seq<DocId>)
    requires IsRanking(q, order) && Distinct(docs) && Elements(docs) <= q.Keys
    ensures |docs| <= |order|
    ensures PrefixSum(Gains(q, docs), |docs|) <= PrefixSum(Gains(q, order), |docs|)
    decreases |docs|
  {
    ElementsSize(docs);
    ElementsSize(order);
    SubsetOfSameSize(Elements(docs), Elements(order));
    if |docs| > 0 {
      var j := SomeLowMember(q, docs, order);
      var rest := RemoveMember(q, docs, j);
      TopGainsLargest(q, rest, order);
    }
  }

  /** The rearrangement inequality behind nDCG <= 1. */
  lemma DcgAtMostIdeal(q: map<DocId, int>, got: seq<DocId>, k: nat, order: seq<DocId>, d: nat -> real)
    requires Positive(q) && IsRanking(q, order) && IsDiscount(d)
    ensures DcgAt(q, got, k, d) <= Weighted(Gains(q, order), Min(k, |order|), d)
  {
    var n := Min(k, |got|);
    var docs := Relevant(q, got, n);
    ShiftUp(q, got, n, d);
    TopGainsLargest(q, docs, order);
    var a, b := Gains(q, docs), Gains(q, order);
    forall m: nat | m <= |docs| ensures PrefixSum(a, m) <= PrefixSum(b, m) {
      assert forall x :: x in docs[..m] ==> x in docs;
      assert Elements(docs[..m]) <= Elements(docs);
      TopGainsLargest(q, docs[..m], order);
      WeightedOfPrefix(a, Gains(q, docs[..m]), m, d);
    }
    Dominated(a, b, |docs|, d);
    assert forall i :: 0 <= i < |order| ==> order[i] in Elements(order);
    WeightedGrows(b, |docs|, Min(k, |order|), d);
  }

  lemma {:induction false} RankingScore(q: map<DocId, int>, order: seq<DocId>, n: nat, d: nat -> real)
    requires Distinct(order) && Elements(order) <= q.Keys && n <= |order|
    ensures Dcg(q, order, n, d) == Weighted(Gains(q, order), n, d)
  {
    if n > 0 {
      RankingScore(q, order, n - 1, d);
      assert order[n - 1] in Elements(order);
      assert order[n - 1] !in order[..n - 1];
    }
  }

  /** The ideal the source divides by is the best score any result list can reach. */
  lemma IdealIsBest(q: map<DocId, int>, k: nat, order: seq<DocId>, d: nat -> real)
    requires Positive(q) && IsRanking(q, order) && IsDiscount(d)
    ensures IsBestDcg(Weighted(Gains(q, order), Min(k, |order|), d), q, k, d)
  {
    RankingScore(q, order, Min(k, |order|), d);
    assert DcgAt(q, order, k, d) == Weighted(Gains(q, order), Min(k, |order|), d);
    forall got ensures DcgAt(q, got, k, d) <= Weighted(Gains(q, order), Min(k, |order|), d) {
      DcgAtMostIdeal(q, got, k, order, d);
    }
  }

  lemma {:induction false} DcgSign(q: map<DocId, int>, got: seq<DocId>, n: nat, d: nat -> real)
    requires n <= |got| && Positive(q) && IsDiscount(d)
    ensures Dcg(q, got, n, d) >= 0.0
    ensures Dcg(q, got, n, d) > 0.0 <==> exists i :: 0 <= i < n && got[i] in q
  {
    if n > 0 {
      DcgSign(q, got, n - 1, d);
      if Hit(q, got, n - 1) {
        ProductPositive(q[got[n - 1]] as real, d(n - 1));
      } else if got[n - 1] in q {
        var j :| 0 <= j < n - 1 && got[..n - 1][j] == got[n - 1];
        assert got[j] in q;
      }
    }
  }

  lemma InsertDescending(q: map<DocId, int>, order: seq<DocId>, p: nat, x: DocId)
    requires Descending(q, order) && x in q && p <= |order|
    requires forall i :: 0 <= i < p ==> q[order[i]] >= q[x]
    requires p < |order| ==> q[x] >= q[order[p]]
    ensures Descending(q, order[..p] + [x] + order[p..])
  {}

  lemma InsertElements(order: seq<DocId>, p: nat, x: DocId)
    requires p <= |order|
    ensures Elements(order[..p] + [x] + order[p..]) == Elements(order) + {x}
    ensures Distinct(order) && x !in order ==> Distinct(order[..p] + [x] + order[p..])
  {
    assert order == order[..p] + order[p..];
    ElementsConcat(order[..p], order[p..]);
    ElementsAppend(order[..p], x);
    ElementsConcat(order[..p] + [x], order[p..]);
  }

  /** sorted(gt.values(), reverse=True), keeping the documents beside their grades. */
  method SortByRelevance(q: map<DocId, int>) returns (order: seq<DocId>)
    ensures IsRanking(q, order)
  {
    order := [];
    var rest := q.Keys;
    while rest != {}
      invariant rest <= q.Keys && Elements(order) == q.Keys - rest
      invariant Distinct(order) && Descending(q, order)
    {
      var x :| x in rest;
      var p := 0;
      while p < |order| && q[order[p]] >= q[x]
        invariant p <= |order|
        invariant forall i :: 0 <= i < p ==> q[order[i]] >= q[x]
      {
        p := p + 1;
      }
      assert x !in Elements(order);
      InsertDescending(q, order, p, x);
      InsertElements(order, p, x);
      order := order[..p] + [x] + order[p..];
      rest := rest - {x};
    }
  }

  /** The loop over the results, with its set of ids seen so far. */
  method AccumulateDcg(q: map<DocId, int>, got: seq<DocId>, n: nat, d: nat -> real) returns (dcg: real)
    requires n <= |got|
    ensures dcg == Dcg(q, got, n, d)
  {
    var seen, i := {}, 0;
    dcg := 0.0;
    while i < n
      invariant 0 <= i <= n
      invariant seen == Elements(got[..i])
      invariant dcg == Dcg(q, got, i, d)
    {
      assert got[..i + 1] == got[..i] + [got[i]];
      ElementsAppend(got[..i], got[i]);
      assert got[i] in seen <==> got[i] in got[..i];
      DcgOneMore(q, got, i, d);
      if got[i] !in seen {
        seen := seen + {got[i]};
        if got[i] in q {
          dcg := dcg + q[got[i]] as real * d(i);
        }
      }
      i := i + 1;
    }
  }

  lemma IdealOfRanking(q: map<DocId, int>, k: nat, order: seq<DocId>, d: nat -> real)
    requires Positive(q) && IsRanking(q, order) && IsDiscount(d)
    ensures IsBestDcg(Weighted(Gains(q, order), Min(k, |order|), d), q, k, d)
    ensures q != map[] && k > 0 ==> Weighted(Gains(q, order), Min(k, |order|), d) > 0.0
  {
    if q != map[] && k > 0 {
      var x :| x in q.Keys;
      assert x in Elements(order);
      assert forall i :: 0 <= i < |order| ==> order[i] in Elements(order);
      WeightedGrows(Gains(q, order), 0, Min(k, |order|), d);
    }
    IdealIsBest(q, k, order, d);
  }

  /** The loop over the sorted grades. */
  method AccumulateIdeal(q: map<DocId, int>, k: nat, d: nat -> real) returns (ideal: real)
    requires Positive(q) && IsDiscount(d)
    ensures IsBestDcg(ideal, q, k, d)
    ensures q != map[] && k > 0 ==> ideal > 0.0
  {
    var order := SortByRelevance(q);
    IdealOfRanking(q, k, order, d);
    ideal := WeighRanking(q, order, Min(k, |order|), d);
  }

  method WeighRanking(q: map<DocId, int>, order: seq<DocId>, n: nat, d: nat -> real) returns (ideal: real)
    requires Elements(order) <= q.Keys && n <= |order|
    ensures ideal == Weighted(Gains(q, order), n, d)
  {
    var i := 0;
    ideal := 0.0;
    while i < n
      invariant 0 <= i <= n
      invariant ideal == Weighted(Gains(q, order), i, d)
    {
      assert order[i] in Elements(order);
      ideal := ideal + q[order[i]] as real * d(i);
      i := i + 1;
    }
  }

  method CalcNdcg(k: int, groundTruth: GroundTruth, got: seq<DocId>, d: nat -> real) returns (r: real)
    requires IsDiscount(d)
    ensures var q := PositiveQrels(groundTruth);
            if q == map[] || k <= 0 then r == 0.0
            else exists best :: best > 0.0 && IsBestDcg(best, q, k, d) && r == DcgAt(q, got, k, d) / best
    ensures 0.0 <= r <= 1.0
    ensures groundTruth.Graded? ==>
              (r > 0.0 <==>
                 exists i :: 0 <= i < Min(k, |got|) && got[i] in groundTruth.rels && groundTruth.rels[got[i]] > 0)
    ensures groundTruth.Listed? ==>
              (r > 0.0 <==> exists i :: 0 <= i < Min(k, |got|) && got[i] in groundTruth.ids)
  {
    var q := PositiveQrels(groundTruth);
    if q == map[] || k <= 0 {
      return 0.0;
    }
    var dcg := AccumulateDcg(q, got, Min(k, |got|), d);
    var ideal := AccumulateIdeal(q, k, d);
    assert DcgAt(q, got, k, d) <= ideal;
    DcgSign(q, got, Min(k, |got|), d);
    UnitQuotient(dcg, ideal);
    r := dcg / ideal;
  }

  function CalcRecall(k: int, groundTruth: GroundTruth, got: seq<DocId>): real {
    var q := PositiveQrels(groundTruth);
    if q == map[] || k <= 0 then 0.0
    else
      assert |q| != 0;
      |q.Keys * Elements(Take(got, k))| as real / |q| as real
  }

  ghost predicate IsFirstRelevant(groundTruth: GroundTruth, got: seq<DocId>, i: nat)
    requires i < |got|
  {
    && got[i] in PositiveQrels(groundTruth)
    && (forall j :: 0 <= j < i ==> got[j] !in PositiveQrels(groundTruth))
  }

  method CalcMrr(k: int, groundTruth: GroundTruth, got: seq<DocId>) returns (r: real)
    ensures r == 0.0
            || exists i: nat :: i < Min(k, |got|) && IsFirstRelevant(groundTruth, got, i) && r == 1.0 / (i + 1) as real
    ensures groundTruth.Graded? ==>
              (r > 0.0 <==>
                 exists i :: 0 <= i < Min(k, |got|) && got[i] in groundTruth.rels && groundTruth.rels[got[i]] > 0)
    ensures groundTruth.Listed? ==>
              (r > 0.0 <==> exists i :: 0 <= i < Min(k, |got|) && got[i] in groundTruth.ids)
  {
    var q := PositiveQrels(groundTruth);
    if q == map[] || k <= 0 {
      return 0.0;
    }
    var i := 0;
    while i < Min(k, |got|)
      invariant 0 <= i <= Min(k, |got|)
      invariant forall j :: 0 <= j < i ==> got[j] !in q
    {
      if got[i] in q {
        assert IsFirstRelevant(groundTruth, got, i);
        return 1.0 / (i + 1) as real;
      }
      i := i + 1;
    }
    return 0.0;
  }

  /** Recall is a proportion, and it vanishes exactly when nDCG and the reciprocal rank do:
      their contracts test the same condition, a judged document among the first k results. */
  lemma RecallZeroWhenOthersAre(k: int, groundTruth: GroundTruth, got: seq<DocId>)
    ensures 0.0 <= CalcRecall(k, groundTruth, got) <= 1.0
    ensures groundTruth.Graded? ==>
              (CalcRecall(k, groundTruth, got) > 0.0 <==>
                 exists i :: 0 <= i < Min(k, |got|) && got[i] in groundTruth.rels && groundTruth.rels[got[i]] > 0)
    ensures groundTruth.Listed? ==>
              (CalcRecall(k, groundTruth, got) > 0.0 <==>
                 exists i :: 0 <= i < Min(k, |got|) && got[i] in groundTruth.ids)
  {
    var q := PositiveQrels(groundTruth);
    if q != map[] && k > 0 {
      var found := q.Keys * Elements(Take(got, k));
      SubsetOfSameSize(found, q.Keys);
      assert |q| == |q.Keys|;
      UnitQuotient(|found| as real, |q| as real);
      if found != {} {
        var x :| x in found;
        assert x in Take(got, k);
        var i :| 0 <= i < |Take(got, k)| && Take(got, k)[i] == x;
        assert got[i] in q;
      }
      if i :| 0 <= i < Min(k, |got|) && got[i] in q {
        assert Take(got, k)[i] == got[i];
        assert got[i] in found;
      }
    }
  }

  /** Recall times the number of judged documents is how many of them are among the first k results, so it is
      1 exactly when all of them are. */
  lemma RecallCounts(k: int, groundTruth: GroundTruth, got: seq<DocId>)
    requires k > 0 && PositiveQrels(groundTruth) != map[]
    ensures var q := PositiveQrels(groundTruth);
            var found := set x | x in q && x in got[..Min(k, |got|)];
            && CalcRecall(k, groundTruth, got) * |q| as real == |found| as real
            && (CalcRecall(k, groundTruth, got) == 1.0 <==> forall x :: x in q ==> x in got[..Min(k, |got|)])
  {
    var q := PositiveQrels(groundTruth);
    var found := set x | x in q && x in got[..Min(k, |got|)];
    assert found == q.Keys * Elements(Take(got, k));
    SubsetOfSameSize(found, q.Keys);
    UnitQuotient(|found| as real, |q| as real);
    if forall x :: x in q ==> x in got[..Min(k, |got|)] {
      assert found == q.Keys;
    }
  }
}
