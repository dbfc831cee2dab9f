/** Vector search metrics: one first-occurrence rank table serves nDCG, recall and every cutoff. */
module VectorMetrics {
  import opened Util
  import opened Discount

  /** The reference definition: distinct correct results among the first count, over count. */
  function CalcRecall(count: int, groundTruth: seq<int>, got: seq<int>): (r: real)
    ensures 0.0 <= r && (count <= 0 ==> r == 0.0)
  {
    if count <= 0 then 0.0 else ShareFound(count, groundTruth, Elements(Take(got, count)))
  }

  function ShareFound(count: int, groundTruth: seq<int>, found: set<int>): (r: real)
    requires count > 0
    ensures 0.0 <= r
  {
    |found * Elements(groundTruth)| as real / count as real
  }

  /** Recall times count is the number of neighbours among the first count results. */
  lemma RecallCounts(count: int, groundTruth: seq<int>, got: seq<int>, hits: set<int>)
    requires count > 0
    requires forall x :: x in hits <==> x in got[..Min(count, |got|)] && x in groundTruth
    ensures CalcRecall(count, groundTruth, got) * count as real == |hits| as real
  {
    var found := Elements(Take(got, count));
    TakeIs(got, count);
    forall x ensures x in found * Elements(groundTruth) <==> x in hits {
      assert x in found <==> x in got[..Min(count, |got|)];
    }
    assert found * Elements(groundTruth) == hits;
    ShareTimes(count, groundTruth, found);
  }

  lemma ShareTimes(count: int, groundTruth: seq<int>, found: set<int>)
    requires count > 0
    ensures ShareFound(count, groundTruth, found) * count as real == |found * Elements(groundTruth)| as real
  {
    TimesQuotient(|found * Elements(groundTruth)| as real, count as real);
  }

  lemma TimesQuotient(x: real, y: real)
    requires y > 0.0
    ensures x / y * y == x
  {}

  /** The table maps each neighbour to the first position it has in the ground truth. */
  ghost predicate IsRankTable(groundTruth: seq<int>, ranks: map<int, nat>) {
    && ranks.Keys == Elements(groundTruth)
    && (forall x :: x in ranks ==>
          ranks[x] < |groundTruth| && groundTruth[ranks[x]] == x && x !in groundTruth[..ranks[x]])
  }

  method BuildGroundTruthRanks(groundTruth: seq<int>) returns (ranks: map<int, nat>)
    ensures IsRankTable(groundTruth, ranks)
  {
    ranks := map[];
    var rank := 0;
    while rank < |groundTruth|
      invariant 0 <= rank <= |groundTruth|
      invariant IsRankTable(groundTruth[..rank], ranks)
    {
      var neighbor := groundTruth[rank];
      assert groundTruth[..rank + 1] == groundTruth[..rank] + [neighbor];
      ElementsAppend(groundTruth[..rank], neighbor);
      assert forall r :: 0 <= r <= rank ==> groundTruth[..rank][..r] == groundTruth[..rank + 1][..r];
      if neighbor !in ranks {
        assert neighbor !in Elements(groundTruth[..rank]);
        ranks := ranks[neighbor := rank];
      }
      rank := rank + 1;
    }
    assert groundTruth[..rank] == groundTruth;
  }

  /** Discounts of the ground-truth positions below n that were found; a repeated neighbour is
      found at its first position only. */
  ghost function FoundDcg(groundTruth: seq<int>, found: set<int>, n: nat, d: nat -> real): real
    requires n <= |groundTruth|
  {
    if n == 0 then 0.0
    else FoundDcg(groundTruth, found, n - 1, d)
         + if FoundAt(groundTruth, found, n - 1) then d(n - 1) else 0.0
  }

  ghost predicate FoundAt(groundTruth: seq<int>, found: set<int>, p: nat)
    requires p < |groundTruth|
  {
    groundTruth[p] in found && groundTruth[p] !in groundTruth[..p]
  }

  /** One more result adds the discount of its rank, if it has one. */
  lemma {:induction false} FoundOneMore(groundTruth: seq<int>, found: set<int>, x: int, n: nat, d: nat -> real)
    requires n <= |groundTruth| && x !in found
    ensures x !in groundTruth[..n] ==> FoundDcg(groundTruth, found + {x}, n, d) == FoundDcg(groundTruth, found, n, d)
    ensures forall r: nat :: r < n && groundTruth[r] == x && x !in groundTruth[..r] ==>
              FoundDcg(groundTruth, found + {x}, n, d) == FoundDcg(groundTruth, found, n, d) + d(r)
  {
    if n > 0 {
      FoundOneMore(groundTruth, found, x, n - 1, d);
      assert groundTruth[n - 1] in groundTruth[..n];
      assert x in groundTruth[..n - 1] ==> x in groundTruth[..n];
      forall r: nat | r < n && groundTruth[r] == x && x !in groundTruth[..r]
        ensures FoundDcg(groundTruth, found + {x}, n, d) == FoundDcg(groundTruth, found, n, d) + d(r)
      {
        if r < n - 1 {
          assert groundTruth[..n - 1][r] == x;
        }
      }
    }
  }

  /** The loop over set(got), in whatever order the set yields its members. */
  method AccumulateDcg(ghost groundTruth: seq<int>, ranks: map<int, nat>, got: set<int>, d: nat -> real)
    returns (dcg: real)
    requires IsRankTable(groundTruth, ranks)
    ensures dcg == FoundDcg(groundTruth, got, |groundTruth|, d)
  {
    dcg := 0.0;
    var rest, done := got, {};
    FoundNothing(groundTruth, |groundTruth|, d);
    while rest != {}
      invariant rest !! done && rest + done == got
      invariant dcg == FoundDcg(groundTruth, done, |groundTruth|, d)
    {
      if forall y :: y !in rest {
        assert false;
      }
      var x :| x in rest;
      FoundOneMore(groundTruth, done, x, |groundTruth|, d);
      assert groundTruth[..|groundTruth|] == groundTruth;
      assert x in groundTruth <==> x in Elements(groundTruth);
      if x in ranks {
        dcg := dcg + d(ranks[x]);
      }
      rest, done := rest - {x}, done + {x};
    }
    assert done == got;
  }

  /** A gain over the best possible one. */
  function Score(dcg: real, ideal: real): real {
    if ideal <= 0.0 then 0.0 else dcg / ideal
  }

  lemma ScoreTimes(dcg: real, ideal: real)
    requires ideal > 0.0
    ensures Score(dcg, ideal) * ideal == dcg
  {
    TimesQuotient(dcg, ideal);
  }

  method CalcNdcgFromRanks(ghost groundTruth: seq<int>, ranks: map<int, nat>, got: set<int>, ideal: real,
                           d: nat -> real)
    returns (r: real)
    requires IsRankTable(groundTruth, ranks)
    ensures r == Score(FoundDcg(groundTruth, got, |groundTruth|, d), ideal)
  {
    if ideal <= 0.0 {
      return 0.0;
    }
    var dcg := AccumulateDcg(groundTruth, ranks, got, d);
    r := dcg / ideal;
  }

  lemma {:induction false} FoundNothing(groundTruth: seq<int>, n: nat, d: nat -> real)
    requires n <= |groundTruth|
    ensures FoundDcg(groundTruth, {}, n, d) == 0.0
  {
    if n > 0 {
      FoundNothing(groundTruth, n - 1, d);
    }
  }

  /** Found neighbours below position n, the score they reach and the best score at n. */
  lemma {:induction false} FoundBounds(groundTruth: seq<int>, found: set<int>, n: nat, d: nat -> real)
    requires n <= |groundTruth| && IsDiscount(d)
    ensures var hits := found * Elements(groundTruth[..n]);
            && |hits| <= n && 0.0 <= FoundDcg(groundTruth, found, n, d) <= IdealDcg(n, d)
            && (FoundDcg(groundTruth, found, n, d) == IdealDcg(n, d) <==> |hits| == n)
            && (FoundDcg(groundTruth, found, n, d) == 0.0 <==> |hits| == 0)
  {
    if n == 0 {
      assert found * Elements(groundTruth[..0]) == {};
    } else {
      FoundBounds(groundTruth, found, n - 1, d);
      HitsOneMore(groundTruth, found, n);
    }
  }

  lemma HitsOneMore(groundTruth: seq<int>, found: set<int>, n: nat)
    requires 0 < n <= |groundTruth|
    ensures |found * Elements(groundTruth[..n])|
         == |found * Elements(groundTruth[..n - 1])| + if FoundAt(groundTruth, found, n - 1) then 1 else 0
  {
    var x := groundTruth[n - 1];
    assert groundTruth[..n] == groundTruth[..n - 1] + [x];
    ElementsAppend(groundTruth[..n - 1], x);
    var before, hits := found * Elements(groundTruth[..n - 1]), found * Elements(groundTruth[..n]);
    assert x in Elements(groundTruth[..n - 1]) <==> x in groundTruth[..n - 1];
    assert hits == if FoundAt(groundTruth, found, n - 1) then before + {x} else before;
  }

  /** A shorter ground truth cannot reach a longer ideal. */
  lemma {:induction false} IdealGrows(m: nat, n: nat, d: nat -> real)
    requires m <= n && IsDiscount(d)
    ensures IdealDcg(m, d) <= IdealDcg(n, d)
    ensures m < n ==> IdealDcg(m, d) < IdealDcg(n, d)
  {
    if m < n {
      IdealGrows(m, n - 1, d);
    }
  }

  /** A cutoff read off the shared table is the recall computed from scratch at that cutoff. */
  lemma CutoffFromTable(groundTruth: seq<int>, got: seq<int>, ranks: map<int, nat>, count: nat, cutoff: nat)
    requires 0 < cutoff <= count && IsRankTable(Take(groundTruth, count), ranks)
    ensures (set x | x in Take(got, cutoff) && x in ranks && ranks[x] < cutoff)
         == Elements(Take(got, cutoff)) * Elements(Take(groundTruth, cutoff))
  {
    var wide, narrow := Take(groundTruth, count), Take(groundTruth, cutoff);
    assert narrow == Take(wide, cutoff);
    forall x ensures x in narrow <==> x in ranks && ranks[x] < cutoff {
      if x in narrow {
        var p :| 0 <= p < |narrow| && narrow[p] == x;
        assert wide[p] == x;
        assert x in Elements(wide);
        assert forall j :: 0 <= j < ranks[x] ==> wide[..ranks[x]][j] == wide[j];
        assert ranks[x] <= p;
      }
      if x in ranks && ranks[x] < cutoff {
        assert narrow[ranks[x]] == x;
      }
    }
  }

  method CalcVectorMetrics(count: int, groundTruth: seq<int>, got: seq<int>, cutoffs: seq<int>, d: nat -> real)
    returns (recall: real, ndcg: real, recallAt: map<int, real>)
    requires IsDiscount(d)
    ensures count <= 0 ==> recall == 0.0 && ndcg == 0.0 && recallAt == map[]
    ensures count > 0 ==> recall == CalcRecall(count, Take(groundTruth, count), got)
    ensures count > 0 ==> recallAt.Keys == set c | c in cutoffs && 0 < c <= count
    ensures forall c :: c in recallAt ==> 0 < c && recallAt[c] == CalcRecall(c, Take(groundTruth, c), got)
    ensures count in recallAt ==> recallAt[count] == recall
    ensures 0.0 <= ndcg <= 1.0 && 0.0 <= recall <= 1.0
    ensures ndcg == 0.0 <==> recall == 0.0
    ensures ndcg == 1.0 <==> recall == 1.0
    ensures count > 0 ==> var truth := Take(groundTruth, count);
              ndcg == Score(FoundDcg(truth, Elements(Take(got, count)), |truth|, d), IdealDcg(count, d))
  {
    if count <= 0 {
      return 0.0, 0.0, map[];
    }
    var ranks := BuildGroundTruthRanks(Take(groundTruth, count));
    recall, ndcg := RecallAndNdcg(count, Take(groundTruth, count), ranks, Elements(Take(got, count)), d);
    recallAt := RecallAtCutoffs(count, groundTruth, got, ranks, cutoffs);
  }

  method RecallAndNdcg(count: nat, ghost truth: seq<int>, ranks: map<int, nat>, unique: set<int>, d: nat -> real)
    returns (recall: real, ndcg: real)
    requires 0 < count && |truth| <= count && IsDiscount(d) && IsRankTable(truth, ranks)
    ensures recall == ShareFound(count, truth, unique)
    ensures 0.0 <= recall <= 1.0 && 0.0 <= ndcg <= 1.0
    ensures (ndcg == 0.0 <==> recall == 0.0) && (ndcg == 1.0 <==> recall == 1.0)
    ensures ndcg == Score(FoundDcg(truth, unique, |truth|, d), IdealDcg(count, d))
  {
    var ideal := IdealDcg(count, d);
    recall := |unique * ranks.Keys| as real / count as real;
    ndcg := CalcNdcgFromRanks(truth, ranks, unique, ideal, d);
    MetricBounds(count, truth, unique, d, FoundDcg(truth, unique, |truth|, d), ideal, recall, ndcg);
  }

  /** The loop over the cutoffs; a cutoff out of range is skipped. */
  method RecallAtCutoffs(count: int, groundTruth: seq<int>, got: seq<int>, ranks: map<int, nat>, cutoffs: seq<int>)
    returns (recallAt: map<int, real>)
    requires 0 < count && IsRankTable(Take(groundTruth, count), ranks)
    ensures recallAt.Keys == set c | c in cutoffs && 0 < c <= count
    ensures forall c :: c in recallAt ==> recallAt[c] == CalcRecall(c, Take(groundTruth, c), got)
  {
    recallAt := map[];
    var i := 0;
    while i < |cutoffs|
      invariant 0 <= i <= |cutoffs|
      invariant recallAt.Keys == set c | c in cutoffs[..i] && 0 < c <= count
      invariant forall c :: c in recallAt ==> recallAt[c] == CalcRecall(c, Take(groundTruth, c), got)
    {
      var cutoff := cutoffs[i];
      assert forall c :: c in cutoffs[..i + 1] <==> c in cutoffs[..i] || c == cutoff;
      if 0 < cutoff <= count {
        CutoffFromTable(groundTruth, got, ranks, count, cutoff);
        var hits := set x | x in Take(got, cutoff) && x in ranks && ranks[x] < cutoff;
        recallAt := recallAt[cutoff := |hits| as real / cutoff as real];
      }
      i := i + 1;
    }
    assert cutoffs[..i] == cutoffs;
  }

  lemma MetricBounds(count: nat, truth: seq<int>, found: set<int>, d: nat -> real, dcg: real, ideal: real,
                     recall: real, ndcg: real)
    requires 0 < count && |truth| <= count && IsDiscount(d)
    requires dcg == FoundDcg(truth, found, |truth|, d) && ideal == IdealDcg(count, d)
    requires recall == ShareFound(count, truth, found) && ndcg == Score(dcg, ideal)
    ensures 0.0 <= recall <= 1.0 && 0.0 <= ndcg <= 1.0
    ensures (ndcg == 0.0 <==> recall == 0.0) && (ndcg == 1.0 <==> recall == 1.0)
  {
    GainBounds(count, truth, found, d);
    Proportions(|found * Elements(truth)|, count, dcg, ideal, recall, ndcg);
  }

  lemma GainBounds(count: nat, truth: seq<int>, found: set<int>, d: nat -> real)
    requires 0 < count && |truth| <= count && IsDiscount(d)
    ensures var hits, dcg := |found * Elements(truth)|, FoundDcg(truth, found, |truth|, d);
            && IdealDcg(count, d) > 0.0 && hits <= count && 0.0 <= dcg <= IdealDcg(count, d)
            && (dcg == IdealDcg(count, d) <==> hits == count) && (dcg == 0.0 <==> hits == 0)
  {
    assert truth[..|truth|] == truth;
    FoundBounds(truth, found, |truth|, d);
    IdealGrows(|truth|, count, d);
    IdealDcgPositive(count, d);
  }

  lemma Proportions(hits: nat, count: nat, dcg: real, ideal: real, recall: real, ndcg: real)
    requires hits <= count && 0 < count && 0.0 <= dcg <= ideal && 0.0 < ideal
    requires (dcg == ideal <==> hits == count) && (dcg == 0.0 <==> hits == 0)
    requires recall == hits as real / count as real && ndcg == dcg / ideal
    ensures 0.0 <= recall <= 1.0 && 0.0 <= ndcg <= 1.0
    ensures (ndcg == 0.0 <==> recall == 0.0) && (ndcg == 1.0 <==> recall == 1.0)
  {
    UnitQuotient(dcg, ideal);
    UnitQuotient(hits as real, count as real);
  }
}
