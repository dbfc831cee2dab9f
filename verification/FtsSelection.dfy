/** Capping a corpus to a fixed size while keeping every judged document: which documents a
    one-pass selection keeps, stated for each corpus position on its own. */
module FtsSelection {
  import opened Util

  datatype Document = Document(id: DocId, text: string)

  function Ids(docs: seq<Document>): set<DocId> {
    if docs == [] then {} else Ids(docs[..|docs| - 1]) + {docs[|docs| - 1].id}
  }

  lemma {:induction false} IdOf(docs: seq<Document>, id: DocId)
    ensures id in Ids(docs) <==> exists i :: 0 <= i < |docs| && docs[i].id == id
  {
    if docs != [] {
      var front := docs[..|docs| - 1];
      IdOf(front, id);
      if i :| 0 <= i < |front| && front[i].id == id {
        assert docs[i].id == id;
      }
      if i :| 0 <= i < |docs| - 1 && docs[i].id == id {
        assert front[i].id == id;
      }
    }
  }

  /** The distinct unjudged ids among the given documents. */
  function Others(docs: seq<Document>, required: set<DocId>): set<DocId> {
    Ids(docs) - required
  }

  /** Position i is kept when its id is new and is either judged or still within the first
      limit distinct unjudged ids. */
  ghost predicate Keeps(corpus: seq<Document>, required: set<DocId>, limit: nat, i: nat)
    requires i < |corpus|
  {
    && corpus[i].id !in Ids(corpus[..i])
    && (corpus[i].id in required || |Others(corpus[..i], required)| < limit)
  }

  ghost function Keeper(corpus: seq<Document>, required: set<DocId>, limit: nat): nat -> bool {
    (i: nat) => i < |corpus| && Keeps(corpus, required, limit, i)
  }

  /** The kept documents among the first n, in corpus order. */
  ghost function Chosen(corpus: seq<Document>, required: set<DocId>, limit: nat, n: nat): seq<Document>
    requires n <= |corpus|
  {
    Kept(corpus, n, Keeper(corpus, required, limit))
  }

  /** The first limit distinct unjudged ids among the first n documents. */
  ghost function Fillers(corpus: seq<Document>, required: set<DocId>, limit: nat, n: nat): set<DocId>
    requires n <= |corpus|
  {
    if n == 0 then {}
    else
      var before := Fillers(corpus, required, limit, n - 1);
      if Keeps(corpus, required, limit, n - 1) && corpus[n - 1].id !in required then before + {corpus[n - 1].id}
      else before
  }

  lemma IdsAppend(docs: seq<Document>, doc: Document)
    ensures Ids(docs + [doc]) == Ids(docs) + {doc.id}
  {
    assert (docs + [doc])[..|docs|] == docs;
  }

  lemma OneMoreDocument(corpus: seq<Document>, n: nat)
    requires n < |corpus|
    ensures Ids(corpus[..n + 1]) == Ids(corpus[..n]) + {corpus[n].id}
  {
    assert corpus[..n + 1][..n] == corpus[..n];
  }

  /** The fillers are the other ids until the limit is reached, and limit of them from then on. */
  lemma {:induction false} FillersFill(corpus: seq<Document>, required: set<DocId>, limit: nat, n: nat)
    requires n <= |corpus|
    ensures Fillers(corpus, required, limit, n) <= Others(corpus[..n], required)
    ensures |Fillers(corpus, required, limit, n)| == Min(limit, |Others(corpus[..n], required)|)
  {
    if n > 0 {
      FillersFill(corpus, required, limit, n - 1);
      OneMoreDocument(corpus, n - 1);
      var id := corpus[n - 1].id;
      var before, now := Others(corpus[..n - 1], required), Others(corpus[..n], required);
      if id in required || id in before {
        assert now == before;
      } else {
        assert now == before + {id};
      }
    }
  }

  /** What has been written after n documents: all judged ids met so far, and the fillers. */
  lemma {:induction false} ChosenIds(corpus: seq<Document>, required: set<DocId>, limit: nat, n: nat)
    requires n <= |corpus|
    ensures Ids(Chosen(corpus, required, limit, n))
         == required * Ids(corpus[..n]) + Fillers(corpus, required, limit, n)
  {
    if n > 0 {
      ChosenIds(corpus, required, limit, n - 1);
      OneMoreDocument(corpus, n - 1);
      IdsAppend(Chosen(corpus, required, limit, n - 1), corpus[n - 1]);
    }
  }

  lemma ChosenSize(corpus: seq<Document>, required: set<DocId>, limit: nat, n: nat)
    requires n <= |corpus|
    ensures |Ids(Chosen(corpus, required, limit, n))|
         == |required * Ids(corpus[..n])| + Min(limit, |Others(corpus[..n], required)|)
  {
    ChosenIds(corpus, required, limit, n);
    FillersFill(corpus, required, limit, n);
    var judged, fillers := required * Ids(corpus[..n]), Fillers(corpus, required, limit, n);
    assert judged !! fillers;
    assert |judged + fillers| == |judged| + |fillers|;
  }

  /** No id is written twice. */
  lemma {:induction false} ChosenDistinct(corpus: seq<Document>, required: set<DocId>, limit: nat, n: nat)
    requires n <= |corpus|
    ensures forall i, j :: 0 <= i < j < |Chosen(corpus, required, limit, n)| ==>
              Chosen(corpus, required, limit, n)[i].id != Chosen(corpus, required, limit, n)[j].id
  {
    if n > 0 {
      ChosenDistinct(corpus, required, limit, n - 1);
      var before := Chosen(corpus, required, limit, n - 1);
      ChosenIds(corpus, required, limit, n - 1);
      FillersFill(corpus, required, limit, n - 1);
      if Keeps(corpus, required, limit, n - 1) {
        forall i | 0 <= i < |before| ensures before[i].id != corpus[n - 1].id {
          IdOf(before, before[i].id);
        }
      }
    }
  }

  /** Whether document n is skipped or written, decided from what has been written so far. */
  lemma KeepsFromState(corpus: seq<Document>, required: set<DocId>, limit: nat, n: nat)
    requires n < |corpus|
    ensures var id, written := corpus[n].id, Ids(Chosen(corpus, required, limit, n));
            Keeps(corpus, required, limit, n) <==>
              id !in written && (id in required || |Fillers(corpus, required, limit, n)| < limit)
  {
    ChosenIds(corpus, required, limit, n);
    FillersFill(corpus, required, limit, n);
    var others, fillers := Others(corpus[..n], required), Fillers(corpus, required, limit, n);
    if |others| < limit {
      SubsetOfSameSize(fillers, others);
    }
  }

  lemma {:induction false} IdsGrow(corpus: seq<Document>, n: nat, m: nat)
    requires n <= m <= |corpus|
    ensures Ids(corpus[..n]) <= Ids(corpus[..m])
  {
    if n < m {
      IdsGrow(corpus, n, m - 1);
      OneMoreDocument(corpus, m - 1);
    }
  }

  lemma NothingKept(corpus: seq<Document>, required: set<DocId>, limit: nat, n: nat, m: nat)
    requires n <= m < |corpus|
    requires required <= Ids(corpus[..n]) && |Others(corpus[..n], required)| >= limit
    ensures !Keeps(corpus, required, limit, m)
  {
    IdsGrow(corpus, n, m);
    SubsetOfSameSize(Others(corpus[..n], required), Others(corpus[..m], required));
  }

  lemma {:induction false} FillersStay(corpus: seq<Document>, required: set<DocId>, limit: nat, n: nat, m: nat)
    requires n <= m <= |corpus|
    requires forall i :: n <= i < m ==> !Keeps(corpus, required, limit, i)
    ensures Fillers(corpus, required, limit, m) == Fillers(corpus, required, limit, n)
  {
    if n < m {
      FillersStay(corpus, required, limit, n, m - 1);
    }
  }

  /** Once every judged id is written and the fillers are complete, nothing more is kept. */
  lemma ChosenSettled(corpus: seq<Document>, required: set<DocId>, limit: nat, n: nat, m: nat)
    requires n <= m <= |corpus|
    requires required <= Ids(corpus[..n]) && |Others(corpus[..n], required)| >= limit
    ensures Chosen(corpus, required, limit, m) == Chosen(corpus, required, limit, n)
    ensures Fillers(corpus, required, limit, m) == Fillers(corpus, required, limit, n)
    ensures required <= Ids(corpus[..m])
  {
    forall i | n <= i < m ensures !Keeps(corpus, required, limit, i) {
      NothingKept(corpus, required, limit, n, i);
    }
    FillersStay(corpus, required, limit, n, m);
    KeptStays(corpus, n, m, Keeper(corpus, required, limit));
    IdsGrow(corpus, n, m);
  }

  /** The selection reaches the wanted size exactly when the corpus has enough distinct ids. */
  lemma FullExactly(corpus: seq<Document>, required: set<DocId>, size: nat)
    requires required <= Ids(corpus) && |required| <= size
    ensures |Ids(Chosen(corpus, required, size - |required|, |corpus|))| == size <==> |Ids(corpus)| >= size
  {
    var limit := size - |required|;
    assert corpus[..|corpus|] == corpus;
    ChosenSize(corpus, required, limit, |corpus|);
    assert required * Ids(corpus) == required;
    assert Ids(corpus) == required + Others(corpus, required);
  }

  datatype SelectionError = CapTooSmall | MissingQrelDocs(ids: set<DocId>) | TooFewDocuments(found: nat)

  /** The specification of capping: its two refusals and its one result. */
  ghost function Capped(corpus: seq<Document>, required: set<DocId>, size: nat):
    Result<seq<Document>, SelectionError>
  {
    if |required| > size then Err(CapTooSmall)
    else if !(required <= Ids(corpus)) then Err(MissingQrelDocs(required - Ids(corpus)))
    else if |Ids(corpus)| < size then
      Err(TooFewDocuments(|Ids(corpus)|))
    else Ok(Chosen(corpus, required, size - |required|, |corpus|))
  }

  datatype Pass = Pass(written: seq<Document>, selected: set<DocId>, found: set<DocId>, fillerCount: nat)

  /** What the materialising pass holds after n documents, in terms of the corpus alone. */
  ghost function PassAfter(corpus: seq<Document>, required: set<DocId>, limit: nat, n: nat): Pass
    requires n <= |corpus|
  {
    var written := Chosen(corpus, required, limit, n);
    Pass(written, Ids(written), required * Ids(corpus[..n]), |Fillers(corpus, required, limit, n)|)
  }

  /** One turn of the loop. */
  function Turn(p: Pass, doc: Document, required: set<DocId>, limit: nat): Pass {
    if doc.id in p.selected then p
    else if doc.id in required then
      Pass(p.written + [doc], p.selected + {doc.id}, p.found + {doc.id}, p.fillerCount)
    else if p.fillerCount < limit then
      Pass(p.written + [doc], p.selected + {doc.id}, p.found, p.fillerCount + 1)
    else p
  }

  lemma TurnFollows(corpus: seq<Document>, required: set<DocId>, limit: nat, n: nat)
    requires n < |corpus|
    ensures Turn(PassAfter(corpus, required, limit, n), corpus[n], required, limit)
         == PassAfter(corpus, required, limit, n + 1)
  {
    KeepsFromState(corpus, required, limit, n);
    if Keeps(corpus, required, limit, n) {
      KeptTurn(corpus, required, limit, n);
    } else {
      SkippedTurn(corpus, required, limit, n);
    }
  }

  lemma FoundOneMore(corpus: seq<Document>, required: set<DocId>, n: nat)
    requires n < |corpus|
    ensures required * Ids(corpus[..n + 1])
         == required * Ids(corpus[..n]) + if corpus[n].id in required then {corpus[n].id} else {}
  {
    OneMoreDocument(corpus, n);
  }

  lemma KeptTurn(corpus: seq<Document>, required: set<DocId>, limit: nat, n: nat)
    requires n < |corpus| && Keeps(corpus, required, limit, n)
    ensures var id, p := corpus[n].id, PassAfter(corpus, required, limit, n);
            var next := PassAfter(corpus, required, limit, n + 1);
            && next.written == p.written + [corpus[n]] && next.selected == p.selected + {id}
            && next.found == p.found + (if id in required then {id} else {})
            && next.fillerCount == p.fillerCount + if id in required then 0 else 1
  {
    FoundOneMore(corpus, required, n);
    IdsAppend(Chosen(corpus, required, limit, n), corpus[n]);
    ChosenIds(corpus, required, limit, n);
    KeepsFromState(corpus, required, limit, n);
    assert corpus[n].id !in Fillers(corpus, required, limit, n);
  }

  lemma SkippedTurn(corpus: seq<Document>, required: set<DocId>, limit: nat, n: nat)
    requires n < |corpus| && !Keeps(corpus, required, limit, n)
    ensures PassAfter(corpus, required, limit, n + 1) == PassAfter(corpus, required, limit, n)
  {
    FoundOneMore(corpus, required, n);
    assert corpus[n].id in required ==> corpus[n].id in Ids(corpus[..n]);
    assert required * Ids(corpus[..n + 1]) == required * Ids(corpus[..n]);
  }

  /** Where the pass may stop early, it already holds everything it ever would. */
  lemma BreakIsHarmless(corpus: seq<Document>, required: set<DocId>, size: nat, n: nat, p: Pass)
    requires |required| <= size && n <= |corpus|
    requires p == PassAfter(corpus, required, size - |required|, n)
    requires |p.selected| == size && p.found == required
    ensures p == PassAfter(corpus, required, size - |required|, |corpus|)
  {
    var limit := size - |required|;
    ChosenSize(corpus, required, limit, n);
    assert required <= Ids(corpus[..n]);
    ChosenSettled(corpus, required, limit, n, |corpus|);
    assert required * Ids(corpus[..|corpus|]) == required;
  }

  function Verdict(required: set<DocId>, size: nat, p: Pass): Result<seq<Document>, SelectionError> {
    if required - p.found != {} then Err(MissingQrelDocs(required - p.found))
    else if |p.selected| != size then Err(TooFewDocuments(|p.selected|))
    else Ok(p.written)
  }

  lemma VerdictIsCapped(corpus: seq<Document>, required: set<DocId>, size: nat, p: Pass)
    requires |required| <= size && p == PassAfter(corpus, required, size - |required|, |corpus|)
    ensures Capped(corpus, required, size) == Verdict(required, size, p)
  {
    assert corpus[..|corpus|] == corpus;
    var found := required * Ids(corpus);
    assert required - found == required - Ids(corpus);
    assert required - found == {} <==> required <= Ids(corpus);
    if required <= Ids(corpus) {
      assert found == required;
      FullExactly(corpus, required, size);
      ChosenSize(corpus, required, size - |required|, |corpus|);
      assert Ids(corpus) == required + Others(corpus, required);
      assert |Ids(corpus)| == |required| + |Others(corpus, required)|;
    }
  }

  /** The materialising pass, with its early break. */
  method WriteCapped(corpus: seq<Document>, required: set<DocId>, size: nat)
    returns (r: Result<seq<Document>, SelectionError>)
    ensures r == Capped(corpus, required, size)
  {
    if |required| > size {
      return Err(CapTooSmall);
    }
    var fillerLimit := size - |required|;
    var fillerCount, selected, found, written := 0, {}, {}, [];
    var n := 0;
    while n < |corpus|
      invariant 0 <= n <= |corpus|
      invariant Pass(written, selected, found, fillerCount) == PassAfter(corpus, required, fillerLimit, n)
    {
      var doc := corpus[n];
      TurnFollows(corpus, required, fillerLimit, n);
      n := n + 1;
      if doc.id in selected {
        continue;
      }
      if doc.id in required {
        found := found + {doc.id};
      } else if fillerCount < fillerLimit {
        fillerCount := fillerCount + 1;
      } else {
        continue;
      }
      selected := selected + {doc.id};
      written := written + [doc];
      if |selected| == size && found == required {
        BreakIsHarmless(corpus, required, size, n, Pass(written, selected, found, fillerCount));
        break;
      }
    }
    VerdictIsCapped(corpus, required, size, Pass(written, selected, found, fillerCount));
    if required - found != {} {
      return Err(MissingQrelDocs(required - found));
    }
    if |selected| != size {
      return Err(TooFewDocuments(|selected|));
    }
    r := Ok(written);
  }

  /** Capping succeeds exactly when the size has room for the judged ids, the corpus holds them all and holds size
      distinct ids; else the first of the three that fails is reported, with the ids missing or the number found. */
  lemma CappedOutcome(corpus: seq<Document>, required: set<DocId>, size: nat)
    ensures var r := Capped(corpus, required, size);
            && (r.Ok? <==> |required| <= size <= |Ids(corpus)| && required <= Ids(corpus))
            && (r == Err(CapTooSmall) <==> |required| > size)
            && (r.Err? && r.error.MissingQrelDocs? <==>
                  |required| <= size && exists d :: d in required && d !in Ids(corpus))
            && (r.Err? && r.error.MissingQrelDocs? ==>
                  forall d :: d in r.error.ids <==> d in required && d !in Ids(corpus))
            && (r.Err? && r.error.TooFewDocuments? ==> r.error.found == |Ids(corpus)| < size)
  {
    EmptyDifference(required, Ids(corpus));
  }

  /** What success promises, without mentioning the pass: the written documents are those at the
      kept positions in corpus order, no id twice, exactly size of them, covering every judged id. */
  lemma CappedMeans(corpus: seq<Document>, required: set<DocId>, size: nat)
    requires Capped(corpus, required, size).Ok?
    ensures var written, limit := Capped(corpus, required, size).value, size - |required|;
            var at := Positions(|corpus|, Keeper(corpus, required, limit));
            && |written| == size == |at|
            && (forall k :: 0 <= k < size ==> at[k] in at && at[k] < |corpus| && written[k] == corpus[at[k]])
            && (forall i, j :: 0 <= i < j < size ==> written[i].id != written[j].id)
            && Ids(written) == required + Fillers(corpus, required, limit, |corpus|)
  {
    var limit := size - |required|;
    assert corpus[..|corpus|] == corpus;
    FullExactly(corpus, required, size);
    ChosenIds(corpus, required, limit, |corpus|);
    ChosenDistinct(corpus, required, limit, |corpus|);
    KeptInOrder(corpus, |corpus|, Keeper(corpus, required, limit));
    DistinctIdsSize(Chosen(corpus, required, limit, |corpus|));
  }

  lemma {:induction false} DistinctIdsSize(docs: seq<Document>)
    requires forall i, j :: 0 <= i < j < |docs| ==> docs[i].id != docs[j].id
    ensures |Ids(docs)| == |docs|
  {
    if docs != [] {
      var front := docs[..|docs| - 1];
      DistinctIdsSize(front);
      IdOf(front, docs[|docs| - 1].id);
    }
  }

  /** The id set held by the other selection pass after n documents. */
  ghost function SelectedAfter(corpus: seq<Document>, required: set<DocId>, size: nat, n: nat): set<DocId>
    requires |required| <= size && n <= |corpus|
  {
    required + Fillers(corpus, required, size - |required|, n)
  }

  lemma FillersTurn(corpus: seq<Document>, required: set<DocId>, limit: nat, n: nat)
    requires n < |corpus|
    ensures var before, id := Fillers(corpus, required, limit, n), corpus[n].id;
            Fillers(corpus, required, limit, n + 1)
              == if id !in required && id !in before && |before| < limit then before + {id} else before
  {
    KeepsFromState(corpus, required, limit, n);
    ChosenIds(corpus, required, limit, n);
  }

  lemma UnionTurn(required: set<DocId>, before: set<DocId>, after: set<DocId>, id: DocId, size: nat)
    requires required !! before && |required| + |before| <= size
    requires after == if id !in required && id !in before && |required| + |before| < size then before + {id}
                      else before
    ensures var selected := required + before;
            required + after == if id !in selected && |selected| < size then selected + {id} else selected
  {
    assert |required + before| == |required| + |before|;
  }

  lemma FillersBound(corpus: seq<Document>, required: set<DocId>, limit: nat, n: nat)
    requires n <= |corpus|
    ensures required !! Fillers(corpus, required, limit, n) && |Fillers(corpus, required, limit, n)| <= limit
    ensures |Fillers(corpus, required, limit, n)| == limit <==> |Others(corpus[..n], required)| >= limit
  {
    FillersFill(corpus, required, limit, n);
  }

  lemma SelectionFollows(corpus: seq<Document>, required: set<DocId>, size: nat, n: nat)
    requires |required| <= size && n < |corpus|
    ensures var selected, id := SelectedAfter(corpus, required, size, n), corpus[n].id;
            SelectedAfter(corpus, required, size, n + 1)
              == if id !in selected && |selected| < size then selected + {id} else selected
  {
    var limit := size - |required|;
    FillersTurn(corpus, required, limit, n);
    FillersBound(corpus, required, limit, n);
    UnionTurn(required, Fillers(corpus, required, limit, n), Fillers(corpus, required, limit, n + 1), corpus[n].id,
              size);
  }

  lemma UnionFull(required: set<DocId>, fillers: set<DocId>, size: nat)
    requires required !! fillers && |required + fillers| >= size
    ensures |required| + |fillers| >= size
  {}

  lemma SelectionSettled(corpus: seq<Document>, required: set<DocId>, size: nat, n: nat)
    requires |required| <= size && n <= |corpus|
    requires |SelectedAfter(corpus, required, size, n)| >= size && required <= Ids(corpus[..n])
    ensures SelectedAfter(corpus, required, size, |corpus|) == SelectedAfter(corpus, required, size, n)
    ensures required <= Ids(corpus[..|corpus|])
  {
    var limit := size - |required|;
    FillersBound(corpus, required, limit, n);
    UnionFull(required, Fillers(corpus, required, limit, n), size);
    ChosenSettled(corpus, required, limit, n, |corpus|);
  }

  datatype IdPass = IdPass(selected: set<DocId>, found: set<DocId>)

  ghost function IdPassAfter(corpus: seq<Document>, required: set<DocId>, size: nat, n: nat): IdPass
    requires |required| <= size && n <= |corpus|
  {
    IdPass(SelectedAfter(corpus, required, size, n), required * Ids(corpus[..n]))
  }

  function IdTurn(p: IdPass, id: DocId, required: set<DocId>, size: nat): IdPass {
    var found := if id in required then p.found + {id} else p.found;
    if id !in p.selected && |p.selected| < size then IdPass(p.selected + {id}, found)
    else IdPass(p.selected, found)
  }

  lemma IdTurnFollows(corpus: seq<Document>, required: set<DocId>, size: nat, n: nat)
    requires |required| <= size && n < |corpus|
    ensures IdTurn(IdPassAfter(corpus, required, size, n), corpus[n].id, required, size)
         == IdPassAfter(corpus, required, size, n + 1)
  {
    SelectionFollows(corpus, required, size, n);
    FoundOneMore(corpus, required, n);
  }

  lemma IdBreakIsHarmless(corpus: seq<Document>, required: set<DocId>, size: nat, n: nat)
    requires |required| <= size && n <= |corpus|
    requires var p := IdPassAfter(corpus, required, size, n); |p.selected| >= size && p.found == required
    ensures IdPassAfter(corpus, required, size, n) == IdPassAfter(corpus, required, size, |corpus|)
  {
    assert required <= Ids(corpus[..n]);
    SelectionSettled(corpus, required, size, n);
    assert required * Ids(corpus[..|corpus|]) == required;
  }

  /** The judged documents and the fillers; unlike Capped, it does not ask for size documents. */
  ghost function SelectedIds(corpus: seq<Document>, required: set<DocId>, size: nat):
    Result<set<DocId>, SelectionError>
  {
    if |required| > size then Err(CapTooSmall)
    else if !(required <= Ids(corpus)) then Err(MissingQrelDocs(required - Ids(corpus)))
    else Ok(required + Fillers(corpus, required, size - |required|, |corpus|))
  }

  lemma SelectedIdsVerdict(corpus: seq<Document>, required: set<DocId>, size: nat)
    requires |required| <= size
    ensures var p := IdPassAfter(corpus, required, size, |corpus|);
            SelectedIds(corpus, required, size)
              == if required - p.found != {} then Err(MissingQrelDocs(required - p.found)) else Ok(p.selected)
  {
    assert corpus[..|corpus|] == corpus;
    var found := required * Ids(corpus);
    assert required - found == required - Ids(corpus);
    assert required - Ids(corpus) == {} <==> required <= Ids(corpus);
  }

  /** The other selection pass, which builds only the id set. */
  method BuildSelectedDocIds(corpus: seq<Document>, required: set<DocId>, size: nat)
    returns (r: Result<set<DocId>, SelectionError>)
    ensures r == SelectedIds(corpus, required, size)
  {
    if |required| > size {
      return Err(CapTooSmall);
    }
    var selected, found := required, {};
    var n := 0;
    while n < |corpus|
      invariant 0 <= n <= |corpus|
      invariant IdPass(selected, found) == IdPassAfter(corpus, required, size, n)
    {
      var id := corpus[n].id;
      IdTurnFollows(corpus, required, size, n);
      if id in required {
        found := found + {id};
      }
      if id !in selected && |selected| < size {
        selected := selected + {id};
      }
      n := n + 1;
      if |selected| >= size && found == required {
        IdBreakIsHarmless(corpus, required, size, n);
        break;
      }
    }
    SelectedIdsVerdict(corpus, required, size);
    if required - found != {} {
      return Err(MissingQrelDocs(required - found));
    }
    r := Ok(selected);
  }

  /** The id-only pass is refused exactly when capping is for one of the first two reasons, and for the same one;
      else it selects all judged ids and as many unjudged ones of the corpus as the size allows. */
  lemma SelectedOutcome(corpus: seq<Document>, required: set<DocId>, size: nat)
    ensures var r, capped := SelectedIds(corpus, required, size), Capped(corpus, required, size);
            && (r.Ok? <==> |required| <= size && required <= Ids(corpus))
            && (r.Err? ==> capped == Err(r.error))
            && (r.Ok? ==> required <= r.value <= Ids(corpus) && |r.value| == Min(size, |Ids(corpus)|))
  {
    if |required| <= size && required <= Ids(corpus) {
      var limit := size - |required|;
      assert corpus[..|corpus|] == corpus;
      FillersFill(corpus, required, limit, |corpus|);
      FillersBound(corpus, required, limit, |corpus|);
      assert Ids(corpus) == required + Others(corpus, required);
    }
  }

  /** When capping succeeds both passes choose the same ids. */
  lemma PassesAgree(corpus: seq<Document>, required: set<DocId>, size: nat)
    requires Capped(corpus, required, size).Ok?
    ensures SelectedIds(corpus, required, size) == Ok(Ids(Capped(corpus, required, size).value))
  {
    CappedMeans(corpus, required, size);
  }
}
