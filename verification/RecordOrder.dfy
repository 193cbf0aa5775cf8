/** In which order the record search lists what it found, and what its cut drops. */
module RecordOrder {
  import opened Wrappers
  import opened Clusters
  import opened SearchModel
  import opened Filters
  import opened Ranks
  import opened Sorting
  import opened RecordSearch
  import RecordLaws
  import Scoring

  // ---------------------------------------------------------------- which records are gathered

  /** The candidate is made of a record of the list, at its first place there, that is not skipped. */
  ghost predicate MadeOf(rows: seq<Row>, skip: set<Id>, c: Candidate, p: nat)
    requires p < |rows|
  {
    && rows[p].candidate == Some(c) && rows[p].recordId !in skip
    && forall q :: 0 <= q < p ==> rows[q].recordId != rows[p].recordId
  }

  /** Gathered are the candidates of all records, each at its first place, except those skipped. */
  lemma {:induction false} CandidatesMean(rows: seq<Row>, skip: set<Id>, c: Candidate)
    ensures c in CandidatesOf(rows, skip) <==> exists p :: 0 <= p < |rows| && MadeOf(rows, skip, c, p)
  {
    if rows != [] {
      var n := |rows| - 1;
      var init := rows[..n];
      CandidatesMean(init, skip, c);
      forall p | 0 <= p < n
        ensures MadeOf(init, skip, c, p) <==> MadeOf(rows, skip, c, p)
      {
        assert forall q :: 0 <= q <= p ==> init[q] == rows[q];
      }
      assert Counts(rows[n], SeenIds(init), skip) && rows[n].candidate.value == c <==> MadeOf(rows, skip, c, n) by {
        LastCounts(rows, skip, c);
      }
    }
  }

  lemma {:induction false} LastCounts(rows: seq<Row>, skip: set<Id>, c: Candidate)
    requires rows != []
    ensures
      var n := |rows| - 1;
      Counts(rows[n], SeenIds(rows[..n]), skip) && rows[n].candidate.value == c <==> MadeOf(rows, skip, c, n)
  {
    var n := |rows| - 1;
    if rows[n].recordId in SeenIds(rows[..n]) {
      var row :| row in rows[..n] && row.recordId == rows[n].recordId;
      var q :| 0 <= q < n && rows[..n][q] == row;
      assert rows[q].recordId == rows[n].recordId;
    } else {
      forall q | 0 <= q < n
        ensures rows[q].recordId != rows[n].recordId
      {
        assert rows[..n][q] == rows[q] && rows[q] in rows[..n];
      }
    }
  }

  /**
   A search for terms gathers candidates of the rows listed for it only, and with a file filter of records
   in its scope, unless the scope names no record and there are filters.
   */
  lemma {:induction false} GatheredInScope(q: Request, c: Candidate) returns (p: nat)
    requires q.hasTerms && c in GatheredCandidates(q)
    ensures p < |q.rows| && q.rows[p].candidate == Some(c)
    ensures q.fileScope.Some? && (q.fileScope.value.records != {} || !HasFilters(q.filters)) ==>
      q.rows[p].recordId in q.fileScope.value.records
  {
    var n := if HasFilters(q.filters) then RowsRead(q.rows, q.limit, PagesRead(q.rows, Skipped(q), q.limit, 1))
             else Min(q.limit + 1, |q.rows|);
    var rows := q.rows[..n];
    assert c in CandidatesOf(rows, Skipped(q));
    CandidatesMean(rows, Skipped(q), c);
    p :| 0 <= p < |rows| && MadeOf(rows, Skipped(q), c, p);
    assert q.rows[p] in q.rows;
  }

  /**
   And it skips no record of the scope: every candidate made of a record in scope, at its first place among
   the rows read, is gathered.
   */
  lemma {:induction false} InScopeIsGathered(q: Request, c: Candidate, p: nat)
    requires q.hasTerms && HasFilters(q.filters)
    requires p < RowsRead(q.rows, q.limit, PagesRead(q.rows, Skipped(q), q.limit, 1)) && q.rows[p].candidate == Some(c)
    requires forall k :: 0 <= k < p ==> q.rows[k].recordId != q.rows[p].recordId
    requires q.fileScope.None? || q.fileScope.value.records == {} || q.rows[p].recordId in q.fileScope.value.records
    ensures c in GatheredCandidates(q)
  {
    var rows := q.rows[..RowsRead(q.rows, q.limit, PagesRead(q.rows, Skipped(q), q.limit, 1))];
    assert MadeOf(rows, Skipped(q), c, p);
    CandidatesMean(rows, Skipped(q), c);
  }

  // ---------------------------------------------------------------- the order

  /**
   A candidate is to come before another: it matches more terms, or as many and scored better; if
   neither does, the newer one comes first, then the one whose title, then whose id is less.
   */
  predicate ComesFirst(a: Candidate, b: Candidate) {
    || Scoring.Outranks(a, b)
    || (!Scoring.Outranks(b, a)
        && (a.updatedAt > b.updatedAt
            || (a.updatedAt == b.updatedAt && (a.title < b.title || (a.title == b.title && a.recordId <= b.recordId)))))
  }

  lemma {:induction false} ComparatorIsTotal()
    ensures TotalPreorder(NotAfter)
  {
  }

  /** The comparator of rescored candidates puts first what is to come first. */
  lemma {:induction false} RescoredOrder(gathered: seq<Candidate>, p: nat, q: nat)
    requires Scoring.NonNegativeScores(gathered) && p < |gathered| && q < |gathered|
    ensures NotAfter(Scoring.Normalized(gathered)[p], Scoring.Normalized(gathered)[q]) <==>
            ComesFirst(gathered[p], gathered[q])
  {
    Scoring.CoverageFirst(gathered);
    Rescored(gathered, p);
    Rescored(gathered, q);
  }

  lemma {:induction false} Rescored(gathered: seq<Candidate>, p: nat)
    requires p < |gathered|
    ensures Scoring.Normalized(gathered)[p] == gathered[p].(score := Scoring.Normalized(gathered)[p].score)
  {
  }

  /**
   The order of the list, and what the cut drops: all candidates gathered have their place, each coming
   first of those placed after it, so that none cut off outranks one that is kept; those kept are the
   candidates of the first places, rescored.
   */
  lemma {:induction false} RankedOrder(gathered: seq<Candidate>, limit: nat) returns (order: seq<nat>)
    requires Scoring.NonNegativeScores(gathered)
    ensures IsOrder(order, |gathered|)
    ensures
      var cs := RankAndCut(gathered, limit);
      forall i :: 0 <= i < |cs| ==> cs[i] == gathered[order[i]].(score := cs[i].score)
    ensures forall i, j :: 0 <= i < j < |gathered| ==>
      ComesFirst(gathered[order[i]], gathered[order[j]]) && !Scoring.Outranks(gathered[order[j]], gathered[order[i]])
  {
    var scored := Scoring.Normalized(gathered);
    order := SortOrder(scored, NotAfter);
    ComparatorIsTotal();
    SortOrders(scored, NotAfter);
    forall i | 0 <= i < |RankAndCut(gathered, limit)|
      ensures var c := RankAndCut(gathered, limit)[i]; c == gathered[order[i]].(score := c.score)
    {
      Rescored(gathered, order[i]);
    }
    forall i, j | 0 <= i < j < |gathered|
      ensures ComesFirst(gathered[order[i]], gathered[order[j]]) && !Scoring.Outranks(gathered[order[j]], gathered[order[i]])
    {
      RescoredOrder(gathered, order[i], order[j]);
    }
  }

  lemma {:induction false} RankedNonIncreasing(gathered: seq<Candidate>, limit: nat)
    ensures
      var cs := RankAndCut(gathered, limit);
      forall i, j :: 0 <= i < j < |cs| ==> cs[i].score >= cs[j].score
  {
    ComparatorIsTotal();
    var sorted := SortBy(Scoring.Normalized(gathered), NotAfter);
    SortOrders(Scoring.Normalized(gathered), NotAfter);
    var cs := RankAndCut(gathered, limit);
    forall i, j | 0 <= i < j < |cs|
      ensures cs[i].score >= cs[j].score
    {
      assert NotAfter(sorted[i], sorted[j]);
    }
  }

  /** A result is the earliest candidate of its cluster, with its score for a rank. */
  lemma {:induction false} ResultOfCandidate(cs: seq<Candidate>, mode: ResultMode, n: nat, i: nat) returns (p: nat)
    requires n <= |cs| && i < |ResultsUpTo(cs, mode, n)|
    ensures p < n
    ensures
      var r := ResultsUpTo(cs, mode, n)[i];
      && r.rank == cs[p].score && SameShown(r, cs[p].result) && r.why == cs[p].result.why
      && (r.scope == SessionScope <==> mode == Sessions && r.sessionId.Some?)
      && (r.scope == SessionScope ==> r.importance == Of(r.rank, r.more))
    ensures p == if mode == Sessions then Firsts(ClusterIds(CandidateResults(cs[..n])))[i] else i
  {
    var rs := CandidateResults(cs[..n]);
    var keys := ClusterIds(rs);
    if mode == Sessions {
      p := Firsts(keys)[i];
      assert Folded(rs, keys, RecordEntry)[i] == FoldedEntry(rs, keys, RecordEntry, i);
    } else {
      p := i;
    }
  }

  /** The results shown come best first, folded or not. */
  lemma {:induction false} ResultsNonIncreasing(q: Request)
    ensures NonIncreasing(RecordLaws.PacketOf(q).results)
  {
    var gathered := GatheredCandidates(q);
    var cs := RankAndCut(gathered, q.limit);
    var n := Used(cs, q.mode, q.limit, 0);
    RankedNonIncreasing(gathered, q.limit);
    forall i, j | 0 <= i < j < |RecordLaws.PacketOf(q).results|
      ensures RecordLaws.PacketOf(q).results[i].rank >= RecordLaws.PacketOf(q).results[j].rank
    {
      var a := ResultOfCandidate(cs, q.mode, n, i);
      var b := ResultOfCandidate(cs, q.mode, n, j);
      assert a < b;
    }
  }

  /** And the first of them is the candidate that comes first of all that were gathered. */
  lemma {:induction false} BestIsShownFirst(q: Request) returns (p: nat)
    requires Scoring.NonNegativeScores(GatheredCandidates(q)) && RecordLaws.PacketOf(q).results != []
    ensures p < |GatheredCandidates(q)|
    ensures SameShown(RecordLaws.PacketOf(q).results[0], GatheredCandidates(q)[p].result)
    ensures forall c :: c in GatheredCandidates(q) ==> !Scoring.Outranks(c, GatheredCandidates(q)[p])
  {
    var gathered := GatheredCandidates(q);
    var cs := RankAndCut(gathered, q.limit);
    var order := RankedOrder(gathered, q.limit);
    var n := Used(cs, q.mode, q.limit, 0);
    var k := ResultOfCandidate(cs, q.mode, n, 0);
    if q.mode == Sessions {
      FirstOfAll(ClusterIds(CandidateResults(cs[..n])));
    }
    p := order[0];
    forall c | c in gathered
      ensures !Scoring.Outranks(c, gathered[p])
    {
      var at :| 0 <= at < |gathered| && gathered[at] == c;
      assert at in order;
      var i :| 0 <= i < |order| && order[i] == at;
      assert i > 0 ==> ComesFirst(gathered[order[0]], gathered[order[i]]);
    }
  }

  lemma {:induction false} FirstOfAll(keys: seq<Id>)
    requires keys != []
    ensures |Firsts(keys)| > 0 && Firsts(keys)[0] == 0
  {
    var i := FirstsCover(keys, 0);
  }
}
