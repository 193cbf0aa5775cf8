/** What a packet of the record search is worth to its reader. */
module RecordLaws {
  import opened Wrappers
  import opened Clusters
  import opened SearchModel
  import opened Filters
  import opened MatchCounts
  import opened Sorting
  import opened RecordSearch
  import Scoring

  function PacketOf(q: Request): Packet {
    RecordPacket(RankAndCut(GatheredCandidates(q), q.limit), ScanExhausted(q), q.mode, q.limit)
  }

  // ---------------------------------------------------------------- complete scans

  /** A filtered search that claims no more and gathered no more than the limit has read every row. */
  lemma {:induction false} CompleteScan(q: Request)
    requires q.hasTerms && HasFilters(q.filters)
    requires !ScanExhausted(q) && |GatheredCandidates(q)| <= q.limit
    ensures GatheredCandidates(q) == CandidatesOf(q.rows, Skipped(q))
  {
    var pages := PagesRead(q.rows, Skipped(q), q.limit, 1);
    assert !EnoughCandidates(q.rows, Skipped(q), q.limit, pages);
    assert LastPage(q.rows, q.limit, pages);
    assert q.rows[..|q.rows|] == q.rows;
  }

  lemma {:induction false} AllPagesRead(rows: seq<Row>, skip: set<Id>, limit: nat)
    requires BudgetExhausted(rows, skip, limit)
    ensures PagesRead(rows, skip, limit, 1) == FILTERED_SEARCH_MAX_PAGES
    ensures RowsRead(rows, limit, FILTERED_SEARCH_MAX_PAGES) == Covered(FILTERED_SEARCH_MAX_PAGES, RecordPageSize(limit)) <= |rows|
    ensures |CandidatesOf(rows[..RowsRead(rows, limit, FILTERED_SEARCH_MAX_PAGES)], skip)| <= limit
  {
  }

  /** How many rows all the pages hold. */
  function BudgetRows(limit: nat): nat {
    FILTERED_SEARCH_MAX_PAGES * RecordPageSize(limit)
  }

  lemma {:induction false} BudgetIsLarge(limit: nat)
    ensures BudgetRows(limit) >= 10_000 && BudgetRows(limit) > 20 * limit
    ensures Covered(FILTERED_SEARCH_MAX_PAGES, RecordPageSize(limit)) == BudgetRows(limit)
  {
    CoveredIsProduct(FILTERED_SEARCH_MAX_PAGES, RecordPageSize(limit));
  }

  /** A filtered search that gives up has read twenty pages, of at least 500 rows, and too few of them match. */
  lemma {:induction false} GivesUpLate(q: Request)
    requires ScanExhausted(q)
    ensures 10_000 <= BudgetRows(q.limit) <= |q.rows|
    ensures GatheredCandidates(q) == CandidatesOf(q.rows[..BudgetRows(q.limit)], Skipped(q))
    ensures |GatheredCandidates(q)| <= q.limit
  {
    AllPagesRead(q.rows, Skipped(q), q.limit);
    BudgetIsLarge(q.limit);
  }

  lemma {:induction false} FoldingNeverAdds(cs: seq<Candidate>, mode: ResultMode, n: nat)
    requires n <= |cs|
    ensures |ResultsUpTo(cs, mode, n)| <= n
  {
    var keys := ClusterIds(CandidateResults(cs[..n]));
    FirstsBounded(keys);
  }

  lemma {:induction false} FirstsBounded(keys: seq<Id>)
    ensures |Firsts(keys)| <= |keys|
  {
    if keys != [] {
      FirstsBounded(keys[..|keys| - 1]);
    }
  }

  /** If folding removed nothing, every element opened its own entry. */
  lemma {:induction false} NothingFolded(keys: seq<Id>, p: nat)
    requires |Firsts(keys)| == |keys| && p < |keys|
    ensures Firsts(keys)[p] == p && Times(keys, keys[p]) == 1
  {
    var n := |keys| - 1;
    var init := keys[..n];
    FirstsBounded(init);
    assert keys == init + [keys[n]];
    FirstsSnoc(init, keys[n]);
    TimesSnoc(init, keys[n], keys[p]);
    TimesOfMember(init, keys[p]);
    if p < n {
      NothingFolded(init, p);
      assert init[p] == keys[p];
    }
  }

  /** What `has_more == false` says about the candidates: each has a result of its own, unfolded. */
  lemma {:induction false} EachCandidateShown(cs: seq<Candidate>, mode: ResultMode, limit: nat, p: nat)
    requires limit >= 1 && p < |cs| && |cs| == |PushedResults(cs, mode, limit)|
    ensures
      var r := PushedResults(cs, mode, limit)[p];
      r.recordId == cs[p].result.recordId && r.rank == cs[p].score && r.more == 0
  {
    var n := Used(cs, mode, limit, 0);
    FoldingNeverAdds(cs, mode, n);
    assert cs[..n] == cs;
    if mode == Sessions {
      var rs := CandidateResults(cs);
      var keys := ClusterIds(rs);
      NothingFolded(keys, p);
      assert Folded(rs, keys, RecordEntry)[p] == FoldedEntry(rs, keys, RecordEntry, p);
    }
  }

  /** If there is no more, the results are as many as the candidates gathered, and within the limit. */
  lemma {:induction false} NoMoreKeepsCount(q: Request)
    requires q.limit >= 1 && !PacketOf(q).hasMore
    ensures |PacketOf(q).results| == |GatheredCandidates(q)| <= q.limit
    ensures |RankAndCut(GatheredCandidates(q), q.limit)| == |GatheredCandidates(q)|
  {
    var cs := RankAndCut(GatheredCandidates(q), q.limit);
    FoldingNeverAdds(cs, q.mode, Used(cs, q.mode, q.limit, 0));
    PushedWithinLimit(cs, q.mode, q.limit);
  }

  /**
   Truth of `has_more == false` on the filtered path: every record of the store that makes a candidate
   has a result of its own.
   */
  lemma {:induction false} NoMoreMeansAll(q: Request, c: Candidate)
    requires q.limit >= 1 && q.hasTerms && HasFilters(q.filters)
    requires !PacketOf(q).hasMore
    requires c in CandidatesOf(q.rows, Skipped(q))
    ensures |PacketOf(q).results| == |CandidatesOf(q.rows, Skipped(q))|
    ensures exists r :: r in PacketOf(q).results && r.recordId == c.result.recordId && r.more == 0
  {
    var gathered := GatheredCandidates(q);
    var cs := RankAndCut(gathered, q.limit);
    NoMoreKeepsCount(q);
    CompleteScan(q);
    var i :| 0 <= i < |gathered| && gathered[i] == c;
    var p := RankedPosition(gathered, q.limit, i);
    EachCandidateShown(cs, q.mode, q.limit, p);
    assert PacketOf(q).results[p] in PacketOf(q).results;
  }

  /** Where the sorted list keeps a gathered candidate, when nothing is cut off. */
  lemma {:induction false} RankedPosition(gathered: seq<Candidate>, limit: nat, i: nat) returns (p: nat)
    requires i < |gathered| <= limit + 1
    ensures p < |gathered| && RankAndCut(gathered, limit)[p].result == gathered[i].result
  {
    var scored := Scoring.Normalized(gathered);
    var sorted := SortBy(scored, NotAfter);
    SortPermutes(scored, NotAfter);
    SameMembers(scored, sorted, scored[i]);
    p :| 0 <= p < |sorted| && sorted[p] == scored[i];
  }

  lemma {:induction false} ResultsGrow(cs: seq<Candidate>, mode: ResultMode, n: nat)
    requires n < |cs|
    ensures |ResultsUpTo(cs, mode, n + 1)| <= |ResultsUpTo(cs, mode, n)| + 1
  {
    ResultsSnoc(cs, n);
    var rs := CandidateResults(cs[..n]);
    FirstsSnoc(ClusterIds(rs), ClusterOfResult(ResultOf(cs[n])));
  }

  /** At most `limit` results are pushed: the entries grow one by one. */
  lemma {:induction false} PushedWithinLimit(cs: seq<Candidate>, mode: ResultMode, limit: nat)
    requires limit >= 1
    ensures |PushedResults(cs, mode, limit)| <= limit
  {
    var n := Used(cs, mode, limit, 0);
    if n == 0 {
      FoldingNeverAdds(cs, mode, 0);
    } else {
      UsedStops(cs, mode, limit, 0, n - 1);
      assert |ResultsUpTo(cs, mode, n - 1)| < limit;
      ResultsGrow(cs, mode, n - 1);
    }
  }

  // ---------------------------------------------------------------- the omitted count

  /** 1 plus the extra count, summed over the results, is the number of candidates consumed. */
  lemma {:induction false} ResultsCountAll(cs: seq<Candidate>, mode: ResultMode, n: nat)
    requires n <= |cs|
    ensures Matches(ResultsUpTo(cs, mode, n)) == n
  {
    var rs := CandidateResults(cs[..n]);
    if mode == Sessions {
      var keys, results := ClusterIds(rs), ResultsUpTo(cs, mode, n);
      var firsts := seq(|Firsts(keys)|, i requires 0 <= i < |Firsts(keys)| => rs[Firsts(keys)[i]]);
      forall i | 0 <= i < |results|
        ensures results[i].more + 1 == firsts[i].more + Times(keys, keys[Firsts(keys)[i]])
      {
        assert results[i] == FoldedEntry(rs, keys, RecordEntry, i);
        TimesOfMember(keys, keys[Firsts(keys)[i]]);
      }
      MatchesOfEntries(results, keys, firsts);
      MatchesOfFresh(firsts);
    } else {
      MatchesOfFresh(rs);
    }
  }

  /**
   The number reported as omitted is the matches folded into the results shown plus the candidates never
   consumed; only a spent scan budget reports 1 instead.
   */
  lemma {:induction false} OmittedCount(cs: seq<Candidate>, mode: ResultMode, limit: nat, exhausted: bool)
    ensures
      var p := RecordPacket(cs, exhausted, mode, limit);
      var n := Used(cs, mode, limit, 0);
      && Matches(p.results) == n && |p.results| <= n
      && (exhausted ==> p.truncation == Truncated(ScanBudget, 1))
      && (!exhausted && p.truncation.Truncated? ==>
            p.truncation == Truncated(Limit, (Matches(p.results) - |p.results|) + (|cs| - n)))
  {
    var n := Used(cs, mode, limit, 0);
    FoldingNeverAdds(cs, mode, n);
    ResultsCountAll(cs, mode, n);
  }

  // ---------------------------------------------------------------- the unfiltered path

  lemma {:induction false} NoFurtherCandidates(rows: seq<Row>, skip: set<Id>, k: nat)
    requires k <= |rows|
    ensures |CandidatesOf(rows[..k], skip)| <= |CandidatesOf(rows, skip)|
    ensures |CandidatesOf(rows[..k], skip)| == |CandidatesOf(rows, skip)| <==>
      forall i :: k <= i < |rows| ==> !Counts(rows[i], SeenIds(rows[..i]), skip)
  {
    var n := |rows|;
    if k < n {
      var init := rows[..n - 1];
      NoFurtherCandidates(init, skip, k);
      assert init[..k] == rows[..k];
      assert forall i :: 0 <= i < n - 1 ==> init[..i] == rows[..i];
    } else {
      assert rows[..k] == rows;
    }
  }

  lemma {:induction false} NoneBeyond(rows: seq<Row>, skip: set<Id>, limit: nat)
    ensures |CandidatesOf(rows[..Min(limit + 1, |rows|)], skip)| == |CandidatesOf(rows, skip)| <==>
      forall i :: limit < i < |rows| ==> !Counts(rows[i], SeenIds(rows[..i]), skip)
  {
    NoFurtherCandidates(rows, skip, Min(limit + 1, |rows|));
  }

  lemma {:induction false} UnfilteredGathersAll(q: Request)
    requires q.hasTerms && !HasFilters(q.filters)
    ensures |GatheredCandidates(q)| == |CandidatesOf(q.rows, Skipped(q))| <==>
      forall i :: q.limit < i < |q.rows| ==> !Counts(q.rows[i], SeenIds(q.rows[..i]), Skipped(q))
  {
    NoneBeyond(q.rows, Skipped(q), q.limit);
  }

  /** Every record that makes a candidate is shown. */
  predicate Complete(q: Request) {
    |PacketOf(q).results| == |CandidatesOf(q.rows, Skipped(q))|
  }

  /** A search that takes the unfiltered path and reports that there is no more. */
  predicate SaysNoMore(q: Request) {
    q.limit >= 1 && q.hasTerms && !HasFilters(q.filters) && !PacketOf(q).hasMore
  }

  /** The path never looks beyond `limit + 1` records: there, what it says is true iff no later one counts. */
  lemma {:induction false} UnfilteredIsComplete(q: Request)
    requires SaysNoMore(q)
    ensures Complete(q) <==> forall i :: q.limit < i < |q.rows| ==> !Counts(q.rows[i], SeenIds(q.rows[..i]), Skipped(q))
    ensures |q.rows| <= q.limit + 1 ==> Complete(q)
  {
    NoMoreKeepsCount(q);
    UnfilteredGathersAll(q);
  }

  /** The records a search fetches. */
  function Fetched(q: Request): seq<Row> {
    q.rows[..Min(q.limit + 1, |q.rows|)]
  }

  /** The same search over a store from which it fetches the same records. */
  predicate FetchesTheSame(r: Request, q: Request) {
    r == q.(rows := r.rows) && Fetched(r) == Fetched(q)
  }

  lemma {:induction false} SamePacket(r: Request, q: Request)
    requires SaysNoMore(q) && FetchesTheSame(r, q)
    requires ScopeFits(q.filters, q.fileScope)
    ensures PacketOf(r) == PacketOf(q) && SaysNoMore(r)
  {
    assert GatheredCandidates(r) == GatheredCandidates(q);
  }

  lemma {:induction false} FreshId(rows: seq<Row>) returns (id: Id)
    ensures forall row :: row in rows ==> row.recordId < id
  {
    if rows == [] {
      id := 0;
    } else {
      id := FreshId(rows[..|rows| - 1]);
      id := Max(id, rows[|rows| - 1].recordId + 1);
    }
  }

  lemma {:induction false} ExtraRow(page: seq<Row>, c: Candidate) returns (rows: seq<Row>)
    ensures |rows| == |page| + 1 && rows[..|page|] == page
    ensures Counts(rows[|page|], SeenIds(rows[..|page|]), {})
  {
    var id := FreshId(page);
    rows := page + [Row(id, Some(c))];
    assert rows[..|page|] == page;
    assert id !in SeenIds(page);
  }

  lemma {:induction false} MissesLaterRow(r: Request, i: nat)
    requires SaysNoMore(r) && r.limit < i < |r.rows|
    requires Counts(r.rows[i], SeenIds(r.rows[..i]), Skipped(r))
    ensures !Complete(r)
  {
    UnfilteredIsComplete(r);
  }

  /** Once `limit + 1` records were fetched, one more record can match, and the packet is the same. */
  lemma {:induction false} OneMoreMissed(q: Request, c: Candidate) returns (r: Request)
    requires SaysNoMore(q) && |q.rows| > q.limit
    requires ScopeFits(q.filters, q.fileScope)
    ensures FetchesTheSame(r, q) && PacketOf(r) == PacketOf(q) && !Complete(r)
  {
    var rows := ExtraRow(Fetched(q), c);
    r := q.(rows := rows);
    assert Fetched(r) == rows[..q.limit + 1] == Fetched(q);
    SamePacket(r, q);
    assert Skipped(r) == {};
    MissesLaterRow(r, q.limit + 1);
  }

  /**
   What `has_more == false` guarantees there: that every record is shown, whatever else the store may
   hold, iff fewer records were fetched than asked for.
   */
  lemma {:induction false} UnfilteredGuarantee(q: Request, c: Candidate)
    requires SaysNoMore(q) && ScopeFits(q.filters, q.fileScope)
    ensures (forall r :: FetchesTheSame(r, q) ==> Complete(r)) <==> |Fetched(q)| <= q.limit
  {
    if |Fetched(q)| <= q.limit {
      forall r | FetchesTheSame(r, q)
        ensures Complete(r)
      {
        SamePacket(r, q);
        UnfilteredIsComplete(r);
      }
    } else {
      var r := OneMoreMissed(q, c);
    }
  }

  /** So `has_more == false` can hide a match there: two records that make no candidate, then one that does. */
  lemma {:induction false} UnfilteredCanMiss(q: Request, c: Candidate)
    requires q.hasTerms && !HasFilters(q.filters) && ScopeFits(q.filters, q.fileScope)
    requires q.limit == 1 && q.rows == [Row(1, None), Row(2, None), Row(3, Some(c))]
    ensures CandidatesOf(q.rows, Skipped(q)) == [c]
    ensures PacketOf(q).results == [] && !PacketOf(q).hasMore
  {
    var rows := q.rows;
    assert Skipped(q) == {};
    assert rows[..1] == [rows[0]] && rows[..2][..1] == rows[..1] && rows[..2] == [rows[0], rows[1]];
    assert CandidatesOf(rows[..0], {}) == [];
    CandidatesSnoc(rows, 0, {});
    CandidatesSnoc(rows, 1, {});
    assert CandidatesOf(rows[..2], {}) == [];
    CandidatesSnoc(rows, 2, {});
    assert rows[..3] == rows;
    assert SeenIds(rows[..2]) == {1, 2};
    var cs := RankAndCut([], 1);
    assert cs == [];
    assert ResultsUpTo(cs, q.mode, 0) == [];
  }
}
