/**
 The record search: pages of records under a scan budget, candidates scored, sorted, cut to one more
 than the limit, and folded by session into results.
 */
module RecordSearch {
  import opened Wrappers
  import opened Text
  import opened Clusters
  import opened SearchModel
  import opened Filters
  import opened Ranks
  import opened Sorting
  import Scoring

  type Candidate = Scoring.Candidate

  /** A record as the store lists it, with the candidate that the filters and the terms make of it. */
  datatype Row = Row(recordId: Id, candidate: Option<Candidate>)

  // ---------------------------------------------------------------- gathering candidates

  function SeenIds(rows: seq<Row>): set<Id> {
    set row | row in rows :: row.recordId
  }

  predicate Counts(row: Row, seen: set<Id>, skip: set<Id>) {
    row.recordId !in seen && row.recordId !in skip && row.candidate.Some?
  }

  /** The candidates of a list of records: of each record the first row, unless it is skipped. */
  function CandidatesOf(rows: seq<Row>, skip: set<Id>): seq<Candidate> {
    if rows == [] then []
    else
      var init, row := rows[..|rows| - 1], rows[|rows| - 1];
      if Counts(row, SeenIds(init), skip) then CandidatesOf(init, skip) + [row.candidate.value]
      else CandidatesOf(init, skip)
  }

  lemma {:induction false} CandidatesSnoc(rows: seq<Row>, n: nat, skip: set<Id>)
    requires n < |rows|
    ensures SeenIds(rows[..n + 1]) == SeenIds(rows[..n]) + {rows[n].recordId}
    ensures CandidatesOf(rows[..n + 1], skip) ==
      if Counts(rows[n], SeenIds(rows[..n]), skip) then CandidatesOf(rows[..n], skip) + [rows[n].candidate.value]
      else CandidatesOf(rows[..n], skip)
  {
    assert rows[..n + 1][..n] == rows[..n];
    assert rows[..n + 1] == rows[..n] + [rows[n]];
  }

  ghost predicate Gathered(rows: seq<Row>, n: nat, skip: set<Id>, seen: set<Id>, candidates: seq<Candidate>) {
    n <= |rows| && seen == SeenIds(rows[..n]) && candidates == CandidatesOf(rows[..n], skip)
  }

  method GatherRow(row: Row, skip: set<Id>, seen0: set<Id>, candidates0: seq<Candidate>, ghost rows: seq<Row>, ghost n: nat)
    returns (seen: set<Id>, candidates: seq<Candidate>)
    requires n < |rows| && row == rows[n] && Gathered(rows, n, skip, seen0, candidates0)
    ensures Gathered(rows, n + 1, skip, seen, candidates)
  {
    seen, candidates := seen0, candidates0;
    CandidatesSnoc(rows, n, skip);
    if row.recordId in seen {
      assert seen + {row.recordId} == seen;
      return;
    }
    seen := seen + {row.recordId};
    if row.recordId in skip {
      return;
    }
    if row.candidate.Some? {
      candidates := candidates + [row.candidate.value];
    }
  }

  method GatherPage(rows: seq<Row>, size: nat, offset: nat, skip: set<Id>, seen0: set<Id>, candidates0: seq<Candidate>)
    returns (seen: set<Id>, candidates: seq<Candidate>, pageLen: nat)
    requires Gathered(rows, offset, skip, seen0, candidates0)
    ensures offset + pageLen == Min(offset + size, |rows|)
    ensures Gathered(rows, offset + pageLen, skip, seen, candidates)
  {
    seen, candidates := seen0, candidates0;
    var page := Page(rows, size, offset);
    for j := 0 to |page|
      invariant Gathered(rows, offset + j, skip, seen, candidates)
    {
      seen, candidates := GatherRow(page[j], skip, seen, candidates, rows, offset + j);
    }
    pageLen := |page|;
  }

  // ---------------------------------------------------------------- the filtered page loop

  function RecordPageSize(limit: nat): nat {
    Max(FILTERED_SEARCH_PAGE_SIZE, limit + 1)
  }

  /** The rows on the first `pages` pages. */
  function RowsRead(rows: seq<Row>, limit: nat, pages: nat): (n: nat)
    ensures n <= |rows|
  {
    Min(Covered(pages, RecordPageSize(limit)), |rows|)
  }

  predicate EnoughCandidates(rows: seq<Row>, skip: set<Id>, limit: nat, pages: nat) {
    |CandidatesOf(rows[..RowsRead(rows, limit, pages)], skip)| >= limit + 1
  }

  predicate LastPage(rows: seq<Row>, limit: nat, pages: nat) {
    Covered(pages, RecordPageSize(limit)) > |rows|
  }

  /** The pages read: until there are enough candidates, the rows end, or the budget does. */
  function PagesRead(rows: seq<Row>, skip: set<Id>, limit: nat, pages: nat): (last: nat)
    requires pages <= FILTERED_SEARCH_MAX_PAGES
    ensures pages <= last <= FILTERED_SEARCH_MAX_PAGES
    ensures EnoughCandidates(rows, skip, limit, last) || LastPage(rows, limit, last) || last == FILTERED_SEARCH_MAX_PAGES
    decreases FILTERED_SEARCH_MAX_PAGES - pages
  {
    if EnoughCandidates(rows, skip, limit, pages) || LastPage(rows, limit, pages) || pages == FILTERED_SEARCH_MAX_PAGES
    then pages else PagesRead(rows, skip, limit, pages + 1)
  }

  function FilteredCandidates(rows: seq<Row>, skip: set<Id>, limit: nat): seq<Candidate> {
    CandidatesOf(rows[..RowsRead(rows, limit, PagesRead(rows, skip, limit, 1))], skip)
  }

  predicate BudgetExhausted(rows: seq<Row>, skip: set<Id>, limit: nat) {
    var pages := PagesRead(rows, skip, limit, 1);
    !EnoughCandidates(rows, skip, limit, pages) && !LastPage(rows, limit, pages)
  }

  /** What holds when the page loop is left after `pages` pages. */
  ghost predicate Finished(rows: seq<Row>, skip: set<Id>, limit: nat, pages: nat) {
    && 1 <= pages <= FILTERED_SEARCH_MAX_PAGES
    && (EnoughCandidates(rows, skip, limit, pages) || LastPage(rows, limit, pages) || pages == FILTERED_SEARCH_MAX_PAGES)
    && NoStop(rows, skip, limit, pages)
  }

  ghost predicate NoStop(rows: seq<Row>, skip: set<Id>, limit: nat, pages: nat) {
    forall k :: 1 <= k < pages ==> !Stops(rows, skip, limit, k)
  }

  ghost predicate Stops(rows: seq<Row>, skip: set<Id>, limit: nat, k: nat) {
    EnoughCandidates(rows, skip, limit, k) || LastPage(rows, limit, k)
  }

  lemma {:induction false} PagesReadIs(rows: seq<Row>, skip: set<Id>, limit: nat, from: nat, pages: nat)
    requires Finished(rows, skip, limit, pages) && 1 <= from <= pages
    ensures PagesRead(rows, skip, limit, from) == pages
    decreases pages - from
  {
    if from < pages {
      assert !Stops(rows, skip, limit, from);
      PagesReadIs(rows, skip, limit, from + 1, pages);
    }
  }

  /** One page; `enough` and `last` are the loop's two reasons to stop. */
  method ScanRecordPage(rows: seq<Row>, skip: set<Id>, limit: nat, ghost pages: nat, offset: nat,
                        seen0: set<Id>, candidates0: seq<Candidate>)
    returns (seen: set<Id>, candidates: seq<Candidate>, enough: bool, last: bool)
    requires offset == Covered(pages, RecordPageSize(limit)) && Gathered(rows, offset, skip, seen0, candidates0)
    ensures candidates == CandidatesOf(rows[..RowsRead(rows, limit, pages + 1)], skip)
    ensures enough <==> EnoughCandidates(rows, skip, limit, pages + 1)
    ensures last <==> LastPage(rows, limit, pages + 1)
    ensures !last ==> Gathered(rows, offset + RecordPageSize(limit), skip, seen, candidates)
  {
    var pageSize := RecordPageSize(limit);
    var pageLen;
    seen, candidates, pageLen := GatherPage(rows, pageSize, offset, skip, seen0, candidates0);
    assert offset + pageLen == RowsRead(rows, limit, pages + 1);
    enough, last := |candidates| >= limit + 1, pageLen < pageSize;
  }

  method ScanRecordPages(rows: seq<Row>, skip: set<Id>, limit: nat)
    returns (candidates: seq<Candidate>, scanBudgetExhausted: bool, ghost pages: nat)
    ensures Finished(rows, skip, limit, pages)
    ensures candidates == CandidatesOf(rows[..RowsRead(rows, limit, pages)], skip)
    ensures scanBudgetExhausted <==> !Stops(rows, skip, limit, pages)
  {
    var seen: set<Id> := {};
    candidates := [];
    var offset, pagesScanned := 0, 0;
    scanBudgetExhausted := false;
    assert Gathered(rows, 0, skip, {}, []);
    while true
      invariant pagesScanned < FILTERED_SEARCH_MAX_PAGES
      invariant offset == Covered(pagesScanned, RecordPageSize(limit))
      invariant !scanBudgetExhausted
      invariant Gathered(rows, offset, skip, seen, candidates)
      invariant NoStop(rows, skip, limit, pagesScanned + 1)
      decreases FILTERED_SEARCH_MAX_PAGES - pagesScanned
    {
      var enough, last;
      seen, candidates, enough, last := ScanRecordPage(rows, skip, limit, pagesScanned, offset, seen, candidates);
      pagesScanned := pagesScanned + 1;
      assert enough || last <==> Stops(rows, skip, limit, pagesScanned);
      if enough || last {
        break;
      }
      if pagesScanned >= FILTERED_SEARCH_MAX_PAGES {
        scanBudgetExhausted := true;
        break;
      }
      offset := offset + RecordPageSize(limit);
    }
    pages := pagesScanned;
  }

  method ScanRecords(rows: seq<Row>, skip: set<Id>, limit: nat)
    returns (candidates: seq<Candidate>, scanBudgetExhausted: bool)
    ensures candidates == FilteredCandidates(rows, skip, limit)
    ensures scanBudgetExhausted <==> BudgetExhausted(rows, skip, limit)
  {
    ghost var pages;
    candidates, scanBudgetExhausted, pages := ScanRecordPages(rows, skip, limit);
    PagesReadIs(rows, skip, limit, 1, pages);
  }

  // ---------------------------------------------------------------- ranking

  /** `compare_candidates(a, b) != Greater`. */
  predicate NotAfter(a: Candidate, b: Candidate) {
    if a.score != b.score then a.score > b.score
    else if a.updatedAt != b.updatedAt then a.updatedAt > b.updatedAt
    else if a.title != b.title then a.title < b.title
    else a.recordId <= b.recordId
  }

  function RankAndCut(gathered: seq<Candidate>, limit: nat): (cs: seq<Candidate>)
    ensures |cs| == Min(limit + 1, |gathered|)
  {
    SortBy(Scoring.Normalized(gathered), NotAfter)[..Min(limit + 1, |gathered|)]
  }

  /** What a search looks at: the store's rows for the query, and those of the file scope by record id. */
  datatype Request = Request(
    rows: seq<Row>, fileRows: seq<Row>, hasTerms: bool, filters: SearchFilters, fileScope: Option<FileScope>,
    limit: nat, mode: ResultMode)

  /** Records outside the file scope; a scope without records excludes none when there are filters. */
  function Skipped(q: Request): set<Id> {
    match q.fileScope
    case None => {}
    case Some(scope) =>
      if HasFilters(q.filters) && scope.records == {} then {}
      else SeenIds(q.rows) - scope.records
  }

  function GatheredCandidates(q: Request): seq<Candidate> {
    if !q.hasTerms then (if q.fileScope.None? then [] else CandidatesOf(q.fileRows, {}))
    else if HasFilters(q.filters) then FilteredCandidates(q.rows, Skipped(q), q.limit)
    else CandidatesOf(q.rows[..Min(q.limit + 1, |q.rows|)], Skipped(q))
  }

  predicate ScanExhausted(q: Request) {
    q.hasTerms && HasFilters(q.filters) && BudgetExhausted(q.rows, Skipped(q), q.limit)
  }

  method RankedCandidates(q: Request) returns (candidates: seq<Candidate>, scanBudgetExhausted: bool)
    ensures candidates == RankAndCut(GatheredCandidates(q), q.limit)
    ensures scanBudgetExhausted <==> ScanExhausted(q)
  {
    var targetCandidates := q.limit + 1;
    scanBudgetExhausted := false;
    var fileOnly := !q.hasTerms && q.fileScope.Some?;
    if !q.hasTerms && !fileOnly {
      return [], false;
    }
    var gathered, seen, pageLen;
    if fileOnly {
      assert Gathered(q.fileRows, 0, {}, {}, []);
      seen, gathered, pageLen := GatherPage(q.fileRows, |q.fileRows|, 0, {}, {}, []);
      assert q.fileRows[..|q.fileRows|] == q.fileRows;
    } else if HasFilters(q.filters) {
      gathered, scanBudgetExhausted := ScanRecords(q.rows, Skipped(q), q.limit);
    } else {
      assert Gathered(q.rows, 0, Skipped(q), {}, []);
      seen, gathered, pageLen := GatherPage(q.rows, targetCandidates, 0, Skipped(q), {}, []);
    }
    candidates := Rank(gathered, q.limit);
  }

  method Rank(gathered: seq<Candidate>, limit: nat) returns (candidates: seq<Candidate>)
    ensures candidates == RankAndCut(gathered, limit)
  {
    var a := new Candidate[|gathered|](i requires 0 <= i < |gathered| => gathered[i]);
    assert a[..] == gathered;
    Scoring.NormalizeScores(a);
    candidates := SortBy(a[..], NotAfter);
    ghost var sorted := candidates;
    if |candidates| > limit + 1 {
      candidates := candidates[..limit + 1];
    }
    assert candidates == sorted[..Min(limit + 1, |sorted|)];
  }

  // ---------------------------------------------------------------- from candidates to results

  /** `candidate_search_result`: nothing is folded into it yet. */
  function ResultOf(c: Candidate): SearchResult {
    c.result.(rank := c.score, scope := EventScope, more := 0, importance := Zero)
  }

  function CandidateResults(cs: seq<Candidate>): (rs: seq<SearchResult>)
    ensures |rs| == |cs|
  {
    seq(|cs|, i requires 0 <= i < |cs| => ResultOf(cs[i]))
  }

  function ClusterOfResult(r: SearchResult): Id {
    r.sessionId.UnwrapOr(r.recordId)
  }

  function ClusterIds(rs: seq<SearchResult>): (keys: seq<Id>)
    ensures |keys| == |rs|
  {
    seq(|rs|, i requires 0 <= i < |rs| => ClusterOfResult(rs[i]))
  }

  function Opened(r: SearchResult): SearchResult {
    if r.sessionId.Some? then r.(scope := SessionScope, importance := Of(r.rank, 0)) else r
  }

  function RecordEntry(r: SearchResult, n: nat): SearchResult {
    if n == 0 then Opened(r) else Opened(r).(more := r.more + n, importance := Of(r.rank, r.more + n))
  }

  /** The results of the first `n` candidates. */
  function ResultsUpTo(cs: seq<Candidate>, mode: ResultMode, n: nat): seq<SearchResult>
    requires n <= |cs|
  {
    var rs := CandidateResults(cs[..n]);
    if mode == Sessions then Folded(rs, ClusterIds(rs), RecordEntry) else rs
  }

  predicate Full(cs: seq<Candidate>, mode: ResultMode, limit: nat, n: nat)
    requires n <= |cs|
  {
    |ResultsUpTo(cs, mode, n)| >= limit
  }

  /** The candidates consumed before the result list is full. */
  function Used(cs: seq<Candidate>, mode: ResultMode, limit: nat, from: nat): (n: nat)
    requires from <= |cs|
    ensures from <= n <= |cs|
    decreases |cs| - from
  {
    if from == |cs| || Full(cs, mode, limit, from) then from else Used(cs, mode, limit, from + 1)
  }

  lemma {:induction false} UsedStops(cs: seq<Candidate>, mode: ResultMode, limit: nat, from: nat, k: nat)
    requires from <= |cs| && from <= k <= Used(cs, mode, limit, from)
    ensures k < Used(cs, mode, limit, from) ==> !Full(cs, mode, limit, k)
    ensures k == Used(cs, mode, limit, from) < |cs| ==> Full(cs, mode, limit, k)
    decreases |cs| - from
  {
    if from < |cs| && !Full(cs, mode, limit, from) {
      assert Used(cs, mode, limit, from) == Used(cs, mode, limit, from + 1);
      if from < k {
        UsedStops(cs, mode, limit, from + 1, k);
      }
    } else {
      assert Used(cs, mode, limit, from) == from;
    }
  }

  function PushedResults(cs: seq<Candidate>, mode: ResultMode, limit: nat): seq<SearchResult> {
    ResultsUpTo(cs, mode, Used(cs, mode, limit, 0))
  }

  function RecordPacket(cs: seq<Candidate>, exhausted: bool, mode: ResultMode, limit: nat): Packet {
    var results := PushedResults(cs, mode, limit);
    Packet(
      results, |cs| > |results| || exhausted,
      if exhausted then Truncated(ScanBudget, 1)
      else if |cs| > |results| then Truncated(Limit, |cs| - |results|)
      else Complete)
  }

  // ---------------------------------------------------------------- pushing results

  ghost predicate Pushed(cs: seq<Candidate>, mode: ResultMode, n: nat, results: seq<SearchResult>, index: map<Id, nat>) {
    && n <= |cs|
    && results == ResultsUpTo(cs, mode, n)
    && (mode == Sessions ==> IndexFits(index, ClusterIds(CandidateResults(cs[..n]))))
  }

  lemma {:induction false} ResultsSnoc(cs: seq<Candidate>, n: nat)
    requires n < |cs|
    ensures CandidateResults(cs[..n + 1]) == CandidateResults(cs[..n]) + [ResultOf(cs[n])]
    ensures ClusterIds(CandidateResults(cs[..n + 1])) ==
            ClusterIds(CandidateResults(cs[..n])) + [ClusterOfResult(ResultOf(cs[n]))]
  {
  }

  function OneMore(e: SearchResult): SearchResult {
    e.(more := e.more + 1, importance := Of(e.rank, e.more + 1))
  }

  lemma {:induction false} EntryOneMore(r: SearchResult, n: nat)
    ensures OneMore(RecordEntry(r, n)) == RecordEntry(r, n + 1)
  {
  }

  lemma {:induction false} PushKnown(cs: seq<Candidate>, n: nat, results: seq<SearchResult>, index: map<Id, nat>)
    requires n < |cs| && Pushed(cs, Sessions, n, results, index) && ClusterOfResult(ResultOf(cs[n])) in index
    ensures
      var i := index[ClusterOfResult(ResultOf(cs[n]))];
      i < |results| && Pushed(cs, Sessions, n + 1, results[i := OneMore(results[i])], index)
  {
    ResultsSnoc(cs, n);
    var rs, r := CandidateResults(cs[..n]), ResultOf(cs[n]);
    var first, count := FoldKnownStep(rs, ClusterIds(rs), RecordEntry, index, r, ClusterOfResult(r));
    EntryOneMore(first, count);
  }

  lemma {:induction false} PushNew(cs: seq<Candidate>, n: nat, results: seq<SearchResult>, index: map<Id, nat>)
    requires n < |cs| && Pushed(cs, Sessions, n, results, index) && ClusterOfResult(ResultOf(cs[n])) !in index
    ensures Pushed(cs, Sessions, n + 1, results + [Opened(ResultOf(cs[n]))],
                   index[ClusterOfResult(ResultOf(cs[n])) := |results|])
  {
    ResultsSnoc(cs, n);
    var rs, r := CandidateResults(cs[..n]), ResultOf(cs[n]);
    FoldNew(rs, ClusterIds(rs), RecordEntry, index, r, ClusterOfResult(r));
    assert RecordEntry(r, 0) == Opened(r);
  }

  method PushOne(cs: seq<Candidate>, n: nat, mode: ResultMode, results0: seq<SearchResult>, index0: map<Id, nat>)
    returns (results: seq<SearchResult>, index: map<Id, nat>)
    requires n < |cs| && Pushed(cs, mode, n, results0, index0)
    ensures Pushed(cs, mode, n + 1, results, index)
  {
    results, index := results0, index0;
    var result := ResultOf(cs[n]);
    if mode == Sessions {
      var clusterId := ClusterOfResult(result);
      if clusterId in index {
        PushKnown(cs, n, results, index);
        var existing := results[index[clusterId]];
        existing := existing.(more := existing.more + 1);
        existing := existing.(importance := Of(existing.rank, existing.more));
        results := results[index[clusterId] := existing];
        return;
      }
      PushNew(cs, n, results, index);
      if result.sessionId.Some? {
        result := result.(scope := SessionScope);
        result := result.(importance := Of(result.rank, 0));
      }
      index := index[clusterId := |results|];
    } else {
      ResultsSnoc(cs, n);
    }
    results := results + [result];
  }

  method PushCandidateResults(cs: seq<Candidate>, mode: ResultMode, limit: nat) returns (results: seq<SearchResult>)
    requires limit >= 1
    ensures results == PushedResults(cs, mode, limit)
  {
    results := [];
    var index: map<Id, nat> := map[];
    NothingPushed(cs, mode);
    for n := 0 to |cs|
      invariant Pushed(cs, mode, n, results, index)
      invariant !Full(cs, mode, limit, n)
      invariant Used(cs, mode, limit, 0) == Used(cs, mode, limit, n)
    {
      results, index := PushOne(cs, n, mode, results, index);
      if |results| >= limit {
        return;
      }
    }
  }

  lemma {:induction false} NothingPushed(cs: seq<Candidate>, mode: ResultMode)
    ensures Pushed(cs, mode, 0, [], map[])
  {
  }

  /** `search_packet` where the fast search does not apply. */
  method SearchPacket(q: Request) returns (packet: Packet)
    requires q.limit >= 1
    ensures packet == RecordPacket(RankAndCut(GatheredCandidates(q), q.limit), ScanExhausted(q), q.mode, q.limit)
  {
    var candidates, scanBudgetExhausted := RankedCandidates(q);
    var results := PushCandidateResults(candidates, q.mode, q.limit);
    var hasMore := |candidates| > |results| || scanBudgetExhausted;
    var truncation := Complete;
    if scanBudgetExhausted {
      truncation := Truncated(ScanBudget, 1);
    } else if |candidates| > |results| {
      truncation := Truncated(Limit, |candidates| - |results|);
    }
    return Packet(results, hasMore, truncation);
  }
}
