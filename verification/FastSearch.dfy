/**
 The fast event search: pages of hits under a scan budget, filtered and clustered on the fly with an
 early exit, against the description without pages, and what its `has_more` is worth.
 */
module FastSearch {
  import opened Wrappers
  import opened Text
  import opened Clusters
  import opened SearchModel
  import opened Filters
  import opened Ranks

  /** The store's two rankings of the hits of a query, and how many events it holds in all. */
  datatype Store = Store(ranked: seq<Hit>, conversationFirst: seq<Hit>, events: nat)

  datatype Options = Options(limit: nat, filters: SearchFilters, mode: ResultMode)

  function Ranking(store: Store, filters: SearchFilters): seq<Hit> {
    if filters.eventType.Some? then store.ranked else store.conversationFirst
  }

  function EventResults(hits: seq<Hit>): (rs: seq<SearchResult>)
    ensures |rs| == |hits|
  {
    seq(|hits|, i requires 0 <= i < |hits| => EventResult(hits[i]))
  }

  function ClusterKeys(hits: seq<Hit>): (keys: seq<Id>)
    ensures |keys| == |hits|
  {
    seq(|hits|, i requires 0 <= i < |hits| => ClusterOfHit(hits[i]))
  }

  /** A clustered result after `n` more hits of its session; its importance is always up to date. */
  function ClusterEntry(r: SearchResult, n: nat): SearchResult {
    r.(scope := ScopeOf(r), more := r.more + n, importance := Of(r.rank, r.more + n))
  }

  /** The results the matching hits `ms` stand for: one a hit, or one a session. */
  function ResultsOf(ms: seq<Hit>, mode: ResultMode): seq<SearchResult> {
    if mode == Sessions then Folded(EventResults(ms), ClusterKeys(ms), ClusterEntry) else EventResults(ms)
  }

  function PageSize(limit: nat, filtered: bool, mode: ResultMode): (size: nat)
    ensures size > limit
  {
    var target := limit + 1;
    if mode == Sessions then Max(FILTERED_SEARCH_PAGE_SIZE, Max(target * 8, 50))
    else if filtered then Max(FILTERED_SEARCH_PAGE_SIZE, target)
    else target
  }

  /** How many hits the pages may cover: the budget, or one page when every hit is a result. */
  function Budget(limit: nat, filtered: bool, mode: ResultMode): nat {
    PageSize(limit, filtered, mode) * if filtered || mode == Sessions then FILTERED_SEARCH_MAX_PAGES else 1
  }

  function Found(hits: seq<Hit>, o: Options, fileScope: Option<FileScope>, n: nat): seq<SearchResult>
    requires n <= |hits|
  {
    ResultsOf(Matching(hits[..n], o.filters, fileScope), o.mode)
  }

  predicate Enough(hits: seq<Hit>, o: Options, fileScope: Option<FileScope>, n: nat)
    requires n <= |hits|
  {
    |Found(hits, o, fileScope, n)| >= o.limit + 1
  }

  /** The scan without pages: one hit at a time, until there is one result more than wanted. */
  function ScanEnd(hits: seq<Hit>, o: Options, fileScope: Option<FileScope>, from: nat, bound: nat): (n: nat)
    requires from <= bound <= |hits|
    ensures from <= n <= bound
    ensures forall k :: from <= k < n ==> !Enough(hits, o, fileScope, k)
    ensures n < bound ==> Enough(hits, o, fileScope, n)
    decreases bound - from
  {
    if from == bound || Enough(hits, o, fileScope, from) then from else ScanEnd(hits, o, fileScope, from + 1, bound)
  }

  /** The hits the fast search looks at. */
  function Consumed(hits: seq<Hit>, o: Options, fileScope: Option<FileScope>): (n: nat)
    ensures n <= |hits|
  {
    ScanEnd(hits, o, fileScope, 0, Min(Budget(o.limit, HasFilters(o.filters), o.mode), |hits|))
  }

  predicate Exhausted(hits: seq<Hit>, o: Options, fileScope: Option<FileScope>) {
    var filtered := HasFilters(o.filters);
    && (filtered || o.mode == Sessions)
    && |Found(hits, o, fileScope, Consumed(hits, o, fileScope))| <= o.limit
    && |hits| >= Budget(o.limit, filtered, o.mode)
  }

  /** The packet made of what was found. */
  function Shown(found: seq<SearchResult>, limit: nat, exhausted: bool): Packet {
    Packet(
      Normalized(found[..Min(limit, |found|)]),
      |found| > limit || exhausted,
      if exhausted then Truncated(ScanBudget, 1)
      else if |found| > limit then Truncated(Limit, 1)
      else Complete)
  }

  /** The packet the fast search stands for, described without pages, index or loop. */
  function FastPacket(hits: seq<Hit>, o: Options, fileScope: Option<FileScope>): Packet {
    Shown(Found(hits, o, fileScope, Consumed(hits, o, fileScope)), o.limit, Exhausted(hits, o, fileScope))
  }

  // ---------------------------------------------------------------- the loops refine the description

  /** The working variables hold what the matching hits so far stand for. */
  ghost predicate Kept(ms: seq<Hit>, mode: ResultMode, results: seq<SearchResult>,
                       clustered: seq<SearchResult>, index: map<Id, nat>) {
    match mode
    case Sessions => results == [] && clustered == ResultsOf(ms, mode) && IndexFits(index, ClusterKeys(ms))
    case Events => clustered == [] && results == ResultsOf(ms, mode)
  }

  lemma {:induction false} SnocResults(ms: seq<Hit>, hit: Hit)
    ensures EventResults(ms + [hit]) == EventResults(ms) + [EventResult(hit)]
    ensures ClusterKeys(ms + [hit]) == ClusterKeys(ms) + [ClusterOfHit(hit)]
  {
  }

  function OneMore(e: SearchResult): SearchResult {
    e.(more := e.more + 1, importance := Of(e.rank, e.more + 1))
  }

  lemma {:induction false} EntryOneMore(r: SearchResult, n: nat)
    ensures OneMore(ClusterEntry(r, n)) == ClusterEntry(r, n + 1)
  {
  }

  /** A hit of a known session only raises the count, and the importance, of its entry. */
  lemma {:induction false} KnownSession(ms: seq<Hit>, hit: Hit, clustered: seq<SearchResult>, index: map<Id, nat>)
    requires Kept(ms, Sessions, [], clustered, index) && ClusterOfHit(hit) in index
    ensures index[ClusterOfHit(hit)] < |clustered|
    ensures
      var i := index[ClusterOfHit(hit)];
      Kept(ms + [hit], Sessions, [], clustered[i := OneMore(clustered[i])], index)
  {
    SnocResults(ms, hit);
    var first, n := FoldKnownStep(EventResults(ms), ClusterKeys(ms), ClusterEntry, index, EventResult(hit), ClusterOfHit(hit));
    EntryOneMore(first, n);
  }

  lemma {:induction false} NewSession(ms: seq<Hit>, hit: Hit, clustered: seq<SearchResult>, index: map<Id, nat>)
    requires Kept(ms, Sessions, [], clustered, index) && ClusterOfHit(hit) !in index
    ensures Kept(ms + [hit], Sessions, [], clustered + [ClusterEntry(EventResult(hit), 0)],
                 index[ClusterOfHit(hit) := |clustered|])
  {
    SnocResults(ms, hit);
    FoldNew(EventResults(ms), ClusterKeys(ms), ClusterEntry, index, EventResult(hit), ClusterOfHit(hit));
  }

  /** One hit of a page that matches. */
  method AddHit(hit: Hit, mode: ResultMode, results0: seq<SearchResult>, clustered0: seq<SearchResult>,
                index0: map<Id, nat>, ghost ms: seq<Hit>)
    returns (results: seq<SearchResult>, clustered: seq<SearchResult>, index: map<Id, nat>)
    requires Kept(ms, mode, results0, clustered0, index0)
    ensures Kept(ms + [hit], mode, results, clustered, index)
  {
    results, clustered, index := results0, clustered0, index0;
    if mode == Sessions {
      var clusterId := ClusterOfHit(hit);
      if clusterId in index {
        KnownSession(ms, hit, clustered, index);
        var i := index[clusterId];
        var existing := clustered[i];
        existing := existing.(more := existing.more + 1);
        existing := existing.(importance := Of(existing.rank, existing.more));
        clustered := clustered[i := existing];
      } else {
        NewSession(ms, hit, clustered, index);
        var result := EventResult(hit);
        result := result.(scope := if result.sessionId.Some? then SessionScope else EventScope);
        result := result.(importance := Of(result.rank, 0));
        index := index[clusterId := |clustered|];
        clustered := clustered + [result];
      }
    } else {
      SnocResults(ms, hit);
      results := results + [EventResult(hit)];
    }
  }

  function Count(mode: ResultMode, results: seq<SearchResult>, clustered: seq<SearchResult>): nat {
    if mode == Sessions then |clustered| else |results|
  }

  /** Where the scan stands after `n` hits. */
  ghost predicate Scanned(hits: seq<Hit>, o: Options, fileScope: Option<FileScope>, n: nat,
                          results: seq<SearchResult>, clustered: seq<SearchResult>, index: map<Id, nat>)
  {
    && n <= |hits|
    && Kept(Matching(hits[..n], o.filters, fileScope), o.mode, results, clustered, index)
    && forall k :: 0 <= k < n ==> !Enough(hits, o, fileScope, k)
  }

  lemma {:induction false} NothingFoundYet(hits: seq<Hit>, o: Options, fileScope: Option<FileScope>)
    ensures Scanned(hits, o, fileScope, 0, [], [], map[])
  {
  }

  lemma {:induction false} ScannedCount(hits: seq<Hit>, o: Options, fileScope: Option<FileScope>, n: nat,
                                        results: seq<SearchResult>, clustered: seq<SearchResult>, index: map<Id, nat>)
    requires Scanned(hits, o, fileScope, n, results, clustered, index)
    ensures n <= |hits|
    ensures Enough(hits, o, fileScope, n) <==> Count(o.mode, results, clustered) >= o.limit + 1
    ensures Found(hits, o, fileScope, n) == if o.mode == Sessions then clustered else results
    ensures forall k :: 0 <= k < n ==> !Enough(hits, o, fileScope, k)
  {
  }

  /** One more hit, when there are not yet enough results. */
  method ConsumeHit(hit: Hit, o: Options, fileScope: Option<FileScope>, results0: seq<SearchResult>,
                    clustered0: seq<SearchResult>, index0: map<Id, nat>, ghost hits: seq<Hit>, ghost n: nat)
    returns (results: seq<SearchResult>, clustered: seq<SearchResult>, index: map<Id, nat>)
    requires n < |hits| && hit == hits[n]
    requires Scanned(hits, o, fileScope, n, results0, clustered0, index0)
    requires Count(o.mode, results0, clustered0) <= o.limit
    ensures Scanned(hits, o, fileScope, n + 1, results, clustered, index)
  {
    results, clustered, index := results0, clustered0, index0;
    MatchingSnoc(hits, n, o.filters, fileScope);
    ScannedCount(hits, o, fileScope, n, results, clustered, index);
    if EventHitMatches(hit, o.filters, fileScope) {
      results, clustered, index := AddHit(hit, o.mode, results, clustered, index, Matching(hits[..n], o.filters, fileScope));
    }
  }

  /** The hits of one page, up to the result that is one too many. */
  method ConsumePage(page: seq<Hit>, o: Options, fileScope: Option<FileScope>, results0: seq<SearchResult>,
                     clustered0: seq<SearchResult>, index0: map<Id, nat>, ghost hits: seq<Hit>, ghost offset: nat)
    returns (results: seq<SearchResult>, clustered: seq<SearchResult>, index: map<Id, nat>, ghost n: nat)
    requires offset + |page| <= |hits| && page == hits[offset..offset + |page|]
    requires Scanned(hits, o, fileScope, offset, results0, clustered0, index0)
    requires Count(o.mode, results0, clustered0) <= o.limit
    ensures offset <= n <= offset + |page|
    ensures Scanned(hits, o, fileScope, n, results, clustered, index)
    ensures n < offset + |page| ==> Count(o.mode, results, clustered) > o.limit
  {
    results, clustered, index := results0, clustered0, index0;
    n := offset;
    for j := 0 to |page|
      invariant n == offset + j && Scanned(hits, o, fileScope, n, results, clustered, index)
      invariant Count(o.mode, results, clustered) <= o.limit
    {
      assert page[j] == hits[n];
      results, clustered, index := ConsumeHit(page[j], o, fileScope, results, clustered, index, hits, n);
      n := n + 1;
      if (if o.mode == Sessions then |clustered| else |results|) >= o.limit + 1 {
        break;
      }
    }
  }

  lemma {:induction false} ScanEndIs(hits: seq<Hit>, o: Options, fileScope: Option<FileScope>, from: nat, n: nat, bound: nat)
    requires from <= n <= bound <= |hits|
    requires forall k :: from <= k < n ==> !Enough(hits, o, fileScope, k)
    requires n == bound || Enough(hits, o, fileScope, n)
    ensures ScanEnd(hits, o, fileScope, from, bound) == n
    decreases n - from
  {
  }

  /** What holds when the page loop is left with `found` results; `covered` hits lie on the pages. */
  ghost predicate Finished(hits: seq<Hit>, o: Options, budget: nat, covered: nat, n: nat, found: nat, exhausted: bool) {
    var budgeted := HasFilters(o.filters) || o.mode == Sessions;
    && covered <= budget
    && n <= Min(covered, |hits|)
    && (n == Min(covered, |hits|) || found > o.limit)
    && if exhausted then budgeted && found <= o.limit && covered == budget <= |hits|
       else found > o.limit || covered > |hits| || (!budgeted && covered == budget)
  }

  /** The page loop stops where the scan without pages does. */
  lemma {:induction false} ScanDone(hits: seq<Hit>, o: Options, fileScope: Option<FileScope>,
                                    results: seq<SearchResult>, clustered: seq<SearchResult>, index: map<Id, nat>,
                                    covered: nat, n: nat, exhausted: bool)
    requires Scanned(hits, o, fileScope, n, results, clustered, index)
    requires Finished(hits, o, Budget(o.limit, HasFilters(o.filters), o.mode), covered, n,
                      Count(o.mode, results, clustered), exhausted)
    ensures Found(hits, o, fileScope, Consumed(hits, o, fileScope)) == if o.mode == Sessions then clustered else results
    ensures Exhausted(hits, o, fileScope) <==> exhausted
  {
    ScannedCount(hits, o, fileScope, n, results, clustered, index);
    ScanEndIs(hits, o, fileScope, 0, n, Min(Budget(o.limit, HasFilters(o.filters), o.mode), |hits|));
  }

  /** One page: fetched at the offset and consumed. */
  method ScanPage(hits: seq<Hit>, o: Options, fileScope: Option<FileScope>, pageSize: nat, offset: nat,
                  results0: seq<SearchResult>, clustered0: seq<SearchResult>, index0: map<Id, nat>)
    returns (results: seq<SearchResult>, clustered: seq<SearchResult>, index: map<Id, nat>,
             pageLen: nat, enoughResults: bool, ghost n: nat)
    requires Scanned(hits, o, fileScope, offset, results0, clustered0, index0)
    requires Count(o.mode, results0, clustered0) <= o.limit
    ensures Scanned(hits, o, fileScope, n, results, clustered, index)
    ensures enoughResults <==> Count(o.mode, results, clustered) > o.limit
    ensures offset + pageLen == Min(offset + pageSize, |hits|)
    ensures if enoughResults then n <= offset + pageLen else n == offset + pageLen
  {
    var page := Page(hits, pageSize, offset);
    pageLen := |page|;
    results, clustered, index, n :=
      ConsumePage(page, o, fileScope, results0, clustered0, index0, hits, offset);
    enoughResults := if o.mode == Sessions then |clustered| >= o.limit + 1 else |results| >= o.limit + 1;
  }

  /** How the loop can be left after a page. */
  lemma {:induction false} LeavesFinished(hits: seq<Hit>, o: Options, pageSize: nat, pages: nat, maxPages: nat,
                                          offset: nat, pageLen: nat, n: nat, found: nat)
    requires maxPages == if HasFilters(o.filters) || o.mode == Sessions then FILTERED_SEARCH_MAX_PAGES else 1
    requires 0 < pages <= maxPages && offset + pageSize == Covered(pages, pageSize) <= Covered(maxPages, pageSize)
    requires offset + pageLen == Min(offset + pageSize, |hits|)
    requires if found > o.limit then n <= offset + pageLen else n == offset + pageLen
    ensures
      var last := maxPages == 1 || found > o.limit || pageLen < pageSize;
      && (last ==> Finished(hits, o, Covered(maxPages, pageSize), offset + pageSize, n, found, false))
      && (!last && pages == maxPages ==>
            Finished(hits, o, Covered(maxPages, pageSize), offset + pageSize, n, found, true))
  {
  }

  /** Between pages: the budget is not spent, and there is not yet one result too many. */
  ghost predicate Between(hits: seq<Hit>, o: Options, fileScope: Option<FileScope>, pageSize: nat, maxPages: nat,
                          pages: nat, offset: nat, results: seq<SearchResult>, clustered: seq<SearchResult>,
                          index: map<Id, nat>)
  {
    && pages < maxPages && offset == Covered(pages, pageSize)
    && Scanned(hits, o, fileScope, offset, results, clustered, index)
    && Count(o.mode, results, clustered) <= o.limit
  }

  /** One pass of the page loop. */
  method NextPage(hits: seq<Hit>, o: Options, fileScope: Option<FileScope>, pageSize: nat, ghost maxPages: nat,
                  pages0: nat, offset0: nat, results0: seq<SearchResult>, clustered0: seq<SearchResult>,
                  index0: map<Id, nat>)
    returns (pages: nat, offset: nat, results: seq<SearchResult>, clustered: seq<SearchResult>, index: map<Id, nat>,
             leave: bool, scanBudgetExhausted: bool, ghost n: nat)
    requires maxPages == if HasFilters(o.filters) || o.mode == Sessions then FILTERED_SEARCH_MAX_PAGES else 1
    requires Between(hits, o, fileScope, pageSize, maxPages, pages0, offset0, results0, clustered0, index0)
    ensures pages == pages0 + 1
    ensures leave ==> Scanned(hits, o, fileScope, n, results, clustered, index)
    ensures leave ==> Finished(hits, o, Covered(maxPages, pageSize), offset0 + pageSize, n,
                               Count(o.mode, results, clustered), scanBudgetExhausted)
    ensures !leave ==> Between(hits, o, fileScope, pageSize, maxPages, pages, offset, results, clustered, index)
  {
    offset, leave, scanBudgetExhausted := offset0, true, false;
    pages := pages0 + 1;
    CoveredGrows(pages, maxPages, pageSize);
    var pageLen, enoughResults;
    results, clustered, index, pageLen, enoughResults, n :=
      ScanPage(hits, o, fileScope, pageSize, offset, results0, clustered0, index0);
    LeavesFinished(hits, o, pageSize, pages, maxPages, offset, pageLen, n, Count(o.mode, results, clustered));
    if !(HasFilters(o.filters) || o.mode == Sessions) || enoughResults || pageLen < pageSize {
      return;
    }
    if pages >= FILTERED_SEARCH_MAX_PAGES {
      scanBudgetExhausted := true;
      return;
    }
    offset := offset + pageSize;
    leave := false;
  }

  /** The page loop. */
  method ScanPages(hits: seq<Hit>, o: Options, fileScope: Option<FileScope>, pageSize: nat, ghost maxPages: nat)
    returns (results: seq<SearchResult>, clustered: seq<SearchResult>, ghost index: map<Id, nat>,
             scanBudgetExhausted: bool, ghost covered: nat, ghost n: nat)
    requires maxPages == if HasFilters(o.filters) || o.mode == Sessions then FILTERED_SEARCH_MAX_PAGES else 1
    ensures Scanned(hits, o, fileScope, n, results, clustered, index)
    ensures Finished(hits, o, Covered(maxPages, pageSize), covered, n, Count(o.mode, results, clustered), scanBudgetExhausted)
  {
    var clusteredIndex: map<Id, nat> := map[];
    results, clustered := [], [];
    var offset: nat, pagesScanned: nat := 0, 0;
    NothingFoundYet(hits, o, fileScope);
    while true
      invariant Between(hits, o, fileScope, pageSize, maxPages, pagesScanned, offset, results, clustered, clusteredIndex)
      decreases maxPages - pagesScanned
    {
      var leave;
      covered := offset + pageSize;
      pagesScanned, offset, results, clustered, clusteredIndex, leave, scanBudgetExhausted, n :=
        NextPage(hits, o, fileScope, pageSize, maxPages, pagesScanned, offset, results, clustered, clusteredIndex);
      if leave {
        break;
      }
    }
    index := clusteredIndex;
  }

  method Show(found: seq<SearchResult>, limit: nat, scanBudgetExhausted: bool) returns (packet: Packet)
    ensures packet == Shown(found, limit, scanBudgetExhausted)
  {
    var hasMore := |found| > limit || scanBudgetExhausted;
    var results := CutAndNormalize(found, limit);
    var truncation :=
      if scanBudgetExhausted then Truncated(ScanBudget, 1)
      else if hasMore then Truncated(Limit, 1)
      else Complete;
    return Packet(results, hasMore, truncation);
  }

  /** `fast_event_search_packet`: `None` sends the caller to the record search. */
  method FastEventSearchPacket(store: Store, query: string, o: Options, fileScope: Option<FileScope>)
    returns (packet: Option<Packet>)
    ensures packet ==
      if Trim(query) == [] || HasHistorySourceFilter(o.filters) || store.events < LARGE_EVENT_CORPUS_THRESHOLD then None
      else if o.filters.eventType.Some? then Some(FastPacket(store.ranked, o, fileScope))
      else Some(FastPacket(store.conversationFirst, o, fileScope))
  {
    if Trim(query) == [] {
      return None;
    }
    if HasHistorySourceFilter(o.filters) {
      return None;
    }
    if store.events < LARGE_EVENT_CORPUS_THRESHOLD {
      return None;
    }
    var hits := Ranking(store, o.filters);
    var filtered := HasFilters(o.filters);
    var pageSize := PageSize(o.limit, filtered, o.mode);
    ghost var maxPages := if filtered || o.mode == Sessions then FILTERED_SEARCH_MAX_PAGES else 1;
    CoveredIsProduct(maxPages, pageSize);
    var results, clustered, index, scanBudgetExhausted, covered, n := ScanPages(hits, o, fileScope, pageSize, maxPages);
    ScanDone(hits, o, fileScope, results, clustered, index, covered, n, scanBudgetExhausted);
    var found := if o.mode == Sessions then clustered else results;
    var shown := Show(found, o.limit, scanBudgetExhausted);
    return Some(shown);
  }
}
