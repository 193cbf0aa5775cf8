/** What a packet of the fast search is worth to its reader. */
module FastLaws {
  import opened Wrappers
  import opened Clusters
  import opened SearchModel
  import opened Filters
  import opened MatchCounts
  import opened Ranks
  import opened FastSearch

  /** The hits a packet was made of. */
  function Seen(hits: seq<Hit>, o: Options, fileScope: Option<FileScope>): seq<Hit> {
    Matching(hits[..Consumed(hits, o, fileScope)], o.filters, fileScope)
  }

  /** The cluster a hit or a result stands for: its session in Sessions mode, itself in Events mode. */
  function KeyOf(hit: Hit, mode: ResultMode): Id {
    if mode == Sessions then ClusterOfHit(hit) else hit.eventId
  }

  function KeyOfResult(r: SearchResult, mode: ResultMode): Id {
    if mode == Sessions then r.sessionId.UnwrapOr(r.recordId) else r.recordId
  }

  predicate Shows(p: Packet, hit: Hit, mode: ResultMode) {
    exists r :: r in p.results && KeyOfResult(r, mode) == KeyOf(hit, mode)
  }

  /**
   The clusters come in order of first occurrence, each represented by its earliest matching hit, with
   the number of its other hits among those seen.
   */
  lemma {:induction false} ClusteredResults(hits: seq<Hit>, o: Options, fileScope: Option<FileScope>, i: nat)
    requires o.mode == Sessions && i < |FastPacket(hits, o, fileScope).results|
    ensures
      var ms := Seen(hits, o, fileScope);
      var keys := ClusterKeys(ms);
      var r := FastPacket(hits, o, fileScope).results[i];
      && i < |Firsts(keys)|
      && var p := Firsts(keys)[i];
      && ShowsHit(r, ms[p]) && r.why == [EventReason(ms[p].eventType)]
      && (r.scope == SessionScope <==> r.sessionId.Some?)
      && (r.scope == SessionScope ==> r.importance == Of(r.rank, r.more))
      && r.more + 1 == Times(keys, keys[p]) && KeyOfResult(r, Sessions) == keys[p]
      && keys[p] == ClusterOfHit(ms[p]) && keys[p] !in keys[..p]
  {
    var ms := Seen(hits, o, fileScope);
    var keys := ClusterKeys(ms);
    var found := Found(hits, o, fileScope, Consumed(hits, o, fileScope));
    var shown := found[..Min(o.limit, |found|)];
    NormalizedKeeps(shown);
    assert SameButRank(shown[i], Normalized(shown)[i]);
    assert shown[i] == FoldedEntry(EventResults(ms), keys, ClusterEntry, i);
    TimesOfMember(keys, keys[Firsts(keys)[i]]);
  }

  /** Without clusters the results are the matching hits themselves, in order. */
  lemma {:induction false} EventResultsInOrder(hits: seq<Hit>, o: Options, fileScope: Option<FileScope>, i: nat)
    requires o.mode == Events && i < |FastPacket(hits, o, fileScope).results|
    ensures i < |Seen(hits, o, fileScope)|
    ensures ShowsHit(FastPacket(hits, o, fileScope).results[i], Seen(hits, o, fileScope)[i])
    ensures FastPacket(hits, o, fileScope).results[i].more == 0
  {
  }

  /** Before truncation, 1 plus the extra count, summed over the results, is the matching hits consumed. */
  lemma {:induction false} CountsAddUp(hits: seq<Hit>, o: Options, fileScope: Option<FileScope>)
    ensures Matches(Found(hits, o, fileScope, Consumed(hits, o, fileScope))) == |Seen(hits, o, fileScope)|
  {
    var ms := Seen(hits, o, fileScope);
    var openers := EventResults(ms);
    if o.mode == Sessions {
      var keys := ClusterKeys(ms);
      var found := ResultsOf(ms, Sessions);
      var firsts := seq(|Firsts(keys)|, i requires 0 <= i < |Firsts(keys)| => openers[Firsts(keys)[i]]);
      forall i | 0 <= i < |found|
        ensures found[i].more + 1 == firsts[i].more + Times(keys, keys[Firsts(keys)[i]])
      {
        assert found[i] == FoldedEntry(openers, keys, ClusterEntry, i);
        TimesOfMember(keys, keys[Firsts(keys)[i]]);
      }
      MatchesOfEntries(found, keys, firsts);
      MatchesOfFresh(firsts);
    } else {
      MatchesOfFresh(openers);
    }
  }

  /** If nothing more was found and the budget lasted, the whole corpus has been read. */
  lemma {:induction false} CompleteScan(hits: seq<Hit>, o: Options, fileScope: Option<FileScope>)
    requires ScopeFits(o.filters, fileScope)
    requires !FastPacket(hits, o, fileScope).hasMore
    ensures Consumed(hits, o, fileScope) == |hits|
  {
    var n := Consumed(hits, o, fileScope);
    var filtered := HasFilters(o.filters);
    var budget := Budget(o.limit, filtered, o.mode);
    assert !Enough(hits, o, fileScope, n);
    assert n == Min(budget, |hits|);
    if !filtered && o.mode == Events {
      NoFiltersKeepAll(hits[..n], o.filters, fileScope);
      assert |Found(hits, o, fileScope, n)| == n;
      assert budget > o.limit;
    }
  }

  /** A hit that was seen has its result, unless its result was cut off. */
  lemma {:induction false} SeenHasResult(hits: seq<Hit>, o: Options, fileScope: Option<FileScope>, p: nat) returns (i: nat)
    requires p < |Seen(hits, o, fileScope)|
    ensures i < |Found(hits, o, fileScope, Consumed(hits, o, fileScope))|
    ensures i < |FastPacket(hits, o, fileScope).results| ==>
      KeyOfResult(FastPacket(hits, o, fileScope).results[i], o.mode) == KeyOf(Seen(hits, o, fileScope)[p], o.mode)
  {
    var ms := Seen(hits, o, fileScope);
    if o.mode == Sessions {
      i := FirstsCover(ClusterKeys(ms), p);
      if i < |FastPacket(hits, o, fileScope).results| {
        ClusteredResults(hits, o, fileScope, i);
      }
    } else {
      i := p;
      if i < |FastPacket(hits, o, fileScope).results| {
        EventResultsInOrder(hits, o, fileScope, i);
      }
    }
  }

  /** `has_more == false` is the truth: every matching hit of the corpus is shown by some result. */
  lemma {:induction false} NoMoreMeansAll(hits: seq<Hit>, o: Options, fileScope: Option<FileScope>, hit: Hit)
    requires ScopeFits(o.filters, fileScope)
    requires !FastPacket(hits, o, fileScope).hasMore
    requires hit in hits && EventHitMatches(hit, o.filters, fileScope)
    ensures Shows(FastPacket(hits, o, fileScope), hit, o.mode)
  {
    CompleteScan(hits, o, fileScope);
    assert hits[..|hits|] == hits;
    MatchingMembers(hits, o.filters, fileScope, hit);
    var p :| 0 <= p < |Seen(hits, o, fileScope)| && Seen(hits, o, fileScope)[p] == hit;
    var i := SeenHasResult(hits, o, fileScope, p);
    var found := Found(hits, o, fileScope, Consumed(hits, o, fileScope));
    assert |found[..Min(o.limit, |found|)]| == |found|;
    assert FastPacket(hits, o, fileScope).results[i] in FastPacket(hits, o, fileScope).results;
  }

  /** And then the counts shown add up to all the matching hits of the corpus. */
  lemma {:induction false} NoMoreCountsAll(hits: seq<Hit>, o: Options, fileScope: Option<FileScope>)
    requires ScopeFits(o.filters, fileScope)
    requires !FastPacket(hits, o, fileScope).hasMore
    ensures Matches(FastPacket(hits, o, fileScope).results) == |Matching(hits, o.filters, fileScope)|
  {
    CompleteScan(hits, o, fileScope);
    CountsAddUp(hits, o, fileScope);
    assert hits[..|hits|] == hits;
    var found := Found(hits, o, fileScope, Consumed(hits, o, fileScope));
    assert found[..Min(o.limit, |found|)] == found;
    NormalizedKeeps(found);
    forall i | 0 <= i < |found|
      ensures found[i].more == Normalized(found)[i].more
    {
      assert SameButRank(found[i], Normalized(found)[i]);
    }
    MatchesOfSameCounts(found, Normalized(found));
  }

  /** Reason "limit" is the truth: some matching hit is shown by no result. */
  lemma {:induction false} LimitMeansAnother(hits: seq<Hit>, o: Options, fileScope: Option<FileScope>) returns (hit: Hit)
    requires FastPacket(hits, o, fileScope).truncation == Truncated(Limit, 1)
    requires o.mode == Sessions || DistinctEvents(hits)
    ensures hit in hits && EventHitMatches(hit, o.filters, fileScope)
    ensures !Shows(FastPacket(hits, o, fileScope), hit, o.mode)
  {
    var packet := FastPacket(hits, o, fileScope);
    var n := Consumed(hits, o, fileScope);
    var ms := Seen(hits, o, fileScope);
    var l := o.limit;
    assert |packet.results| == l < |Found(hits, o, fileScope, n)|;
    var p: nat := if o.mode == Sessions then Firsts(ClusterKeys(ms))[l] else l;
    hit := ms[p];
    assert hit in ms;
    MatchingMembers(hits[..n], o.filters, fileScope, hit);
    forall r | r in packet.results
      ensures KeyOfResult(r, o.mode) != KeyOf(hit, o.mode)
    {
      var i :| 0 <= i < |packet.results| && packet.results[i] == r;
      if o.mode == Sessions {
        ClusteredResults(hits, o, fileScope, i);
        FirstsDistinct(ClusterKeys(ms), i, l);
      } else {
        EventResultsInOrder(hits, o, fileScope, i);
        MatchingDistinct(hits[..n], o.filters, fileScope, i, l);
      }
    }
  }

  /** No event is listed twice by the store. */
  ghost predicate DistinctEvents(hits: seq<Hit>) {
    forall i, j :: 0 <= i < j < |hits| ==> hits[i].eventId != hits[j].eventId
  }

  lemma {:induction false} MatchingDistinct(hits: seq<Hit>, filters: SearchFilters, fileScope: Option<FileScope>, i: nat, j: nat)
    requires DistinctEvents(hits) && i < j < |Matching(hits, filters, fileScope)|
    ensures Matching(hits, filters, fileScope)[i].eventId != Matching(hits, filters, fileScope)[j].eventId
  {
    var n := |hits| - 1;
    var init := Matching(hits[..n], filters, fileScope);
    if j < |init| {
      MatchingDistinct(hits[..n], filters, fileScope, i, j);
    } else {
      MatchingMembers(hits[..n], filters, fileScope, init[i]);
    }
  }

  /** Reason "scan_budget" is the truth too: all the pages the budget allows were read, without enough results. */
  lemma {:induction false} ScanBudgetMeansBudget(hits: seq<Hit>, o: Options, fileScope: Option<FileScope>)
    requires FastPacket(hits, o, fileScope).truncation == Truncated(ScanBudget, 1)
    ensures Consumed(hits, o, fileScope) == FILTERED_SEARCH_MAX_PAGES * PageSize(o.limit, HasFilters(o.filters), o.mode)
    ensures Consumed(hits, o, fileScope) >= 10_000 && Consumed(hits, o, fileScope) > 20 * o.limit
    ensures |FastPacket(hits, o, fileScope).results| <= o.limit
  {
  }
}
