/**
 Hybrid search: two ranked lists fused by reciprocal rank, sorted, clustered by session, cut off and
 normalised.
 */
module Hybrid {
  import opened Wrappers
  import opened Text
  import opened Clusters
  import opened SearchModel
  import opened Filters
  import opened Ranks
  import opened Sorting
  import FastSearch

  datatype SemanticHit = SemanticHit(hit: Hit, similarity: real)

  datatype Candidate = Candidate(
    result: SearchResult, lexicalScore: Option<real>, semanticScore: Option<real>, occurredAt: int, seqNo: nat)

  type Candidates = map<Id, Candidate>

  function ReciprocalRank(rank: nat): (r: real)
    ensures 0.0 < r < 1.0
  {
    1.0 / (60.0 + Max(rank, 1) as real)
  }

  function MaxReal(a: real, b: real): real {
    if a > b then a else b
  }

  // ---------------------------------------------------------------- the lexical list

  function LexicalCandidate(hit: Hit, rank: nat): Candidate {
    Candidate(EventResult(hit), Some(ReciprocalRank(rank)), None, hit.occurredAt, hit.seqNo)
  }

  /** Later hits of the same event overwrite earlier ones. */
  function LexicalMap(ms: seq<Hit>): Candidates {
    if ms == [] then map[]
    else
      var last := ms[|ms| - 1];
      LexicalMap(ms[..|ms| - 1])[last.eventId := LexicalCandidate(last, |ms|)]
  }

  method AddLexical(page: seq<Hit>, filters: SearchFilters, fileScope: Option<FileScope>) returns (candidates: Candidates)
    ensures candidates == LexicalMap(Matching(page, filters, fileScope))
  {
    candidates := map[];
    var lexicalRank := 0;
    for j := 0 to |page|
      invariant lexicalRank == |Matching(page[..j], filters, fileScope)|
      invariant candidates == LexicalMap(Matching(page[..j], filters, fileScope))
    {
      var hit := page[j];
      MatchingSnoc(page, j, filters, fileScope);
      if !EventHitMatches(hit, filters, fileScope) {
        continue;
      }
      lexicalRank := lexicalRank + 1;
      ghost var ms := Matching(page[..j], filters, fileScope);
      assert (ms + [hit])[..|ms|] == ms;
      candidates := candidates[hit.eventId := LexicalCandidate(hit, lexicalRank)];
    }
    assert page[..|page|] == page;
  }

  // ---------------------------------------------------------------- the semantic list

  function MatchingSemantic(hits: seq<SemanticHit>, filters: SearchFilters, fileScope: Option<FileScope>): seq<SemanticHit> {
    if hits == [] then []
    else
      var n := |hits| - 1;
      var init := MatchingSemantic(hits[..n], filters, fileScope);
      if EventHitMatches(hits[n].hit, filters, fileScope) then init + [hits[n]] else init
  }

  function SemanticScore(s: SemanticHit, rank: nat, hybrid: bool): real {
    if hybrid then ReciprocalRank(rank) else MaxReal(s.similarity, 0.0)
  }

  function WithReasons(r: SearchResult, hit: Hit): SearchResult {
    r.(why := PushUniqueWhy(PushUniqueWhy(r.why, "semantic_similarity"), "semantic:" + EventReason(hit.eventType)))
  }

  /** One semantic hit: it joins the candidate of its event, or opens one, and the better score stays. */
  function SemanticStep(m: Candidates, s: SemanticHit, rank: nat, hybrid: bool): Candidates {
    var score := SemanticScore(s, rank, hybrid);
    var entry := if s.hit.eventId in m then m[s.hit.eventId]
                 else Candidate(EventResult(s.hit), None, None, s.hit.occurredAt, s.hit.seqNo);
    m[s.hit.eventId := entry.(
      result := WithReasons(entry.result, s.hit),
      semanticScore := Some(match entry.semanticScore case None => score case Some(e) => MaxReal(e, score)))]
  }

  function SemanticMap(m: Candidates, ss: seq<SemanticHit>, hybrid: bool): Candidates {
    if ss == [] then m
    else SemanticStep(SemanticMap(m, ss[..|ss| - 1], hybrid), ss[|ss| - 1], |ss|, hybrid)
  }

  lemma {:induction false} SemanticSnoc(m: Candidates, ss: seq<SemanticHit>, s: SemanticHit, hybrid: bool)
    ensures SemanticMap(m, ss + [s], hybrid) == SemanticStep(SemanticMap(m, ss, hybrid), s, |ss| + 1, hybrid)
  {
    var all := ss + [s];
    assert all[..|all| - 1] == ss && all[|all| - 1] == s && |all| == |ss| + 1;
  }

  lemma {:induction false} MatchingSemanticSnoc(
      hits: seq<SemanticHit>, j: nat, filters: SearchFilters, fileScope: Option<FileScope>)
    requires j < |hits|
    ensures MatchingSemantic(hits[..j + 1], filters, fileScope) ==
            if EventHitMatches(hits[j].hit, filters, fileScope)
            then MatchingSemantic(hits[..j], filters, fileScope) + [hits[j]]
            else MatchingSemantic(hits[..j], filters, fileScope)
  {
    assert hits[..j + 1][..j] == hits[..j];
  }

  method AddSemantic(m: Candidates, hits: seq<SemanticHit>, filters: SearchFilters, fileScope: Option<FileScope>, hybrid: bool)
    returns (candidates: Candidates)
    ensures candidates == SemanticMap(m, MatchingSemantic(hits, filters, fileScope), hybrid)
  {
    candidates := m;
    var semanticRank := 0;
    for j := 0 to |hits|
      invariant semanticRank == |MatchingSemantic(hits[..j], filters, fileScope)|
      invariant candidates == SemanticMap(m, MatchingSemantic(hits[..j], filters, fileScope), hybrid)
    {
      MatchingSemanticSnoc(hits, j, filters, fileScope);
      if !EventHitMatches(hits[j].hit, filters, fileScope) {
        continue;
      }
      semanticRank := semanticRank + 1;
      SemanticSnoc(m, MatchingSemantic(hits[..j], filters, fileScope), hits[j], hybrid);
      candidates := SemanticStep(candidates, hits[j], semanticRank, hybrid);
    }
    assert hits[..|hits|] == hits;
  }

  // ---------------------------------------------------------------- ranks and order

  function Clamped(weight: real): (w: real)
    ensures 0.0 <= w <= 1.0
  {
    Clamp01(weight)
  }

  function Blend(w: real, lexical: real, semantic: real): real {
    (1.0 - w) * lexical + w * semantic
  }

  function Fused(c: Candidate, w: real, hybrid: bool): Candidate {
    var rank :=
      if hybrid then Blend(w, c.lexicalScore.UnwrapOr(0.0), c.semanticScore.UnwrapOr(0.0))
      else c.semanticScore.UnwrapOr(c.result.rank);
    c.(result := c.result.(rank := rank))
  }

  /** `compare_hybrid_candidates(a, b) != Greater`. */
  predicate NotAfter(a: Candidate, b: Candidate) {
    if a.result.rank != b.result.rank then a.result.rank > b.result.rank
    else if a.occurredAt != b.occurredAt then a.occurredAt > b.occurredAt
    else if a.seqNo != b.seqNo then a.seqNo > b.seqNo
    else a.result.recordId <= b.result.recordId
  }

  function Least(ids: set<Id>): (id: Id)
    requires ids != {}
    ensures id in ids && forall j :: j in ids ==> id <= j
  {
    LeastExists(ids);
    var id :| id in ids && forall j :: j in ids ==> id <= j;
    id
  }

  lemma {:induction false} LeastExists(ids: set<Id>)
    requires ids != {}
    ensures exists id :: id in ids && forall j :: j in ids ==> id <= j
  {
    var k :| k in ids;
    var l := LeastBelow(ids, k);
  }

  lemma {:induction false} LeastBelow(ids: set<Id>, k: Id) returns (l: Id)
    requires k in ids
    ensures l in ids && forall j :: j in ids ==> l <= j
    decreases k
  {
    if j :| j in ids && j < k {
      l := LeastBelow(ids, j);
    } else {
      l := k;
    }
  }

  /** The values of a map in the order of their keys, each with its fused rank. */
  function Ranked(m: Candidates, ids: set<Id>, w: real, hybrid: bool): seq<Candidate>
    requires ids <= m.Keys
  {
    if ids == {} then []
    else
      var id := Least(ids);
      [Fused(m[id], w, hybrid)] + Ranked(m, ids - {id}, w, hybrid)
  }

  // ---------------------------------------------------------------- clusters

  function ClusterOf(c: Candidate): Id {
    if c.result.sessionId.Some? then c.result.sessionId.value else c.result.eventId.UnwrapOr(c.result.recordId)
  }

  function ClusterIds(cs: seq<Candidate>): (keys: seq<Id>)
    ensures |keys| == |cs|
  {
    seq(|cs|, i requires 0 <= i < |cs| => ClusterOf(cs[i]))
  }

  /** The importance is computed when the entry opens, and is not touched by later members. */
  function HybridEntry(c: Candidate, n: nat): Candidate {
    c.(result := c.result.(scope := ScopeOf(c.result), importance := Of(c.result.rank, c.result.more),
                           more := c.result.more + n))
  }

  ghost predicate ClusteredUpTo(cs: seq<Candidate>, clustered: seq<Candidate>, index: map<Id, nat>) {
    clustered == Folded(cs, ClusterIds(cs), HybridEntry) && IndexFits(index, ClusterIds(cs))
  }

  function OneMore(c: Candidate): Candidate {
    c.(result := c.result.(more := c.result.more + 1))
  }

  lemma {:induction false} EntryOneMore(c: Candidate, n: nat)
    ensures OneMore(HybridEntry(c, n)) == HybridEntry(c, n + 1)
  {
  }

  lemma {:induction false} ClusterIdsSnoc(cs: seq<Candidate>, c: Candidate)
    ensures ClusterIds(cs + [c]) == ClusterIds(cs) + [ClusterOf(c)]
  {
  }

  lemma {:induction false} KnownCluster(cs: seq<Candidate>, c: Candidate, clustered: seq<Candidate>, index: map<Id, nat>)
    requires ClusteredUpTo(cs, clustered, index) && ClusterOf(c) in index
    ensures index[ClusterOf(c)] < |clustered|
    ensures ClusteredUpTo(cs + [c], clustered[index[ClusterOf(c)] := OneMore(clustered[index[ClusterOf(c)]])], index)
  {
    ClusterIdsSnoc(cs, c);
    var first, n := FoldKnownStep(cs, ClusterIds(cs), HybridEntry, index, c, ClusterOf(c));
    EntryOneMore(first, n);
  }

  lemma {:induction false} NewCluster(cs: seq<Candidate>, c: Candidate, clustered: seq<Candidate>, index: map<Id, nat>)
    requires ClusteredUpTo(cs, clustered, index) && ClusterOf(c) !in index
    ensures ClusteredUpTo(cs + [c], clustered + [HybridEntry(c, 0)], index[ClusterOf(c) := |clustered|])
  {
    var keys, k := ClusterIds(cs), ClusterOf(c);
    assert ClusterIds(cs + [c]) == keys + [k];
    FoldNew(cs, keys, HybridEntry, index, c, k);
  }

  method ClusterOne(candidate: Candidate, clustered0: seq<Candidate>, index0: map<Id, nat>, ghost cs: seq<Candidate>)
    returns (clustered: seq<Candidate>, index: map<Id, nat>)
    requires ClusteredUpTo(cs, clustered0, index0)
    ensures ClusteredUpTo(cs + [candidate], clustered, index)
  {
    clustered, index := clustered0, index0;
    var clusterId := ClusterOf(candidate);
    if clusterId in index {
      KnownCluster(cs, candidate, clustered, index);
      var i := index[clusterId];
      var c := clustered[i];
      clustered := clustered[i := c.(result := c.result.(more := c.result.more + 1))];
    } else {
      NewCluster(cs, candidate, clustered, index);
      var r := candidate.result;
      r := r.(scope := if r.sessionId.Some? then SessionScope else EventScope);
      r := r.(importance := Of(r.rank, r.more));
      index := index[clusterId := |clustered|];
      clustered := clustered + [candidate.(result := r)];
    }
  }

  method ClusterBySession(candidates: seq<Candidate>) returns (clustered: seq<Candidate>)
    ensures clustered == Folded(candidates, ClusterIds(candidates), HybridEntry)
  {
    clustered := [];
    var index: map<Id, nat> := map[];
    for j := 0 to |candidates|
      invariant ClusteredUpTo(candidates[..j], clustered, index)
    {
      clustered, index := ClusterOne(candidates[j], clustered, index, candidates[..j]);
      assert candidates[..j + 1] == candidates[..j] + [candidates[j]];
    }
    assert candidates[..|candidates|] == candidates;
  }

  // ---------------------------------------------------------------- the packet

  datatype Options = Options(limit: nat, filters: SearchFilters, mode: ResultMode)

  function ResultsOf(cs: seq<Candidate>): (rs: seq<SearchResult>)
    ensures |rs| == |cs|
  {
    seq(|cs|, i requires 0 <= i < |cs| => cs[i].result)
  }

  function PageSize(limit: nat): nat {
    Max(FILTERED_SEARCH_PAGE_SIZE, Max((limit + 1) * 8, 50))
  }

  /** All candidates with their fused ranks, best first. */
  function FusedList(lexical: seq<Hit>, semantic: seq<SemanticHit>, w: real, hybrid: bool): seq<Candidate> {
    var m := SemanticMap(if hybrid then LexicalMap(lexical) else map[], semantic, hybrid);
    SortBy(Ranked(m, m.Keys, Clamped(w), hybrid), NotAfter)
  }

  function Entries(cs: seq<Candidate>, mode: ResultMode): seq<Candidate> {
    if mode == Sessions then Folded(cs, ClusterIds(cs), HybridEntry) else cs
  }

  function HybridPacket(entries: seq<Candidate>, limit: nat): Packet {
    var hasMore := |entries| > limit;
    Packet(
      Normalized(ResultsOf(entries)[..Min(limit, |entries|)]), hasMore,
      if hasMore then Truncated(Limit, 1) else Complete)
  }

  method SemanticEventSearchPacket(store: FastSearch.Store, query: string, o: Options, fileScope: Option<FileScope>,
                                   semanticHits: seq<SemanticHit>, weight: real, hybrid: bool)
    returns (packet: Packet)
    ensures packet ==
      if Trim(query) == [] || (fileScope.Some? && fileScope.value.IsEmpty()) then Packet([], false, Complete)
      else
        var ranking := if o.filters.eventType.Some? then store.ranked else store.conversationFirst;
        var lexical := Matching(Page(ranking, PageSize(o.limit), 0), o.filters, fileScope);
        var semantic := MatchingSemantic(semanticHits, o.filters, fileScope);
        HybridPacket(Entries(FusedList(lexical, semantic, weight, hybrid), o.mode), o.limit)
  {
    if Trim(query) == [] {
      return Packet([], false, Complete);
    }
    if fileScope.Some? && fileScope.value.IsEmpty() {
      return Packet([], false, Complete);
    }
    var candidates: Candidates := map[];
    if hybrid {
      var ranking := if o.filters.eventType.Some? then store.ranked else store.conversationFirst;
      candidates := AddLexical(Page(ranking, PageSize(o.limit), 0), o.filters, fileScope);
    }
    candidates := AddSemantic(candidates, semanticHits, o.filters, fileScope, hybrid);
    var results := SortBy(Ranked(candidates, candidates.Keys, Clamped(weight), hybrid), NotAfter);
    if o.mode == Sessions {
      results := ClusterBySession(results);
    }
    var hasMore := |results| > o.limit;
    var shown := CutAndNormalize(ResultsOf(results), o.limit);
    return Packet(shown, hasMore, if hasMore then Truncated(Limit, 1) else Complete);
  }
}
