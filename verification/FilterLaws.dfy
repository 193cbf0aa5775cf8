/** What the filters let through: each one as it was asked for, alone and together, and in every result. */
module FilterLaws {
  import opened Wrappers
  import opened Text
  import opened Clusters
  import opened SearchModel
  import opened Filters
  import opened Ranks
  import opened Sorting
  import opened FastSearch
  import opened FastLaws
  import Hybrid
  import HybridLaws

  // ---------------------------------------------------------------- what each filter asks for

  /** The identifiers that tie a hit to a tree of sessions. */
  function SessionIds(hit: Hit): set<Id> {
    set id | id in [hit.sessionId, hit.parentSessionId, hit.rootSessionId] && id.Some? :: id.value
  }

  /** The hit was recorded in the excluded session, by the provider's name for it or in its tree. */
  predicate InExcludedSession(hit: Hit, excluded: ExcludedSession) {
    || (hit.provider == Some(excluded.provider) && hit.externalSessionId == Some(excluded.externalSessionId))
    || (excluded.sessionId.Some? && excluded.sessionId.value in SessionIds(hit))
  }

  predicate KnownPrimary(hit: Hit) {
    hit.isPrimary == Some(true) || hit.agentType == Some(Primary)
  }

  predicate AgentUnknown(hit: Hit) {
    hit.isPrimary == None && hit.agentType == None
  }

  predicate OwnSession(hit: Hit, filters: SearchFilters) {
    filters.session.Some? && hit.sessionId == filters.session
  }

  /** The text occurs in one of the places of the hit. */
  ghost predicate OccursIn(hit: Hit, text: string) {
    exists i, before, after :: 0 <= i < |hit.places| && hit.places[i] == before + text + after
  }

  /** The identifiers by which a file scope names what touched the file. */
  predicate TouchedFile(hit: Hit, scope: FileScope) {
    || hit.eventId in scope.events
    || (exists id :: id in scope.runs && hit.runId == Some(id))
    || (exists id :: id in scope.sessions && hit.sessionId == Some(id))
    || (exists id :: id in scope.records && hit.recordId == Some(id))
  }

  /** The hit meets each filter that is set. */
  ghost predicate AsAsked(hit: Hit, filters: SearchFilters, fileScope: Option<FileScope>) {
    && (filters.session == None || OwnSession(hit, filters))
    && (filters.provider == None || hit.provider == filters.provider)
    && (filters.since == None || filters.since.value <= hit.occurredAt)
    && (filters.eventType == None || filters.eventType.value == hit.eventType)
    && (filters.exclude == None || !InExcludedSession(hit, filters.exclude.value))
    && (filters.primaryOnly ==> OwnSession(hit, filters) || KnownPrimary(hit))
    && (!filters.includeSubagents ==> OwnSession(hit, filters) || KnownPrimary(hit) || (!filters.primaryOnly && AgentUnknown(hit)))
    && (filters.repo == None || OccursIn(hit, filters.repo.value))
    && (fileScope == None || TouchedFile(hit, fileScope.value))
  }

  lemma {:induction false} ContainsIffOccurs(s: string, part: string)
    ensures Contains(s, part) <==> exists before, after :: s == before + part + after
  {
    if Contains(s, part) {
      var i :| 0 <= i <= |s| && part <= s[i..];
      assert s == s[..i] + part + s[i..][|part|..];
    }
    if before, after :| s == before + part + after {
      assert s[|before|..] == part + after;
      assert part <= s[|before|..];
    }
  }

  lemma {:induction false} PlacesMean(hit: Hit, text: string)
    ensures (exists i :: 0 <= i < |hit.places| && Contains(hit.places[i], text)) <==> OccursIn(hit, text)
  {
    forall i | 0 <= i < |hit.places|
      ensures Contains(hit.places[i], text) <==> exists before, after :: hit.places[i] == before + text + after
    {
      ContainsIffOccurs(hit.places[i], text);
    }
  }

  lemma {:induction false} ExclusionMeans(hit: Hit, filters: SearchFilters)
    ensures Excluded(hit, filters) <==> filters.exclude.Some? && InExcludedSession(hit, filters.exclude.value)
  {
    if filters.exclude.Some? {
      var tree := [hit.sessionId, hit.parentSessionId, hit.rootSessionId];
      assert forall id :: id in tree <==> id == tree[0] || id == tree[1] || id == tree[2];
    }
  }

  lemma {:induction false} FileScopeMeans(hit: Hit, scope: FileScope)
    ensures FileScopeMatches(scope, hit) <==> TouchedFile(hit, scope)
  {
  }

  /** A hit passes iff it meets each filter that is set. */
  lemma {:induction false} FiltersMean(hit: Hit, filters: SearchFilters, fileScope: Option<FileScope>)
    ensures EventHitMatches(hit, filters, fileScope) <==> AsAsked(hit, filters, fileScope)
  {
    ExclusionMeans(hit, filters);
    if filters.repo.Some? {
      PlacesMean(hit, filters.repo.value);
    }
    if fileScope.Some? {
      FileScopeMeans(hit, fileScope.value);
    }
  }

  /** There are filters iff anything but the sources is set, or a source that is not blank. */
  lemma {:induction false} NoFiltersMeans(filters: SearchFilters)
    ensures
      var blank := (s: Option<string>) => s.None? || Trim(s.value) == [];
      !HasFilters(filters) <==>
        && filters == SearchFilters(None, None, filters.historySource, filters.providerKey, filters.sourceId,
                                    filters.sourceFormat, None, None, false, true, None, None, None)
        && blank(filters.historySource) && blank(filters.providerKey) && blank(filters.sourceId)
        && blank(filters.sourceFormat)
  {
  }

  /** The hits kept are those of the list that meet each filter that is set, and no others. */
  lemma {:induction false} MatchingIsAsAsked(hits: seq<Hit>, filters: SearchFilters, fileScope: Option<FileScope>, hit: Hit)
    ensures hit in Matching(hits, filters, fileScope) <==> hit in hits && AsAsked(hit, filters, fileScope)
  {
    MatchingMembers(hits, filters, fileScope, hit);
    FiltersMean(hit, filters, fileScope);
  }

  // ---------------------------------------------------------------- what a result can be

  /** A result of a fast search shows a hit of the corpus that meets each filter. */
  lemma {:induction false} ResultIsAsAsked(hits: seq<Hit>, o: Options, fileScope: Option<FileScope>, i: nat) returns (hit: Hit)
    requires i < |FastPacket(hits, o, fileScope).results|
    ensures hit in hits && AsAsked(hit, o.filters, fileScope)
    ensures ShowsHit(FastPacket(hits, o, fileScope).results[i], hit)
    ensures FastPacket(hits, o, fileScope).results[i].why == [EventReason(hit.eventType)]
  {
    var n := Consumed(hits, o, fileScope);
    var ms := Seen(hits, o, fileScope);
    if o.mode == Sessions {
      ClusteredResults(hits, o, fileScope, i);
      hit := ms[Firsts(ClusterKeys(ms))[i]];
    } else {
      EventResultsInOrder(hits, o, fileScope, i);
      hit := ms[i];
    }
    assert hit in ms;
    MatchingIsAsAsked(hits[..n], o.filters, fileScope, hit);
  }

  /** What the filters leave of the fields a result shows. */
  ghost predicate ResultWithin(r: SearchResult, filters: SearchFilters) {
    && (filters.since.Some? ==> r.timestamp.Some? && r.timestamp.value >= filters.since.value)
    && (filters.session.Some? ==> r.sessionId == filters.session)
    && (filters.exclude.Some? && filters.exclude.value.sessionId.Some? ==> r.sessionId != filters.exclude.value.sessionId)
  }

  lemma {:induction false} AskedShowsWithin(r: SearchResult, hit: Hit, filters: SearchFilters, fileScope: Option<FileScope>)
    requires ShowsHit(r, hit) && AsAsked(hit, filters, fileScope)
    ensures ResultWithin(r, filters)
  {
    if filters.exclude.Some? && hit.sessionId.Some? {
      assert hit.sessionId in [hit.sessionId, hit.parentSessionId, hit.rootSessionId];
      assert hit.sessionId.value in SessionIds(hit);
    }
  }

  /** No result of a fast search is older than asked, of another session than asked, or of the excluded one. */
  lemma {:induction false} FastResultsWithin(hits: seq<Hit>, o: Options, fileScope: Option<FileScope>)
    ensures forall i :: 0 <= i < |FastPacket(hits, o, fileScope).results| ==>
      ResultWithin(FastPacket(hits, o, fileScope).results[i], o.filters)
  {
    forall i | 0 <= i < |FastPacket(hits, o, fileScope).results|
      ensures ResultWithin(FastPacket(hits, o, fileScope).results[i], o.filters)
    {
      var hit := ResultIsAsAsked(hits, o, fileScope, i);
      AskedShowsWithin(FastPacket(hits, o, fileScope).results[i], hit, o.filters, fileScope);
    }
  }

  /** And if there is no more, every hit of the corpus that meets each filter is shown. */
  lemma {:induction false} NoMoreShowsAllAsked(hits: seq<Hit>, o: Options, fileScope: Option<FileScope>, hit: Hit)
    requires ScopeFits(o.filters, fileScope) && !FastPacket(hits, o, fileScope).hasMore
    requires hit in hits && AsAsked(hit, o.filters, fileScope)
    ensures Shows(FastPacket(hits, o, fileScope), hit, o.mode)
  {
    FiltersMean(hit, o.filters, fileScope);
    NoMoreMeansAll(hits, o, fileScope, hit);
  }

  // ---------------------------------------------------------------- hybrid search

  lemma {:induction false} MatchingSemanticMembers(hits: seq<Hybrid.SemanticHit>, filters: SearchFilters,
                                                   fileScope: Option<FileScope>, s: Hybrid.SemanticHit)
    ensures s in Hybrid.MatchingSemantic(hits, filters, fileScope) <==> s in hits && AsAsked(s.hit, filters, fileScope)
  {
    if hits != [] {
      var n := |hits| - 1;
      assert hits == hits[..n] + [hits[n]];
      MatchingSemanticMembers(hits[..n], filters, fileScope, s);
      FiltersMean(hits[n].hit, filters, fileScope);
    }
  }

  /** Cutting, clustering and normalising leave a result the event it shows. */
  lemma {:induction false} HybridResultShows(cs: seq<Hybrid.Candidate>, mode: ResultMode, limit: nat, i: nat)
    returns (c: Hybrid.Candidate)
    requires i < |Hybrid.HybridPacket(Hybrid.Entries(cs, mode), limit).results|
    ensures c in cs && SameShown(Hybrid.HybridPacket(Hybrid.Entries(cs, mode), limit).results[i], c.result)
  {
    var entries := Hybrid.Entries(cs, mode);
    var cut := Hybrid.ResultsOf(entries)[..Min(limit, |entries|)];
    NormalizedKeeps(cut);
    assert SameButRank(cut[i], Normalized(cut)[i]);
    assert cut[i] == entries[i].result;
    c := if mode == Sessions then cs[Firsts(Hybrid.ClusterIds(cs))[i]] else cs[i];
  }

  /** The packet of a hybrid search made of two lists. */
  function HybridPacketOf(lexical: seq<Hit>, semantic: seq<Hybrid.SemanticHit>, w: real, hybrid: bool, mode: ResultMode,
                    limit: nat): Packet
  {
    Hybrid.HybridPacket(Hybrid.Entries(Hybrid.FusedList(lexical, semantic, w, hybrid), mode), limit)
  }

  lemma {:induction false} HybridResultHit(lexical: seq<Hit>, semantic: seq<Hybrid.SemanticHit>, w: real, hybrid: bool,
                                           mode: ResultMode, limit: nat, i: nat) returns (hit: Hit)
    requires i < |HybridPacketOf(lexical, semantic, w, hybrid, mode, limit).results|
    ensures ShowsHit(HybridPacketOf(lexical, semantic, w, hybrid, mode, limit).results[i], hit)
    ensures (hybrid && hit in lexical) || exists s :: s in semantic && s.hit == hit
  {
    var c := HybridResultShows(Hybrid.FusedList(lexical, semantic, w, hybrid), mode, limit, i);
    hit := HybridLaws.CandidateShowsHit(lexical, semantic, w, hybrid, c);
    var p := HybridLaws.LastPosition(lexical, c.result.recordId);
    if !(hybrid && p > 0) {
      assert semantic[HybridLaws.FirstPosition(semantic, c.result.recordId) - 1] in semantic;
    }
  }

  /** A result of a hybrid search shows a hit of one of its lists that meets each filter. */
  lemma {:induction false} HybridResultIsAsAsked(page: seq<Hit>, semanticHits: seq<Hybrid.SemanticHit>, o: Hybrid.Options,
                                                 fileScope: Option<FileScope>, w: real, hybrid: bool, i: nat)
    returns (hit: Hit)
    requires i < |HybridPacketOf(Matching(page, o.filters, fileScope),
                                 Hybrid.MatchingSemantic(semanticHits, o.filters, fileScope),
                                 w, hybrid, o.mode, o.limit).results|
    ensures (hybrid && hit in page) || exists s :: s in semanticHits && s.hit == hit
    ensures AsAsked(hit, o.filters, fileScope)
    ensures
      var r := HybridPacketOf(Matching(page, o.filters, fileScope),
                              Hybrid.MatchingSemantic(semanticHits, o.filters, fileScope),
                              w, hybrid, o.mode, o.limit).results[i];
      ShowsHit(r, hit) && ResultWithin(r, o.filters)
  {
    var lexical := Matching(page, o.filters, fileScope);
    var semantic := Hybrid.MatchingSemantic(semanticHits, o.filters, fileScope);
    hit := HybridResultHit(lexical, semantic, w, hybrid, o.mode, o.limit, i);
    if hybrid && hit in lexical {
      MatchingIsAsAsked(page, o.filters, fileScope, hit);
    } else {
      var s :| s in semantic && s.hit == hit;
      MatchingSemanticMembers(semanticHits, o.filters, fileScope, s);
    }
    AskedShowsWithin(HybridPacketOf(lexical, semantic, w, hybrid, o.mode, o.limit).results[i], hit, o.filters, fileScope);
  }
}
