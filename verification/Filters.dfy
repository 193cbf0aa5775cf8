/** The event filters, and why a search without filters may stop after one page. */
module Filters {
  import opened Wrappers
  import opened Text
  import opened SearchModel

  datatype ExcludedSession = ExcludedSession(provider: nat, externalSessionId: string, sessionId: Option<Id>)

  datatype SearchFilters = SearchFilters(
    session: Option<Id>, provider: Option<nat>,
    historySource: Option<string>, providerKey: Option<string>,
    sourceId: Option<string>, sourceFormat: Option<string>,
    repo: Option<string>,       // in lower case
    since: Option<int>, primaryOnly: bool, includeSubagents: bool,
    eventType: Option<nat>, file: Option<string>, exclude: Option<ExcludedSession>)

  datatype FileScope = FileScope(events: set<Id>, runs: set<Id>, sessions: set<Id>, records: set<Id>, sources: set<Id>) {
    predicate IsEmpty() {
      events == {} && runs == {} && sessions == {} && records == {} && sources == {}
    }
  }

  predicate In(id: Option<Id>, ids: set<Id>) {
    id.Some? && id.value in ids
  }

  predicate Contains(s: string, part: string) {
    exists i :: 0 <= i <= |s| && part <= s[i..]
  }

  predicate ExcludedTreeMatches(excluded: ExcludedSession, hit: Hit) {
    excluded.sessionId.Some?
    && (hit.sessionId == excluded.sessionId || hit.parentSessionId == excluded.sessionId
        || hit.rootSessionId == excluded.sessionId)
  }

  predicate Excluded(hit: Hit, filters: SearchFilters) {
    match filters.exclude
    case None => false
    case Some(excluded) =>
      || (hit.provider == Some(excluded.provider) && hit.externalSessionId == Some(excluded.externalSessionId))
      || ExcludedTreeMatches(excluded, hit)
  }

  predicate MatchesAgentScope(hit: Hit, filters: SearchFilters) {
    if filters.session.Some? && filters.session == hit.sessionId then true
    else if filters.includeSubagents && !filters.primaryOnly then true
    else if hit.isPrimary == Some(true) || hit.agentType == Some(Primary) then true
    else if filters.primaryOnly then false
    else hit.isPrimary.None? && hit.agentType.None?
  }

  predicate FileScopeMatches(scope: FileScope, hit: Hit) {
    hit.eventId in scope.events || In(hit.runId, scope.runs) || In(hit.sessionId, scope.sessions)
    || In(hit.recordId, scope.records)
  }

  predicate EventHitMatches(hit: Hit, filters: SearchFilters, fileScope: Option<FileScope>) {
    && (filters.session.Some? ==> hit.sessionId == filters.session)
    && !Excluded(hit, filters)
    && (filters.provider.Some? ==> hit.provider == filters.provider)
    && (filters.since.Some? ==> hit.occurredAt >= filters.since.value)
    && MatchesAgentScope(hit, filters)
    && (filters.eventType.Some? ==> hit.eventType == filters.eventType.value)
    && (filters.repo.Some? ==> exists i :: 0 <= i < |hit.places| && Contains(hit.places[i], filters.repo.value))
    && (fileScope.Some? ==> FileScopeMatches(fileScope.value, hit))
  }

  predicate NonBlank(value: Option<string>) {
    value.Some? && Trim(value.value) != []
  }

  predicate HasHistorySourceFilter(filters: SearchFilters) {
    NonBlank(filters.historySource) || NonBlank(filters.providerKey)
    || NonBlank(filters.sourceId) || NonBlank(filters.sourceFormat)
  }

  predicate HasFilters(filters: SearchFilters) {
    || filters.session.Some? || filters.provider.Some? || filters.repo.Some? || filters.since.Some?
    || filters.primaryOnly || !filters.includeSubagents || filters.eventType.Some? || filters.file.Some?
    || filters.exclude.Some? || HasHistorySourceFilter(filters)
  }

  /** A file scope is looked up only for a file filter. */
  predicate ScopeFits(filters: SearchFilters, fileScope: Option<FileScope>) {
    fileScope.Some? <==> filters.file.Some?
  }

  /** Without filters every hit matches, whatever its fields. */
  lemma {:induction false} NoFiltersAcceptAll(hit: Hit, filters: SearchFilters, fileScope: Option<FileScope>)
    requires !HasFilters(filters) && ScopeFits(filters, fileScope)
    ensures EventHitMatches(hit, filters, fileScope)
  {
  }

  /** The hits of a list that match, in order. */
  function Matching(hits: seq<Hit>, filters: SearchFilters, fileScope: Option<FileScope>): (ms: seq<Hit>)
    ensures |ms| <= |hits|
  {
    if hits == [] then []
    else
      var n := |hits| - 1;
      var init := Matching(hits[..n], filters, fileScope);
      if EventHitMatches(hits[n], filters, fileScope) then init + [hits[n]] else init
  }

  lemma {:induction false} MatchingMembers(hits: seq<Hit>, filters: SearchFilters, fileScope: Option<FileScope>, h: Hit)
    ensures h in Matching(hits, filters, fileScope) <==> h in hits && EventHitMatches(h, filters, fileScope)
  {
    if hits != [] {
      var n := |hits| - 1;
      assert hits == hits[..n] + [hits[n]];
      MatchingMembers(hits[..n], filters, fileScope, h);
    }
  }

  lemma {:induction false} MatchingSnoc(hits: seq<Hit>, n: nat, filters: SearchFilters, fileScope: Option<FileScope>)
    requires n < |hits|
    ensures Matching(hits[..n + 1], filters, fileScope) ==
            if EventHitMatches(hits[n], filters, fileScope) then Matching(hits[..n], filters, fileScope) + [hits[n]]
            else Matching(hits[..n], filters, fileScope)
  {
    assert hits[..n + 1][..n] == hits[..n];
  }

  /** Without filters nothing is dropped. */
  lemma {:induction false} NoFiltersKeepAll(hits: seq<Hit>, filters: SearchFilters, fileScope: Option<FileScope>)
    requires !HasFilters(filters) && ScopeFits(filters, fileScope)
    ensures Matching(hits, filters, fileScope) == hits
  {
    if hits != [] {
      var n := |hits| - 1;
      NoFiltersKeepAll(hits[..n], filters, fileScope);
      NoFiltersAcceptAll(hits[n], filters, fileScope);
      assert hits == hits[..n] + [hits[n]];
    }
  }
}
