/**
 What the search engine works on: event hits as the store returns them, filters, results and packets.
 Identifiers are opaque ordered values, ranks are reals, and text the engine only passes along is kept
 in one field.
 */
module SearchModel {
  import opened Wrappers

  type Id = nat

  datatype AgentType = Primary | Subagent | Unknown

  datatype Hit = Hit(
    eventId: Id, sessionId: Option<Id>, parentSessionId: Option<Id>, rootSessionId: Option<Id>,
    recordId: Option<Id>, runId: Option<Id>,
    provider: Option<nat>, externalSessionId: Option<string>,
    isPrimary: Option<bool>, agentType: Option<AgentType>, eventType: nat,
    places: seq<string>,        // the working directory, source path and workspace present, in lower case
    seqNo: nat, occurredAt: int, score: real,
    detail: string, origin: Origin)

  /** Where a result comes from: the fields a merge fills in one by one. */
  datatype Origin = Origin(
    historySource: Option<string>, plugin: Option<string>, providerKey: Option<string>,
    sourceId: Option<string>, sourceFormat: Option<string>)

  datatype Scope = SessionScope | EventScope

  /**
   `session_importance` as the application it is of a fixed function to a rank and a count; `Zero` is
   the constant 0.
   */
  datatype Importance = Zero | Of(rank: real, more: nat)

  datatype Citation = Citation(kind: nat, id: Id)

  datatype SearchResult = SearchResult(
    recordId: Id, sessionId: Option<Id>, eventId: Option<Id>,
    rank: real, scope: Scope, more: nat, importance: Importance, timestamp: Option<int>,
    detail: string, origin: Origin, why: seq<string>, citations: seq<Citation>)

  datatype Reason = Limit | ScanBudget | SourceLimit

  datatype Truncation = Complete | Truncated(reason: Reason, omitted: nat)

  datatype Packet = Packet(results: seq<SearchResult>, hasMore: bool, truncation: Truncation)

  datatype ResultMode = Sessions | Events

  const FILTERED_SEARCH_PAGE_SIZE: nat := 500
  const FILTERED_SEARCH_MAX_PAGES: nat := 20
  const LARGE_EVENT_CORPUS_THRESHOLD: nat := 1024
  const MAX_RESULT_LIMIT: nat := 200

  function Max(a: nat, b: nat): nat {
    if a < b then b else a
  }

  function Min(a: nat, b: nat): nat {
    if a < b then a else b
  }

  /** `limit.clamp(1, MAX_RESULT_LIMIT)`. */
  function NormalizedLimit(limit: nat): (n: nat)
    ensures 1 <= n <= MAX_RESULT_LIMIT
  {
    if limit < 1 then 1 else if limit > MAX_RESULT_LIMIT then MAX_RESULT_LIMIT else limit
  }

  /** A page of a ranked list. */
  function Page<T>(all: seq<T>, size: nat, offset: nat): (page: seq<T>)
    ensures |page| <= size
  {
    all[Min(offset, |all|)..Min(offset + size, |all|)]
  }

  /** What `pages` pages can hold. */
  function Covered(pages: nat, size: nat): nat {
    if pages == 0 then 0 else Covered(pages - 1, size) + size
  }

  lemma {:induction false} CoveredIsProduct(pages: nat, size: nat)
    ensures Covered(pages, size) == size * pages
  {
    if pages > 0 {
      CoveredIsProduct(pages - 1, size);
    }
  }

  lemma {:induction false} CoveredGrows(pages: nat, more: nat, size: nat)
    requires pages <= more
    ensures Covered(pages, size) <= Covered(more, size)
  {
    if pages < more {
      CoveredGrows(pages, more - 1, size);
    }
  }

  function Citations(hit: Hit): seq<Citation> {
    [Citation(0, hit.eventId)]
    + match hit.sessionId
      case Some(id) => [Citation(1, id)]
      case None => []
  }

  /** `event_reason`, with the event types numbered as they are declared. */
  function EventReason(eventType: nat): string {
    match eventType
    case 0 => "message"
    case 1 => "tool_call"
    case 2 => "tool_output"
    case 3 => "command_event"
    case 4 => "command_event"
    case 5 => "command_event"
    case 6 => "file_touched"
    case 7 => "vcs_change"
    case 8 => "artifact"
    case 9 => "summary"
    case _ => "notice"
  }

  /** The result shows the event of the hit, with what the store holds of it. */
  predicate ShowsHit(r: SearchResult, hit: Hit) {
    && r.recordId == hit.eventId && r.eventId == Some(hit.eventId) && r.sessionId == hit.sessionId
    && r.timestamp == Some(hit.occurredAt) && r.detail == hit.detail && r.origin == hit.origin
    && r.citations == Citations(hit)
  }

  /** Two results show the same event. */
  predicate SameShown(a: SearchResult, b: SearchResult) {
    && a.recordId == b.recordId && a.eventId == b.eventId && a.sessionId == b.sessionId
    && a.timestamp == b.timestamp && a.detail == b.detail && a.origin == b.origin && a.citations == b.citations
  }

  /** `event_search_result`: lower scores are better, and the rank is never negative. */
  function EventResult(hit: Hit): (r: SearchResult)
    ensures r.rank >= 0.0 && ShowsHit(r, hit)
  {
    SearchResult(
      hit.eventId, hit.sessionId, Some(hit.eventId),
      if -hit.score > 0.0 then -hit.score else 0.0, EventScope, 0, Zero, Some(hit.occurredAt),
      hit.detail, hit.origin, [EventReason(hit.eventType)], Citations(hit))
  }

  /** A better hit never ranks lower, and higher if its score is below zero. */
  lemma {:induction false} BetterHitRanksHigher(a: Hit, b: Hit)
    requires a.score < b.score
    ensures EventResult(a).rank >= EventResult(b).rank
    ensures EventResult(a).rank > EventResult(b).rank <==> a.score < 0.0
  {
  }

  /** The cluster an event belongs to: its session, or itself. */
  function ClusterOfHit(hit: Hit): Id {
    hit.sessionId.UnwrapOr(hit.eventId)
  }

  function ScopeOf(r: SearchResult): Scope {
    if r.sessionId.Some? then SessionScope else EventScope
  }

  function PushUniqueWhy(why: seq<string>, reason: string): seq<string> {
    if reason in why then why else why + [reason]
  }
}
