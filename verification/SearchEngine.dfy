/**
 A search from the query to the packet: options normalised, the path chosen, the packets of several terms
 merged; and what a packet is worth whichever path made it.
 */
module SearchEngine {
  import opened Wrappers
  import opened Text
  import opened SearchModel
  import opened Filters
  import opened Ranks
  import FastSearch
  import FastLaws
  import RecordSearch
  import RecordLaws
  import Scoring
  import Sorting
  import TermMerge

  type Options = FastSearch.Options

  /** The store as searches see it: hits and records by query, providers, and files by name. */
  datatype Index = Index(
    store: string -> FastSearch.Store, rows: string -> seq<RecordSearch.Row>, fileRows: string -> seq<RecordSearch.Row>,
    hasTerms: string -> bool, hasProviderData: nat -> bool, touched: string -> FileScope)

  const EMPTY_PACKET := Packet([], false, Complete)

  function NonBlankText(value: Option<string>): Option<string> {
    match value
    case None => None
    case Some(text) => if Trim(text) == [] then None else Some(Trim(text))
  }

  /** `normalized_options`. */
  function NormalizedOptions(o: Options): Options {
    o.(limit := NormalizedLimit(o.limit),
       filters := o.filters.(repo := NonBlankText(o.filters.repo), file := NonBlankText(o.filters.file)))
  }

  function ScopeFor(index: Index, filters: SearchFilters): Option<FileScope> {
    match filters.file
    case None => None
    case Some(file) => Some(index.touched(file))
  }

  /** The record search of a query. */
  function RequestFor(index: Index, query: string, o: Options): RecordSearch.Request {
    RecordSearch.Request(index.rows(query), index.fileRows(query), index.hasTerms(query), o.filters,
                         ScopeFor(index, o.filters), o.limit, o.mode)
  }

  predicate Hopeless(index: Index, o: Options) {
    || (o.filters.provider.Some? && !index.hasProviderData(o.filters.provider.value))
    || (ScopeFor(index, o.filters).Some? && ScopeFor(index, o.filters).value.IsEmpty())
  }

  predicate GoesFast(index: Index, query: string, o: Options) {
    && Trim(query) != [] && !HasHistorySourceFilter(o.filters)
    && index.store(query).events >= LARGE_EVENT_CORPUS_THRESHOLD
  }

  function PacketOf(index: Index, query: string, o: Options): Packet {
    if Hopeless(index, o) then EMPTY_PACKET
    else if GoesFast(index, query, o) then
      FastSearch.FastPacket(FastSearch.Ranking(index.store(query), o.filters), o, ScopeFor(index, o.filters))
    else RecordLaws.PacketOf(RequestFor(index, query, o))
  }

  /** `search_packet`. */
  method SearchPacket(index: Index, query: string, options: Options) returns (packet: Packet)
    ensures packet == PacketOf(index, query, NormalizedOptions(options))
  {
    var o := NormalizedOptions(options);
    if o.filters.provider.Some? && !index.hasProviderData(o.filters.provider.value) {
      return EMPTY_PACKET;
    }
    var fileScope := ScopeFor(index, o.filters);
    if fileScope.Some? && fileScope.value.IsEmpty() {
      return EMPTY_PACKET;
    }
    var fast := FastSearch.FastEventSearchPacket(index.store(query), query, o, fileScope);
    if fast.Some? {
      return fast.value;
    }
    packet := RecordSearch.SearchPacket(RequestFor(index, query, o));
  }

  // ---------------------------------------------------------------- several terms

  /** `composed_search_terms`: the query and the terms, trimmed, without blanks and repetitions; `lower` folds case. */
  function Composed(values: seq<string>, lower: string -> string): seq<string> {
    if values == [] then []
    else
      var init, term := Composed(values[..|values| - 1], lower), Trim(values[|values| - 1]);
      if term == [] || lower(term) in Folds(values[..|values| - 1], lower) then init else init + [term]
  }

  function Folds(values: seq<string>, lower: string -> string): set<string> {
    set v | v in values && Trim(v) != [] :: lower(Trim(v))
  }

  method ComposedSearchTerms(query: string, terms: seq<string>, lower: string -> string) returns (out: seq<string>)
    ensures out == Composed([query] + terms, lower)
  {
    var seen: set<string> := {};
    out := [];
    var values := [query] + terms;
    for i := 0 to |values|
      invariant out == Composed(values[..i], lower) && seen == Folds(values[..i], lower)
    {
      var term := Trim(values[i]);
      ComposedSnoc(values, i, lower);
      if term == [] {
        continue;
      }
      var key := lower(term);
      if key !in seen {
        seen := seen + {key};
        out := out + [term];
      }
    }
    assert values[..|values|] == values;
  }

  lemma {:induction false} ComposedSnoc(values: seq<string>, i: nat, lower: string -> string)
    requires i < |values|
    ensures
      var term := Trim(values[i]);
      var folds := Folds(values[..i], lower);
      && Composed(values[..i + 1], lower) ==
           (if term == [] || lower(term) in folds then Composed(values[..i], lower) else Composed(values[..i], lower) + [term])
      && Folds(values[..i + 1], lower) == (if term == [] then folds else folds + {lower(term)})
  {
    assert values[..i + 1][..i] == values[..i];
    assert values[..i + 1] == values[..i] + [values[i]];
  }

  /** Every value that is not blank is searched for, up to case. */
  lemma {:induction false} ComposedCovers(values: seq<string>, lower: string -> string, v: string) returns (t: string)
    requires v in values && Trim(v) != []
    ensures t in Composed(values, lower) && lower(t) == lower(Trim(v))
  {
    var init := values[..|values| - 1];
    ComposedGrows(values, lower);
    if v in init {
      t := ComposedCovers(init, lower, v);
    } else if lower(Trim(v)) in Folds(init, lower) {
      var w :| w in init && Trim(w) != [] && lower(Trim(w)) == lower(Trim(v));
      t := ComposedCovers(init, lower, w);
    } else {
      t := Trim(v);
    }
  }

  lemma {:induction false} ComposedGrows(values: seq<string>, lower: string -> string)
    requires values != []
    ensures
      var init, last := values[..|values| - 1], values[|values| - 1];
      && (forall t :: t in Composed(init, lower) ==> t in Composed(values, lower))
      && (Trim(last) != [] && lower(Trim(last)) !in Folds(init, lower) ==> Trim(last) in Composed(values, lower))
  {
  }

  lemma {:induction false} ComposedFolds(values: seq<string>, lower: string -> string, i: nat)
    requires i < |Composed(values, lower)|
    ensures Composed(values, lower)[i] != [] && lower(Composed(values, lower)[i]) in Folds(values, lower)
  {
    var n := |values| - 1;
    assert values[..n + 1] == values;
    ComposedSnoc(values, n, lower);
    if i < |Composed(values[..n], lower)| {
      ComposedFolds(values[..n], lower, i);
    }
  }

  /** No term is searched for twice, even up to case. */
  lemma {:induction false} ComposedDistinct(values: seq<string>, lower: string -> string, i: nat, j: nat)
    requires i < j < |Composed(values, lower)|
    ensures lower(Composed(values, lower)[i]) != lower(Composed(values, lower)[j])
  {
    var n := |values| - 1;
    assert values[..n + 1] == values;
    ComposedSnoc(values, n, lower);
    if j < |Composed(values[..n], lower)| {
      ComposedDistinct(values[..n], lower, i, j);
    } else {
      ComposedFolds(values[..n], lower, i);
    }
  }

  function ChildOptions(o: Options): Options {
    o.(limit := Min(Max(o.limit * 2, o.limit), MAX_RESULT_LIMIT))
  }

  /** The packets that `ask` gives for the terms. */
  function Asked(terms: seq<string>, ask: string -> Packet): seq<TermMerge.Child> {
    seq(|terms|, i requires 0 <= i < |terms| => TermMerge.Child(terms[i], ask(terms[i])))
  }

  function Children(index: Index, terms: seq<string>, o: Options): seq<TermMerge.Child> {
    Asked(terms, term => PacketOf(index, term, ChildOptions(o)))
  }

  function TermsPacketOf(index: Index, query: string, terms: seq<string>, o: Options): Packet {
    if |terms| <= 1 then PacketOf(index, if terms == [] then query else terms[0], o)
    else TermMerge.TermsPacket(Children(index, terms, o), o.limit, o.mode)
  }

  lemma {:induction false} TrimTwice(s: string)
    ensures Trim(Trim(s)) == Trim(s)
  {
    TrimStartEnds(s);
    TrimEndEnds(TrimStart(s));
    TrimEndKeepsStart(TrimStart(s));
  }

  lemma {:induction false} TrimStartEnds(s: string)
    ensures TrimStart(s) == [] || !IsSpace(TrimStart(s)[0])
  {
    if s != [] && IsSpace(s[0]) {
      TrimStartEnds(s[1..]);
    }
  }

  lemma {:induction false} TrimEndEnds(s: string)
    ensures TrimEnd(s) == [] || !IsSpace(TrimEnd(s)[|TrimEnd(s)| - 1])
  {
    if s != [] && IsSpace(s[|s| - 1]) {
      TrimEndEnds(s[..|s| - 1]);
    }
  }

  lemma {:induction false} TrimEndKeepsStart(s: string)
    ensures TrimEnd(s) == [] || TrimEnd(s)[0] == s[0]
  {
    if s != [] && IsSpace(s[|s| - 1]) {
      TrimEndKeepsStart(s[..|s| - 1]);
    }
  }

  /** Options already normalised, as those of a term's search are, are not changed again. */
  lemma {:induction false} NormalizedTwice(options: Options)
    ensures NormalizedOptions(ChildOptions(NormalizedOptions(options))) == ChildOptions(NormalizedOptions(options))
  {
    var filters := options.filters;
    if filters.repo.Some? {
      TrimTwice(filters.repo.value);
    }
    if filters.file.Some? {
      TrimTwice(filters.file.value);
    }
  }

  lemma {:induction false} NormalizedAgain(options: Options)
    ensures NormalizedOptions(NormalizedOptions(options)) == NormalizedOptions(options)
  {
    var filters := options.filters;
    if filters.repo.Some? {
      TrimTwice(filters.repo.value);
    }
    if filters.file.Some? {
      TrimTwice(filters.file.value);
    }
  }

  lemma {:induction false} AskedSnoc(terms: seq<string>, ask: string -> Packet, i: nat)
    requires i < |terms|
    ensures Asked(terms[..i + 1], ask) == Asked(terms[..i], ask) + [TermMerge.Child(terms[i], ask(terms[i]))]
  {
  }

  /** One search for each term. */
  method SearchTerms(index: Index, terms: seq<string>, o: Options) returns (children: seq<TermMerge.Child>)
    requires NormalizedOptions(ChildOptions(o)) == ChildOptions(o)
    ensures children == Children(index, terms, o)
  {
    children := [];
    ghost var ask := term => PacketOf(index, term, ChildOptions(o));
    for i := 0 to |terms|
      invariant children == Asked(terms[..i], ask)
    {
      var child := SearchPacket(index, terms[i], ChildOptions(o));
      AskedSnoc(terms, ask, i);
      children := children + [TermMerge.Child(terms[i], child)];
    }
    assert terms[..|terms|] == terms;
  }

  /** `search_packet_terms`. */
  method SearchPacketTerms(index: Index, query: string, terms: seq<string>, options: Options, lower: string -> string)
    returns (packet: Packet)
    ensures packet == TermsPacketOf(index, query, Composed([query] + terms, lower), NormalizedOptions(options))
  {
    var o := NormalizedOptions(options);
    var searchTerms := ComposedSearchTerms(query, terms, lower);
    if |searchTerms| <= 1 {
      NormalizedAgain(options);
      packet := SearchPacket(index, if searchTerms == [] then query else searchTerms[0], o);
      return;
    }
    NormalizedTwice(options);
    var children := SearchTerms(index, searchTerms, o);
    packet := TermMerge.SearchPacketTerms(children, o.limit, o.mode);
  }

  // ---------------------------------------------------------------- within the limit

  lemma {:induction false} PacketWithinLimit(index: Index, query: string, o: Options)
    requires o.limit >= 1
    ensures |PacketOf(index, query, o).results| <= o.limit
  {
    if !Hopeless(index, o) && !GoesFast(index, query, o) {
      var q := RequestFor(index, query, o);
      RecordLaws.PushedWithinLimit(RecordSearch.RankAndCut(RecordSearch.GatheredCandidates(q), q.limit), q.mode, q.limit);
    }
  }

  /** Whatever is asked for, at most 200 results come back. */
  lemma {:induction false} WithinLimit(index: Index, query: string, terms: seq<string>, options: Options)
    ensures |TermsPacketOf(index, query, terms, NormalizedOptions(options)).results|
         <= NormalizedLimit(options.limit) <= 200
  {
    if |terms| <= 1 {
      PacketWithinLimit(index, if terms == [] then query else terms[0], NormalizedOptions(options));
    }
  }

  // ---------------------------------------------------------------- truth

  /** The fast search answers a term: it is not blank, nothing rules it out, the corpus is large. */
  predicate Answers(index: Index, term: string, o: Options) {
    !Hopeless(index, o) && GoesFast(index, term, o)
  }

  predicate Matches(index: Index, term: string, o: Options, hit: Hit) {
    hit in FastSearch.Ranking(index.store(term), o.filters) && EventHitMatches(hit, o.filters, ScopeFor(index, o.filters))
  }

  lemma {:induction false} OneTermTruth(index: Index, term: string, o: Options, hit: Hit)
    requires Answers(index, term, o) && Matches(index, term, o, hit)
    requires !PacketOf(index, term, o).hasMore
    ensures FastLaws.Shows(PacketOf(index, term, o), hit, o.mode)
  {
    FastLaws.NoMoreMeansAll(FastSearch.Ranking(index.store(term), o.filters), o, ScopeFor(index, o.filters), hit);
  }

  lemma {:induction false} IncomingMember(children: seq<TermMerge.Child>, i: nat, r: SearchResult) returns (s: SearchResult)
    requires i < |children| && r in children[i].packet.results
    ensures s in TermMerge.AllIncoming(children)
    ensures s.recordId == r.recordId && s.sessionId == r.sessionId && s.eventId == r.eventId
  {
    var n := |children| - 1;
    if i == n {
      var j :| 0 <= j < |children[i].packet.results| && children[i].packet.results[j] == r;
      s := TermMerge.Incoming(children[i].term, children[i].packet.results)[j];
    } else {
      s := IncomingMember(children[..n], i, r);
    }
  }

  /** Results of the fast search carry their event as record id too. */
  lemma {:induction false} EventIdsAgree(hits: seq<Hit>, o: Options, fileScope: Option<FileScope>, r: SearchResult)
    requires o.mode == Events && r in FastSearch.FastPacket(hits, o, fileScope).results
    ensures r.eventId == Some(r.recordId)
  {
    var found := FastSearch.Found(hits, o, fileScope, FastSearch.Consumed(hits, o, fileScope));
    var shown := found[..Min(o.limit, |found|)];
    NormalizedKeeps(shown);
    var i :| 0 <= i < |shown| && Normalized(shown)[i] == r;
    assert SameButRank(shown[i], Normalized(shown)[i]);
  }

  lemma {:induction false} ShownByAResult(index: Index, term: string, o: Options, hit: Hit) returns (r: SearchResult)
    requires Answers(index, term, o) && Matches(index, term, o, hit)
    requires !PacketOf(index, term, o).hasMore
    ensures r in PacketOf(index, term, o).results && TermMerge.MergeKey(r, o.mode) == FastLaws.KeyOf(hit, o.mode)
  {
    OneTermTruth(index, term, o, hit);
    var hits, scope := FastSearch.Ranking(index.store(term), o.filters), ScopeFor(index, o.filters);
    r :| r in FastSearch.FastPacket(hits, o, scope).results
         && FastLaws.KeyOfResult(r, o.mode) == FastLaws.KeyOf(hit, o.mode);
    if o.mode == Events {
      EventIdsAgree(hits, o, scope, r);
    }
  }

  predicate ShowsKey(p: Packet, key: Id, mode: ResultMode) {
    exists r :: r in p.results && TermMerge.MergeKey(r, mode) == key
  }

  lemma {:induction false} NoneTruncated(children: seq<TermMerge.Child>, limit: nat, mode: ResultMode, i: nat)
    requires i < |children| && !TermMerge.TermsPacket(children, limit, mode).hasMore
    ensures children[i].packet.truncation == Complete
  {
  }

  /**
   `has_more == false` is the truth for a search of several terms: every hit of the corpus that matches
   any term that the fast search answers is shown by a result, as its session or as itself.
   */
  lemma {:induction false} TermsTruth(index: Index, query: string, terms: seq<string>, o: Options, i: nat, hit: Hit)
    requires |terms| >= 2 && i < |terms| && !TermsPacketOf(index, query, terms, o).hasMore
    requires Answers(index, terms[i], ChildOptions(o)) && Matches(index, terms[i], ChildOptions(o), hit)
    requires o.mode == Events || TermMerge.KeysDisjoint(TermMerge.AllIncoming(Children(index, terms, o)))
    ensures ShowsKey(TermsPacketOf(index, query, terms, o), FastLaws.KeyOf(hit, o.mode), o.mode)
  {
    var children := Children(index, terms, o);
    NoneTruncated(children, o.limit, o.mode, i);
    var r := ShownByAResult(index, terms[i], ChildOptions(o), hit);
    var incoming := IncomingMember(children, i, r);
    TermMerge.NoMoreMeansAll(children, o.limit, o.mode, incoming);
  }

  // ---------------------------------------------------------------- ranks

  predicate InUnit(rs: seq<SearchResult>) {
    forall i :: 0 <= i < |rs| ==> 0.0 <= rs[i].rank <= 1.0
  }

  /** The candidates that records make have non-negative scores. */
  ghost predicate ScoresFit(index: Index) {
    && (forall query, row :: row in index.rows(query) && row.candidate.Some? ==> row.candidate.value.score >= 0.0)
    && (forall query, row :: row in index.fileRows(query) && row.candidate.Some? ==> row.candidate.value.score >= 0.0)
  }

  lemma {:induction false} FastRanks(hits: seq<Hit>, o: Options, fileScope: Option<FileScope>)
    ensures InUnit(FastSearch.FastPacket(hits, o, fileScope).results)
  {
    var found := FastSearch.Found(hits, o, fileScope, FastSearch.Consumed(hits, o, fileScope));
    var shown := found[..Min(o.limit, |found|)];
    assert NonNegative(shown);
    NormalizedRanks(shown);
  }

  lemma {:induction false} CandidatesComeFromRows(rows: seq<RecordSearch.Row>, skip: set<Id>)
    requires forall row :: row in rows && row.candidate.Some? ==> row.candidate.value.score >= 0.0
    ensures Scoring.NonNegativeScores(RecordSearch.CandidatesOf(rows, skip))
  {
    if rows != [] {
      CandidatesComeFromRows(rows[..|rows| - 1], skip);
    }
  }

  lemma {:induction false} GatheredScores(index: Index, query: string, o: Options)
    requires ScoresFit(index)
    ensures Scoring.NonNegativeScores(RecordSearch.GatheredCandidates(RequestFor(index, query, o)))
  {
    var q := RequestFor(index, query, o);
    if !q.hasTerms {
      CandidatesComeFromRows(q.fileRows, {});
    } else if HasFilters(q.filters) {
      var pages := RecordSearch.PagesRead(q.rows, RecordSearch.Skipped(q), q.limit, 1);
      CandidatesComeFromRows(q.rows[..RecordSearch.RowsRead(q.rows, q.limit, pages)], RecordSearch.Skipped(q));
    } else {
      CandidatesComeFromRows(q.rows[..Min(q.limit + 1, |q.rows|)], RecordSearch.Skipped(q));
    }
  }

  lemma {:induction false} RankedScores(gathered: seq<Scoring.Candidate>, limit: nat)
    requires Scoring.NonNegativeScores(gathered)
    ensures forall i :: 0 <= i < |RecordSearch.RankAndCut(gathered, limit)| ==>
      0.0 <= RecordSearch.RankAndCut(gathered, limit)[i].score <= 1.0
  {
    var scored := Scoring.Normalized(gathered);
    var sorted := Sorting.SortBy(scored, RecordSearch.NotAfter);
    Scoring.CoverageFirst(gathered);
    Sorting.SortPermutes(scored, RecordSearch.NotAfter);
    forall i | 0 <= i < |sorted|
      ensures 0.0 <= sorted[i].score <= 1.0
    {
      Sorting.SameMembers(sorted, scored, sorted[i]);
    }
  }

  lemma {:induction false} PushedRanks(cs: seq<Scoring.Candidate>, mode: ResultMode, limit: nat)
    requires forall i :: 0 <= i < |cs| ==> 0.0 <= cs[i].score <= 1.0
    ensures InUnit(RecordSearch.PushedResults(cs, mode, limit))
  {
  }

  lemma {:induction false} RecordRanks(index: Index, query: string, o: Options)
    requires ScoresFit(index)
    ensures InUnit(RecordLaws.PacketOf(RequestFor(index, query, o)).results)
  {
    var q := RequestFor(index, query, o);
    GatheredScores(index, query, o);
    RankedScores(RecordSearch.GatheredCandidates(q), q.limit);
    PushedRanks(RecordSearch.RankAndCut(RecordSearch.GatheredCandidates(q), q.limit), q.mode, q.limit);
  }

  lemma {:induction false} PacketRanks(index: Index, query: string, o: Options)
    requires ScoresFit(index)
    ensures InUnit(PacketOf(index, query, o).results)
  {
    if Hopeless(index, o) {
    } else if GoesFast(index, query, o) {
      FastRanks(FastSearch.Ranking(index.store(query), o.filters), o, ScopeFor(index, o.filters));
    } else {
      RecordRanks(index, query, o);
    }
  }

  lemma {:induction false} IncomingRanks(children: seq<TermMerge.Child>)
    requires forall i :: 0 <= i < |children| ==> InUnit(children[i].packet.results)
    ensures InUnit(TermMerge.AllIncoming(children))
  {
    if children != [] {
      var n := |children| - 1;
      IncomingRanks(children[..n]);
      assert InUnit(children[n].packet.results);
    }
  }

  /** Whichever paths answer it, a search shows ranks in the unit interval only. */
  lemma {:induction false} AllRanks(index: Index, query: string, terms: seq<string>, o: Options)
    requires ScoresFit(index)
    ensures InUnit(TermsPacketOf(index, query, terms, o).results)
  {
    if |terms| <= 1 {
      PacketRanks(index, if terms == [] then query else terms[0], o);
    } else {
      var children := Children(index, terms, o);
      forall i | 0 <= i < |children|
        ensures InUnit(children[i].packet.results)
      {
        PacketRanks(index, terms[i], ChildOptions(o));
      }
      IncomingRanks(children);
      TermMerge.PacketRanks(children, o.limit, o.mode);
    }
  }
}
