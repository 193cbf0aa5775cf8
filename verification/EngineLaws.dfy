/** What a search never does to its caller: change what was asked for, or answer with anything else. */
module EngineLaws {
  import opened Wrappers
  import opened Text
  import opened SearchModel
  import opened Filters
  import opened FilterLaws
  import opened Ranks
  import opened SearchEngine
  import FastSearch
  import RecordSearch
  import RecordLaws
  import RecordOrder
  import Scoring
  import Sorting
  import TermMerge
  import MergeLaws

  // ---------------------------------------------------------------- options

  predicate Blank(s: string) {
    forall i :: 0 <= i < |s| ==> IsSpace(s[i])
  }

  lemma {:induction false} StartTrimmed(s: string) returns (before: string)
    ensures s == before + TrimStart(s) && Blank(before)
  {
    if s != [] && IsSpace(s[0]) {
      before := StartTrimmed(s[1..]);
      before := [s[0]] + before;
    } else {
      before := [];
    }
  }

  lemma {:induction false} EndTrimmed(s: string) returns (after: string)
    ensures s == TrimEnd(s) + after && Blank(after)
  {
    if s != [] && IsSpace(s[|s| - 1]) {
      after := EndTrimmed(s[..|s| - 1]);
      after := after + [s[|s| - 1]];
    } else {
      after := [];
    }
  }

  /** Trimming takes the white space off both ends, and nothing else; a text is trimmed away iff it is blank. */
  lemma {:induction false} TrimMeans(s: string) returns (before: string, after: string)
    ensures s == before + Trim(s) + after && Blank(before) && Blank(after)
    ensures Trim(s) != [] ==> !IsSpace(Trim(s)[0]) && !IsSpace(Trim(s)[|Trim(s)| - 1])
    ensures Trim(s) == [] <==> Blank(s)
  {
    before := StartTrimmed(s);
    after := EndTrimmed(TrimStart(s));
    TrimStartEnds(s);
    TrimEndEnds(TrimStart(s));
    TrimEndKeepsStart(TrimStart(s));
    if Trim(s) != [] {
      assert s[|before|] == Trim(s)[0];
    }
  }

  /** The text asked for is what is left of the option without the white space around it. */
  ghost predicate IsTrimmed(given: Option<string>, kept: Option<string>) {
    match kept
    case None => given.Some? ==> Blank(given.value)
    case Some(text) =>
      && given.Some? && text != [] && !IsSpace(text[0]) && !IsSpace(text[|text| - 1])
      && exists before, after :: Blank(before) && Blank(after) && given.value == before + text + after
  }

  lemma {:induction false} NonBlankMeans(value: Option<string>)
    ensures IsTrimmed(value, NonBlankText(value))
  {
    if value.Some? {
      var before, after := TrimMeans(value.value);
    }
  }

  /** Normalising keeps every filter but two, which are trimmed and dropped only if blank, and any limit in range. */
  lemma {:induction false} NormalizedMeaning(options: Options)
    ensures
      var o := NormalizedOptions(options);
      && o.mode == options.mode
      && o.filters.(repo := options.filters.repo, file := options.filters.file) == options.filters
      && IsTrimmed(options.filters.repo, o.filters.repo) && IsTrimmed(options.filters.file, o.filters.file)
      && 1 <= o.limit <= MAX_RESULT_LIMIT
      && (1 <= options.limit <= MAX_RESULT_LIMIT ==> o.limit == options.limit)
  {
    NonBlankMeans(options.filters.repo);
    NonBlankMeans(options.filters.file);
  }

  /** A term's search asks for twice as much, within the same bound, and for the same otherwise. */
  lemma {:induction false} ChildOptionsMean(options: Options)
    ensures
      var o := NormalizedOptions(options);
      var child := ChildOptions(o);
      && child == o.(limit := child.limit) && o.limit <= child.limit <= MAX_RESULT_LIMIT
      && (child.limit < MAX_RESULT_LIMIT ==> child.limit == 2 * o.limit)
  {
  }

  // ---------------------------------------------------------------- hopeless searches

  /** The store has data of every provider whose hits it lists. */
  ghost predicate KnowsItsProviders(index: Index, query: string) {
    forall hit :: (hit in index.store(query).ranked || hit in index.store(query).conversationFirst) && hit.provider.Some? ==>
      index.hasProviderData(hit.provider.value)
  }

  /** A search given up at once has nothing to find. */
  lemma {:induction false} HopelessLosesNothing(index: Index, query: string, o: Options, hit: Hit)
    requires Hopeless(index, o) && KnowsItsProviders(index, query)
    requires hit in FastSearch.Ranking(index.store(query), o.filters)
    ensures !AsAsked(hit, o.filters, ScopeFor(index, o.filters))
    ensures PacketOf(index, query, o) == EMPTY_PACKET
  {
  }

  /** A search is given up iff a provider without data is asked for, or a file nothing has touched. */
  lemma {:induction false} HopelessIff(index: Index, o: Options)
    ensures Hopeless(index, o) <==>
      || (exists p :: o.filters.provider == Some(p) && !index.hasProviderData(p))
      || (exists f :: o.filters.file == Some(f) && index.touched(f) == FileScope({}, {}, {}, {}, {}))
  {
  }

  // ---------------------------------------------------------------- results

  ghost predicate AllWithin(rs: seq<SearchResult>, filters: SearchFilters) {
    forall i :: 0 <= i < |rs| ==> ResultWithin(rs[i], filters)
  }

  lemma {:induction false} RankedComeFrom(gathered: seq<RecordSearch.Candidate>, limit: nat, i: nat) returns (j: nat)
    requires i < |RecordSearch.RankAndCut(gathered, limit)|
    ensures j < |gathered| && RecordSearch.RankAndCut(gathered, limit)[i].result == gathered[j].result
  {
    var order := Sorting.SortOrder(Scoring.Normalized(gathered), RecordSearch.NotAfter);
    j := order[i];
  }

  /** What the record search answers for a query with terms are records the store lists for the query. */
  lemma {:induction false} RecordAnswerFrom(index: Index, query: string, o: Options, i: nat) returns (p: nat)
    requires !Hopeless(index, o) && !GoesFast(index, query, o) && index.hasTerms(query)
    requires i < |PacketOf(index, query, o).results|
    ensures p < |index.rows(query)| && index.rows(query)[p].candidate.Some?
    ensures SameShown(PacketOf(index, query, o).results[i], index.rows(query)[p].candidate.value.result)
    ensures o.filters.file.Some? && index.touched(o.filters.file.value).records != {} ==>
      index.rows(query)[p].recordId in index.touched(o.filters.file.value).records
  {
    var q := RequestFor(index, query, o);
    var cs := RecordSearch.RankAndCut(RecordSearch.GatheredCandidates(q), q.limit);
    var c := RecordOrder.ResultOfCandidate(cs, q.mode, RecordSearch.Used(cs, q.mode, q.limit, 0), i);
    var j := RankedComeFrom(RecordSearch.GatheredCandidates(q), q.limit, c);
    p := RecordOrder.GatheredInScope(q, RecordSearch.GatheredCandidates(q)[j]);
  }

  /** And without terms, only for a file, those of its scope. */
  lemma {:induction false} FileAnswerFrom(index: Index, query: string, o: Options, i: nat) returns (p: nat)
    requires !Hopeless(index, o) && !GoesFast(index, query, o) && !index.hasTerms(query)
    requires i < |PacketOf(index, query, o).results|
    ensures o.filters.file.Some?
    ensures p < |index.fileRows(query)| && index.fileRows(query)[p].candidate.Some?
    ensures SameShown(PacketOf(index, query, o).results[i], index.fileRows(query)[p].candidate.value.result)
  {
    var q := RequestFor(index, query, o);
    var gathered := RecordSearch.GatheredCandidates(q);
    var cs := RecordSearch.RankAndCut(gathered, q.limit);
    var c := RecordOrder.ResultOfCandidate(cs, q.mode, RecordSearch.Used(cs, q.mode, q.limit, 0), i);
    var j := RankedComeFrom(gathered, q.limit, c);
    RecordOrder.CandidatesMean(q.fileRows, {}, gathered[j]);
    p :| 0 <= p < |q.fileRows| && RecordOrder.MadeOf(q.fileRows, {}, gathered[j], p);
  }

  /** What the fast search answers is within the filters. */
  lemma {:induction false} FastAnswerWithin(index: Index, query: string, o: Options)
    requires Hopeless(index, o) || GoesFast(index, query, o)
    ensures AllWithin(PacketOf(index, query, o).results, o.filters)
  {
    if !Hopeless(index, o) {
      FastResultsWithin(FastSearch.Ranking(index.store(query), o.filters), o, ScopeFor(index, o.filters));
    }
  }

  lemma {:induction false} IncomingWithin(children: seq<TermMerge.Child>, filters: SearchFilters)
    requires forall i :: 0 <= i < |children| ==> AllWithin(children[i].packet.results, filters)
    ensures AllWithin(TermMerge.AllIncoming(children), filters)
  {
    if children != [] {
      var n := |children| - 1;
      IncomingWithin(children[..n], filters);
      assert AllWithin(children[n].packet.results, filters);
    }
  }

  /** Merging mixes the event of one result with the session of another, and stays within the filters. */
  lemma {:induction false} MergedWithin(children: seq<TermMerge.Child>, limit: nat, mode: ResultMode, filters: SearchFilters)
    requires AllWithin(TermMerge.AllIncoming(children), filters)
    ensures AllWithin(TermMerge.TermsPacket(children, limit, mode).results, filters)
  {
    forall i | 0 <= i < |TermMerge.TermsPacket(children, limit, mode).results|
      ensures ResultWithin(TermMerge.TermsPacket(children, limit, mode).results[i], filters)
    {
      var k, p, f := MergeLaws.ResultShowsOneEvent(children, limit, mode, i);
    }
  }

  /** So are the answers to several terms, if the fast search gives them. */
  lemma {:induction false} TermsAnswerWithin(index: Index, query: string, terms: seq<string>, o: Options)
    requires |terms| >= 2
    requires forall i :: 0 <= i < |terms| ==> GoesFast(index, terms[i], ChildOptions(o))
    ensures AllWithin(TermsPacketOf(index, query, terms, o).results, o.filters)
  {
    var children := Children(index, terms, o);
    forall i | 0 <= i < |children|
      ensures AllWithin(children[i].packet.results, o.filters)
    {
      FastAnswerWithin(index, terms[i], ChildOptions(o));
    }
    IncomingWithin(children, o.filters);
    MergedWithin(children, o.limit, o.mode, o.filters);
  }
}
