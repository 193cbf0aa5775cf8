/** What a result merged from several terms shows: whose event, whose session, which reasons and citations. */
module MergeLaws {
  import opened Wrappers
  import opened Clusters
  import opened SearchModel
  import opened Ranks
  import opened Sorting
  import opened TermMerge

  predicate Has(rs: seq<SearchResult>, mode: ResultMode, k: Id, p: nat)
    requires p < |rs|
  {
    MergeKey(rs[p], mode) == k
  }

  /** No result before position `p` has the key. */
  predicate NoneBefore(rs: seq<SearchResult>, mode: ResultMode, k: Id, p: nat)
    requires p <= |rs|
  {
    forall q :: 0 <= q < p ==> !Has(rs, mode, k, q)
  }

  lemma {:induction false} GroupedIffSome(rs: seq<SearchResult>, mode: ResultMode, k: Id)
    ensures Group(rs, mode, k).None? <==> NoneBefore(rs, mode, k, |rs|)
  {
    assert forall q :: 0 <= q < |rs| ==> Keys(rs, mode)[q] == MergeKey(rs[q], mode);
    if k in Keys(rs, mode) {
      var q :| 0 <= q < |rs| && Keys(rs, mode)[q] == k;
      assert Has(rs, mode, k, q);
    } else {
      forall q | 0 <= q < |rs|
        ensures !Has(rs, mode, k, q)
      {
        assert Keys(rs, mode)[q] in Keys(rs, mode);
      }
    }
  }

  // ---------------------------------------------------------------- whose event is shown

  /** At position `q` the incoming result beats what was merged so far, or there is nothing yet. */
  predicate TakesOver(rs: seq<SearchResult>, mode: ResultMode, k: Id, q: nat)
    requires q < |rs|
  {
    Has(rs, mode, k, q)
    && (Group(rs[..q], mode, k).None? || rs[q].rank > Group(rs[..q], mode, k).value.rank)
  }

  /** The last one to take over. */
  predicate Lends(rs: seq<SearchResult>, mode: ResultMode, k: Id, p: nat)
    requires p < |rs|
  {
    TakesOver(rs, mode, k, p) && forall q :: p < q < |rs| ==> !TakesOver(rs, mode, k, q)
  }

  /** The event, with all that is shown of it. */
  predicate ShowsEventOf(g: SearchResult, r: SearchResult) {
    g.recordId == r.recordId && g.eventId == r.eventId && g.timestamp == r.timestamp && g.detail == r.detail
  }

  lemma {:induction false} TakesOverBefore(rs: seq<SearchResult>, mode: ResultMode, k: Id, n: nat, q: nat)
    requires q < n <= |rs|
    ensures TakesOver(rs[..n], mode, k, q) <==> TakesOver(rs, mode, k, q)
  {
    assert rs[..n][..q] == rs[..q];
  }

  /** A merged result shows one event: that of the last input that beat what had been merged before it. */
  lemma {:induction false} MergedShowsOneEvent(rs: seq<SearchResult>, mode: ResultMode, k: Id) returns (p: nat)
    requires k in Keys(rs, mode)
    ensures p < |rs| && Lends(rs, mode, k, p)
    ensures ShowsEventOf(Group(rs, mode, k).value, rs[p])
  {
    var n := |rs| - 1;
    assert rs == rs[..n] + [rs[n]];
    GroupSnoc(rs[..n], rs[n], mode, k);
    if TakesOver(rs, mode, k, n) {
      p := n;
    } else {
      p := MergedShowsOneEvent(rs[..n], mode, k);
      forall q | p <= q < n
        ensures TakesOver(rs, mode, k, q) <==> q == p
      {
        TakesOverBefore(rs, mode, k, n, q);
      }
    }
  }

  lemma {:induction false} OneLender(rs: seq<SearchResult>, mode: ResultMode, k: Id, p: nat, q: nat)
    requires p < |rs| && q < |rs| && Lends(rs, mode, k, p) && Lends(rs, mode, k, q)
    ensures p == q
  {
  }

  /** No other input with the key comes within the bonuses of the one at `p`. */
  ghost predicate ClearlyBest(rs: seq<SearchResult>, mode: ResultMode, k: Id, p: nat)
    requires p < |rs|
  {
    Has(rs, mode, k, p)
    && forall q :: 0 <= q < |rs| && q != p && Has(rs, mode, k, q) ==>
         rs[q].rank + MERGE_BONUS * Times(Keys(rs, mode), k) as real < rs[p].rank
  }

  /** The best rank is the rank of an input. */
  lemma {:induction false} BestRankIsOne(rs: seq<SearchResult>, mode: ResultMode, k: Id) returns (p: nat)
    requires k in Keys(rs, mode)
    ensures p < |rs| && Has(rs, mode, k, p) && rs[p].rank == BestRank(rs, mode, k)
    ensures forall q :: 0 <= q < |rs| && Has(rs, mode, k, q) ==> rs[q].rank <= BestRank(rs, mode, k)
  {
    var n := |rs| - 1;
    var init := rs[..n];
    assert Keys(rs, mode) == Keys(init, mode) + [MergeKey(rs[n], mode)];
    assert forall q :: 0 <= q < n && Has(rs, mode, k, q) ==> Has(init, mode, k, q);
    GroupedIffSome(init, mode, k);
    if k in Keys(init, mode) {
      p := BestRankIsOne(init, mode, k);
      if Has(rs, mode, k, n) && rs[n].rank > BestRank(init, mode, k) {
        p := n;
      } else {
        assert Has(rs, mode, k, p);
      }
    } else {
      p := n;
    }
  }

  lemma {:induction false} FewerBefore(keys: seq<Id>, q: nat, k: Id)
    requires q <= |keys|
    ensures Times(keys[..q], k) <= Times(keys, k)
    decreases |keys|
  {
    if q < |keys| {
      FewerBefore(keys[..|keys| - 1], q, k);
      assert keys[..|keys| - 1][..q] == keys[..q];
    } else {
      assert keys[..q] == keys;
    }
  }

  lemma {:induction false} RankBefore(rs: seq<SearchResult>, mode: ResultMode, k: Id, q: nat)
    requires q < |rs| && k in Keys(rs[..q], mode)
    ensures
      var rank, best := Group(rs[..q], mode, k).value.rank, BestRank(rs[..q], mode, k);
      best <= rank <= best + MERGE_BONUS * Times(Keys(rs, mode), k) as real
  {
    MergedRank(rs[..q], mode, k);
    assert Keys(rs[..q], mode) == Keys(rs, mode)[..q];
    FewerBefore(Keys(rs, mode), q, k);
    assert MERGE_BONUS * (Times(Keys(rs[..q], mode), k) - 1) as real <= MERGE_BONUS * Times(Keys(rs, mode), k) as real;
  }

  /** An input that beats all others by more than the bonuses they can bring is the one shown. */
  lemma {:induction false} ClearlyBestIsShown(rs: seq<SearchResult>, mode: ResultMode, k: Id, p: nat)
    requires p < |rs| && ClearlyBest(rs, mode, k, p)
    ensures k in Keys(rs, mode) && Lends(rs, mode, k, p) && ShowsEventOf(Group(rs, mode, k).value, rs[p])
  {
    GroupedIffSome(rs, mode, k);
    if k in Keys(rs[..p], mode) {
      RankBefore(rs, mode, k, p);
      var b := BestRankIsOne(rs[..p], mode, k);
      assert Has(rs, mode, k, b);
    }
    forall q | p < q < |rs|
      ensures !TakesOver(rs, mode, k, q)
    {
      assert Has(rs[..q], mode, k, p);
      GroupedIffSome(rs[..q], mode, k);
      RankBefore(rs, mode, k, q);
      var b := BestRankIsOne(rs[..q], mode, k);
      assert rs[p].rank <= BestRank(rs[..q], mode, k);
    }
    var l := MergedShowsOneEvent(rs, mode, k);
    OneLender(rs, mode, k, p, l);
  }

  // ---------------------------------------------------------------- where it comes from

  /** The first value known from position `p` on, among the results with the key. */
  predicate FirstKnown(rs: seq<SearchResult>, mode: ResultMode, k: Id, p: nat, field: Origin -> Option<string>,
                       value: Option<string>)
    requires p < |rs|
  {
    match value
    case None => forall q :: p <= q < |rs| && Has(rs, mode, k, q) ==> field(rs[q].origin) == None
    case Some(_) =>
      exists q :: p <= q < |rs| && Has(rs, mode, k, q) && field(rs[q].origin) == value
                  && forall j :: p <= j < q && Has(rs, mode, k, j) ==> field(rs[j].origin) == None
  }

  const HistorySource: Origin -> Option<string> := (o: Origin) => o.historySource
  const Plugin: Origin -> Option<string> := (o: Origin) => o.plugin
  const ProviderKey: Origin -> Option<string> := (o: Origin) => o.providerKey
  const SourceId: Origin -> Option<string> := (o: Origin) => o.sourceId
  const SourceFormat: Origin -> Option<string> := (o: Origin) => o.sourceFormat

  lemma {:induction false} FirstKnownSnoc(rs: seq<SearchResult>, mode: ResultMode, k: Id, p: nat,
                                          field: Origin -> Option<string>, value: Option<string>)
    requires p < |rs| - 1 && FirstKnown(rs[..|rs| - 1], mode, k, p, field, value)
    ensures
      var last := rs[|rs| - 1];
      FirstKnown(rs, mode, k, p, field, if Has(rs, mode, k, |rs| - 1) then Or(value, field(last.origin)) else value)
  {
    var n := |rs| - 1;
    assert forall q :: 0 <= q < n ==> (Has(rs[..n], mode, k, q) <==> Has(rs, mode, k, q));
    match value
    case Some(_) =>
      var q :| p <= q < n && Has(rs[..n], mode, k, q) && field(rs[..n][q].origin) == value
        && forall j :: p <= j < q && Has(rs[..n], mode, k, j) ==> field(rs[..n][j].origin) == None;
      assert Has(rs, mode, k, q) && field(rs[q].origin) == value;
    case None =>
  }

  ghost predicate OriginFrom(rs: seq<SearchResult>, mode: ResultMode, k: Id, p: nat, origin: Origin)
    requires p < |rs|
  {
    && FirstKnown(rs, mode, k, p, HistorySource, origin.historySource)
    && FirstKnown(rs, mode, k, p, Plugin, origin.plugin)
    && FirstKnown(rs, mode, k, p, ProviderKey, origin.providerKey)
    && FirstKnown(rs, mode, k, p, SourceId, origin.sourceId)
    && FirstKnown(rs, mode, k, p, SourceFormat, origin.sourceFormat)
  }

  lemma {:induction false} OwnOrigin(rs: seq<SearchResult>, mode: ResultMode, k: Id)
    requires rs != [] && Has(rs, mode, k, |rs| - 1)
    ensures OriginFrom(rs, mode, k, |rs| - 1, rs[|rs| - 1].origin)
  {
  }

  /** Each field of the origin is the first one known, from the result shown on. */
  lemma {:induction false} MergedOrigin(rs: seq<SearchResult>, mode: ResultMode, k: Id, p: nat)
    requires k in Keys(rs, mode) && p < |rs| && Lends(rs, mode, k, p)
    ensures OriginFrom(rs, mode, k, p, Group(rs, mode, k).value.origin)
    decreases |rs|
  {
    var n := |rs| - 1;
    assert rs == rs[..n] + [rs[n]];
    GroupSnoc(rs[..n], rs[n], mode, k);
    if p == n {
      OwnOrigin(rs, mode, k);
    } else {
      assert !TakesOver(rs, mode, k, n);
      forall q | p <= q < n
        ensures TakesOver(rs[..n], mode, k, q) <==> TakesOver(rs, mode, k, q)
      {
        TakesOverBefore(rs, mode, k, n, q);
      }
      GroupedIffSome(rs[..n], mode, k);
      assert Has(rs[..n], mode, k, p);
      MergedOrigin(rs[..n], mode, k, p);
      OriginSnoc(rs, mode, k, p, Group(rs[..n], mode, k).value.origin);
    }
  }

  lemma {:induction false} OriginSnoc(rs: seq<SearchResult>, mode: ResultMode, k: Id, p: nat, origin: Origin)
    requires p < |rs| - 1 && OriginFrom(rs[..|rs| - 1], mode, k, p, origin)
    ensures OriginFrom(rs, mode, k, p,
                       if Has(rs, mode, k, |rs| - 1) then FillOrigin(origin, rs[|rs| - 1].origin) else origin)
  {
    FirstKnownSnoc(rs, mode, k, p, HistorySource, origin.historySource);
    FirstKnownSnoc(rs, mode, k, p, Plugin, origin.plugin);
    FirstKnownSnoc(rs, mode, k, p, ProviderKey, origin.providerKey);
    FirstKnownSnoc(rs, mode, k, p, SourceId, origin.sourceId);
    FirstKnownSnoc(rs, mode, k, p, SourceFormat, origin.sourceFormat);
  }

  // ---------------------------------------------------------------- reasons and citations

  lemma {:induction false} AddedWhys(why: seq<string>, more: seq<string>)
    ensures why <= AddWhys(why, more)
    ensures forall x :: x in AddWhys(why, more) <==> x in why || x in more
    ensures NoRepeats(why) ==> NoRepeats(AddWhys(why, more))
    decreases |more|
  {
    if more != [] {
      AddedWhys(PushUniqueWhy(why, more[0]), more[1..]);
      assert more == [more[0]] + more[1..];
    }
  }

  lemma {:induction false} AddedCitations(cs: seq<Citation>, more: seq<Citation>)
    ensures cs <= AddCitations(cs, more)
    ensures forall x :: x in AddCitations(cs, more) <==> x in cs || x in more
    ensures NoRepeats(cs) ==> NoRepeats(AddCitations(cs, more))
    decreases |more|
  {
    if more != [] {
      AddedCitations(if more[0] in cs then cs else cs + [more[0]], more[1..]);
      assert more == [more[0]] + more[1..];
    }
  }

  /** Some result with the key gives the reason. */
  predicate GivesReason(rs: seq<SearchResult>, mode: ResultMode, k: Id, reason: string) {
    exists q :: 0 <= q < |rs| && Has(rs, mode, k, q) && reason in rs[q].why
  }

  predicate Cites(rs: seq<SearchResult>, mode: ResultMode, k: Id, citation: Citation) {
    exists q :: 0 <= q < |rs| && Has(rs, mode, k, q) && citation in rs[q].citations
  }

  lemma {:induction false} GivesSnoc(rs: seq<SearchResult>, mode: ResultMode, k: Id, reason: string, citation: Citation)
    requires rs != []
    ensures
      var n := |rs| - 1;
      && (GivesReason(rs, mode, k, reason) <==>
            GivesReason(rs[..n], mode, k, reason) || (Has(rs, mode, k, n) && reason in rs[n].why))
      && (Cites(rs, mode, k, citation) <==>
            Cites(rs[..n], mode, k, citation) || (Has(rs, mode, k, n) && citation in rs[n].citations))
  {
    var n := |rs| - 1;
    assert forall q :: 0 <= q < n ==> (Has(rs[..n], mode, k, q) <==> Has(rs, mode, k, q)) && rs[..n][q] == rs[q];
    if GivesReason(rs[..n], mode, k, reason) {
      var q :| 0 <= q < n && Has(rs[..n], mode, k, q) && reason in rs[..n][q].why;
      assert Has(rs, mode, k, q);
    }
    if Cites(rs[..n], mode, k, citation) {
      var q :| 0 <= q < n && Has(rs[..n], mode, k, q) && citation in rs[..n][q].citations;
      assert Has(rs, mode, k, q);
    }
  }

  /** The reasons and citations are those of all the inputs, and of no others. */
  lemma {:induction false} MergedReasons(rs: seq<SearchResult>, mode: ResultMode, k: Id, reason: string, citation: Citation)
    requires k in Keys(rs, mode)
    ensures reason in Group(rs, mode, k).value.why <==> GivesReason(rs, mode, k, reason)
    ensures citation in Group(rs, mode, k).value.citations <==> Cites(rs, mode, k, citation)
  {
    var n := |rs| - 1;
    assert rs == rs[..n] + [rs[n]];
    GroupSnoc(rs[..n], rs[n], mode, k);
    GivesSnoc(rs, mode, k, reason, citation);
    GroupedIffSome(rs[..n], mode, k);
    if k in Keys(rs[..n], mode) {
      MergedReasons(rs[..n], mode, k, reason, citation);
      var g := Group(rs[..n], mode, k).value;
      AddedWhys(g.why, rs[n].why);
      AddedCitations(g.citations, rs[n].citations);
    }
  }

  /**
   The rest is that of the first input with the key: its session and scope, and its reasons and citations
   come first; nothing is named twice unless it named it twice itself.
   */
  lemma {:induction false} MergedKeepsFirst(rs: seq<SearchResult>, mode: ResultMode, k: Id) returns (f: nat)
    requires k in Keys(rs, mode)
    ensures f < |rs| && Has(rs, mode, k, f) && NoneBefore(rs, mode, k, f)
    ensures
      var g := Group(rs, mode, k).value;
      && g.sessionId == rs[f].sessionId && g.scope == rs[f].scope
      && rs[f].why <= g.why && rs[f].citations <= g.citations
      && (NoRepeats(rs[f].why) ==> NoRepeats(g.why))
      && (NoRepeats(rs[f].citations) ==> NoRepeats(g.citations))
  {
    var n := |rs| - 1;
    assert rs == rs[..n] + [rs[n]];
    GroupSnoc(rs[..n], rs[n], mode, k);
    GroupedIffSome(rs[..n], mode, k);
    assert forall q :: 0 <= q < n ==> (Has(rs[..n], mode, k, q) <==> Has(rs, mode, k, q));
    if k in Keys(rs[..n], mode) {
      f := MergedKeepsFirst(rs[..n], mode, k);
      var g := Group(rs[..n], mode, k).value;
      AddedWhys(g.why, rs[n].why);
      AddedCitations(g.citations, rs[n].citations);
    } else {
      f := n;
    }
  }

  /** With two or more inputs, the importance of a session is that of its merged rank and count. */
  lemma {:induction false} MergedImportance(rs: seq<SearchResult>, mode: ResultMode, k: Id)
    requires k in Keys(rs, mode) && Times(Keys(rs, mode), k) >= 2
    ensures
      var g := Group(rs, mode, k).value;
      g.scope == SessionScope ==> g.importance == Of(g.rank, g.more)
  {
    var n := |rs| - 1;
    assert rs == rs[..n] + [rs[n]];
    GroupSnoc(rs[..n], rs[n], mode, k);
    TimesSnoc(Keys(rs[..n], mode), MergeKey(rs[n], mode), k);
    TimesOfMember(Keys(rs[..n], mode), k);
    if MergeKey(rs[n], mode) != k {
      MergedImportance(rs[..n], mode, k);
    }
  }

  // ---------------------------------------------------------------- the packet

  /** The merged results, best first; of equal rank the newest first, those without a time last, then by id. */
  lemma {:induction false} MergedOrder(rs: seq<SearchResult>, mode: ResultMode, i: nat, j: nat)
    requires i < j < |Merged(rs, mode)|
    ensures
      var a, b := SortBy(Merged(rs, mode), NotAfter)[i], SortBy(Merged(rs, mode), NotAfter)[j];
      && a.rank >= b.rank
      && (a.rank == b.rank && b.timestamp.Some? ==> a.timestamp.Some? && a.timestamp.value >= b.timestamp.value)
      && (a.rank == b.rank && a.timestamp == b.timestamp ==> a.recordId <= b.recordId)
  {
    ComparatorIsTotal();
    SortOrders(Merged(rs, mode), NotAfter);
    assert NotAfter(SortBy(Merged(rs, mode), NotAfter)[i], SortBy(Merged(rs, mode), NotAfter)[j]);
  }

  lemma {:induction false} SumGrows(children: seq<Child>, i: nat)
    requires i < |children|
    ensures SumOmitted(children) >= OmittedBy(children[i].packet.truncation)
  {
    if i < |children| - 1 {
      SumGrows(children[..|children| - 1], i);
    }
  }

  /**
   What is said of results left out: there are such iff a term's packet was truncated, and then for that
   reason, or merging left more results than the limit; their number is those the terms left out and those
   cut off here, and at least one.
   */
  lemma {:induction false} TruncationMeans(children: seq<Child>, limit: nat, mode: ResultMode)
    ensures
      var p := TermsPacket(children, limit, mode);
      var cut := |Firsts(Keys(AllIncoming(children), mode))| - |p.results|;
      var anyTruncated := exists i :: 0 <= i < |children| && children[i].packet.truncation.Truncated?;
      && 0 <= cut && (cut > 0 ==> |p.results| == limit)
      && (p.hasMore <==> p.truncation.Truncated?) && (p.hasMore <==> cut > 0 || anyTruncated)
      && (p.hasMore ==>
            && (p.truncation.reason == SourceLimit <==> anyTruncated) && (p.truncation.reason == Limit <==> !anyTruncated)
            && p.truncation.omitted >= 1
            && (SumOmitted(children) + cut >= 1 ==> p.truncation.omitted == SumOmitted(children) + cut))
      && forall i :: 0 <= i < |children| && children[i].packet.truncation.Truncated? ==>
           p.truncation.Truncated? && p.truncation.omitted >= children[i].packet.truncation.omitted
  {
    forall i | 0 <= i < |children|
      ensures SumOmitted(children) >= OmittedBy(children[i].packet.truncation)
    {
      SumGrows(children, i);
    }
  }

  /** A result of the packet is what the inputs with one key merge into, but for its rank. */
  lemma {:induction false} ResultIsMerged(children: seq<Child>, limit: nat, mode: ResultMode, i: nat) returns (k: Id)
    requires i < |TermsPacket(children, limit, mode).results|
    ensures k in Keys(AllIncoming(children), mode)
    ensures SameButRank(Group(AllIncoming(children), mode, k).value, TermsPacket(children, limit, mode).results[i])
  {
    var rs := AllIncoming(children);
    var merged := Merged(rs, mode);
    var sorted := SortBy(merged, NotAfter);
    var cut := sorted[..Min(limit, |sorted|)];
    NormalizedKeeps(cut);
    assert SameButRank(cut[i], Normalized(cut)[i]);
    SortPermutes(merged, NotAfter);
    SameMembers(sorted, merged, sorted[i]);
    var j :| 0 <= j < |merged| && merged[j] == sorted[i];
    k := Keys(rs, mode)[Firsts(Keys(rs, mode))[j]];
  }

  /** It shows the event of one input, in the session of the first with its key, for the reasons of all of them. */
  lemma {:induction false} ResultShowsOneEvent(children: seq<Child>, limit: nat, mode: ResultMode, i: nat)
    returns (k: Id, p: nat, f: nat)
    requires i < |TermsPacket(children, limit, mode).results|
    ensures
      var rs := AllIncoming(children);
      var r := TermsPacket(children, limit, mode).results[i];
      && p < |rs| && Lends(rs, mode, k, p) && ShowsEventOf(r, rs[p]) && OriginFrom(rs, mode, k, p, r.origin)
      && f < |rs| && Has(rs, mode, k, f) && NoneBefore(rs, mode, k, f)
      && r.sessionId == rs[f].sessionId && r.scope == rs[f].scope
      && (forall reason :: reason in r.why <==> GivesReason(rs, mode, k, reason))
      && (forall citation :: citation in r.citations <==> Cites(rs, mode, k, citation))
  {
    var rs := AllIncoming(children);
    k := ResultIsMerged(children, limit, mode, i);
    p := MergedShowsOneEvent(rs, mode, k);
    MergedOrigin(rs, mode, k, p);
    f := MergedKeepsFirst(rs, mode, k);
    forall reason
      ensures reason in Group(rs, mode, k).value.why <==> GivesReason(rs, mode, k, reason)
    {
      MergedReasons(rs, mode, k, reason, Citation(0, 0));
    }
    forall citation
      ensures citation in Group(rs, mode, k).value.citations <==> Cites(rs, mode, k, citation)
    {
      MergedReasons(rs, mode, k, "", citation);
    }
  }

  lemma {:induction false} IncomingIsAmongAll(children: seq<Child>, j: nat, i: nat) returns (q: nat)
    requires j < |children| && i < |children[j].packet.results|
    ensures q < |AllIncoming(children)|
    ensures AllIncoming(children)[q] == Incoming(children[j].term, children[j].packet.results)[i]
  {
    var n := |children| - 1;
    if j < n {
      q := IncomingIsAmongAll(children[..n], j, i);
    } else {
      q := |AllIncoming(children[..n])| + i;
    }
  }

  /** A merged result names every term that found one of its inputs, and the reasons of that input. */
  lemma {:induction false} TermIsNamed(children: seq<Child>, mode: ResultMode, j: nat, i: nat)
    requires j < |children| && i < |children[j].packet.results|
    ensures
      var r := children[j].packet.results[i];
      var g := Group(AllIncoming(children), mode, MergeKey(r, mode));
      && g.Some? && "term:" + children[j].term in g.value.why
      && forall reason :: reason in r.why ==> reason in g.value.why
  {
    var rs, r := AllIncoming(children), children[j].packet.results[i];
    var k := MergeKey(r, mode);
    var q := IncomingIsAmongAll(children, j, i);
    assert Has(rs, mode, k, q);
    GroupedIffSome(rs, mode, k);
    forall reason | reason in r.why || reason == "term:" + children[j].term
      ensures reason in Group(rs, mode, k).value.why
    {
      assert reason in rs[q].why;
      MergedReasons(rs, mode, k, reason, Citation(0, 0));
    }
  }
}
