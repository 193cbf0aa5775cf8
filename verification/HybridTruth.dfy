/** What the `has_more` of a hybrid search is worth, and what its counts stand for. */
module HybridTruth {
  import opened Wrappers
  import opened Clusters
  import opened SearchModel
  import opened MatchCounts
  import opened Ranks
  import opened Sorting
  import opened Hybrid
  import opened HybridLaws

  /** What a result or candidate stands for: its session or event in Sessions mode, else its event. */
  function KeyOf(r: SearchResult, mode: ResultMode): Id {
    if mode == Events then r.recordId
    else if r.sessionId.Some? then r.sessionId.value else r.eventId.UnwrapOr(r.recordId)
  }

  predicate Shows(p: Packet, c: Candidate, mode: ResultMode) {
    exists r :: r in p.results && KeyOf(r, mode) == KeyOf(c.result, mode)
  }

  /** The lexical list is the start of the ranking: 500 hits of it, or eight for each result and one more, or all. */
  lemma {:induction false} LexicalPage(ranking: seq<Hit>, limit: nat)
    ensures
      var page := Page(ranking, PageSize(limit), 0);
      && page <= ranking
      && (|page| < |ranking| ==> |page| >= 500 && |page| >= 8 * (limit + 1))
      && (|ranking| <= 500 ==> page == ranking)
  {
  }

  lemma {:induction false} ShownEntry(entries: seq<Candidate>, limit: nat, i: nat)
    requires i < Min(limit, |entries|)
    ensures i < |HybridPacket(entries, limit).results|
    ensures SameButRank(entries[i].result, HybridPacket(entries, limit).results[i])
  {
    var cut := ResultsOf(entries)[..Min(limit, |entries|)];
    NormalizedKeeps(cut);
    assert SameButRank(cut[i], Normalized(cut)[i]);
  }

  /** Which entry stands for a candidate. */
  lemma {:induction false} EntryFor(cs: seq<Candidate>, mode: ResultMode, p: nat) returns (i: nat)
    requires p < |cs|
    ensures i < |Entries(cs, mode)| && KeyOf(Entries(cs, mode)[i].result, mode) == KeyOf(cs[p].result, mode)
  {
    if mode == Sessions {
      i := EveryClusterIsKept(cs, p);
    } else {
      i := p;
    }
  }

  /** No two entries stand for the same. */
  lemma {:induction false} EntryKeysDiffer(cs: seq<Candidate>, mode: ResultMode, i: nat, j: nat)
    requires OrderedBy(cs, NotAfter) && IdsIdentify(cs) && NoRepeats(cs) && i < j < |Entries(cs, mode)|
    ensures KeyOf(Entries(cs, mode)[i].result, mode) != KeyOf(Entries(cs, mode)[j].result, mode)
  {
    if mode == Sessions {
      EntriesApart(cs, i, j);
    } else {
      assert cs[i] in cs && cs[j] in cs;
    }
  }

  /** `has_more == false` is the truth: every event found on the lists is shown, as its session or as itself. */
  lemma {:induction false} NoMoreMeansAll(cs: seq<Candidate>, mode: ResultMode, limit: nat, c: Candidate)
    requires !HybridPacket(Entries(cs, mode), limit).hasMore && c in cs
    ensures Shows(HybridPacket(Entries(cs, mode), limit), c, mode)
  {
    var p :| 0 <= p < |cs| && cs[p] == c;
    var i := EntryFor(cs, mode, p);
    ShownEntry(Entries(cs, mode), limit, i);
    assert HybridPacket(Entries(cs, mode), limit).results[i] in HybridPacket(Entries(cs, mode), limit).results;
  }

  /** The entry that would come next stands for a candidate that is not shown. */
  lemma {:induction false} NextIsNotShown(cs: seq<Candidate>, mode: ResultMode, limit: nat) returns (c: Candidate)
    requires OrderedBy(cs, NotAfter) && IdsIdentify(cs) && NoRepeats(cs) && limit < |Entries(cs, mode)|
    ensures c in cs && !Shows(HybridPacket(Entries(cs, mode), limit), c, mode)
  {
    var entries := Entries(cs, mode);
    var packet := HybridPacket(entries, limit);
    c := CandidateOfEntry(cs, mode, limit);
    forall r | r in packet.results
      ensures KeyOf(r, mode) != KeyOf(c.result, mode)
    {
      var i :| 0 <= i < |packet.results| && packet.results[i] == r;
      ShownEntry(entries, limit, i);
      EntryKeysDiffer(cs, mode, i, limit);
    }
  }

  lemma {:induction false} CandidateOfEntry(cs: seq<Candidate>, mode: ResultMode, i: nat) returns (c: Candidate)
    requires i < |Entries(cs, mode)|
    ensures c in cs && KeyOf(Entries(cs, mode)[i].result, mode) == KeyOf(c.result, mode)
  {
    if mode == Sessions {
      EntryOfCluster(cs, i);
      c := cs[Firsts(ClusterIds(cs))[i]];
    } else {
      c := cs[i];
    }
  }

  /** So is `has_more == true`: there is an event on the lists that no result shows. */
  lemma {:induction false} MoreMeansAnother(lexical: seq<Hit>, semantic: seq<SemanticHit>, w: real, hybrid: bool,
                                            mode: ResultMode, limit: nat) returns (c: Candidate)
    requires HybridPacket(Entries(FusedList(lexical, semantic, w, hybrid), mode), limit).hasMore
    ensures c in FusedList(lexical, semantic, w, hybrid)
    ensures !Shows(HybridPacket(Entries(FusedList(lexical, semantic, w, hybrid), mode), limit), c, mode)
    ensures HybridPacket(Entries(FusedList(lexical, semantic, w, hybrid), mode), limit).truncation == Truncated(Limit, 1)
  {
    FusedListShaped(lexical, semantic, w, hybrid);
    FusedListMembers(lexical, semantic, w, hybrid);
    c := NextIsNotShown(FusedList(lexical, semantic, w, hybrid), mode, limit);
  }

  /** And when there is no more, the counts shown add up to the events found on the lists. */
  lemma {:induction false} NoMoreCountsAll(lexical: seq<Hit>, semantic: seq<SemanticHit>, w: real, hybrid: bool,
                                           mode: ResultMode, limit: nat)
    requires !HybridPacket(Entries(FusedList(lexical, semantic, w, hybrid), mode), limit).hasMore
    ensures Matches(HybridPacket(Entries(FusedList(lexical, semantic, w, hybrid), mode), limit).results)
         == |Fusion(lexical, semantic, hybrid)|
  {
    var entries := Entries(FusedList(lexical, semantic, w, hybrid), mode);
    var found, shown := ResultsOf(entries), HybridPacket(entries, limit).results;
    CountsAddUp(lexical, semantic, w, hybrid, mode);
    assert |shown| == |found|;
    forall i | 0 <= i < |found|
      ensures found[i].more == shown[i].more
    {
      ShownEntry(entries, limit, i);
    }
    MatchesOfSameCounts(found, shown);
  }
}
