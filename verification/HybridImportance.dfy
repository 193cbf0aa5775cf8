/**
 When a hybrid search shows a session with the importance of its rank and count. Clustering raises the
 count and leaves the importance alone; only normalisation renews it, and only if some rank is positive.
 */
module HybridImportance {
  import opened Wrappers
  import opened Clusters
  import opened SearchModel
  import opened Filters
  import opened Ranks
  import opened Sorting
  import opened Hybrid
  import opened HybridLaws

  // ---------------------------------------------------------------- some rank is positive

  /** Whether anything on the lists scores at all. */
  predicate Scores(lexical: seq<Hit>, semantic: seq<SemanticHit>, w: real, hybrid: bool) {
    if hybrid then (w < 1.0 && lexical != []) || (w > 0.0 && semantic != [])
    else exists j :: 0 <= j < |semantic| && semantic[j].similarity > 0.0
  }

  /** An event is found: it is on a list that counts. */
  predicate IsFound(lexical: seq<Hit>, semantic: seq<SemanticHit>, hybrid: bool, id: Id) {
    (hybrid && LastPosition(lexical, id) > 0) || FirstPosition(semantic, id) > 0
  }

  function Lexicals(lexical: seq<Hit>, hybrid: bool): Candidates {
    if hybrid then LexicalMap(lexical) else map[]
  }

  lemma {:induction false} CandidateOf(lexical: seq<Hit>, semantic: seq<SemanticHit>, hybrid: bool, id: Id)
    ensures var m := Fusion(lexical, semantic, hybrid);
      && (id in m <==> IsFound(lexical, semantic, hybrid, id))
      && (id in m ==> CandidateFits(m[id], Lexicals(lexical, hybrid), semantic, hybrid, id))
      && (id in Lexicals(lexical, hybrid) <==> hybrid && LastPosition(lexical, id) > 0)
  {
    LexicalUnscored(lexical);
    LexicalMapFits(lexical, id);
    SemanticMapFits(Lexicals(lexical, hybrid), semantic, hybrid, id);
  }

  lemma {:induction false} PositionScores(p: nat)
    ensures PositionScore(p) > 0.0 <==> p > 0
    ensures PositionScore(p) >= 0.0
  {
  }

  lemma {:induction false} BlendPositive(w: real, l: real, s: real)
    requires 0.0 <= w <= 1.0 && l >= 0.0 && s >= 0.0
    ensures Blend(w, l, s) > 0.0 <==> (w < 1.0 && l > 0.0) || (w > 0.0 && s > 0.0)
  {
    assert (1.0 - w) * l >= 0.0 && w * s >= 0.0;
    assert w < 1.0 && l > 0.0 ==> (1.0 - w) * l > 0.0;
    assert w > 0.0 && s > 0.0 ==> w * s > 0.0;
  }

  /** The rank of an event is positive iff it is on a list with weight, or its similarity is. */
  predicate EventScores(lexical: seq<Hit>, semantic: seq<SemanticHit>, w: real, hybrid: bool, id: Id) {
    if hybrid then (w < 1.0 && LastPosition(lexical, id) > 0) || (w > 0.0 && FirstPosition(semantic, id) > 0)
    else Similar(semantic, id)
  }

  lemma {:induction false} EventRank(lexical: seq<Hit>, semantic: seq<SemanticHit>, w: real, hybrid: bool, id: Id)
    requires id in Fusion(lexical, semantic, hybrid)
    ensures Fused(Fusion(lexical, semantic, hybrid)[id], Clamped(w), hybrid).result.rank > 0.0
      <==> EventScores(lexical, semantic, w, hybrid, id)
  {
    if hybrid {
      FusedRank(lexical, semantic, w, id);
      var l, s := LastPosition(lexical, id), FirstPosition(semantic, id);
      PositionScores(l);
      PositionScores(s);
      BlendPositive(Clamped(w), PositionScore(l), PositionScore(s));
    } else {
      CandidateOf(lexical, semantic, hybrid, id);
      SimilarIffBestIs(semantic, id);
    }
  }

  /** Some event scores iff something on the lists does. */
  lemma {:induction false} SomeEventScores(lexical: seq<Hit>, semantic: seq<SemanticHit>, w: real, hybrid: bool)
    ensures Scores(lexical, semantic, w, hybrid) <==>
      exists id :: IsFound(lexical, semantic, hybrid, id) && EventScores(lexical, semantic, w, hybrid, id)
  {
    if Scores(lexical, semantic, w, hybrid) {
      var id: Id;
      if !hybrid {
        var j :| 0 <= j < |semantic| && semantic[j].similarity > 0.0;
        id := semantic[j].hit.eventId;
        assert Similar(semantic, id);
      } else if w < 1.0 && lexical != [] {
        id := lexical[0].eventId;
      } else {
        id := semantic[0].hit.eventId;
      }
      assert IsFound(lexical, semantic, hybrid, id) && EventScores(lexical, semantic, w, hybrid, id);
    }
  }

  lemma {:induction false} SomeRankPositive(lexical: seq<Hit>, semantic: seq<SemanticHit>, w: real, hybrid: bool)
    ensures Scores(lexical, semantic, w, hybrid) <==>
      exists c :: c in FusedList(lexical, semantic, w, hybrid) && c.result.rank > 0.0
  {
    var m := Fusion(lexical, semantic, hybrid);
    var cs := FusedList(lexical, semantic, w, hybrid);
    FusedListMembers(lexical, semantic, w, hybrid);
    FusionFiledByEvent(lexical, semantic, hybrid);
    SomeEventScores(lexical, semantic, w, hybrid);
    if id :| IsFound(lexical, semantic, hybrid, id) && EventScores(lexical, semantic, w, hybrid, id) {
      CandidateOf(lexical, semantic, hybrid, id);
      EventRank(lexical, semantic, w, hybrid, id);
      assert Fused(m[id], Clamped(w), hybrid) in cs;
    }
    if c :| c in cs && c.result.rank > 0.0 {
      var id := c.result.recordId;
      CandidateOf(lexical, semantic, hybrid, id);
      EventRank(lexical, semantic, w, hybrid, id);
    }
  }

  /** The best entry is the best candidate. */
  lemma {:induction false} TopRank(cs: seq<Candidate>, limit: nat)
    requires Shaped(cs) && limit >= 1 && cs != []
    ensures var rs := ResultsOf(Entries(cs, Sessions));
      && rs != [] && (MaxRank(rs[..Min(limit, |rs|)]) > 0.0 <==> exists c :: c in cs && c.result.rank > 0.0)
  {
    var i := EveryClusterIsKept(cs, 0);
    var rs := ResultsOf(Entries(cs, Sessions));
    var cut := rs[..Min(limit, |rs|)];
    EntriesInOrder(cs, Sessions);
    EntryOfCluster(cs, 0);
    var q := FirstsCover(ClusterIds(cs), 0);
    assert Firsts(ClusterIds(cs))[0] == 0;
    assert cut[0].rank == cs[0].result.rank;
    if c :| c in cs && c.result.rank > 0.0 {
      var p :| 0 <= p < |cs| && cs[p] == c;
      assert p == 0 || NotAfter(cs[0], cs[p]);
    }
    if MaxRank(cut) > 0.0 {
      var k :| 0 <= k < |cut| && cut[k].rank == MaxRank(cut);
      assert cut[k] == rs[k] && rs[0].rank >= rs[k].rank;
      assert cs[0] in cs;
    }
  }

  // ---------------------------------------------------------------- something was folded in

  /** The hit an event's result is made of. */
  function HitOf(lexical: seq<Hit>, semantic: seq<SemanticHit>, hybrid: bool, id: Id): Hit
    requires IsFound(lexical, semantic, hybrid, id)
  {
    if hybrid && LastPosition(lexical, id) > 0 then lexical[LastPosition(lexical, id) - 1]
    else semantic[FirstPosition(semantic, id) - 1].hit
  }

  /** No other event found shares the session. */
  ghost predicate Alone(lexical: seq<Hit>, semantic: seq<SemanticHit>, hybrid: bool, id: Id)
    requires IsFound(lexical, semantic, hybrid, id)
  {
    forall other :: IsFound(lexical, semantic, hybrid, other) && other != id ==>
      ClusterOfHit(HitOf(lexical, semantic, hybrid, other)) != ClusterOfHit(HitOf(lexical, semantic, hybrid, id))
  }

  lemma {:induction false} ClusterOfEvent(lexical: seq<Hit>, semantic: seq<SemanticHit>, w: real, hybrid: bool, id: Id)
    requires id in Fusion(lexical, semantic, hybrid)
    ensures IsFound(lexical, semantic, hybrid, id)
    ensures ClusterOf(Fused(Fusion(lexical, semantic, hybrid)[id], Clamped(w), hybrid))
         == ClusterOfHit(HitOf(lexical, semantic, hybrid, id))
  {
    CandidateOf(lexical, semantic, hybrid, id);
    LexicalMapFits(lexical, id);
  }

  lemma {:induction false} TimesOnce(keys: seq<Id>, p: nat)
    requires p < |keys|
    ensures Times(keys, keys[p]) == 1 <==> forall q :: 0 <= q < |keys| && q != p ==> keys[q] != keys[p]
  {
    var n := |keys| - 1;
    var init := keys[..n];
    assert keys == init + [keys[n]];
    TimesSnoc(init, keys[n], keys[p]);
    TimesOfMember(init, keys[p]);
    if p < n {
      TimesOnce(init, p);
      assert forall q :: 0 <= q < n ==> init[q] == keys[q];
    } else {
      assert keys[p] in init <==> exists q :: 0 <= q < n && init[q] == keys[p];
    }
  }

  lemma {:induction false} CandidateIn(lexical: seq<Hit>, semantic: seq<SemanticHit>, w: real, hybrid: bool, p: nat)
    requires p < |FusedList(lexical, semantic, w, hybrid)|
    ensures
      var cs := FusedList(lexical, semantic, w, hybrid);
      var id := cs[p].result.recordId;
      && IsFound(lexical, semantic, hybrid, id)
      && ClusterIds(cs)[p] == ClusterOfHit(HitOf(lexical, semantic, hybrid, id))
      && forall q :: 0 <= q < |cs| && q != p ==> cs[q].result.recordId != id
  {
    var cs := FusedList(lexical, semantic, w, hybrid);
    FusedListMembers(lexical, semantic, w, hybrid);
    assert cs[p] in cs;
    ClusterOfEvent(lexical, semantic, w, hybrid, cs[p].result.recordId);
    assert forall q :: 0 <= q < |cs| && q != p ==> cs[q] in cs && cs[q] != cs[p];
  }

  lemma {:induction false} PositionOf(lexical: seq<Hit>, semantic: seq<SemanticHit>, w: real, hybrid: bool, id: Id)
    returns (p: nat)
    requires IsFound(lexical, semantic, hybrid, id)
    ensures p < |FusedList(lexical, semantic, w, hybrid)| && FusedList(lexical, semantic, w, hybrid)[p].result.recordId == id
  {
    var cs := FusedList(lexical, semantic, w, hybrid);
    FusedListMembers(lexical, semantic, w, hybrid);
    FusionFiledByEvent(lexical, semantic, hybrid);
    CandidateOf(lexical, semantic, hybrid, id);
    var c := Fused(Fusion(lexical, semantic, hybrid)[id], Clamped(w), hybrid);
    assert c in cs;
    p :| 0 <= p < |cs| && cs[p] == c;
  }

  lemma {:induction false} ApartIffAlone(lexical: seq<Hit>, semantic: seq<SemanticHit>, w: real, hybrid: bool, p: nat)
    requires p < |FusedList(lexical, semantic, w, hybrid)|
    ensures
      var cs := FusedList(lexical, semantic, w, hybrid);
      var keys := ClusterIds(cs);
      && IsFound(lexical, semantic, hybrid, cs[p].result.recordId)
      && (Alone(lexical, semantic, hybrid, cs[p].result.recordId) <==>
            forall q :: 0 <= q < |keys| && q != p ==> keys[q] != keys[p])
  {
    var cs := FusedList(lexical, semantic, w, hybrid);
    var keys := ClusterIds(cs);
    CandidateIn(lexical, semantic, w, hybrid, p);
    var id := cs[p].result.recordId;
    forall q | 0 <= q < |keys| && q != p
      ensures Alone(lexical, semantic, hybrid, id) ==> keys[q] != keys[p]
    {
      CandidateIn(lexical, semantic, w, hybrid, q);
    }
    forall other | IsFound(lexical, semantic, hybrid, other) && other != id
      ensures exists q :: 0 <= q < |keys| && q != p && keys[q] == ClusterOfHit(HitOf(lexical, semantic, hybrid, other))
    {
      var q := PositionOf(lexical, semantic, w, hybrid, other);
      CandidateIn(lexical, semantic, w, hybrid, q);
    }
  }

  /** An entry counts others iff another event found shares its session. */
  lemma {:induction false} FoldedIffCompany(lexical: seq<Hit>, semantic: seq<SemanticHit>, w: real, hybrid: bool, i: nat)
    requires i < |Entries(FusedList(lexical, semantic, w, hybrid), Sessions)|
    ensures
      var r := Entries(FusedList(lexical, semantic, w, hybrid), Sessions)[i].result;
      && IsFound(lexical, semantic, hybrid, r.recordId)
      && (r.more == 0 <==> Alone(lexical, semantic, hybrid, r.recordId))
  {
    var cs := FusedList(lexical, semantic, w, hybrid);
    var p := Firsts(ClusterIds(cs))[i];
    FusedListShaped(lexical, semantic, w, hybrid);
    assert cs[p] in cs;
    EntryOfCluster(cs, i);
    TimesOnce(ClusterIds(cs), p);
    ApartIffAlone(lexical, semantic, w, hybrid, p);
  }

  // ---------------------------------------------------------------- the importance shown

  lemma {:induction false} ImportanceOfEntry(cs: seq<Candidate>, limit: nat, i: nat)
    requires Shaped(cs) && i < |HybridPacket(Entries(cs, Sessions), limit).results|
    ensures
      var entries := Entries(cs, Sessions);
      var r := HybridPacket(entries, limit).results[i];
      && SameButRank(entries[i].result, r)
      && (r.scope == SessionScope ==>
            (r.importance == Of(r.rank, r.more) <==>
               r.more == 0 || MaxRank(ResultsOf(entries)[..Min(limit, |entries|)]) > 0.0))
  {
    var entries := Entries(cs, Sessions);
    var cut := ResultsOf(entries)[..Min(limit, |entries|)];
    NormalizedImportance(cut, i);
    var keys := ClusterIds(cs);
    assert entries[i] == FoldedEntry(cs, keys, HybridEntry, i);
    assert cs[Firsts(keys)[i]] in cs;
    NormalizedKeeps(cut);
    assert SameButRank(cut[i], Normalized(cut)[i]);
  }

  lemma {:induction false} EntryScope(cs: seq<Candidate>, i: nat)
    requires i < |Entries(cs, Sessions)|
    ensures var p := Firsts(ClusterIds(cs))[i];
      && Entries(cs, Sessions)[i].result.recordId == cs[p].result.recordId
      && Entries(cs, Sessions)[i].result.scope == ScopeOf(cs[p].result)
  {
  }

  lemma {:induction false} SessionOfEvent(lexical: seq<Hit>, semantic: seq<SemanticHit>, w: real, hybrid: bool, p: nat)
    requires p < |FusedList(lexical, semantic, w, hybrid)|
    ensures
      var result := FusedList(lexical, semantic, w, hybrid)[p].result;
      && IsFound(lexical, semantic, hybrid, result.recordId)
      && result.sessionId == HitOf(lexical, semantic, hybrid, result.recordId).sessionId
  {
    var cs := FusedList(lexical, semantic, w, hybrid);
    FusedListMembers(lexical, semantic, w, hybrid);
    assert cs[p] in cs;
    CandidateOf(lexical, semantic, hybrid, cs[p].result.recordId);
    LexicalMapFits(lexical, cs[p].result.recordId);
  }

  /** What is shown as a session is what has one. */
  lemma {:induction false} SessionShown(lexical: seq<Hit>, semantic: seq<SemanticHit>, w: real, hybrid: bool, limit: nat, i: nat)
    requires i < |HybridPacket(Entries(FusedList(lexical, semantic, w, hybrid), Sessions), limit).results|
    ensures
      var r := HybridPacket(Entries(FusedList(lexical, semantic, w, hybrid), Sessions), limit).results[i];
      && IsFound(lexical, semantic, hybrid, r.recordId)
      && (r.scope == SessionScope <==> HitOf(lexical, semantic, hybrid, r.recordId).sessionId.Some?)
  {
    var cs := FusedList(lexical, semantic, w, hybrid);
    FusedListShaped(lexical, semantic, w, hybrid);
    ImportanceOfEntry(cs, limit, i);
    EntryScope(cs, i);
    SessionOfEvent(lexical, semantic, w, hybrid, Firsts(ClusterIds(cs))[i]);
  }

  /**
   A session is shown with the importance of its rank and count iff something on the lists scores, or no
   other event found shares the session.
   */
  lemma {:induction false} ImportanceUpToDate(lexical: seq<Hit>, semantic: seq<SemanticHit>, w: real, hybrid: bool,
                                              limit: nat, i: nat)
    requires i < |HybridPacket(Entries(FusedList(lexical, semantic, w, hybrid), Sessions), limit).results|
    ensures
      var r := HybridPacket(Entries(FusedList(lexical, semantic, w, hybrid), Sessions), limit).results[i];
      && IsFound(lexical, semantic, hybrid, r.recordId)
      && (r.scope == SessionScope ==>
            (r.importance == Of(r.rank, r.more) <==>
               Scores(lexical, semantic, w, hybrid) || Alone(lexical, semantic, hybrid, r.recordId)))
  {
    var cs := FusedList(lexical, semantic, w, hybrid);
    FusedListShaped(lexical, semantic, w, hybrid);
    ImportanceOfEntry(cs, limit, i);
    FoldedIffCompany(lexical, semantic, w, hybrid, i);
    assert cs != [];
    TopRank(cs, limit);
    SomeRankPositive(lexical, semantic, w, hybrid);
  }

  /** Two hits of one session: each is found, and neither is alone. */
  lemma {:induction false} NeitherAlone(a: SemanticHit, b: SemanticHit, id: Id)
    requires a.hit.eventId != b.hit.eventId && a.hit.sessionId.Some? && b.hit.sessionId == a.hit.sessionId
    requires IsFound([], [a, b], false, id)
    ensures HitOf([], [a, b], false, id).sessionId.Some? && !Alone([], [a, b], false, id)
  {
    var semantic := [a, b];
    assert semantic[0] == a && semantic[1] == b;
    var other := if id == a.hit.eventId then b.hit.eventId else a.hit.eventId;
    assert IsFound([], semantic, false, other) && other != id;
  }

  lemma {:induction false} SomethingShown(a: SemanticHit, b: SemanticHit, w: real, limit: nat)
    requires limit >= 1
    ensures HybridPacket(Entries(FusedList([], [a, b], w, false), Sessions), limit).results != []
  {
    var semantic := [a, b];
    assert semantic[0] == a;
    var p := PositionOf([], semantic, w, false, a.hit.eventId);
    var i := EveryClusterIsKept(FusedList([], semantic, w, false), p);
  }

  /** A search that shows a stale importance: two hits of one session, neither of them similar to the query. */
  lemma {:induction false} ImportanceCanBeStale(a: SemanticHit, b: SemanticHit, w: real, limit: nat)
    requires a.hit.eventId != b.hit.eventId && a.hit.sessionId.Some? && b.hit.sessionId == a.hit.sessionId
    requires a.similarity == 0.0 == b.similarity && limit >= 1
    ensures
      var results := HybridPacket(Entries(FusedList([], [a, b], w, false), Sessions), limit).results;
      && results != [] && results[0].scope == SessionScope && results[0].importance != Of(results[0].rank, results[0].more)
  {
    var results := HybridPacket(Entries(FusedList([], [a, b], w, false), Sessions), limit).results;
    SomethingShown(a, b, w, limit);
    ImportanceUpToDate([], [a, b], w, false, limit, 0);
    SessionShown([], [a, b], w, false, limit, 0);
    NeitherAlone(a, b, results[0].recordId);
  }
}
