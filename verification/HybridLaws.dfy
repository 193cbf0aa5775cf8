/**
 What hybrid search promises: its ranks are the reciprocal-rank formula, its order does not depend on
 the order of the map it came from, and its clusters keep the best member of each session.
 */
module HybridLaws {
  import opened Wrappers
  import opened Clusters
  import opened SearchModel
  import opened Filters
  import opened MatchCounts
  import opened Ranks
  import opened Sorting
  import opened Hybrid

  // ---------------------------------------------------------------- the formula

  /** The position, from one, of the last hit of an event in the lexical list; 0 if there is none. */
  function LastPosition(ms: seq<Hit>, id: Id): (p: nat)
    ensures p <= |ms| && (p > 0 ==> ms[p - 1].eventId == id)
    ensures forall j :: p <= j < |ms| ==> ms[j].eventId != id
  {
    if ms == [] then 0
    else if ms[|ms| - 1].eventId == id then |ms|
    else
      var p := LastPosition(ms[..|ms| - 1], id);
      assert forall j :: p <= j < |ms| - 1 ==> ms[..|ms| - 1][j] == ms[j];
      p
  }

  /** The position, from one, of the first hit of an event in the semantic list; 0 if there is none. */
  function FirstPosition(ss: seq<SemanticHit>, id: Id): (p: nat)
    ensures p <= |ss| && (p > 0 ==> ss[p - 1].hit.eventId == id)
    ensures forall j :: 0 <= j < (if p == 0 then |ss| else p - 1) ==> ss[j].hit.eventId != id
  {
    if ss == [] then 0
    else
      var p := FirstPosition(ss[..|ss| - 1], id);
      assert forall j :: 0 <= j < |ss| - 1 ==> ss[..|ss| - 1][j] == ss[j];
      if p > 0 then p else if ss[|ss| - 1].hit.eventId == id then |ss| else 0
  }

  function PositionScore(p: nat): real {
    if p == 0 then 0.0 else 1.0 / (60.0 + p as real)
  }

  /** The rank of an event before normalisation. */
  function Formula(lexical: seq<Hit>, semantic: seq<SemanticHit>, w: real, id: Id): real {
    Blend(Clamped(w), PositionScore(LastPosition(lexical, id)), PositionScore(FirstPosition(semantic, id)))
  }

  lemma {:induction false} LexicalMapFits(ms: seq<Hit>, id: Id)
    ensures id in LexicalMap(ms) <==> LastPosition(ms, id) > 0
    ensures id in LexicalMap(ms) ==>
      var p := LastPosition(ms, id);
      LexicalMap(ms)[id] == LexicalCandidate(ms[p - 1], p)
  {
    if ms != [] {
      LexicalMapFits(ms[..|ms| - 1], id);
    }
  }

  lemma {:induction false} ReciprocalRankFalls(p: nat, q: nat)
    requires 1 <= p <= q
    ensures ReciprocalRank(p) >= ReciprocalRank(q) > 0.0
  {
  }

  /** Fresh candidates: the lexical map before any semantic hit. */
  ghost predicate Unscored(m: Candidates) {
    forall id :: id in m ==>
      && m[id].semanticScore == None
      && m[id].result.recordId == id && m[id].result.eventId == Some(id)
      && m[id].result.more == 0
  }

  /** Two candidates show the same event and break ties alike. */
  predicate SameEvent(c: Candidate, d: Candidate) {
    SameShown(c.result, d.result) && c.occurredAt == d.occurredAt && c.seqNo == d.seqNo
  }

  /** The candidate shows the hit it was opened by. */
  predicate OpenedBy(c: Candidate, hit: Hit) {
    ShowsHit(c.result, hit) && c.occurredAt == hit.occurredAt && c.seqNo == hit.seqNo
  }

  lemma {:induction false} LexicalUnscored(ms: seq<Hit>)
    ensures Unscored(LexicalMap(ms))
  {
    forall id | id in LexicalMap(ms)
      ensures LexicalMap(ms)[id].semanticScore == None
        && LexicalMap(ms)[id].result.recordId == id && LexicalMap(ms)[id].result.eventId == Some(id)
        && LexicalMap(ms)[id].result.more == 0
    {
      LexicalMapFits(ms, id);
    }
  }

  /** What the semantic list does to the candidate of an event. */
  lemma {:induction false} SemanticMapFits(m: Candidates, ss: seq<SemanticHit>, hybrid: bool, id: Id)
    requires Unscored(m)
    ensures id in SemanticMap(m, ss, hybrid) <==> id in m || FirstPosition(ss, id) > 0
    ensures id in SemanticMap(m, ss, hybrid) ==> CandidateFits(SemanticMap(m, ss, hybrid)[id], m, ss, hybrid, id)
  {
    if ss != [] {
      var n := |ss| - 1;
      SemanticMapFits(m, ss[..n], hybrid, id);
      if ss[n].hit.eventId == id {
        LastSemanticHit(SemanticMap(m, ss[..n], hybrid), m, ss, hybrid, id);
      } else {
        OtherSemanticHit(SemanticMap(m, ss[..n], hybrid), m, ss, hybrid, id);
      }
    }
  }

  lemma {:induction false} FirstPositionOf(ss: seq<SemanticHit>, id: Id)
    requires ss != []
    ensures FirstPosition(ss, id) ==
      if FirstPosition(ss[..|ss| - 1], id) > 0 then FirstPosition(ss[..|ss| - 1], id)
      else if ss[|ss| - 1].hit.eventId == id then |ss| else 0
  {
  }

  lemma {:induction false} LastSemanticHit(before: Candidates, m: Candidates, ss: seq<SemanticHit>, hybrid: bool, id: Id)
    requires ss != [] && ss[|ss| - 1].hit.eventId == id
    requires id in before <==> id in m || FirstPosition(ss[..|ss| - 1], id) > 0
    requires id in before ==> CandidateFits(before[id], m, ss[..|ss| - 1], hybrid, id)
    ensures FirstPosition(ss, id) > 0
    ensures CandidateFits(SemanticStep(before, ss[|ss| - 1], |ss|, hybrid)[id], m, ss, hybrid, id)
  {
    FirstPositionOf(ss, id);
    BestSimilarityOf(ss, id);
    var p := FirstPosition(ss[..|ss| - 1], id);
    if p > 0 {
      ReciprocalRankFalls(p, |ss|);
    }
  }

  lemma {:induction false} OtherSemanticHit(before: Candidates, m: Candidates, ss: seq<SemanticHit>, hybrid: bool, id: Id)
    requires ss != [] && ss[|ss| - 1].hit.eventId != id
    requires id in before <==> id in m || FirstPosition(ss[..|ss| - 1], id) > 0
    requires id in before ==> CandidateFits(before[id], m, ss[..|ss| - 1], hybrid, id)
    ensures var after := SemanticStep(before, ss[|ss| - 1], |ss|, hybrid);
      && (id in after <==> id in m || FirstPosition(ss, id) > 0)
      && (id in after ==> CandidateFits(after[id], m, ss, hybrid, id))
  {
    FirstPositionOf(ss, id);
    BestSimilarityOf(ss, id);
  }

  ghost predicate CandidateFits(c: Candidate, m: Candidates, ss: seq<SemanticHit>, hybrid: bool, id: Id) {
    var p := FirstPosition(ss, id);
    && c.result.recordId == id && c.result.eventId == Some(id) && c.result.more == 0
    && c.lexicalScore == (if id in m then m[id].lexicalScore else None)
    && (p == 0 <==> c.semanticScore.None?)
    && (hybrid && p > 0 ==> c.semanticScore == Some(ReciprocalRank(p)))
    && (!hybrid && p > 0 ==> c.semanticScore == Some(BestSimilarity(ss, id)))
    && (id in m ==> SameEvent(c, m[id]))
    && (id !in m && p > 0 ==> OpenedBy(c, ss[p - 1].hit))
  }

  /** The greatest similarity among the hits of an event, or 0 if there is none above. */
  function BestSimilarity(ss: seq<SemanticHit>, id: Id): (best: real)
    ensures best >= 0.0
    ensures forall j :: 0 <= j < |ss| && ss[j].hit.eventId == id ==> ss[j].similarity <= best
    ensures best > 0.0 ==> exists j :: 0 <= j < |ss| && ss[j].hit.eventId == id && ss[j].similarity == best
  {
    if ss == [] then 0.0
    else
      var init, last := BestSimilarity(ss[..|ss| - 1], id), ss[|ss| - 1];
      assert forall j :: 0 <= j < |ss| - 1 ==> ss[..|ss| - 1][j] == ss[j];
      if last.hit.eventId == id && last.similarity > init then last.similarity else init
  }

  lemma {:induction false} BestSimilarityOf(ss: seq<SemanticHit>, id: Id)
    requires ss != []
    ensures
      var init, last := BestSimilarity(ss[..|ss| - 1], id), ss[|ss| - 1];
      BestSimilarity(ss, id) == if last.hit.eventId == id then MaxReal(init, last.similarity) else init
    ensures FirstPosition(ss, id) == 0 ==> BestSimilarity(ss, id) == 0.0
  {
  }

  /** Some hit of the event is similar at all. */
  predicate Similar(ss: seq<SemanticHit>, id: Id) {
    exists j :: 0 <= j < |ss| && ss[j].hit.eventId == id && ss[j].similarity > 0.0
  }

  lemma {:induction false} SimilarIffBestIs(ss: seq<SemanticHit>, id: Id)
    ensures Similar(ss, id) <==> BestSimilarity(ss, id) > 0.0
  {
  }

  /** The candidates of a search before sorting. */
  function Fusion(lexical: seq<Hit>, semantic: seq<SemanticHit>, hybrid: bool): Candidates {
    SemanticMap(if hybrid then LexicalMap(lexical) else map[], semantic, hybrid)
  }

  lemma {:induction false} ScoreOfPosition(p: nat)
    ensures PositionScore(p) == if p == 0 then 0.0 else ReciprocalRank(p)
  {
  }

  /** The two scores of a candidate are those of the event's positions in the two lists. */
  lemma {:induction false} CandidateScores(lexical: seq<Hit>, semantic: seq<SemanticHit>, id: Id)
    ensures
      var m := Fusion(lexical, semantic, true);
      && (id in m <==> LastPosition(lexical, id) > 0 || FirstPosition(semantic, id) > 0)
      && (id in m ==>
            && m[id].lexicalScore.UnwrapOr(0.0) == PositionScore(LastPosition(lexical, id))
            && m[id].semanticScore.UnwrapOr(0.0) == PositionScore(FirstPosition(semantic, id)))
  {
    LexicalUnscored(lexical);
    LexicalMapFits(lexical, id);
    SemanticMapFits(LexicalMap(lexical), semantic, true, id);
    ScoreOfPosition(LastPosition(lexical, id));
    ScoreOfPosition(FirstPosition(semantic, id));
  }

  lemma {:induction false} FusedBlend(c: Candidate, w: real, l: real, s: real)
    requires c.lexicalScore.UnwrapOr(0.0) == l && c.semanticScore.UnwrapOr(0.0) == s
    ensures Fused(c, w, true).result.rank == Blend(w, l, s)
  {
  }

  lemma {:induction false} FusedRank(lexical: seq<Hit>, semantic: seq<SemanticHit>, w: real, id: Id)
    requires id in Fusion(lexical, semantic, true)
    ensures Fused(Fusion(lexical, semantic, true)[id], Clamped(w), true).result.rank == Formula(lexical, semantic, w, id)
  {
    CandidateScores(lexical, semantic, id);
    FusedBlend(Fusion(lexical, semantic, true)[id], Clamped(w),
               PositionScore(LastPosition(lexical, id)), PositionScore(FirstPosition(semantic, id)));
  }

  // ---------------------------------------------------------------- the list before sorting

  lemma {:induction false} RankedMembers(m: Candidates, ids: set<Id>, w: real, hybrid: bool, c: Candidate)
    requires ids <= m.Keys
    ensures c in Ranked(m, ids, w, hybrid) <==> exists id :: id in ids && c == Fused(m[id], w, hybrid)
    decreases ids
  {
    if ids != {} {
      RankedMembers(m, ids - {Least(ids)}, w, hybrid, c);
    }
  }

  /** Members with the same record id are the same. */
  ghost predicate IdsIdentify(cs: seq<Candidate>) {
    forall x, y :: x in cs && y in cs && x.result.recordId == y.result.recordId ==> x == y
  }

  /** Candidates are filed under their event. */
  ghost predicate FiledByEvent(m: Candidates) {
    forall id :: id in m ==> m[id].result.recordId == id
  }

  lemma {:induction false} FusionFiledByEvent(lexical: seq<Hit>, semantic: seq<SemanticHit>, hybrid: bool)
    ensures FiledByEvent(Fusion(lexical, semantic, hybrid))
  {
    LexicalUnscored(lexical);
    forall id | id in Fusion(lexical, semantic, hybrid)
      ensures Fusion(lexical, semantic, hybrid)[id].result.recordId == id
    {
      SemanticMapFits(if hybrid then LexicalMap(lexical) else map[], semantic, hybrid, id);
    }
  }

  lemma {:induction false} RankedLength(m: Candidates, ids: set<Id>, w: real, hybrid: bool)
    requires ids <= m.Keys
    ensures |Ranked(m, ids, w, hybrid)| == |ids|
    decreases ids
  {
    if ids != {} {
      RankedLength(m, ids - {Least(ids)}, w, hybrid);
    }
  }

  lemma {:induction false} RankedFirst(m: Candidates, ids: set<Id>, w: real, hybrid: bool)
    requires ids != {} && ids <= m.Keys
    ensures multiset(Ranked(m, ids, w, hybrid))
         == multiset{Fused(m[Least(ids)], w, hybrid)} + multiset(Ranked(m, ids - {Least(ids)}, w, hybrid))
  {
  }

  lemma {:induction false} LeastStays(ids: set<Id>, id: Id)
    requires id in ids && id != Least(ids)
    ensures ids - {id} != {} && Least(ids - {id}) == Least(ids)
  {
    assert Least(ids) in ids - {id};
    assert Least(ids - {id}) in ids;
  }

  /** Taking any event out of the list, not only the least, takes out its one candidate. */
  lemma {:induction false} RankedWithout(m: Candidates, ids: set<Id>, w: real, hybrid: bool, id: Id)
    requires ids <= m.Keys && id in ids
    ensures multiset(Ranked(m, ids, w, hybrid)) == multiset(Ranked(m, ids - {id}, w, hybrid)) + multiset{Fused(m[id], w, hybrid)}
    decreases ids
  {
    var least := Least(ids);
    RankedFirst(m, ids, w, hybrid);
    if id != least {
      LeastStays(ids, id);
      RankedFirst(m, ids - {id}, w, hybrid);
      RankedWithout(m, ids - {least}, w, hybrid, id);
      assert ids - {id} - {least} == ids - {least} - {id};
    }
  }

  /** The values of the map as it yields them, in any order. */
  function Enumerated(m: Candidates, ids: seq<Id>, w: real, hybrid: bool): seq<Candidate>
    requires forall id :: id in ids ==> id in m
  {
    seq(|ids|, i requires 0 <= i < |ids| => Fused(m[ids[i]], w, hybrid))
  }

  lemma {:induction false} EnumeratedIsRanked(m: Candidates, ids: seq<Id>, s: set<Id>, w: real, hybrid: bool)
    requires s <= m.Keys && NoRepeats(ids) && forall id :: id in ids <==> id in s
    ensures multiset(Enumerated(m, ids, w, hybrid)) == multiset(Ranked(m, s, w, hybrid))
    decreases |ids|
  {
    if ids == [] {
      assert s == {};
    } else {
      var k := |ids| - 1;
      LastApart(ids, s);
      EnumeratedIsRanked(m, ids[..k], s - {ids[k]}, w, hybrid);
      RankedWithout(m, s, w, hybrid, ids[k]);
      LastEnumerated(m, ids, w, hybrid);
    }
  }

  lemma {:induction false} LastEnumerated(m: Candidates, ids: seq<Id>, w: real, hybrid: bool)
    requires ids != [] && forall id :: id in ids ==> id in m
    ensures multiset(Enumerated(m, ids, w, hybrid))
         == multiset(Enumerated(m, ids[..|ids| - 1], w, hybrid)) + multiset{Fused(m[ids[|ids| - 1]], w, hybrid)}
  {
    var values := Enumerated(m, ids, w, hybrid);
    assert values[..|ids| - 1] == Enumerated(m, ids[..|ids| - 1], w, hybrid);
    WithoutLast(values);
  }

  lemma {:induction false} LastApart(ids: seq<Id>, s: set<Id>)
    requires ids != [] && NoRepeats(ids) && forall id :: id in ids <==> id in s
    ensures var k := |ids| - 1; forall id :: id in ids[..k] <==> id in s - {ids[k]}
    ensures NoRepeats(ids[..|ids| - 1])
  {
    var k := |ids| - 1;
    assert ids == ids[..k] + [ids[k]];
    assert ids[k] !in ids[..k];
  }

  lemma {:induction false} RankedApart(m: Candidates, ids: set<Id>, w: real, hybrid: bool)
    requires ids <= m.Keys && FiledByEvent(m)
    ensures NoRepeats(Ranked(m, ids, w, hybrid))
    decreases ids
  {
    if ids != {} {
      var rest := ids - {Least(ids)};
      RankedApart(m, rest, w, hybrid);
      RankedMembers(m, rest, w, hybrid, Fused(m[Least(ids)], w, hybrid));
    }
  }

  // ---------------------------------------------------------------- sorting

  lemma {:induction false} ComparatorIsTotal()
    ensures TotalPreorder(NotAfter)
  {
  }

  /** The sorted list holds each event's candidate once. */
  lemma {:induction false} FusedListMembers(lexical: seq<Hit>, semantic: seq<SemanticHit>, w: real, hybrid: bool)
    ensures
      var m := Fusion(lexical, semantic, hybrid);
      var cs := FusedList(lexical, semantic, w, hybrid);
      && (forall c :: c in cs <==> c.result.recordId in m && c == Fused(m[c.result.recordId], Clamped(w), hybrid))
      && IdsIdentify(cs) && NoRepeats(cs) && |cs| == |m|
  {
    var m := Fusion(lexical, semantic, hybrid);
    FusionFiledByEvent(lexical, semantic, hybrid);
    RankedApart(m, m.Keys, Clamped(w), hybrid);
    RankedLength(m, m.Keys, Clamped(w), hybrid);
    var before := Ranked(m, m.Keys, Clamped(w), hybrid);
    SortKeepsMembers(before, NotAfter);
    forall c
      ensures c in before <==> c.result.recordId in m && c == Fused(m[c.result.recordId], Clamped(w), hybrid)
    {
      RankedMembers(m, m.Keys, Clamped(w), hybrid, c);
    }
  }

  lemma {:induction false} EnumerationsSortAlike(m: Candidates, ids: seq<Id>, w: real, hybrid: bool)
    requires FiledByEvent(m) && NoRepeats(ids) && forall id :: id in ids <==> id in m
    ensures SortBy(Enumerated(m, ids, w, hybrid), NotAfter) == SortBy(Ranked(m, m.Keys, w, hybrid), NotAfter)
  {
    var ranked := Ranked(m, m.Keys, w, hybrid);
    EnumeratedIsRanked(m, ids, m.Keys, w, hybrid);
    ComparatorIsTotal();
    forall x, y | x in ranked && y in ranked && NotAfter(x, y) && NotAfter(y, x)
      ensures x == y
    {
      RankedMembers(m, m.Keys, w, hybrid, x);
      RankedMembers(m, m.Keys, w, hybrid, y);
    }
    SortForgetsOrder(ranked, Enumerated(m, ids, w, hybrid), NotAfter);
  }

  /** The sorted output does not depend on the order in which the map yields its values. */
  lemma {:induction false} OrderOfMapDoesNotMatter(lexical: seq<Hit>, semantic: seq<SemanticHit>, w: real, hybrid: bool,
                                                   ids: seq<Id>)
    requires NoRepeats(ids) && forall id :: id in ids <==> id in Fusion(lexical, semantic, hybrid)
    ensures SortBy(Enumerated(Fusion(lexical, semantic, hybrid), ids, Clamped(w), hybrid), NotAfter)
         == FusedList(lexical, semantic, w, hybrid)
  {
    FusionFiledByEvent(lexical, semantic, hybrid);
    EnumerationsSortAlike(Fusion(lexical, semantic, hybrid), ids, Clamped(w), hybrid);
  }

  // ---------------------------------------------------------------- the fused list

  /** Each event has exactly one candidate, and its rank is what the formula says. */
  lemma {:induction false} FusedListMeaning(lexical: seq<Hit>, semantic: seq<SemanticHit>, w: real)
    ensures
      var cs := FusedList(lexical, semantic, w, true);
      && IdsIdentify(cs) && NoRepeats(cs)
      && (forall c :: c in cs ==> c.result.rank == Formula(lexical, semantic, w, c.result.recordId))
      && (forall id :: LastPosition(lexical, id) > 0 || FirstPosition(semantic, id) > 0 <==>
            exists c :: c in cs && c.result.recordId == id)
      && |cs| == |Fusion(lexical, semantic, true)|
  {
    var m := Fusion(lexical, semantic, true);
    var cs := FusedList(lexical, semantic, w, true);
    FusedListMembers(lexical, semantic, w, true);
    FusionFiledByEvent(lexical, semantic, true);
    forall c | c in cs
      ensures c.result.rank == Formula(lexical, semantic, w, c.result.recordId)
    {
      FusedRank(lexical, semantic, w, c.result.recordId);
    }
    forall id
      ensures LastPosition(lexical, id) > 0 || FirstPosition(semantic, id) > 0 <==>
        exists c :: c in cs && c.result.recordId == id
    {
      CandidateScores(lexical, semantic, id);
      if id in m {
        assert Fused(m[id], Clamped(w), true) in cs;
      }
    }
  }

  /** The semantic list has a hit of the event. */
  predicate Lists(semantic: seq<SemanticHit>, id: Id) {
    exists j :: 0 <= j < |semantic| && semantic[j].hit.eventId == id
  }

  /**
   Without fusion: each event of the semantic list has exactly one candidate, its rank is the greatest
   similarity among the event's hits, and the candidates come in the order of it.
   */
  lemma {:induction false} SimilarityListMeaning(lexical: seq<Hit>, semantic: seq<SemanticHit>, w: real)
    ensures
      var cs := FusedList(lexical, semantic, w, false);
      && IdsIdentify(cs) && NoRepeats(cs)
      && (forall c :: c in cs ==> c.result.rank == BestSimilarity(semantic, c.result.recordId))
      && (forall id :: Lists(semantic, id) <==> exists c :: c in cs && c.result.recordId == id)
      && (forall i, j :: 0 <= i < j < |cs| ==> cs[i].result.rank >= cs[j].result.rank)
  {
    var m := Fusion(lexical, semantic, false);
    var cs := FusedList(lexical, semantic, w, false);
    FusedListMembers(lexical, semantic, w, false);
    FusionFiledByEvent(lexical, semantic, false);
    FusedListShaped(lexical, semantic, w, false);
    forall c | c in cs
      ensures c.result.rank == BestSimilarity(semantic, c.result.recordId)
    {
      SemanticMapFits(map[], semantic, false, c.result.recordId);
    }
    forall id
      ensures Lists(semantic, id) <==> exists c :: c in cs && c.result.recordId == id
    {
      SemanticMapFits(map[], semantic, false, id);
      if id in m {
        assert Fused(m[id], Clamped(w), false) in cs;
      }
    }
    forall i, j | 0 <= i < j < |cs|
      ensures cs[i].result.rank >= cs[j].result.rank
    {
      assert NotAfter(cs[i], cs[j]);
    }
  }

  /** So no event comes after one that is less similar: whatever a later one has, an earlier one has a hit as good. */
  lemma {:induction false} MoreSimilarFirst(lexical: seq<Hit>, semantic: seq<SemanticHit>, w: real, i: nat, j: nat, q: nat)
    returns (p: nat)
    requires i < j < |FusedList(lexical, semantic, w, false)|
    requires q < |semantic| && semantic[q].similarity > 0.0
    requires semantic[q].hit.eventId == FusedList(lexical, semantic, w, false)[j].result.recordId
    ensures p < |semantic| && semantic[p].similarity >= semantic[q].similarity
    ensures semantic[p].hit.eventId == FusedList(lexical, semantic, w, false)[i].result.recordId
  {
    var cs := FusedList(lexical, semantic, w, false);
    SimilarityListMeaning(lexical, semantic, w);
    assert cs[i] in cs && cs[j] in cs;
    p :| 0 <= p < |semantic| && semantic[p].hit.eventId == cs[i].result.recordId
      && semantic[p].similarity == BestSimilarity(semantic, cs[i].result.recordId);
  }

  /** A candidate of the list is the map's, but for its rank. */
  lemma {:induction false} CandidateInMap(lexical: seq<Hit>, semantic: seq<SemanticHit>, w: real, hybrid: bool, c: Candidate)
    returns (d: Candidate)
    requires c in FusedList(lexical, semantic, w, hybrid)
    ensures c.result.recordId in Fusion(lexical, semantic, hybrid)
    ensures d == Fusion(lexical, semantic, hybrid)[c.result.recordId]
    ensures SameEvent(c, d) && c.result.why == d.result.why
  {
    FusedListMembers(lexical, semantic, w, hybrid);
    d := Fusion(lexical, semantic, hybrid)[c.result.recordId];
  }

  lemma {:induction false} OpenedCandidate(lexical: seq<Hit>, semantic: seq<SemanticHit>, hybrid: bool, id: Id)
    returns (hit: Hit)
    requires id in Fusion(lexical, semantic, hybrid)
    ensures OpenedBy(Fusion(lexical, semantic, hybrid)[id], hit)
    ensures
      var p, q := LastPosition(lexical, id), FirstPosition(semantic, id);
      if hybrid && p > 0 then hit == lexical[p - 1] else q > 0 && hit == semantic[q - 1].hit
  {
    if hybrid {
      LexicalUnscored(lexical);
      LexicalOpened(lexical, id);
      SemanticOpened(LexicalMap(lexical), semantic, hybrid, id);
    } else {
      SemanticOpened(map[], semantic, hybrid, id);
    }
    hit := if hybrid && LastPosition(lexical, id) > 0 then lexical[LastPosition(lexical, id) - 1]
           else semantic[FirstPosition(semantic, id) - 1].hit;
  }

  lemma {:induction false} LexicalOpened(lexical: seq<Hit>, id: Id)
    ensures id in LexicalMap(lexical) <==> LastPosition(lexical, id) > 0
    ensures id in LexicalMap(lexical) ==> OpenedBy(LexicalMap(lexical)[id], lexical[LastPosition(lexical, id) - 1])
  {
    LexicalMapFits(lexical, id);
  }

  lemma {:induction false} SemanticOpened(m: Candidates, ss: seq<SemanticHit>, hybrid: bool, id: Id)
    requires Unscored(m) && id in SemanticMap(m, ss, hybrid)
    ensures id in m ==> SameEvent(SemanticMap(m, ss, hybrid)[id], m[id])
    ensures id !in m ==>
      FirstPosition(ss, id) > 0 && OpenedBy(SemanticMap(m, ss, hybrid)[id], ss[FirstPosition(ss, id) - 1].hit)
  {
    SemanticMapFits(m, ss, hybrid, id);
  }

  /** The hit whose fields a candidate shows: the last lexical one of its event, else the first semantic one. */
  lemma {:induction false} CandidateShowsHit(lexical: seq<Hit>, semantic: seq<SemanticHit>, w: real, hybrid: bool, c: Candidate)
    returns (hit: Hit)
    requires c in FusedList(lexical, semantic, w, hybrid)
    ensures OpenedBy(c, hit)
    ensures
      var p, q := LastPosition(lexical, c.result.recordId), FirstPosition(semantic, c.result.recordId);
      if hybrid && p > 0 then hit == lexical[p - 1] else q > 0 && hit == semantic[q - 1].hit
  {
    var d := CandidateInMap(lexical, semantic, w, hybrid, c);
    hit := OpenedCandidate(lexical, semantic, hybrid, c.result.recordId);
  }

  /** Candidates of equal rank come newest first, then by their place in the session, then by id. */
  lemma {:induction false} TiesInOrder(lexical: seq<Hit>, semantic: seq<SemanticHit>, w: real, hybrid: bool, i: nat, j: nat)
    requires i < j < |FusedList(lexical, semantic, w, hybrid)|
    ensures
      var a, b := FusedList(lexical, semantic, w, hybrid)[i], FusedList(lexical, semantic, w, hybrid)[j];
      && a.result.rank >= b.result.rank
      && (a.result.rank == b.result.rank ==> a.occurredAt >= b.occurredAt)
      && (a.result.rank == b.result.rank && a.occurredAt == b.occurredAt ==> a.seqNo >= b.seqNo)
      && (a.result.rank == b.result.rank && a.occurredAt == b.occurredAt && a.seqNo == b.seqNo ==>
            a.result.recordId < b.result.recordId)
  {
    var cs := FusedList(lexical, semantic, w, hybrid);
    FusedListShaped(lexical, semantic, w, hybrid);
    FusedListMembers(lexical, semantic, w, hybrid);
    assert NotAfter(cs[i], cs[j]) && cs[i] in cs && cs[j] in cs;
  }

  // ---------------------------------------------------------------- reasons

  lemma {:induction false} ReasonsApart(eventType: nat)
    ensures EventReason(eventType) != "semantic_similarity"
  {
    assert "semantic_similarity"[1] == 'e' && "semantic_similarity"[2] == 'm';
  }

  /** Some semantic hit of the event has the type. */
  predicate ListsType(ss: seq<SemanticHit>, id: Id, reason: string) {
    exists j :: 0 <= j < |ss| && ss[j].hit.eventId == id && "semantic:" + EventReason(ss[j].hit.eventType) == reason
  }

  ghost predicate ReasonsFit(c: Candidate, base: seq<string>, ss: seq<SemanticHit>, id: Id) {
    && base <= c.result.why
    && ("semantic_similarity" in c.result.why <==> Lists(ss, id) || "semantic_similarity" in base)
    && forall reason :: ListsType(ss, id, reason) ==> reason in c.result.why
  }

  lemma {:induction false} ListsSnoc(ss: seq<SemanticHit>, id: Id)
    requires ss != []
    ensures Lists(ss, id) <==> Lists(ss[..|ss| - 1], id) || ss[|ss| - 1].hit.eventId == id
  {
    var n := |ss| - 1;
    if Lists(ss[..n], id) {
      var j :| 0 <= j < n && ss[..n][j].hit.eventId == id;
      assert ss[j].hit.eventId == id;
    }
    if j :| 0 <= j < |ss| && ss[j].hit.eventId == id {
      assert j < n ==> ss[..n][j].hit.eventId == id;
    }
  }

  lemma {:induction false} ListsTypeSnoc(ss: seq<SemanticHit>, id: Id, reason: string)
    requires ss != [] && ListsType(ss, id, reason)
    ensures ListsType(ss[..|ss| - 1], id, reason)
      || (ss[|ss| - 1].hit.eventId == id && "semantic:" + EventReason(ss[|ss| - 1].hit.eventType) == reason)
  {
    var n := |ss| - 1;
    var j :| 0 <= j < |ss| && ss[j].hit.eventId == id && "semantic:" + EventReason(ss[j].hit.eventType) == reason;
    assert j < n ==> ss[..n][j] == ss[j];
  }

  lemma {:induction false} TypesApart(eventType: nat)
    ensures "semantic:" + EventReason(eventType) != "semantic_similarity"
  {
    assert "semantic_similarity"[8] == '_';
    assert ("semantic:" + EventReason(eventType))[8] == ':';
  }

  lemma {:induction false} ReasonsOneMore(c: Candidate, after: Candidate, base: seq<string>, ss: seq<SemanticHit>, id: Id)
    requires ss != [] && ReasonsFit(c, base, ss[..|ss| - 1], id)
    requires after.result.why == if ss[|ss| - 1].hit.eventId == id then WithReasons(c.result, ss[|ss| - 1].hit).why
                                 else c.result.why
    ensures ReasonsFit(after, base, ss, id)
  {
    ListsSnoc(ss, id);
    TypesApart(ss[|ss| - 1].hit.eventType);
    forall reason | ListsType(ss, id, reason)
      ensures reason in after.result.why
    {
      ListsTypeSnoc(ss, id, reason);
    }
  }

  /** The reasons a candidate is opened with. */
  function OpeningWhy(m: Candidates, ss: seq<SemanticHit>, id: Id): seq<string> {
    if id in m then m[id].result.why
    else if FirstPosition(ss, id) > 0 then EventResult(ss[FirstPosition(ss, id) - 1].hit).why
    else []
  }

  lemma {:induction false} StepReasons(before: Candidates, s: SemanticHit, rank: nat, hybrid: bool, id: Id)
    ensures var after := SemanticStep(before, s, rank, hybrid);
      && (id in after <==> id in before || s.hit.eventId == id)
      && (id in before && s.hit.eventId == id ==> after[id].result.why == WithReasons(before[id].result, s.hit).why)
      && (id in before && s.hit.eventId != id ==> after[id].result.why == before[id].result.why)
      && (id !in before && s.hit.eventId == id ==> after[id].result.why == WithReasons(EventResult(s.hit), s.hit).why)
  {
  }

  lemma {:induction false} OpeningWhySnoc(m: Candidates, ss: seq<SemanticHit>, id: Id)
    requires ss != []
    ensures id in m || FirstPosition(ss[..|ss| - 1], id) > 0 ==> OpeningWhy(m, ss, id) == OpeningWhy(m, ss[..|ss| - 1], id)
    ensures id !in m && FirstPosition(ss[..|ss| - 1], id) == 0 && ss[|ss| - 1].hit.eventId == id ==>
      OpeningWhy(m, ss, id) == EventResult(ss[|ss| - 1].hit).why
  {
    FirstPositionOf(ss, id);
  }

  lemma {:induction false} SemanticReasons(m: Candidates, ss: seq<SemanticHit>, hybrid: bool, id: Id)
    requires Unscored(m) && id in SemanticMap(m, ss, hybrid)
    ensures ReasonsFit(SemanticMap(m, ss, hybrid)[id], OpeningWhy(m, ss, id), ss, id)
  {
    if ss != [] {
      var n := |ss| - 1;
      var before := SemanticMap(m, ss[..n], hybrid);
      StepReasons(before, ss[n], |ss|, hybrid, id);
      OpeningWhySnoc(m, ss, id);
      SemanticMembers(m, ss[..n], hybrid, id);
      if id in before {
        SemanticReasons(m, ss[..n], hybrid, id);
        ReasonsOneMore(before[id], SemanticMap(m, ss, hybrid)[id], OpeningWhy(m, ss, id), ss, id);
      } else {
        FirstReasons(SemanticMap(m, ss, hybrid)[id], ss, id);
      }
    }
  }

  lemma {:induction false} SemanticMembers(m: Candidates, ss: seq<SemanticHit>, hybrid: bool, id: Id)
    requires Unscored(m)
    ensures id in SemanticMap(m, ss, hybrid) <==> id in m || FirstPosition(ss, id) > 0
  {
    SemanticMapFits(m, ss, hybrid, id);
  }

  lemma {:induction false} FirstReasons(after: Candidate, ss: seq<SemanticHit>, id: Id)
    requires ss != [] && FirstPosition(ss[..|ss| - 1], id) == 0 && ss[|ss| - 1].hit.eventId == id
    requires after.result.why == WithReasons(EventResult(ss[|ss| - 1].hit), ss[|ss| - 1].hit).why
    ensures ReasonsFit(after, EventResult(ss[|ss| - 1].hit).why, ss, id)
  {
    var last := ss[|ss| - 1].hit;
    ReasonsApart(last.eventType);
    var c := Candidate(EventResult(last), None, None, last.occurredAt, last.seqNo);
    assert ReasonsFit(c, c.result.why, ss[..|ss| - 1], id);
    ReasonsOneMore(c, after, c.result.why, ss, id);
  }

  lemma {:induction false} OpeningReasons(lexical: seq<Hit>, semantic: seq<SemanticHit>, id: Id)
    ensures "semantic_similarity" !in OpeningWhy(map[], semantic, id)
    ensures "semantic_similarity" !in OpeningWhy(LexicalMap(lexical), semantic, id)
  {
    LexicalMapFits(lexical, id);
    if LastPosition(lexical, id) > 0 {
      ReasonsApart(lexical[LastPosition(lexical, id) - 1].eventType);
    }
    if FirstPosition(semantic, id) > 0 {
      ReasonsApart(semantic[FirstPosition(semantic, id) - 1].hit.eventType);
    }
  }

  /** A candidate names semantic similarity iff the semantic list has its event, and then the types of the hits there. */
  lemma {:induction false} ReasonsOfCandidate(lexical: seq<Hit>, semantic: seq<SemanticHit>, w: real, hybrid: bool, c: Candidate)
    requires c in FusedList(lexical, semantic, w, hybrid)
    ensures "semantic_similarity" in c.result.why <==> Lists(semantic, c.result.recordId)
    ensures forall reason :: ListsType(semantic, c.result.recordId, reason) ==> reason in c.result.why
  {
    var id := c.result.recordId;
    var d := CandidateInMap(lexical, semantic, w, hybrid, c);
    LexicalUnscored(lexical);
    SemanticReasons(if hybrid then LexicalMap(lexical) else map[], semantic, hybrid, id);
    OpeningReasons(lexical, semantic, id);
  }

  // ---------------------------------------------------------------- better on both lists

  /** Position `p` is at least as good as `q`; 0 stands for not being on the list. */
  predicate AtLeastAsGood(p: nat, q: nat) {
    q == 0 || 0 < p <= q
  }

  lemma {:induction false} ScoreRises(p: nat, q: nat)
    requires AtLeastAsGood(p, q)
    ensures PositionScore(p) >= PositionScore(q) >= 0.0
  {
    ScoreOfPosition(p);
    ScoreOfPosition(q);
    if q > 0 {
      ReciprocalRankFalls(p, q);
    }
  }

  lemma {:induction false} BlendRises(w: real, l: real, s: real, l': real, s': real)
    requires 0.0 <= w <= 1.0 && l >= l' && s >= s'
    ensures Blend(w, l, s) >= Blend(w, l', s')
  {
    assert (1.0 - w) * l >= (1.0 - w) * l';
    assert w * s >= w * s';
  }

  /** An event at least as good as another on both lists never scores below it, whatever the weight. */
  lemma {:induction false} FusionIsMonotone(lexical: seq<Hit>, semantic: seq<SemanticHit>, w: real, a: Id, b: Id)
    requires AtLeastAsGood(LastPosition(lexical, a), LastPosition(lexical, b))
    requires AtLeastAsGood(FirstPosition(semantic, a), FirstPosition(semantic, b))
    ensures Formula(lexical, semantic, w, a) >= Formula(lexical, semantic, w, b)
  {
    ScoreRises(LastPosition(lexical, a), LastPosition(lexical, b));
    ScoreRises(FirstPosition(semantic, a), FirstPosition(semantic, b));
    BlendRises(Clamped(w),
      PositionScore(LastPosition(lexical, a)), PositionScore(FirstPosition(semantic, a)),
      PositionScore(LastPosition(lexical, b)), PositionScore(FirstPosition(semantic, b)));
  }

  // ---------------------------------------------------------------- clusters

  /** What the list of entries holds: for each cluster its first member, and how many others there are. */
  lemma {:induction false} EntryOfCluster(cs: seq<Candidate>, i: nat)
    requires i < |Folded(cs, ClusterIds(cs), HybridEntry)|
    ensures
      var entry := Folded(cs, ClusterIds(cs), HybridEntry)[i];
      var keys := ClusterIds(cs);
      var p := Firsts(keys)[i];
      && entry.result.recordId == cs[p].result.recordId && entry.result.rank == cs[p].result.rank
      && entry.result.more + 1 == cs[p].result.more + Times(keys, keys[p])
      && ClusterOf(entry) == keys[p] == ClusterOf(cs[p]) && keys[p] !in keys[..p]
  {
  }

  /** No member of a cluster outranks the one that is kept. */
  lemma {:induction false} ClustersKeepTheBest(cs: seq<Candidate>, i: nat, p: nat)
    requires OrderedBy(cs, NotAfter) && p < |cs| && i < |Folded(cs, ClusterIds(cs), HybridEntry)|
    requires ClusterOf(cs[p]) == ClusterOf(Folded(cs, ClusterIds(cs), HybridEntry)[i])
    ensures cs[p].result.rank <= Folded(cs, ClusterIds(cs), HybridEntry)[i].result.rank
  {
    var keys := ClusterIds(cs);
    var q := Firsts(keys)[i];
    EntryOfCluster(cs, i);
    FirstIsEarliest(keys, i, p);
    assert q == p || NotAfter(cs[q], cs[p]);
  }

  /** Every candidate has its cluster among the entries. */
  lemma {:induction false} EveryClusterIsKept(cs: seq<Candidate>, p: nat) returns (i: nat)
    requires p < |cs|
    ensures i < |Folded(cs, ClusterIds(cs), HybridEntry)|
    ensures ClusterOf(Folded(cs, ClusterIds(cs), HybridEntry)[i]) == ClusterOf(cs[p])
  {
    i := FirstsCover(ClusterIds(cs), p);
    EntryOfCluster(cs, i);
  }

  /** The entries belong to different clusters and keep the order of the list. */
  lemma {:induction false} EntriesApart(cs: seq<Candidate>, i: nat, j: nat)
    requires OrderedBy(cs, NotAfter) && i < j < |Folded(cs, ClusterIds(cs), HybridEntry)|
    ensures
      var entries := Folded(cs, ClusterIds(cs), HybridEntry);
      ClusterOf(entries[i]) != ClusterOf(entries[j]) && NotAfter(entries[i], entries[j])
  {
    EntryOfCluster(cs, i);
    EntryOfCluster(cs, j);
    FirstsDistinct(ClusterIds(cs), i, j);
  }

  /** 1 plus the extra count, summed over the entries, is the number of candidates. */
  lemma {:induction false} EntriesCountAll(cs: seq<Candidate>, mode: ResultMode)
    requires forall c :: c in cs ==> c.result.more == 0
    ensures Matches(ResultsOf(Entries(cs, mode))) == |cs|
  {
    var entries := Entries(cs, mode);
    if mode == Sessions {
      var keys := ClusterIds(cs);
      var firsts := seq(|Firsts(keys)|, i requires 0 <= i < |Firsts(keys)| => cs[Firsts(keys)[i]].result);
      forall i | 0 <= i < |entries|
        ensures entries[i].result.more + 1 == firsts[i].more + Times(keys, keys[Firsts(keys)[i]])
      {
        EntryOfCluster(cs, i);
      }
      MatchesOfEntries(ResultsOf(entries), keys, firsts);
      MatchesOfFresh(firsts);
    } else {
      MatchesOfFresh(ResultsOf(cs));
    }
  }

  // ---------------------------------------------------------------- the packet

  ghost predicate Shaped(cs: seq<Candidate>) {
    OrderedBy(cs, NotAfter) && forall c :: c in cs ==> c.result.more == 0 && c.result.rank >= 0.0
  }

  lemma {:induction false} BlendNonNegative(w: real, l: real, s: real)
    requires 0.0 <= w <= 1.0 && l >= 0.0 && s >= 0.0
    ensures Blend(w, l, s) >= 0.0
  {
    assert (1.0 - w) * l >= 0.0 && w * s >= 0.0;
  }

  lemma {:induction false} FusedNonNegative(lexical: seq<Hit>, semantic: seq<SemanticHit>, w: real, hybrid: bool, id: Id)
    requires id in Fusion(lexical, semantic, hybrid)
    ensures
      var c := Fused(Fusion(lexical, semantic, hybrid)[id], Clamped(w), hybrid);
      c.result.rank >= 0.0 && c.result.more == 0
  {
    LexicalUnscored(lexical);
    SemanticMapFits(if hybrid then LexicalMap(lexical) else map[], semantic, hybrid, id);
    if hybrid {
      FusedRank(lexical, semantic, w, id);
      ScoreRises(LastPosition(lexical, id), 0);
      ScoreRises(FirstPosition(semantic, id), 0);
      BlendNonNegative(Clamped(w), PositionScore(LastPosition(lexical, id)), PositionScore(FirstPosition(semantic, id)));
    }
  }

  lemma {:induction false} FusedListShaped(lexical: seq<Hit>, semantic: seq<SemanticHit>, w: real, hybrid: bool)
    ensures Shaped(FusedList(lexical, semantic, w, hybrid))
  {
    var m := Fusion(lexical, semantic, hybrid);
    var before := Ranked(m, m.Keys, Clamped(w), hybrid);
    ComparatorIsTotal();
    SortOrders(before, NotAfter);
    SortPermutes(before, NotAfter);
    forall c | c in FusedList(lexical, semantic, w, hybrid)
      ensures c.result.more == 0 && c.result.rank >= 0.0
    {
      SameMembers(SortBy(before, NotAfter), before, c);
      RankedMembers(m, m.Keys, Clamped(w), hybrid, c);
      var id :| id in m && c == Fused(m[id], Clamped(w), hybrid);
      FusedNonNegative(lexical, semantic, w, hybrid, id);
    }
  }

  /** For every search: the counts of the entries add up to the events found on the lists, each once. */
  lemma {:induction false} CountsAddUp(lexical: seq<Hit>, semantic: seq<SemanticHit>, w: real, hybrid: bool, mode: ResultMode)
    ensures Matches(ResultsOf(Entries(FusedList(lexical, semantic, w, hybrid), mode))) == |Fusion(lexical, semantic, hybrid)|
  {
    FusedListShaped(lexical, semantic, w, hybrid);
    FusedListMembers(lexical, semantic, w, hybrid);
    EntriesCountAll(FusedList(lexical, semantic, w, hybrid), mode);
  }

  /** The entries a packet is cut from: non-negative, non-increasing ranks. */
  lemma {:induction false} EntriesInOrder(cs: seq<Candidate>, mode: ResultMode)
    requires Shaped(cs)
    ensures NonIncreasing(ResultsOf(Entries(cs, mode))) && NonNegative(ResultsOf(Entries(cs, mode)))
  {
  }

  /**
   For every pair of lists, weight and mode: the ranks shown are non-increasing, lie in the unit
   interval, and start with 1 as soon as one is positive.
   */
  lemma {:induction false} PacketRanks(lexical: seq<Hit>, semantic: seq<SemanticHit>, w: real, hybrid: bool,
                                       mode: ResultMode, limit: nat)
    ensures
      var entries := Entries(FusedList(lexical, semantic, w, hybrid), mode);
      var shown := HybridPacket(entries, limit).results;
      && |shown| == Min(limit, |entries|)
      && NonIncreasing(shown)
      && (forall i :: 0 <= i < |shown| ==> 0.0 <= shown[i].rank <= 1.0)
      && (shown != [] && entries[0].result.rank > 0.0 ==> shown[0].rank == 1.0)
  {
    var cs := FusedList(lexical, semantic, w, hybrid);
    var entries := Entries(cs, mode);
    FusedListShaped(lexical, semantic, w, hybrid);
    EntriesInOrder(cs, mode);
    var rs := ResultsOf(entries);
    var cut := ResultsOf(entries)[..Min(limit, |entries|)];
    forall i | 0 <= i < |cut|
      ensures cut[i] == rs[i]
    {
    }
    CutRanks(cut);
  }
}
