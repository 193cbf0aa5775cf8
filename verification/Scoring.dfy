/** Coverage-first scoring: how many terms a candidate matches counts before how well it matches them. */
module Scoring {
  import opened SearchModel
  import opened Ranks

  /**
   A record that may be a result: its own score, the number of terms it matches, what breaks ties, and
   the result made of it. Titles are opaque ordered values.
   */
  datatype Candidate = Candidate(
    recordId: Id, score: real, matchedTerms: nat, updatedAt: int, title: int, result: SearchResult)

  function MaxScore(cs: seq<Candidate>): (m: real)
    ensures m >= 0.0
    ensures forall i :: 0 <= i < |cs| ==> cs[i].score <= m
    ensures m > 0.0 ==> exists i :: 0 <= i < |cs| && cs[i].score == m
  {
    if cs == [] then 0.0
    else
      var init, last := MaxScore(cs[..|cs| - 1]), cs[|cs| - 1];
      assert forall i :: 0 <= i < |cs| - 1 ==> cs[..|cs| - 1][i] == cs[i];
      if last.score > init then last.score else init
  }

  function WithCoverage(c: Candidate, stride: real): Candidate {
    c.(score := c.score + c.matchedTerms as real * stride)
  }

  function Covering(cs: seq<Candidate>): (out: seq<Candidate>)
    ensures |out| == |cs|
  {
    var stride := MaxScore(cs) + 1.0;
    seq(|cs|, i requires 0 <= i < |cs| => WithCoverage(cs[i], stride))
  }

  function Scaled(c: Candidate, m: real): Candidate
    requires m > 0.0
  {
    c.(score := Clamp01(c.score / m))
  }

  function Normalized(cs: seq<Candidate>): (out: seq<Candidate>)
    ensures |out| == |cs|
  {
    var covering := Covering(cs);
    var m := MaxScore(covering);
    if m <= 0.0 then covering else seq(|cs|, i requires 0 <= i < |cs| => Scaled(covering[i], m))
  }

  method FoldMaxScore(candidates: array<Candidate>) returns (maxScore: real)
    ensures maxScore == MaxScore(candidates[..])
  {
    maxScore := 0.0;
    for i := 0 to candidates.Length
      invariant maxScore == MaxScore(candidates[..i])
    {
      assert candidates[..i + 1][..i] == candidates[..i];
      maxScore := if candidates[i].score > maxScore then candidates[i].score else maxScore;
    }
    assert candidates[..candidates.Length] == candidates[..];
  }

  method AddCoverage(candidates: array<Candidate>, stride: real)
    modifies candidates
    ensures forall j :: 0 <= j < candidates.Length ==> candidates[j] == WithCoverage(old(candidates[j]), stride)
  {
    for i := 0 to candidates.Length
      invariant forall j :: 0 <= j < i ==> candidates[j] == WithCoverage(old(candidates[j]), stride)
      invariant forall j :: i <= j < candidates.Length ==> candidates[j] == old(candidates[j])
    {
      candidates[i] := candidates[i].(score := candidates[i].score + candidates[i].matchedTerms as real * stride);
    }
  }

  method ScaleScores(candidates: array<Candidate>, maxScore: real)
    requires maxScore > 0.0
    modifies candidates
    ensures forall j :: 0 <= j < candidates.Length ==> candidates[j] == Scaled(old(candidates[j]), maxScore)
  {
    for i := 0 to candidates.Length
      invariant forall j :: 0 <= j < i ==> candidates[j] == Scaled(old(candidates[j]), maxScore)
      invariant forall j :: i <= j < candidates.Length ==> candidates[j] == old(candidates[j])
    {
      candidates[i] := candidates[i].(score := Clamp01(candidates[i].score / maxScore));
    }
  }

  method NormalizeScores(candidates: array<Candidate>)
    modifies candidates
    ensures candidates[..] == Normalized(old(candidates[..]))
  {
    ghost var given := candidates[..];
    var maxRelevance := FoldMaxScore(candidates);
    AddCoverage(candidates, maxRelevance + 1.0);
    assert candidates[..] == Covering(given);
    var maxScore := FoldMaxScore(candidates);
    if maxScore <= 0.0 {
      return;
    }
    ScaleScores(candidates, maxScore);
    assert candidates[..] == Normalized(given);
  }

  // ---------------------------------------------------------------- what the order is

  predicate NonNegativeScores(cs: seq<Candidate>) {
    forall i :: 0 <= i < |cs| ==> cs[i].score >= 0.0
  }

  /** More terms, or as many and a better score. */
  predicate Outranks(a: Candidate, b: Candidate) {
    a.matchedTerms > b.matchedTerms || (a.matchedTerms == b.matchedTerms && a.score > b.score)
  }

  /** What `n` matched terms are worth. */
  function TermsWorth(n: nat, stride: real): (w: real)
    requires stride > 0.0
    ensures w >= 0.0 && (n > 0 ==> w >= stride)
  {
    if n == 0 then 0.0 else TermsWorth(n - 1, stride) + stride
  }

  lemma {:induction false} TermsWorthIsProduct(n: nat, stride: real)
    requires stride > 0.0
    ensures TermsWorth(n, stride) == n as real * stride
  {
    if n > 0 {
      TermsWorthIsProduct(n - 1, stride);
      assert n as real * stride == (n - 1) as real * stride + stride;
    }
  }

  lemma {:induction false} OneTermMore(m: nat, n: nat, stride: real)
    requires m > n && stride > 0.0
    ensures TermsWorth(m, stride) >= TermsWorth(n, stride) + stride
  {
    if m > n + 1 {
      OneTermMore(m - 1, n, stride);
    }
  }

  lemma {:induction false} WorthDecides(m: nat, n: nat, x: real, y: real, stride: real)
    requires 0.0 <= x < stride && 0.0 <= y < stride
    ensures x + TermsWorth(m, stride) > y + TermsWorth(n, stride) <==> m > n || (m == n && x > y)
  {
    if m > n {
      OneTermMore(m, n, stride);
    } else if m < n {
      OneTermMore(n, m, stride);
    }
  }

  lemma {:induction false} CoverageIsWorth(c: Candidate, stride: real)
    requires stride > 0.0
    ensures WithCoverage(c, stride).score == c.score + TermsWorth(c.matchedTerms, stride)
  {
    TermsWorthIsProduct(c.matchedTerms, stride);
  }

  lemma {:induction false} CoverageDominates(a: Candidate, b: Candidate, stride: real)
    requires 0.0 <= a.score < stride && 0.0 <= b.score < stride
    ensures WithCoverage(a, stride).score > WithCoverage(b, stride).score <==> Outranks(a, b)
  {
    CoverageIsWorth(a, stride);
    CoverageIsWorth(b, stride);
    WorthDecides(a.matchedTerms, b.matchedTerms, a.score, b.score, stride);
  }

  lemma {:induction false} CoverageLifts(c: Candidate, stride: real)
    requires c.score >= 0.0 && stride > 0.0
    ensures WithCoverage(c, stride).score >= 0.0
    ensures c.score > 0.0 || c.matchedTerms > 0 ==> WithCoverage(c, stride).score > 0.0
  {
  }

  /**
   Of non-negative scores: one candidate outscores another iff it matches more terms, or as many and
   scored better before; all scores end up in the unit interval, the best being 1 if any is positive.
   */
  lemma {:induction false} CoverageFirst(cs: seq<Candidate>)
    requires NonNegativeScores(cs)
    ensures
      var out := Normalized(cs);
      && (forall i, j :: 0 <= i < |cs| && 0 <= j < |cs| ==>
            (out[i].score > out[j].score <==> Outranks(cs[i], cs[j])))
      && (forall i :: 0 <= i < |cs| ==> 0.0 <= out[i].score <= 1.0)
      && ((exists i :: 0 <= i < |cs| && (cs[i].score > 0.0 || cs[i].matchedTerms > 0)) ==>
            exists i :: 0 <= i < |cs| && out[i].score == 1.0)
  {
    var covering, out := Covering(cs), Normalized(cs);
    var stride := MaxScore(cs) + 1.0;
    var m := MaxScore(covering);
    forall i | 0 <= i < |cs|
      ensures covering[i].score >= 0.0
      ensures cs[i].score > 0.0 || cs[i].matchedTerms > 0 ==> covering[i].score > 0.0
    {
      CoverageLifts(cs[i], stride);
    }
    forall i, j | 0 <= i < |cs| && 0 <= j < |cs|
      ensures covering[i].score > covering[j].score <==> Outranks(cs[i], cs[j])
    {
      CoverageDominates(cs[i], cs[j], stride);
    }
    if m > 0.0 {
      ScalingKeepsOrder(covering, m);
      var top :| 0 <= top < |cs| && covering[top].score == m;
      assert out[top].score == 1.0;
    }
  }

  lemma {:induction false} ScalingKeepsOrder(cs: seq<Candidate>, m: real)
    requires m > 0.0 && forall i :: 0 <= i < |cs| ==> 0.0 <= cs[i].score <= m
    ensures forall i, j :: 0 <= i < |cs| && 0 <= j < |cs| ==>
      (Scaled(cs[i], m).score > Scaled(cs[j], m).score <==> cs[i].score > cs[j].score)
    ensures forall i :: 0 <= i < |cs| ==>
      0.0 <= Scaled(cs[i], m).score <= 1.0 && (cs[i].score == m ==> Scaled(cs[i], m).score == 1.0)
  {
    forall i | 0 <= i < |cs|
      ensures 0.0 <= cs[i].score / m <= 1.0 && (cs[i].score == m ==> cs[i].score / m == 1.0)
    {
      DivideUp(0.0, cs[i].score, m);
      DivideUp(cs[i].score, m, m);
    }
    forall i, j | 0 <= i < |cs| && 0 <= j < |cs|
      ensures cs[i].score / m > cs[j].score / m <==> cs[i].score > cs[j].score
    {
      DivideUp(cs[j].score, cs[i].score, m);
      DivideUp(cs[i].score, cs[j].score, m);
    }
  }
}
