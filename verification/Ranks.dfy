/** Scaling the ranks of a result list to the unit interval, in place. */
module Ranks {
  import opened SearchModel

  /** The largest rank, and 0 when there is none above 0. */
  function MaxRank(rs: seq<SearchResult>): (m: real)
    ensures m >= 0.0
    ensures forall i :: 0 <= i < |rs| ==> rs[i].rank <= m
    ensures m > 0.0 ==> exists i :: 0 <= i < |rs| && rs[i].rank == m
  {
    if rs == [] then 0.0
    else
      var init := MaxRank(rs[..|rs| - 1]);
      var last := rs[|rs| - 1];
      assert forall i :: 0 <= i < |rs| - 1 ==> rs[..|rs| - 1][i] == rs[i];
      if last.rank > init then last.rank else init
  }

  function Clamp01(x: real): real {
    if x < 0.0 then 0.0 else if x > 1.0 then 1.0 else x
  }

  function Scaled(r: SearchResult, m: real): SearchResult
    requires m > 0.0
  {
    r.(rank := Clamp01(r.rank / m))
  }

  function Weighed(r: SearchResult): SearchResult {
    r.(importance := if r.scope == SessionScope then Of(r.rank, r.more) else Zero)
  }

  function Normalized(rs: seq<SearchResult>): (out: seq<SearchResult>)
    ensures |out| == |rs|
  {
    var m := MaxRank(rs);
    if m <= 0.0 then rs else seq(|rs|, i requires 0 <= i < |rs| => Weighed(Scaled(rs[i], m)))
  }

  method FoldMaxRank(results: array<SearchResult>) returns (maxRank: real)
    ensures maxRank == MaxRank(results[..])
  {
    maxRank := 0.0;
    for i := 0 to results.Length
      invariant maxRank == MaxRank(results[..i])
    {
      assert results[..i + 1][..i] == results[..i];
      maxRank := if results[i].rank > maxRank then results[i].rank else maxRank;
    }
    assert results[..results.Length] == results[..];
  }

  method ScaleRanks(results: array<SearchResult>, maxRank: real)
    requires maxRank > 0.0
    modifies results
    ensures forall j :: 0 <= j < results.Length ==> results[j] == Scaled(old(results[j]), maxRank)
  {
    for i := 0 to results.Length
      invariant forall j :: 0 <= j < i ==> results[j] == Scaled(old(results[j]), maxRank)
      invariant forall j :: i <= j < results.Length ==> results[j] == old(results[j])
    {
      results[i] := results[i].(rank := Clamp01(results[i].rank / maxRank));
    }
  }

  method WeighSessions(results: array<SearchResult>)
    modifies results
    ensures forall j :: 0 <= j < results.Length ==> results[j] == Weighed(old(results[j]))
  {
    for i := 0 to results.Length
      invariant forall j :: 0 <= j < i ==> results[j] == Weighed(old(results[j]))
      invariant forall j :: i <= j < results.Length ==> results[j] == old(results[j])
    {
      if results[i].scope == SessionScope {
        results[i] := results[i].(importance := Of(results[i].rank, results[i].more));
      } else {
        results[i] := results[i].(importance := Zero);
      }
    }
  }

  method NormalizeSearchResultRanks(results: array<SearchResult>)
    modifies results
    ensures results[..] == Normalized(old(results[..]))
  {
    var maxRank := FoldMaxRank(results);
    if maxRank <= 0.0 {
      return;
    }
    ScaleRanks(results, maxRank);
    WeighSessions(results);
  }

  /** The end of every search: what exceeds the limit is cut off, the rest is scaled. */
  method CutAndNormalize(found: seq<SearchResult>, limit: nat) returns (shown: seq<SearchResult>)
    ensures shown == Normalized(found[..Min(limit, |found|)])
  {
    var results := found;
    if |results| > limit {
      results := results[..limit];
    }
    var a := new SearchResult[|results|](i requires 0 <= i < |results| => results[i]);
    assert a[..] == results;
    assert results == found[..Min(limit, |found|)];
    NormalizeSearchResultRanks(a);
    return a[..];
  }

  lemma {:induction false} DivideUp(x: real, y: real, m: real)
    requires m > 0.0
    ensures x <= y ==> x / m <= y / m
    ensures x < y ==> x / m < y / m
    ensures m / m == 1.0
    ensures 0.0 / m == 0.0
  {
  }

  predicate NonIncreasing(rs: seq<SearchResult>) {
    forall i, j :: 0 <= i < j < |rs| ==> rs[i].rank >= rs[j].rank
  }

  predicate NonNegative(rs: seq<SearchResult>) {
    forall i :: 0 <= i < |rs| ==> rs[i].rank >= 0.0
  }

  /**
   Of non-negative ranks: the order of any two results stays what it was, all ranks end up in the
   unit interval, and the best is 1 as soon as one is positive.
   */
  lemma {:induction false} NormalizedRanks(rs: seq<SearchResult>)
    requires NonNegative(rs)
    ensures
      var out := Normalized(rs);
      && (forall i :: 0 <= i < |rs| ==> 0.0 <= out[i].rank <= 1.0)
      && (forall i, j :: 0 <= i < |rs| && 0 <= j < |rs| ==> (rs[i].rank < rs[j].rank <==> out[i].rank < out[j].rank))
      && ((exists i :: 0 <= i < |rs| && rs[i].rank > 0.0) ==> exists i :: 0 <= i < |rs| && out[i].rank == 1.0)
  {
    var m := MaxRank(rs);
    var out := Normalized(rs);
    if m > 0.0 {
      forall i | 0 <= i < |rs|
        ensures 0.0 <= rs[i].rank / m <= 1.0 && out[i].rank == rs[i].rank / m
      {
        DivideUp(0.0, rs[i].rank, m);
        DivideUp(rs[i].rank, m, m);
      }
      forall i, j | 0 <= i < |rs| && 0 <= j < |rs|
        ensures rs[i].rank < rs[j].rank <==> out[i].rank < out[j].rank
      {
        DivideUp(rs[i].rank, rs[j].rank, m);
        DivideUp(rs[j].rank, rs[i].rank, m);
      }
      var top :| 0 <= top < |rs| && rs[top].rank == m;
      DivideUp(0.0, 0.0, m);
      assert out[top].rank == 1.0;
    }
  }

  /** Of a list in order the result is in order, and starts with 1 if anything is positive. */
  lemma {:induction false} CutRanks(cut: seq<SearchResult>)
    requires NonIncreasing(cut) && NonNegative(cut)
    ensures
      var shown := Normalized(cut);
      && NonIncreasing(shown)
      && (forall i :: 0 <= i < |shown| ==> 0.0 <= shown[i].rank <= 1.0)
      && (shown != [] && cut[0].rank > 0.0 ==> shown[0].rank == 1.0)
  {
    NormalizedRanks(cut);
    var shown := Normalized(cut);
    forall i, j | 0 <= i < j < |shown|
      ensures shown[i].rank >= shown[j].rank
    {
      assert !(cut[i].rank < cut[j].rank);
    }
    if shown != [] && cut[0].rank > 0.0 {
      var top :| 0 <= top < |cut| && shown[top].rank == 1.0;
      assert top != 0 ==> shown[0].rank >= shown[top].rank;
    }
  }

  /**
   A session result shows the importance of its final rank and count, unless no rank is positive: then
   nothing is recomputed.
   */
  lemma {:induction false} NormalizedImportance(rs: seq<SearchResult>, i: nat)
    requires i < |rs|
    ensures
      var r := Normalized(rs)[i];
      if MaxRank(rs) > 0.0 then r.importance == if r.scope == SessionScope then Of(r.rank, r.more) else Zero
      else r == rs[i]
  {
  }

  /** Nothing but rank and importance changes. */
  predicate SameButRank(a: SearchResult, b: SearchResult) {
    b == a.(rank := b.rank, importance := b.importance)
  }

  lemma {:induction false} NormalizedKeeps(rs: seq<SearchResult>)
    ensures forall i :: 0 <= i < |rs| ==> SameButRank(rs[i], Normalized(rs)[i])
  {
  }
}
