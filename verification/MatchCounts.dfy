/** How many matches a list of results stands for, and that folding by key loses none of them. */
module MatchCounts {
  import opened Clusters
  import opened SearchModel
  import opened Sorting

  /** The matches a list of results stands for: each itself, and its extra count. */
  function Matches(rs: seq<SearchResult>): nat {
    if rs == [] then 0 else Matches(rs[..|rs| - 1]) + 1 + rs[|rs| - 1].more
  }

  lemma {:induction false} MatchesAppend(a: seq<SearchResult>, b: seq<SearchResult>)
    ensures Matches(a + b) == Matches(a) + Matches(b)
    decreases |b|
  {
    if b == [] {
      assert a + b == a;
    } else {
      assert (a + b)[..|a + b| - 1] == a + b[..|b| - 1];
      MatchesAppend(a, b[..|b| - 1]);
    }
  }

  lemma {:induction false} MatchesUpdate(rs: seq<SearchResult>, i: nat, r: SearchResult)
    requires i < |rs|
    ensures Matches(rs[i := r]) + rs[i].more == Matches(rs) + r.more
  {
    var a, b := rs[..i], rs[i + 1..];
    assert rs == a + [rs[i]] + b && rs[i := r] == a + [r] + b;
    MatchesAppend(a + [rs[i]], b);
    MatchesAppend(a, [rs[i]]);
    MatchesAppend(a + [r], b);
    MatchesAppend(a, [r]);
    assert Matches([rs[i]]) == 1 + rs[i].more && Matches([r]) == 1 + r.more;
  }

  lemma {:induction false} TakeOut(b: seq<SearchResult>, j: nat)
    requires j < |b|
    ensures Matches(b) == Matches(b[..j] + b[j + 1..]) + 1 + b[j].more
    ensures multiset(b[..j] + b[j + 1..]) == multiset(b) - multiset{b[j]}
  {
    assert b == b[..j] + [b[j]] + b[j + 1..];
    MatchesAppend(b[..j] + [b[j]], b[j + 1..]);
    MatchesAppend(b[..j], [b[j]]);
    MatchesAppend(b[..j], b[j + 1..]);
    assert Matches([b[j]]) == 1 + b[j].more;
  }

  lemma {:induction false} MatchesOfPermutation(a: seq<SearchResult>, b: seq<SearchResult>)
    requires multiset(a) == multiset(b)
    ensures Matches(a) == Matches(b)
    decreases |a|
  {
    SameLength(a, b);
    if a != [] {
      var n := |a| - 1;
      SameMembers(a, b, a[n]);
      var j :| 0 <= j <= n && b[j] == a[n];
      TakeOut(b, j);
      WithoutLast(a);
      MatchesOfPermutation(a[..n], b[..j] + b[j + 1..]);
    }
  }

  lemma {:induction false} MatchesOfSameCounts(a: seq<SearchResult>, b: seq<SearchResult>)
    requires |a| == |b| && forall i :: 0 <= i < |a| ==> a[i].more == b[i].more
    ensures Matches(a) == Matches(b)
  {
    if a != [] {
      MatchesOfSameCounts(a[..|a| - 1], b[..|b| - 1]);
    }
  }

  /** Results nothing was folded into stand for themselves. */
  lemma {:induction false} MatchesOfFresh(rs: seq<SearchResult>)
    requires forall i :: 0 <= i < |rs| ==> rs[i].more == 0
    ensures Matches(rs) == |rs|
  {
    if rs != [] {
      MatchesOfFresh(rs[..|rs| - 1]);
    }
  }

  // ---------------------------------------------------------------- entries

  /** Each result counts, beyond what it came with, the other elements of its key. */
  predicate CountsOthers(rs: seq<SearchResult>, keys: seq<Id>, openers: seq<SearchResult>) {
    && |rs| == |openers| == |Firsts(keys)|
    && forall i :: 0 <= i < |rs| ==> rs[i].more + 1 == openers[i].more + Times(keys, keys[Firsts(keys)[i]])
  }

  lemma {:induction false} MatchesOfFirstEntries(rs: seq<SearchResult>, keys: seq<Id>, openers: seq<SearchResult>, n: nat)
    requires CountsOthers(rs, keys, openers) && n <= |rs|
    ensures Matches(rs[..n]) + n == Represented(keys, n) + Matches(openers[..n])
  {
    if n > 0 {
      MatchesOfFirstEntries(rs, keys, openers, n - 1);
      assert rs[..n][..n - 1] == rs[..n - 1] && openers[..n][..n - 1] == openers[..n - 1];
    }
  }

  /** Folding by key: the entries stand for the folded elements, and what their own results came with. */
  lemma {:induction false} MatchesOfEntries(rs: seq<SearchResult>, keys: seq<Id>, openers: seq<SearchResult>)
    requires CountsOthers(rs, keys, openers)
    ensures Matches(rs) + |rs| == |keys| + Matches(openers)
  {
    MatchesOfFirstEntries(rs, keys, openers, |rs|);
    assert rs[..|rs|] == rs && openers[..|rs|] == openers;
    Conservation(keys);
  }
}
