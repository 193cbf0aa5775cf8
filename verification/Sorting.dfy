/** A stable sort by a comparator, and when its result does not depend on the order of its input. */
module Sorting {

  /** Insertion sort; `before(a, b)` holds when the comparator does not put `a` after `b`. */
  function SortBy<T>(xs: seq<T>, before: (T, T) -> bool): (sorted: seq<T>)
    ensures |sorted| == |xs|
  {
    if xs == [] then [] else InsertBy(SortBy(xs[..|xs| - 1], before), xs[|xs| - 1], before)
  }

  function InsertBy<T>(sorted: seq<T>, x: T, before: (T, T) -> bool): (out: seq<T>)
    ensures |out| == |sorted| + 1
  {
    if sorted == [] then [x]
    else if before(sorted[|sorted| - 1], x) then sorted + [x]
    else InsertBy(sorted[..|sorted| - 1], x, before) + [sorted[|sorted| - 1]]
  }

  lemma {:induction false} WithoutLast<T>(a: seq<T>)
    requires a != []
    ensures multiset(a) == multiset(a[..|a| - 1]) + multiset{a[|a| - 1]}
    ensures multiset(a[..|a| - 1]) == multiset(a) - multiset{a[|a| - 1]}
  {
    assert a == a[..|a| - 1] + [a[|a| - 1]];
  }

  lemma {:induction false} InsertPermutes<T>(sorted: seq<T>, x: T, before: (T, T) -> bool)
    ensures multiset(InsertBy(sorted, x, before)) == multiset(sorted) + multiset{x}
  {
    if sorted != [] && !before(sorted[|sorted| - 1], x) {
      InsertPermutes(sorted[..|sorted| - 1], x, before);
      WithoutLast(sorted);
    }
  }

  lemma {:induction false} SortPermutes<T>(xs: seq<T>, before: (T, T) -> bool)
    ensures multiset(SortBy(xs, before)) == multiset(xs)
  {
    if xs != [] {
      SortPermutes(xs[..|xs| - 1], before);
      InsertPermutes(SortBy(xs[..|xs| - 1], before), xs[|xs| - 1], before);
      WithoutLast(xs);
    }
  }

  ghost predicate TotalPreorder<T(!new)>(before: (T, T) -> bool) {
    && (forall a, b :: before(a, b) || before(b, a))
    && (forall a, b, c :: before(a, b) && before(b, c) ==> before(a, c))
  }

  predicate OrderedBy<T>(xs: seq<T>, before: (T, T) -> bool) {
    forall i, j :: 0 <= i < j < |xs| ==> before(xs[i], xs[j])
  }

  lemma {:induction false} MemberOfInsert<T>(sorted: seq<T>, x: T, before: (T, T) -> bool, i: nat)
    requires i <= |sorted|
    ensures InsertBy(sorted, x, before)[i] == x || InsertBy(sorted, x, before)[i] in sorted
  {
    InsertPermutes(sorted, x, before);
    assert InsertBy(sorted, x, before)[i] in multiset(InsertBy(sorted, x, before));
  }

  lemma {:induction false} InsertOrders<T(!new)>(sorted: seq<T>, x: T, before: (T, T) -> bool)
    requires TotalPreorder(before) && OrderedBy(sorted, before)
    ensures OrderedBy(InsertBy(sorted, x, before), before)
  {
    if sorted != [] && !before(sorted[|sorted| - 1], x) {
      var n := |sorted| - 1;
      InsertOrders(sorted[..n], x, before);
      var inner := InsertBy(sorted[..n], x, before);
      forall i | 0 <= i <= n
        ensures before(inner[i], sorted[n])
      {
        MemberOfInsert(sorted[..n], x, before, i);
        assert inner[i] == x || exists j :: 0 <= j < n && sorted[j] == inner[i];
      }
      assert InsertBy(sorted, x, before) == inner + [sorted[n]];
    }
  }

  lemma {:induction false} SortOrders<T(!new)>(xs: seq<T>, before: (T, T) -> bool)
    requires TotalPreorder(before)
    ensures OrderedBy(SortBy(xs, before), before)
  {
    if xs != [] {
      SortOrders(xs[..|xs| - 1], before);
      InsertOrders(SortBy(xs[..|xs| - 1], before), xs[|xs| - 1], before);
    }
  }

  // ---------------------------------------------------------------- where the members go

  /** `order` names each position of a list of `n` once. */
  predicate IsOrder(order: seq<nat>, n: nat) {
    && |order| == n && (forall i :: 0 <= i < n ==> order[i] < n)
    && (forall i, j :: 0 <= i < j < n ==> order[i] != order[j])
    && (forall k :: 0 <= k < n ==> k in order)
  }

  lemma {:induction false} LongerOrder(order: seq<nat>, n: nat, p: nat)
    requires IsOrder(order, n) && p <= n
    ensures IsOrder(order[..p] + [n] + order[p..], n + 1)
  {
    var longer := order[..p] + [n] + order[p..];
    forall i | 0 <= i < n + 1
      ensures longer[i] == if i < p then order[i] else if i == p then n else order[i - 1]
    {
    }
    forall k | 0 <= k < n + 1
      ensures k in longer
    {
      if k == n {
        assert longer[p] == k;
      } else {
        assert k in order;
        var i :| 0 <= i < n && order[i] == k;
        assert longer[if i < p then i else i + 1] == k;
      }
    }
  }

  /** Where an insertion puts its element: the others stay in their order. */
  lemma {:induction false} InsertPlace<T>(sorted: seq<T>, x: T, before: (T, T) -> bool) returns (p: nat)
    ensures p <= |sorted| && InsertBy(sorted, x, before) == sorted[..p] + [x] + sorted[p..]
  {
    var n := |sorted| - 1;
    if sorted == [] || before(sorted[n], x) {
      p := |sorted|;
    } else {
      p := InsertPlace(sorted[..n], x, before);
      assert sorted[..n][..p] == sorted[..p];
      assert sorted[..n][p..] + [sorted[n]] == sorted[p..];
    }
  }

  lemma {:induction false} PlacedApart<T>(s: seq<T>, x: T, p: nat, i: nat)
    requires p <= |s| && i <= |s|
    ensures (s[..p] + [x] + s[p..])[i] == if i < p then s[i] else if i == p then x else s[i - 1]
  {
  }

  lemma {:induction false} PlacedAlike<T>(sorted: seq<T>, xs: seq<T>, init: seq<nat>, n: nat, p: nat)
    requires |xs| == n + 1 && |sorted| == |init| == n && p <= n
    requires forall i :: 0 <= i < n ==> init[i] < n && sorted[i] == xs[..n][init[i]]
    ensures forall i :: 0 <= i <= n ==>
      (init[..p] + [n] + init[p..])[i] <= n && (sorted[..p] + [xs[n]] + sorted[p..])[i] == xs[(init[..p] + [n] + init[p..])[i]]
  {
    forall i | 0 <= i <= n
      ensures (init[..p] + [n] + init[p..])[i] <= n
      ensures (sorted[..p] + [xs[n]] + sorted[p..])[i] == xs[(init[..p] + [n] + init[p..])[i]]
    {
      PlacedApart(sorted, xs[n], p, i);
      PlacedApart(init, n, p, i);
    }
  }

  /** Sorting moves the members about: position `i` of the result is position `order[i]` of the input. */
  lemma {:induction false} SortOrder<T>(xs: seq<T>, before: (T, T) -> bool) returns (order: seq<nat>)
    ensures IsOrder(order, |xs|)
    ensures forall i :: 0 <= i < |xs| ==> SortBy(xs, before)[i] == xs[order[i]]
  {
    if xs == [] {
      order := [];
    } else {
      var n := |xs| - 1;
      var init := SortOrder(xs[..n], before);
      var p := InsertPlace(SortBy(xs[..n], before), xs[n], before);
      order := init[..p] + [n] + init[p..];
      LongerOrder(init, n, p);
      PlacedAlike(SortBy(xs[..n], before), xs, init, n, p);
    }
  }

  // ---------------------------------------------------------------- one order only

  /** The comparator ties only members that are the same. */
  ghost predicate TiesAreEqual<T>(xs: seq<T>, before: (T, T) -> bool) {
    forall x, y :: x in xs && y in xs && before(x, y) && before(y, x) ==> x == y
  }

  lemma {:induction false} SameLast<T>(a: seq<T>, b: seq<T>, before: (T, T) -> bool)
    requires OrderedBy(a, before) && OrderedBy(b, before) && a != [] && b != [] && TiesAreEqual(a, before)
    requires a[|a| - 1] in b && b[|b| - 1] in a
    ensures a[|a| - 1] == b[|b| - 1]
  {
  }

  lemma {:induction false} SameLength<T>(a: seq<T>, b: seq<T>)
    requires multiset(a) == multiset(b)
    ensures |a| == |b|
  {
    assert |multiset(a)| == |a| && |multiset(b)| == |b|;
  }

  lemma {:induction false} SameMembers<T>(a: seq<T>, b: seq<T>, x: T)
    requires multiset(a) == multiset(b) && x in a
    ensures x in b
  {
    assert x in multiset(a);
  }

  lemma {:induction false} PrefixOk<T>(a: seq<T>, n: nat, before: (T, T) -> bool)
    requires n <= |a| && OrderedBy(a, before) && TiesAreEqual(a, before)
    ensures OrderedBy(a[..n], before) && TiesAreEqual(a[..n], before)
  {
  }

  lemma {:induction false} TiesOfSame<T>(a: seq<T>, b: seq<T>, before: (T, T) -> bool)
    requires multiset(a) == multiset(b) && TiesAreEqual(a, before)
    ensures TiesAreEqual(b, before)
  {
    forall x, y | x in b && y in b && before(x, y) && before(y, x)
      ensures x == y
    {
      SameMembers(b, a, x);
      SameMembers(b, a, y);
    }
  }

  lemma {:induction false} SameLastOfSame<T>(a: seq<T>, b: seq<T>, before: (T, T) -> bool)
    requires OrderedBy(a, before) && OrderedBy(b, before) && multiset(a) == multiset(b)
    requires TiesAreEqual(a, before) && a != []
    ensures |a| == |b| && a[|a| - 1] == b[|a| - 1]
    ensures multiset(a[..|a| - 1]) == multiset(b[..|a| - 1])
  {
    SameLength(a, b);
    SameMembers(a, b, a[|a| - 1]);
    SameMembers(b, a, b[|b| - 1]);
    SameLast(a, b, before);
    WithoutLast(a);
    WithoutLast(b);
  }

  /** Two ordered lists of the same members are the same list. */
  lemma {:induction false} OrderedIsUnique<T>(a: seq<T>, b: seq<T>, before: (T, T) -> bool)
    requires OrderedBy(a, before) && OrderedBy(b, before) && multiset(a) == multiset(b) && TiesAreEqual(a, before)
    ensures a == b
    decreases |a|
  {
    SameLength(a, b);
    if a != [] {
      var n := |a| - 1;
      SameLastOfSame(a, b, before);
      PrefixOk(a, n, before);
      TiesOfSame(a, b, before);
      PrefixOk(b, n, before);
      OrderedIsUnique(a[..n], b[..n], before);
      assert a == a[..n] + [a[n]] && b == b[..n] + [b[n]];
    }
  }

  /** Sorting forgets the order of its input. */
  lemma {:induction false} SortForgetsOrder<T(!new)>(a: seq<T>, b: seq<T>, before: (T, T) -> bool)
    requires TotalPreorder(before) && multiset(a) == multiset(b) && TiesAreEqual(a, before)
    ensures SortBy(a, before) == SortBy(b, before)
  {
    SortPermutes(a, before);
    SortPermutes(b, before);
    SortOrders(a, before);
    SortOrders(b, before);
    TiesOfSame(a, SortBy(a, before), before);
    OrderedIsUnique(SortBy(a, before), SortBy(b, before), before);
  }

  // ---------------------------------------------------------------- no repetitions

  predicate NoRepeats<T(==)>(xs: seq<T>) {
    forall i, j :: 0 <= i < j < |xs| ==> xs[i] != xs[j]
  }

  lemma {:induction false} NoRepeatsOnce<T>(xs: seq<T>)
    requires NoRepeats(xs)
    ensures forall x :: multiset(xs)[x] <= 1
  {
    if xs != [] {
      var k := |xs| - 1;
      NoRepeatsOnce(xs[..k]);
      WithoutLast(xs);
      assert xs[k] !in xs[..k];
      assert multiset(xs[..k])[xs[k]] == 0;
    }
  }

  lemma {:induction false} Twice<T>(s: seq<T>, i: nat, j: nat)
    requires i < j < |s| && s[i] == s[j]
    ensures multiset(s)[s[i]] >= 2
  {
    assert s == s[..j] + s[j..];
    assert s[i] in s[..j] && s[j..][0] == s[j];
    assert multiset(s) == multiset(s[..j]) + multiset(s[j..]);
    assert s[i] in multiset(s[..j]) && s[j] in multiset(s[j..]);
  }

  /** Sorting adds, drops and repeats nothing. */
  lemma {:induction false} SortKeepsMembers<T>(xs: seq<T>, before: (T, T) -> bool)
    ensures forall x :: x in SortBy(xs, before) <==> x in xs
    ensures NoRepeats(xs) ==> NoRepeats(SortBy(xs, before))
  {
    var sorted := SortBy(xs, before);
    SortPermutes(xs, before);
    forall x
      ensures x in sorted <==> x in xs
    {
      if x in sorted {
        SameMembers(sorted, xs, x);
      }
      if x in xs {
        SameMembers(xs, sorted, x);
      }
    }
    if NoRepeats(xs) {
      NoRepeatsOnce(xs);
      forall i, j | 0 <= i < j < |sorted|
        ensures sorted[i] != sorted[j]
      {
        if sorted[i] == sorted[j] {
          Twice(sorted, i, j);
        }
      }
    }
  }
}
