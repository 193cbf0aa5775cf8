/**
 Folding a ranked list by key: one entry per key, in order of first occurrence, each built from the
 earliest element and the number of later ones. Every search path folds this way, on the fly, with
 an index from key to entry.
 */
module Clusters {

  type Id = nat

  /** The positions at which a key occurs for the first time. */
  function Firsts(keys: seq<Id>): (firsts: seq<nat>)
    ensures forall i :: 0 <= i < |firsts| ==> firsts[i] < |keys| && keys[firsts[i]] !in keys[..firsts[i]]
    ensures forall i, j :: 0 <= i < j < |firsts| ==> firsts[i] < firsts[j]
  {
    if keys == [] then []
    else
      var init := keys[..|keys| - 1];
      assert forall p :: 0 <= p < |init| ==> init[..p] == keys[..p];
      if keys[|keys| - 1] in init then Firsts(init) else Firsts(init) + [|keys| - 1]
  }

  /** Every key has its entry. */
  lemma {:induction false} FirstsCover(keys: seq<Id>, p: nat) returns (i: nat)
    requires p < |keys|
    ensures i < |Firsts(keys)| && keys[Firsts(keys)[i]] == keys[p] && Firsts(keys)[i] <= p
  {
    var n := |keys| - 1;
    var init := keys[..n];
    if p < n {
      i := FirstsCover(init, p);
    } else if keys[n] in init {
      var q :| 0 <= q < n && init[q] == keys[n];
      i := FirstsCover(init, q);
    } else {
      i := |Firsts(init)|;
    }
  }

  /** No key has two. */
  lemma {:induction false} FirstsDistinct(keys: seq<Id>, i: nat, j: nat)
    requires i < j < |Firsts(keys)|
    ensures keys[Firsts(keys)[i]] != keys[Firsts(keys)[j]]
  {
  }

  /** An entry's position is the earliest of its key. */
  lemma {:induction false} FirstIsEarliest(keys: seq<Id>, i: nat, p: nat)
    requires i < |Firsts(keys)| && p < |keys| && keys[p] == keys[Firsts(keys)[i]]
    ensures Firsts(keys)[i] <= p
  {
  }

  /** How often a key occurs. */
  function Times(keys: seq<Id>, k: Id): nat {
    if keys == [] then 0
    else Times(keys[..|keys| - 1], k) + if keys[|keys| - 1] == k then 1 else 0
  }

  lemma {:induction false} TimesOfMember(keys: seq<Id>, k: Id)
    ensures Times(keys, k) > 0 <==> k in keys
  {
    if keys != [] {
      TimesOfMember(keys[..|keys| - 1], k);
      assert keys == keys[..|keys| - 1] + [keys[|keys| - 1]];
    }
  }

  lemma {:induction false} TimesSnoc(keys: seq<Id>, x: Id, k: Id)
    ensures Times(keys + [x], k) == Times(keys, k) + if x == k then 1 else 0
  {
  }

  lemma {:induction false} FirstsSnoc(keys: seq<Id>, x: Id)
    ensures Firsts(keys + [x]) == if x in keys then Firsts(keys) else Firsts(keys) + [|keys|]
  {
  }

  /** The folded list; `entry(x, n)` is the entry of `x` after `n` later elements of its key. */
  function Folded<T>(xs: seq<T>, keys: seq<Id>, entry: (T, nat) -> T): (folded: seq<T>)
    requires |xs| == |keys|
    ensures |folded| == |Firsts(keys)|
  {
    var firsts := Firsts(keys);
    seq(|firsts|, i requires 0 <= i < |firsts| => FoldedEntry(xs, keys, entry, i))
  }

  function FoldedEntry<T>(xs: seq<T>, keys: seq<Id>, entry: (T, nat) -> T, i: nat): T
    requires |xs| == |keys| && i < |Firsts(keys)|
  {
    var p := Firsts(keys)[i];
    TimesOfMember(keys, keys[p]);
    entry(xs[p], Times(keys, keys[p]) - 1)
  }

  /** The index the loops keep: from each key to its entry. */
  ghost predicate IndexFits(index: map<Id, nat>, keys: seq<Id>) {
    && (forall k :: k in keys ==> k in index)
    && (forall k :: k in index ==> index[k] < |Firsts(keys)| && keys[Firsts(keys)[index[k]]] == k)
  }

  lemma {:induction false} EntryAfterOneMore<T>(xs: seq<T>, keys: seq<Id>, entry: (T, nat) -> T, x: T, k: Id, i: nat)
    requires |xs| == |keys| && i < |Firsts(keys)| <= |Firsts(keys + [k])|
    ensures Firsts(keys + [k])[i] == Firsts(keys)[i]
    ensures
      var p := Firsts(keys)[i];
      FoldedEntry(xs + [x], keys + [k], entry, i) ==
        if keys[p] == k then entry(xs[p], Times(keys, k)) else FoldedEntry(xs, keys, entry, i)
  {
  }

  lemma {:induction false} IndexAfterOneMore(index: map<Id, nat>, keys: seq<Id>, k: Id)
    requires IndexFits(index, keys)
    ensures |Firsts(keys + [k])| == |Firsts(keys)| + if k in index then 0 else 1
    ensures IndexFits(if k in index then index else index[k := |Firsts(keys)|], keys + [k])
  {
  }

  /** One more element of a known key changes the count of its entry and nothing else. */
  lemma {:induction false} FoldKnown<T>(xs: seq<T>, keys: seq<Id>, entry: (T, nat) -> T, index: map<Id, nat>, x: T, k: Id)
    requires |xs| == |keys| && IndexFits(index, keys) && k in index
    ensures IndexFits(index, keys + [k])
    ensures Times(keys, k) > 0
    ensures Folded(xs, keys, entry)[index[k]] == entry(xs[Firsts(keys)[index[k]]], Times(keys, k) - 1)
    ensures Folded(xs + [x], keys + [k], entry)
         == Folded(xs, keys, entry)[index[k] := entry(xs[Firsts(keys)[index[k]]], Times(keys, k))]
  {
    TimesOfMember(keys, k);
    IndexAfterOneMore(index, keys, k);
    var n := |Firsts(keys)|;
    forall i | 0 <= i < n
      ensures FoldedEntry(xs + [x], keys + [k], entry, i) ==
        if i == index[k] then entry(xs[Firsts(keys)[i]], Times(keys, k)) else FoldedEntry(xs, keys, entry, i)
    {
      EntryAfterOneMore(xs, keys, entry, x, k, i);
      if i < index[k] {
        FirstsDistinct(keys, i, index[k]);
      } else if index[k] < i {
        FirstsDistinct(keys, index[k], i);
      }
    }
  }

  /** The same, naming the entry's element and count. */
  lemma {:induction false} FoldKnownStep<T>(xs: seq<T>, keys: seq<Id>, entry: (T, nat) -> T, index: map<Id, nat>, x: T, k: Id)
    returns (first: T, n: nat)
    requires |xs| == |keys| && IndexFits(index, keys) && k in index
    ensures IndexFits(index, keys + [k])
    ensures index[k] < |Folded(xs, keys, entry)| && Folded(xs, keys, entry)[index[k]] == entry(first, n)
    ensures Folded(xs + [x], keys + [k], entry) == Folded(xs, keys, entry)[index[k] := entry(first, n + 1)]
  {
    FoldKnown(xs, keys, entry, index, x, k);
    first, n := xs[Firsts(keys)[index[k]]], Times(keys, k) - 1;
  }

  /** An element of a new key opens an entry at the end. */
  lemma {:induction false} FoldNew<T>(xs: seq<T>, keys: seq<Id>, entry: (T, nat) -> T, index: map<Id, nat>, x: T, k: Id)
    requires |xs| == |keys| && IndexFits(index, keys) && k !in index
    ensures IndexFits(index[k := |Firsts(keys)|], keys + [k])
    ensures Folded(xs + [x], keys + [k], entry) == Folded(xs, keys, entry) + [entry(x, 0)]
  {
    TimesOfMember(keys, k);
    TimesSnoc(keys, k, k);
    FirstsSnoc(keys, k);
    IndexAfterOneMore(index, keys, k);
    var n := |Firsts(keys)|;
    forall i | 0 <= i < n
      ensures FoldedEntry(xs + [x], keys + [k], entry, i) == FoldedEntry(xs, keys, entry, i)
    {
      EntryAfterOneMore(xs, keys, entry, x, k, i);
    }
    assert FoldedEntry(xs + [x], keys + [k], entry, n) == entry(x, 0);
  }

  // ---------------------------------------------------------------- nothing is lost in the folding

  /** The elements the first `n` entries stand for. */
  function Represented(keys: seq<Id>, n: nat): nat
    requires n <= |Firsts(keys)|
  {
    if n == 0 then 0 else Represented(keys, n - 1) + Times(keys, keys[Firsts(keys)[n - 1]])
  }

  lemma {:induction false} RepresentedSnoc(keys: seq<Id>, x: Id, n: nat)
    requires n <= |Firsts(keys)| <= |Firsts(keys + [x])|
    ensures Represented(keys + [x], n) ==
            Represented(keys, n) + if exists i :: 0 <= i < n && keys[Firsts(keys)[i]] == x then 1 else 0
  {
    FirstsSnoc(keys, x);
    if n > 0 {
      RepresentedSnoc(keys, x, n - 1);
      var p := Firsts(keys)[n - 1];
      assert (keys + [x])[p] == keys[p];
      TimesSnoc(keys, x, keys[p]);
      if keys[p] == x {
        forall i | 0 <= i < n - 1
          ensures keys[Firsts(keys)[i]] != x
        {
          FirstsDistinct(keys, i, n - 1);
        }
      }
    }
  }

  /** All entries together stand for all elements, each once. */
  lemma {:induction false} Conservation(keys: seq<Id>)
    ensures Represented(keys, |Firsts(keys)|) == |keys|
  {
    if keys != [] {
      var n := |keys| - 1;
      var init, x := keys[..n], keys[n];
      assert keys == init + [x];
      Conservation(init);
      FirstsSnoc(init, x);
      RepresentedSnoc(init, x, |Firsts(init)|);
      if x in init {
        var q :| 0 <= q < n && init[q] == x;
        var i := FirstsCover(init, q);
      } else {
        TimesSnoc(init, x, x);
        TimesOfMember(init, x);
      }
    }
  }
}
