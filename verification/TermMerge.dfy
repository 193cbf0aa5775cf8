/**
 Searching for several terms: the packets of the terms are merged result by result through an index by
 merge key, sorted, cut off and normalised.
 */
module TermMerge {
  import opened Wrappers
  import opened Clusters
  import opened MatchCounts
  import opened SearchModel
  import opened Ranks
  import opened Sorting

  // ---------------------------------------------------------------- two results

  function MergeKey(r: SearchResult, mode: ResultMode): Id {
    if mode == Sessions then r.sessionId.UnwrapOr(r.recordId) else r.eventId.UnwrapOr(r.recordId)
  }

  function Or<T>(a: Option<T>, b: Option<T>): Option<T> {
    if a.Some? then a else b
  }

  function FillOrigin(a: Origin, b: Origin): Origin {
    Origin(Or(a.historySource, b.historySource), Or(a.plugin, b.plugin), Or(a.providerKey, b.providerKey),
           Or(a.sourceId, b.sourceId), Or(a.sourceFormat, b.sourceFormat))
  }

  function AddWhys(why: seq<string>, more: seq<string>): seq<string>
    decreases |more|
  {
    if more == [] then why else AddWhys(PushUniqueWhy(why, more[0]), more[1..])
  }

  function AddCitations(cs: seq<Citation>, more: seq<Citation>): seq<Citation>
    decreases |more|
  {
    if more == [] then cs else AddCitations(if more[0] in cs then cs else cs + [more[0]], more[1..])
  }

  const MERGE_BONUS: real := 0.08

  /** `merge_search_result`: the better result lends its identity, but not its session or its scope. */
  function Merge(existing: SearchResult, incoming: SearchResult): SearchResult {
    var better := incoming.rank > existing.rank;
    var rank := (if better then incoming.rank else existing.rank) + MERGE_BONUS;
    var more := existing.more + 1 + incoming.more;
    SearchResult(
      if better then incoming.recordId else existing.recordId,
      existing.sessionId,
      if better then incoming.eventId else existing.eventId,
      rank, existing.scope, more,
      if existing.scope == SessionScope then Of(rank, more) else existing.importance,
      if better then incoming.timestamp else existing.timestamp,
      if better then incoming.detail else existing.detail,
      if better then incoming.origin else FillOrigin(existing.origin, incoming.origin),
      AddWhys(existing.why, incoming.why),
      AddCitations(existing.citations, incoming.citations))
  }

  /**
   A merge keeps the merge key of the existing result iff, in Sessions mode, that key is its session, or
   the incoming result is no better, or it is the same record.
   */
  lemma {:induction false} MergeKeepsKey(existing: SearchResult, incoming: SearchResult, mode: ResultMode)
    requires MergeKey(existing, mode) == MergeKey(incoming, mode)
    ensures MergeKey(Merge(existing, incoming), mode) == MergeKey(existing, mode) <==>
      || mode == Events || existing.sessionId.Some? || incoming.rank <= existing.rank
      || incoming.recordId == existing.recordId
  {
  }

  // ---------------------------------------------------------------- all results

  function Keys(rs: seq<SearchResult>, mode: ResultMode): (keys: seq<Id>)
    ensures |keys| == |rs|
  {
    seq(|rs|, i requires 0 <= i < |rs| => MergeKey(rs[i], mode))
  }

  /** All results with key `k`, merged from the left. */
  function Group(rs: seq<SearchResult>, mode: ResultMode, k: Id): (g: Option<SearchResult>)
    ensures g.Some? <==> k in Keys(rs, mode)
  {
    if rs == [] then None
    else
      var init, last := rs[..|rs| - 1], rs[|rs| - 1];
      assert Keys(rs, mode) == Keys(init, mode) + [MergeKey(last, mode)];
      var g := Group(init, mode, k);
      if MergeKey(last, mode) != k then g
      else if g.None? then Some(last)
      else Some(Merge(g.value, last))
  }

  /** What the incoming results merge into: one result for each key, in order of first occurrence. */
  function Merged(rs: seq<SearchResult>, mode: ResultMode): (merged: seq<SearchResult>)
    ensures |merged| == |Firsts(Keys(rs, mode))|
  {
    var firsts := Firsts(Keys(rs, mode));
    seq(|firsts|, i requires 0 <= i < |firsts| => Group(rs, mode, Keys(rs, mode)[firsts[i]]).value)
  }

  lemma {:induction false} GroupSnoc(rs: seq<SearchResult>, r: SearchResult, mode: ResultMode, k: Id)
    ensures Keys(rs + [r], mode) == Keys(rs, mode) + [MergeKey(r, mode)]
    ensures Group(rs + [r], mode, k) ==
      if MergeKey(r, mode) != k then Group(rs, mode, k)
      else if Group(rs, mode, k).None? then Some(r)
      else Some(Merge(Group(rs, mode, k).value, r))
  {
  }

  lemma {:induction false} MergedKnown(rs: seq<SearchResult>, r: SearchResult, mode: ResultMode, index: map<Id, nat>)
    requires IndexFits(index, Keys(rs, mode)) && MergeKey(r, mode) in index
    ensures IndexFits(index, Keys(rs + [r], mode))
    ensures index[MergeKey(r, mode)] < |Merged(rs, mode)|
    ensures
      var i := index[MergeKey(r, mode)];
      Merged(rs + [r], mode) == Merged(rs, mode)[i := Merge(Merged(rs, mode)[i], r)]
  {
    var keys, k := Keys(rs, mode), MergeKey(r, mode);
    GroupSnoc(rs, r, mode, k);
    IndexAfterOneMore(index, keys, k);
    FirstsSnoc(keys, k);
    var i := index[k];
    var before, after := Merged(rs, mode), Merged(rs + [r], mode);
    assert |after| == |before|;
    forall j | 0 <= j < |before|
      ensures after[j] == if j == i then Merge(before[i], r) else before[j]
    {
      GroupSnoc(rs, r, mode, keys[Firsts(keys)[j]]);
      if j < i {
        FirstsDistinct(keys, j, i);
      } else if i < j {
        FirstsDistinct(keys, i, j);
      }
    }
    ChangedAt(before, after, i, Merge(before[i], r));
  }

  lemma {:induction false} ChangedAt<T>(before: seq<T>, after: seq<T>, i: nat, x: T)
    requires |after| == |before| && i < |before|
    requires forall j :: 0 <= j < |before| ==> after[j] == if j == i then x else before[j]
    ensures after == before[i := x]
  {
  }

  lemma {:induction false} MergedNew(rs: seq<SearchResult>, r: SearchResult, mode: ResultMode, index: map<Id, nat>)
    requires IndexFits(index, Keys(rs, mode)) && MergeKey(r, mode) !in index
    ensures IndexFits(index[MergeKey(r, mode) := |Merged(rs, mode)|], Keys(rs + [r], mode))
    ensures Merged(rs + [r], mode) == Merged(rs, mode) + [r]
  {
    var keys, k := Keys(rs, mode), MergeKey(r, mode);
    GroupSnoc(rs, r, mode, k);
    IndexAfterOneMore(index, keys, k);
    FirstsSnoc(keys, k);
    var before, after := Merged(rs, mode), Merged(rs + [r], mode);
    assert |after| == |before| + 1;
    forall j | 0 <= j < |before|
      ensures after[j] == before[j]
    {
      GroupSnoc(rs, r, mode, keys[Firsts(keys)[j]]);
    }
    assert after[|before|] == r;
    ExtendedBy(before, after, r);
  }

  lemma {:induction false} ExtendedBy<T>(before: seq<T>, after: seq<T>, x: T)
    requires |after| == |before| + 1 && after[|before|] == x
    requires forall j :: 0 <= j < |before| ==> after[j] == before[j]
    ensures after == before + [x]
  {
  }

  /** The results of one child packet as they come in, marked with their term. */
  function Incoming(term: string, results: seq<SearchResult>): (rs: seq<SearchResult>)
    ensures |rs| == |results|
  {
    seq(|results|, i requires 0 <= i < |results| => results[i].(why := PushUniqueWhy(results[i].why, "term:" + term)))
  }

  datatype Child = Child(term: string, packet: Packet)

  function AllIncoming(children: seq<Child>): seq<SearchResult> {
    if children == [] then []
    else AllIncoming(children[..|children| - 1])
         + Incoming(children[|children| - 1].term, children[|children| - 1].packet.results)
  }

  ghost predicate MergedUpTo(rs: seq<SearchResult>, mode: ResultMode, merged: seq<SearchResult>, index: map<Id, nat>) {
    merged == Merged(rs, mode) && IndexFits(index, Keys(rs, mode))
  }

  method MergeOne(result: SearchResult, mode: ResultMode, merged0: seq<SearchResult>, index0: map<Id, nat>,
                  ghost rs: seq<SearchResult>)
    returns (merged: seq<SearchResult>, index: map<Id, nat>)
    requires MergedUpTo(rs, mode, merged0, index0)
    ensures MergedUpTo(rs + [result], mode, merged, index)
  {
    merged, index := merged0, index0;
    var key := MergeKey(result, mode);
    if key in index {
      MergedKnown(rs, result, mode, index);
      var i := index[key];
      merged := merged[i := Merge(merged[i], result)];
    } else {
      MergedNew(rs, result, mode, index);
      index := index[key := |merged|];
      merged := merged + [result];
    }
  }

  method MergePacket(child: Child, mode: ResultMode, merged0: seq<SearchResult>, index0: map<Id, nat>,
                     ghost rs: seq<SearchResult>)
    returns (merged: seq<SearchResult>, index: map<Id, nat>)
    requires MergedUpTo(rs, mode, merged0, index0)
    ensures MergedUpTo(rs + Incoming(child.term, child.packet.results), mode, merged, index)
  {
    merged, index := merged0, index0;
    ghost var incoming := Incoming(child.term, child.packet.results);
    var results := child.packet.results;
    assert rs + incoming[..0] == rs;
    for j := 0 to |results|
      invariant MergedUpTo(rs + incoming[..j], mode, merged, index)
    {
      var result := results[j];
      result := result.(why := PushUniqueWhy(result.why, "term:" + child.term));
      assert rs + incoming[..j + 1] == rs + incoming[..j] + [result];
      merged, index := MergeOne(result, mode, merged, index, rs + incoming[..j]);
    }
    assert incoming[..|results|] == incoming;
  }

  function AnyTruncated(children: seq<Child>): bool {
    exists i :: 0 <= i < |children| && children[i].packet.truncation.Truncated?
  }

  function OmittedBy(t: Truncation): nat {
    if t.Truncated? then t.omitted else 0
  }

  function SumOmitted(children: seq<Child>): nat {
    if children == [] then 0
    else SumOmitted(children[..|children| - 1]) + OmittedBy(children[|children| - 1].packet.truncation)
  }

  lemma {:induction false} ChildrenSnoc(children: seq<Child>, j: nat)
    requires j < |children|
    ensures AllIncoming(children[..j + 1]) ==
            AllIncoming(children[..j]) + Incoming(children[j].term, children[j].packet.results)
    ensures AnyTruncated(children[..j + 1]) <==> AnyTruncated(children[..j]) || children[j].packet.truncation.Truncated?
    ensures SumOmitted(children[..j + 1]) == SumOmitted(children[..j]) + OmittedBy(children[j].packet.truncation)
  {
    assert children[..j + 1][..j] == children[..j];
    if AnyTruncated(children[..j]) {
      var i :| 0 <= i < j && children[..j][i].packet.truncation.Truncated?;
      assert children[..j + 1][i] == children[i];
    }
    assert children[..j + 1][j] == children[j];
  }

  method MergeAll(children: seq<Child>, mode: ResultMode)
    returns (merged: seq<SearchResult>, truncated: bool, omitted: nat)
    ensures merged == Merged(AllIncoming(children), mode)
    ensures truncated <==> AnyTruncated(children)
    ensures omitted == SumOmitted(children)
  {
    merged, truncated, omitted := [], false, 0;
    var index: map<Id, nat> := map[];
    for j := 0 to |children|
      invariant MergedUpTo(AllIncoming(children[..j]), mode, merged, index)
      invariant truncated <==> AnyTruncated(children[..j])
      invariant omitted == SumOmitted(children[..j])
    {
      ChildrenSnoc(children, j);
      truncated := truncated || children[j].packet.truncation.Truncated?;
      omitted := omitted + OmittedBy(children[j].packet.truncation);
      merged, index := MergePacket(children[j], mode, merged, index, AllIncoming(children[..j]));
    }
    assert children[..|children|] == children;
  }

  /** `compare_search_results(a, b) != Greater`; a missing timestamp comes after every other. */
  predicate NotAfter(a: SearchResult, b: SearchResult) {
    if a.rank != b.rank then a.rank > b.rank
    else if a.timestamp != b.timestamp then
      a.timestamp.Some? && (b.timestamp.None? || a.timestamp.value > b.timestamp.value)
    else a.recordId <= b.recordId
  }

  /** The packet made of the sorted results and what the children reported as omitted. */
  function Shown(sorted: seq<SearchResult>, limit: nat, truncated: bool, omitted: nat): Packet {
    var hasMore := |sorted| > limit || truncated;
    var total := omitted + if |sorted| > limit then |sorted| - limit else 0;
    Packet(
      Normalized(sorted[..Min(limit, |sorted|)]), hasMore,
      if hasMore then Truncated(if truncated then SourceLimit else Limit, Max(total, 1)) else Complete)
  }

  function TermsPacket(children: seq<Child>, limit: nat, mode: ResultMode): Packet {
    Shown(SortBy(Merged(AllIncoming(children), mode), NotAfter), limit, AnyTruncated(children), SumOmitted(children))
  }

  method Show(sorted: seq<SearchResult>, limit: nat, truncated: bool, omitted0: nat) returns (packet: Packet)
    ensures packet == Shown(sorted, limit, truncated, omitted0)
  {
    var omitted := omitted0;
    var hasMore := |sorted| > limit || truncated;
    if |sorted| > limit {
      omitted := omitted + (|sorted| - limit);
    }
    var shown := CutAndNormalize(sorted, limit);
    return Packet(shown, hasMore,
      if hasMore then Truncated(if truncated then SourceLimit else Limit, Max(omitted, 1)) else Complete);
  }

  method SearchPacketTerms(children: seq<Child>, limit: nat, mode: ResultMode) returns (packet: Packet)
    ensures packet == TermsPacket(children, limit, mode)
  {
    var merged, truncated, omitted := MergeAll(children, mode);
    packet := Show(SortBy(merged, NotAfter), limit, truncated, omitted);
  }

  // ---------------------------------------------------------------- matches are conserved

  /** An index for any keys. */
  lemma {:induction false} SomeIndex(keys: seq<Id>) returns (index: map<Id, nat>)
    ensures IndexFits(index, keys)
  {
    if keys == [] {
      index := map[];
    } else {
      var n := |keys| - 1;
      index := SomeIndex(keys[..n]);
      assert keys == keys[..n] + [keys[n]];
      IndexAfterOneMore(index, keys[..n], keys[n]);
      if keys[n] !in index {
        index := index[keys[n] := |Firsts(keys[..n])|];
      }
    }
  }

  /** Merging conserves matches, whatever the keys. */
  lemma {:induction false} MergeConserves(rs: seq<SearchResult>, mode: ResultMode)
    ensures Matches(Merged(rs, mode)) == Matches(rs)
  {
    if rs != [] {
      var n := |rs| - 1;
      var init, r := rs[..n], rs[n];
      assert rs == init + [r];
      MergeConserves(init, mode);
      var index := SomeIndex(Keys(init, mode));
      if MergeKey(r, mode) in index {
        MergedKnown(init, r, mode, index);
        var i := index[MergeKey(r, mode)];
        MatchesUpdate(Merged(init, mode), i, Merge(Merged(init, mode)[i], r));
      } else {
        MergedNew(init, r, mode, index);
        MatchesAppend(Merged(init, mode), [r]);
        assert Matches([r]) == 1 + r.more;
      }
    }
  }

  function ChildMatches(children: seq<Child>): nat {
    if children == [] then 0
    else ChildMatches(children[..|children| - 1]) + Matches(children[|children| - 1].packet.results)
  }

  lemma {:induction false} IncomingMatches(children: seq<Child>)
    ensures Matches(AllIncoming(children)) == ChildMatches(children)
  {
    if children != [] {
      var n := |children| - 1;
      IncomingMatches(children[..n]);
      var incoming := Incoming(children[n].term, children[n].packet.results);
      MatchesAppend(AllIncoming(children[..n]), incoming);
      MatchesOfSameCounts(incoming, children[n].packet.results);
    }
  }

  /** Unless something was cut off, the packet stands for exactly the matches of its children. */
  lemma {:induction false} PacketConserves(children: seq<Child>, limit: nat, mode: ResultMode)
    requires !TermsPacket(children, limit, mode).hasMore
    ensures Matches(TermsPacket(children, limit, mode).results) == ChildMatches(children)
    ensures !AnyTruncated(children)
  {
    var merged := Merged(AllIncoming(children), mode);
    var sorted := SortBy(merged, NotAfter);
    MergeConserves(AllIncoming(children), mode);
    IncomingMatches(children);
    SortPermutes(merged, NotAfter);
    MatchesOfPermutation(sorted, merged);
    assert sorted[..Min(limit, |sorted|)] == sorted;
    NormalizedKeeps(sorted);
    var shown := Normalized(sorted);
    forall i | 0 <= i < |sorted|
      ensures sorted[i].more == shown[i].more
    {
      assert SameButRank(sorted[i], shown[i]);
    }
    MatchesOfSameCounts(sorted, shown);
  }

  // ---------------------------------------------------------------- the index stays right

  /** No session has the id of a record that belongs to no session. */
  ghost predicate KeysDisjoint(rs: seq<SearchResult>) {
    forall a, b :: a in rs && b in rs && a.sessionId.Some? && b.sessionId.None? ==> a.sessionId.value != b.recordId
  }

  lemma {:induction false} GroupMember(rs: seq<SearchResult>, mode: ResultMode, k: Id) returns (r: SearchResult)
    requires k in Keys(rs, mode)
    ensures r in rs && MergeKey(r, mode) == k && Group(rs, mode, k).value.sessionId == r.sessionId
  {
    var n := |rs| - 1;
    assert rs == rs[..n] + [rs[n]];
    GroupSnoc(rs[..n], rs[n], mode, k);
    if Group(rs[..n], mode, k).Some? {
      r := GroupMember(rs[..n], mode, k);
    } else {
      r := rs[n];
    }
  }

  /** A merged result has the merge key of the results it was merged from. */
  lemma {:induction false} GroupKeepsKey(rs: seq<SearchResult>, mode: ResultMode, k: Id)
    requires k in Keys(rs, mode) && (mode == Events || KeysDisjoint(rs))
    ensures MergeKey(Group(rs, mode, k).value, mode) == k
  {
    var n := |rs| - 1;
    var init, last := rs[..n], rs[n];
    assert rs == init + [last];
    GroupSnoc(init, last, mode, k);
    if Group(init, mode, k).Some? {
      assert KeysDisjoint(rs) ==> KeysDisjoint(init);
      GroupKeepsKey(init, mode, k);
      if MergeKey(last, mode) == k {
        var first := GroupMember(init, mode, k);
        assert first in rs && last in rs;
        MergeKeepsKey(Group(init, mode, k).value, last, mode);
      }
    }
  }

  /** `result_index` points at the one result with the key, for every key that came in. */
  lemma {:induction false} IndexPointsAtTheResult(rs: seq<SearchResult>, mode: ResultMode, index: map<Id, nat>, r: SearchResult, j: nat)
    requires mode == Events || KeysDisjoint(rs)
    requires IndexFits(index, Keys(rs, mode)) && r in rs && j < |Merged(rs, mode)|
    ensures MergeKey(r, mode) in index && index[MergeKey(r, mode)] < |Merged(rs, mode)|
    ensures MergeKey(Merged(rs, mode)[j], mode) == MergeKey(r, mode) <==> j == index[MergeKey(r, mode)]
  {
    var keys, k := Keys(rs, mode), MergeKey(r, mode);
    var p :| 0 <= p < |rs| && rs[p] == r;
    assert keys[p] == k;
    GroupKeepsKey(rs, mode, keys[Firsts(keys)[j]]);
    if j < index[k] {
      FirstsDistinct(keys, j, index[k]);
    } else if index[k] < j {
      FirstsDistinct(keys, index[k], j);
    }
  }

  /** A result of a record without a session. */
  function RecordResult(id: Id, rank: real): SearchResult {
    SearchResult(id, None, None, rank, EventScope, 0, Zero, None, "", Origin(None, None, None, None, None), [], [])
  }

  /**
   The key can change: one term finds record 7, which has no session, another finds record 9, with a
   better rank, in a session that has the id 7. They merge into one result, whose key is 9.
   */
  lemma {:induction false} MergeKeyCanDrift(a: string, b: string)
    ensures
      var existing, incoming := RecordResult(7, 0.5), RecordResult(9, 1.0).(sessionId := Some(7));
      var children := [Child(a, Packet([existing], false, Complete)), Child(b, Packet([incoming], false, Complete))];
      var merged := Merged(AllIncoming(children), Sessions);
      && MergeKey(existing, Sessions) == MergeKey(incoming, Sessions) == 7
      && |merged| == 1 && MergeKey(merged[0], Sessions) == 9
  {
    var existing, incoming := RecordResult(7, 0.5), RecordResult(9, 1.0).(sessionId := Some(7));
    var first, second := Incoming(a, [existing])[0], Incoming(b, [incoming])[0];
    IncomingOfTwo(a, existing, b, incoming);
    MergesIntoOne(first, second);
  }

  lemma {:induction false} IncomingOfTwo(a: string, x: SearchResult, b: string, y: SearchResult)
    ensures AllIncoming([Child(a, Packet([x], false, Complete)), Child(b, Packet([y], false, Complete))])
         == [Incoming(a, [x])[0]] + [Incoming(b, [y])[0]]
  {
    var first, second := Child(a, Packet([x], false, Complete)), Child(b, Packet([y], false, Complete));
    assert [first, second][..1] == [first] && [first][..0] == [];
    assert AllIncoming([first]) == [] + Incoming(a, [x]) == [Incoming(a, [x])[0]];
    assert Incoming(b, [y]) == [Incoming(b, [y])[0]];
  }

  lemma {:induction false} MergesIntoOne(first: SearchResult, second: SearchResult)
    requires MergeKey(first, Sessions) == MergeKey(second, Sessions)
    ensures Merged([first] + [second], Sessions) == [Merge(first, second)]
  {
    var index: map<Id, nat> := map[];
    MergedNew([], first, Sessions, index);
    assert [] + [first] == [first];
    MergedKnown([first], second, Sessions, index[MergeKey(first, Sessions) := 0]);
  }

  // ---------------------------------------------------------------- the rank of a merged result

  /** The best rank among the results with key `k`. */
  function BestRank(rs: seq<SearchResult>, mode: ResultMode, k: Id): (best: real)
    requires k in Keys(rs, mode)
  {
    var init, last := rs[..|rs| - 1], rs[|rs| - 1];
    assert Keys(rs, mode) == Keys(init, mode) + [MergeKey(last, mode)];
    if MergeKey(last, mode) != k then BestRank(init, mode, k)
    else if k !in Keys(init, mode) || last.rank > BestRank(init, mode, k) then last.rank
    else BestRank(init, mode, k)
  }

  /** Each merge adds the bonus to the better rank: n results gain between one and n - 1 of them. */
  lemma {:induction false} MergedRank(rs: seq<SearchResult>, mode: ResultMode, k: Id)
    requires k in Keys(rs, mode)
    ensures
      var n := Times(Keys(rs, mode), k);
      var rank, best := Group(rs, mode, k).value.rank, BestRank(rs, mode, k);
      && n >= 1
      && (n == 1 ==> rank == best)
      && (n >= 2 ==> best + 0.08 <= rank <= best + 0.08 * (n - 1) as real)
  {
    var init, last := rs[..|rs| - 1], rs[|rs| - 1];
    assert rs == init + [last];
    GroupSnoc(init, last, mode, k);
    TimesSnoc(Keys(init, mode), MergeKey(last, mode), k);
    TimesOfMember(Keys(init, mode), k);
    if k in Keys(init, mode) {
      MergedRank(init, mode, k);
    }
  }

  // ---------------------------------------------------------------- nothing hidden

  lemma {:induction false} ComparatorIsTotal()
    ensures TotalPreorder(NotAfter)
  {
  }

  /** If there is no more, every result of every child shows in some result of the packet. */
  lemma {:induction false} NoMoreMeansAll(children: seq<Child>, limit: nat, mode: ResultMode, r: SearchResult)
    requires !TermsPacket(children, limit, mode).hasMore
    requires mode == Events || KeysDisjoint(AllIncoming(children))
    requires r in AllIncoming(children)
    ensures exists s :: s in TermsPacket(children, limit, mode).results && MergeKey(s, mode) == MergeKey(r, mode)
  {
    var rs := AllIncoming(children);
    var merged := Merged(rs, mode);
    var sorted := SortBy(merged, NotAfter);
    var index := SomeIndex(Keys(rs, mode));
    var p :| 0 <= p < |rs| && rs[p] == r;
    assert Keys(rs, mode)[p] == MergeKey(r, mode);
    var i := index[MergeKey(r, mode)];
    IndexPointsAtTheResult(rs, mode, index, r, i);
    SortPermutes(merged, NotAfter);
    SameMembers(merged, sorted, merged[i]);
    var j :| 0 <= j < |sorted| && sorted[j] == merged[i];
    assert sorted[..Min(limit, |sorted|)] == sorted;
    NormalizedKeeps(sorted);
    assert SameButRank(sorted[j], Normalized(sorted)[j]);
    assert TermsPacket(children, limit, mode).results[j] in TermsPacket(children, limit, mode).results;
  }

  lemma {:induction false} GroupNonNegative(rs: seq<SearchResult>, mode: ResultMode, k: Id)
    requires NonNegative(rs) && k in Keys(rs, mode)
    ensures Group(rs, mode, k).value.rank >= 0.0
  {
    var n := |rs| - 1;
    assert rs == rs[..n] + [rs[n]];
    GroupSnoc(rs[..n], rs[n], mode, k);
    if k in Keys(rs[..n], mode) {
      GroupNonNegative(rs[..n], mode, k);
    }
  }

  /** The ranks shown are non-increasing and in the unit interval, for children with non-negative ranks. */
  lemma {:induction false} PacketRanks(children: seq<Child>, limit: nat, mode: ResultMode)
    requires NonNegative(AllIncoming(children))
    ensures NonIncreasing(TermsPacket(children, limit, mode).results)
    ensures forall i :: 0 <= i < |TermsPacket(children, limit, mode).results| ==>
      0.0 <= TermsPacket(children, limit, mode).results[i].rank <= 1.0
  {
    var rs := AllIncoming(children);
    var merged := Merged(rs, mode);
    var sorted := SortBy(merged, NotAfter);
    ComparatorIsTotal();
    SortOrders(merged, NotAfter);
    SortPermutes(merged, NotAfter);
    forall i | 0 <= i < |sorted|
      ensures sorted[i].rank >= 0.0
    {
      SameMembers(sorted, merged, sorted[i]);
      var j :| 0 <= j < |merged| && merged[j] == sorted[i];
      GroupNonNegative(rs, mode, Keys(rs, mode)[Firsts(Keys(rs, mode))[j]]);
    }
    CutRanks(sorted[..Min(limit, |sorted|)]);
  }
}
