/** The overlapping chunks that long documents are embedded in. */
module Chunker {
  import opened Wrappers

  datatype ChunkError = TargetNotPositive | OverlapNegative | OverlapTooLarge

  datatype Chunk = Chunk(index: nat, count: nat, start: nat, end: nat, text: string)

  /** Ranges that tile 0..n: from 0 to n, each but the last of full length, each sharing `overlap` with the next. */
  ghost predicate Tiles(ranges: seq<(nat, nat)>, n: nat, target: nat, overlap: nat) {
    && ranges != [] && ranges[0].0 == 0 && ranges[|ranges| - 1].1 == n
    && (forall i :: 0 <= i < |ranges| ==> ranges[i].0 < ranges[i].1 <= n)
    && (forall i :: 0 <= i < |ranges| - 1 ==> ranges[i].1 == ranges[i].0 + target && ranges[i].1 < n)
    && ranges[|ranges| - 1].1 <= ranges[|ranges| - 1].0 + target
    && (forall i :: 0 < i < |ranges| ==> ranges[i].0 + overlap == ranges[i - 1].1)
  }

  /** The loop's state: everything before the next range is tiled, and more text is to come. */
  ghost predicate TilesSoFar(ranges: seq<(nat, nat)>, start: nat, n: nat, target: nat, overlap: nat) {
    && (forall i :: 0 <= i < |ranges| ==>
          ranges[i].1 == ranges[i].0 + target && ranges[i].1 < n && ranges[i].0 == i * (target - overlap))
    && start == |ranges| * (target - overlap) && start < n
    && (ranges != [] ==> start + overlap == ranges[|ranges| - 1].1)
  }

  lemma {:induction false} Onward(ranges: seq<(nat, nat)>, start: nat, n: nat, target: nat, overlap: nat)
    requires TilesSoFar(ranges, start, n, target, overlap) && overlap < target && start + target < n
    ensures TilesSoFar(ranges + [(start, start + target)], start + target - overlap, n, target, overlap)
  {
  }

  lemma {:induction false} LastOne(ranges: seq<(nat, nat)>, start: nat, n: nat, target: nat, overlap: nat)
    requires TilesSoFar(ranges, start, n, target, overlap) && overlap < target && n <= start + target
    ensures Tiles(ranges + [(start, n)], n, target, overlap)
  {
    var all := ranges + [(start, n)];
    forall i | 0 < i < |all|
      ensures all[i].0 + overlap == all[i - 1].1
    {
      if i < |ranges| {
        assert i * (target - overlap) == (i - 1) * (target - overlap) + (target - overlap);
      }
    }
    if ranges != [] {
      assert all[0].0 == 0 * (target - overlap);
    } else {
      assert start == 0;
    }
  }

  /** `chunk_document`: the ranges, then the chunks cut along them. */
  method ChunkDocument(text: string, target: int, overlap: int) returns (r: Result<seq<Chunk>, ChunkError>)
    ensures target <= 0 ==> r == Err(TargetNotPositive)
    ensures target > 0 && overlap < 0 ==> r == Err(OverlapNegative)
    ensures target > 0 && 0 <= overlap && target <= overlap ==> r == Err(OverlapTooLarge)
    ensures 0 <= overlap < target ==> r.Ok? && Chunks(r.value, text, target, overlap)
  {
    if target <= 0 {
      return Err(TargetNotPositive);
    }
    if overlap < 0 {
      return Err(OverlapNegative);
    }
    if overlap >= target {
      return Err(OverlapTooLarge);
    }
    var n := |text|;
    if n == 0 {
      return Ok([]);
    }
    var ranges := Ranges(n, target, overlap);
    var chunks := seq(|ranges|, i requires 0 <= i < |ranges| && ranges[i].0 <= ranges[i].1 <= |text| =>
      Chunk(i, |ranges|, ranges[i].0, ranges[i].1, text[ranges[i].0..ranges[i].1]));
    assert RangesOf(chunks) == ranges;
    r := Ok(chunks);
  }

  method Ranges(n: nat, target: nat, overlap: nat) returns (ranges: seq<(nat, nat)>)
    requires overlap < target && n > 0
    ensures Tiles(ranges, n, target, overlap)
  {
    ranges := [];
    var start := 0;
    while start < n
      invariant TilesSoFar(ranges, start, n, target, overlap)
      decreases n - start
    {
      var end := if n <= start + target then n else start + target;
      if end >= n {
        LastOne(ranges, start, n, target, overlap);
        ranges := ranges + [(start, end)];
        return;
      }
      Onward(ranges, start, n, target, overlap);
      ranges := ranges + [(start, end)];
      start := end - overlap;
    }
    assert false;
  }

  function RangesOf(chunks: seq<Chunk>): seq<(nat, nat)> {
    seq(|chunks|, i requires 0 <= i < |chunks| => (chunks[i].start, chunks[i].end))
  }

  /** What the chunks of a text are: numbered, cut from it along ranges that tile it. */
  ghost predicate Chunks(chunks: seq<Chunk>, text: string, target: nat, overlap: nat) {
    && (text == [] <==> chunks == [])
    && (text != [] ==> Tiles(RangesOf(chunks), |text|, target, overlap))
    && forall i :: 0 <= i < |chunks| ==>
         && chunks[i].index == i && chunks[i].count == |chunks|
         && chunks[i].start <= chunks[i].end <= |text| && chunks[i].text == text[chunks[i].start..chunks[i].end]
  }

  // ---------------------------------------------------------------- what is promised of the chunks

  /** Neighbours share exactly `overlap` characters, and each chunk after the first adds at least one. */
  lemma {:induction false} NeighboursOverlap(chunks: seq<Chunk>, text: string, target: nat, overlap: nat, i: nat)
    requires Chunks(chunks, text, target, overlap) && overlap < target && 0 < i < |chunks|
    ensures overlap <= |chunks[i - 1].text| && overlap < |chunks[i].text|
    ensures chunks[i].text[..overlap] == chunks[i - 1].text[|chunks[i - 1].text| - overlap..]
    ensures chunks[i - 1].end < chunks[i].end
  {
    var ranges := RangesOf(chunks);
    assert ranges[i - 1].1 == ranges[i - 1].0 + target && ranges[i].0 + overlap == ranges[i - 1].1;
    if i < |chunks| - 1 {
      assert ranges[i].1 == ranges[i].0 + target;
    } else {
      assert ranges[i].1 == |text| && ranges[i - 1].1 < |text|;
    }
    assert text[chunks[i].start..chunks[i].end][..overlap] == text[chunks[i].start..chunks[i].start + overlap];
  }

  /** The first chunk, then each later one without the characters it shares with the one before. */
  function Reassembled(chunks: seq<Chunk>, overlap: nat): string {
    if chunks == [] then ""
    else if |chunks| == 1 then chunks[0].text
    else
      var last := chunks[|chunks| - 1].text;
      Reassembled(chunks[..|chunks| - 1], overlap) + if overlap <= |last| then last[overlap..] else ""
  }

  lemma {:induction false} OneMoreChunk(chunks: seq<Chunk>, overlap: nat, k: nat)
    requires 1 < k <= |chunks| && overlap <= |chunks[k - 1].text|
    ensures Reassembled(chunks[..k], overlap) == Reassembled(chunks[..k - 1], overlap) + chunks[k - 1].text[overlap..]
  {
    assert chunks[..k][..k - 1] == chunks[..k - 1];
  }

  /** A chunk less its overlap continues the text where the one before ends. */
  lemma {:induction false} ChunkContinues(chunks: seq<Chunk>, text: string, target: nat, overlap: nat, k: nat)
    requires Chunks(chunks, text, target, overlap) && overlap < target && 0 < k < |chunks|
    ensures overlap <= |chunks[k].text|
    ensures text[..chunks[k - 1].end] + chunks[k].text[overlap..] == text[..chunks[k].end]
  {
    NeighboursOverlap(chunks, text, target, overlap, k);
    assert RangesOf(chunks)[k].0 + overlap == RangesOf(chunks)[k - 1].1;
    Continues(text, chunks[k].start, chunks[k].end, overlap);
  }

  lemma {:induction false} PrefixReassembles(chunks: seq<Chunk>, text: string, target: nat, overlap: nat, k: nat)
    requires Chunks(chunks, text, target, overlap) && overlap < target && 0 < k <= |chunks|
    ensures Reassembled(chunks[..k], overlap) == text[..chunks[k - 1].end]
  {
    if k == 1 {
      assert RangesOf(chunks)[0].0 == 0;
      assert chunks[..1] == [chunks[0]];
    } else {
      PrefixReassembles(chunks, text, target, overlap, k - 1);
      ChunkContinues(chunks, text, target, overlap, k - 1);
      OneMoreChunk(chunks, overlap, k);
    }
  }

  lemma {:induction false} Continues(text: string, start: nat, end: nat, overlap: nat)
    requires start + overlap <= end <= |text|
    ensures text[..start + overlap] + text[start..end][overlap..] == text[..end]
  {
  }

  /** Nothing is lost or repeated: the chunks, less their overlaps, are the text. */
  lemma {:induction false} Reconstruction(chunks: seq<Chunk>, text: string, target: nat, overlap: nat)
    requires Chunks(chunks, text, target, overlap) && overlap < target
    ensures Reassembled(chunks, overlap) == text
  {
    if chunks != [] {
      PrefixReassembles(chunks, text, target, overlap, |chunks|);
      assert RangesOf(chunks)[|chunks| - 1].1 == |text|;
      assert chunks[..|chunks|] == chunks && text[..|text|] == text;
    }
  }

  function CeilDiv(a: nat, b: nat): nat
    requires b > 0
  {
    (a + b - 1) / b
  }

  lemma {:induction false} StartOf(ranges: seq<(nat, nat)>, n: nat, target: nat, overlap: nat, i: nat)
    requires Tiles(ranges, n, target, overlap) && overlap < target && i < |ranges|
    ensures ranges[i].0 == i * (target - overlap)
  {
    if i > 0 {
      StartOf(ranges, n, target, overlap, i - 1);
      assert ranges[i - 1].1 == ranges[i - 1].0 + target;
      assert i * (target - overlap) == (i - 1) * (target - overlap) + (target - overlap);
    }
  }

  lemma {:induction false} CeilIs(a: nat, b: nat, q: nat)
    requires b > 0 && q > 0 && (q - 1) * b < a <= q * b
    ensures CeilDiv(a, b) == q
  {
    var x := a + b - 1;
    assert (q - 1) * b == q * b - b;
    assert q * b <= x < q * b + b;
    DivIs(x, b, q);
  }

  lemma {:induction false} DivIs(x: nat, b: nat, q: nat)
    requires b > 0 && q * b <= x < q * b + b
    ensures x / b == q
  {
    var d := x / b;
    assert x == d * b + x % b;
    if d < q {
      Scales(d + 1, q, b);
    } else if d > q {
      Scales(q + 1, d, b);
    }
  }

  lemma {:induction false} Scales(x: nat, y: nat, b: nat)
    requires x <= y
    ensures x * b <= y * b
  {
  }

  /** How many chunks a text takes. */
  lemma {:induction false} ChunkCount(chunks: seq<Chunk>, text: string, target: nat, overlap: nat)
    requires Chunks(chunks, text, target, overlap) && overlap < target
    ensures |chunks| ==
      if |text| == 0 then 0
      else if |text| <= target then 1
      else 1 + CeilDiv(|text| - target, target - overlap)
  {
    if text != [] {
      var n, step, k := |text|, target - overlap, |chunks| - 1;
      var ranges := RangesOf(chunks);
      StartOf(ranges, n, target, overlap, k);
      assert n <= k * step + target;
      if k > 0 {
        StartOf(ranges, n, target, overlap, k - 1);
        assert ranges[k - 1].1 == ranges[k - 1].0 + target && ranges[k - 1].1 < n;
        assert (k - 1) * step + target < n;
        assert 0 <= (k - 1) * step;
        CeilIs(n - target, step, k);
      } else {
        assert n <= target;
      }
    }
  }

  /** Every chunk fits the target, and only the last may be shorter. */
  lemma {:induction false} ChunksFit(chunks: seq<Chunk>, text: string, target: nat, overlap: nat, i: nat)
    requires Chunks(chunks, text, target, overlap) && overlap < target && i < |chunks|
    ensures 0 < |chunks[i].text| <= target
    ensures i < |chunks| - 1 ==> |chunks[i].text| == target
  {
    var ranges := RangesOf(chunks);
    assert ranges[i].0 < ranges[i].1;
    if i < |chunks| - 1 {
      assert ranges[i].1 == ranges[i].0 + target;
    }
  }
}
