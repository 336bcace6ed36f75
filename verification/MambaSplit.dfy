/** Clipping a prefill chunk so that it ends where Mamba state must be cached, and keeping chunk ends out of
    the drafter's look-ahead window. */
module MambaSplit {
  import opened Arithmetic

  datatype Config = Config(
    blockSize: nat, hashBlockSize: nat,
    maxScheduledTokens: int, longPrefillThreshold: int,
    eagleBlockDrop: bool, partialCacheHit: bool, sharedPrefixCheckpoint: bool)
  {
    predicate Valid() { blockSize > 0 && hashBlockSize > 0 }

    function ChunkLimit(): int {
      if longPrefillThreshold > 0 then Min(maxScheduledTokens, longPrefillThreshold) else maxScheduledTokens
    }
  }

  datatype Request = Request(numPromptTokens: nat, numTokens: nat, sharedPrefixBoundary: int)
  {
    function PrefillEnd(): int { Max(numPromptTokens, numTokens - 1) }
  }

  /** The greatest multiple of `unit` not above `x`. */
  function Floor(x: int, unit: nat): int
    requires unit > 0
  {
    x / unit * unit
  }

  function LastCachePosition(c: Config, r: Request): int
    requires c.Valid()
  {
    var last := r.numTokens - r.numTokens % c.blockSize;
    if c.eagleBlockDrop then Max(last - c.blockSize, 0) else last
  }

  function TailBoundary(c: Config, r: Request): int
    requires c.Valid()
  {
    var tail := if c.partialCacheHit then Floor(r.numPromptTokens, c.hashBlockSize) else 0;
    if tail != 0 && c.eagleBlockDrop then Max(tail - c.hashBlockSize, 0) else tail
  }

  /** The chunk end after block alignment, before the mandatory stops. */
  function AlignedEnd(c: Config, r: Request, start: int, end: int): int
    requires c.Valid()
  {
    var aligned := Floor(end, c.blockSize);
    if end < r.PrefillEnd() && (aligned > start || c.blockSize <= c.ChunkLimit()) then aligned else end
  }

  function JunctionStop(c: Config, r: Request, start: int): int
    requires c.Valid()
  {
    var junction := r.sharedPrefixBoundary;
    if c.sharedPrefixCheckpoint && junction <= r.numPromptTokens then junction
    else start + Floor(junction - start, c.blockSize)
  }

  /** The mandatory stops; a stop that does not apply is 0. `checkpoint` tells that the chunk keeps its state
      in an internal checkpoint. */
  function Stops(c: Config, r: Request, start: int, end: int, checkpoint: bool): seq<int>
    requires c.Valid()
  {
    var last := if checkpoint then 0 else LastCachePosition(c, r);
    var tail := if checkpoint then 0 else TailBoundary(c, r);
    [ if start % c.blockSize != 0 && !checkpoint then (start / c.blockSize + 1) * c.blockSize else 0,
      last,
      if last < tail < r.numPromptTokens then tail else 0,
      if start < r.sharedPrefixBoundary < end then JunctionStop(c, r, start) else 0 ]
  }

  /** The least stop strictly between `start` and `end`, or `end`. */
  function Earliest(stops: seq<int>, start: int, end: int): (e: int)
    ensures e == end || (e in stops && start < e < end)
    ensures forall s :: s in stops && start < s < end ==> e <= s
  {
    if stops == [] then end
    else
      var e := Earliest(stops[1..], start, end);
      assert stops == [stops[0]] + stops[1..];
      if start < stops[0] < end && stops[0] < e then stops[0] else e
  }

  /** The number of tokens the chunk keeps of the `numNew` it was offered. `checkpointOk` is the verdict of
      the two checkpoint helpers. */
  function Split(c: Config, r: Request, start: nat, numNew: int, checkpointOk: bool): int
    requires c.Valid()
  {
    if start >= r.PrefillEnd() then numNew
    else
      var checkpoint := checkpointOk && start + numNew >= r.PrefillEnd();
      var end := AlignedEnd(c, r, start, start + numNew);
      Max(Earliest(Stops(c, r, start, end, checkpoint), start, end) - start, 0)
  }

  /** Positions whose state is separately cacheable. */
  ghost predicate Stored(c: Config, r: Request, p: int)
    requires c.Valid()
  {
    || p % c.blockSize == 0
    || p == TailBoundary(c, r)
    || (c.sharedPrefixCheckpoint && p == r.sharedPrefixBoundary <= r.numPromptTokens)
  }

  lemma FloorLaws(x: int, unit: nat)
    requires unit > 0
    ensures Floor(x, unit) <= x < Floor(x, unit) + unit
    ensures Floor(x, unit) % unit == 0
  {
    var q := x / unit;
    assert x == q * unit + x % unit;
    assert (q * unit) % unit == 0 by { MultipleMod(q, unit); }
  }

  lemma MultipleMod(q: int, unit: nat)
    requires unit > 0
    ensures (q * unit) % unit == 0
  {
    assert q * unit == unit * q + 0;
    ModUnique(q * unit, unit, q, 0);
  }

  lemma ModUnique(x: int, unit: nat, q: int, m: int)
    requires unit > 0 && x == unit * q + m && 0 <= m < unit
    ensures x % unit == m && x / unit == q
  {
    var d := x / unit - q;
    assert unit * d == m - x % unit;
    MulSign(unit, d);
  }

  lemma MulSign(unit: nat, d: int)
    ensures d > 0 ==> unit * d >= unit
    ensures d < 0 ==> unit * d <= 0 - unit
  {
  }

  /** Adding whole blocks keeps alignment. */
  lemma ShiftMod(x: int, k: int, unit: nat)
    requires unit > 0
    ensures (x + k * unit) % unit == x % unit
  {
    ModUnique(x + k * unit, unit, x / unit + k, x % unit);
  }

  /** What one chunk without internal checkpoint may do: it never jumps over the last cacheable block boundary, the
      tail boundary, a cached shared-prefix junction or, starting mid-block, the next block boundary; and when it
      ends before the prefill does, its end is cacheable, where an end that only a wide block excuses stays inside
      the block it started in. */
  ghost predicate ChunkLaw(c: Config, r: Request, start: int, end: int)
    requires c.Valid()
  {
    && start <= end
    && (forall s :: MandatoryStop(c, r, s) ==> !(start < s < end))
    && (start % c.blockSize != 0 ==> end <= Floor(start, c.blockSize) + c.blockSize)
    && (start < end < r.PrefillEnd() ==>
          || Stored(c, r, end)
          || (c.blockSize > c.ChunkLimit() && Floor(end, c.blockSize) <= start))
  }

  ghost predicate MandatoryStop(c: Config, r: Request, s: int)
    requires c.Valid()
  {
    || s == LastCachePosition(c, r)
    || (s == TailBoundary(c, r) && LastCachePosition(c, r) < s < r.numPromptTokens)
    || (c.sharedPrefixCheckpoint && s == r.sharedPrefixBoundary <= r.numPromptTokens)
  }

  lemma ChunkEnds(c: Config, r: Request, start: nat, numNew: int)
    requires c.Valid() && start < r.PrefillEnd()
    ensures var n := Split(c, r, start, numNew, false); 0 <= n <= Max(numNew, 0) && ChunkLaw(c, r, start, start + n)
  {
    var end := AlignedEnd(c, r, start, start + numNew);
    var stops := Stops(c, r, start, end, false);
    var e := Earliest(stops, start, end);
    assert stops[1] in stops && stops[2] in stops && stops[0] in stops && stops[3] in stops;
    FloorLaws(start + numNew, c.blockSize);
    FloorLaws(start, c.blockSize);
    assert (start / c.blockSize + 1) * c.blockSize == Floor(start, c.blockSize) + c.blockSize;
    MultipleMod(start / c.blockSize + 1, c.blockSize);
    LastCacheAligned(c, r);
    if start < r.sharedPrefixBoundary < end && e == JunctionStop(c, r, start) {
      JunctionStored(c, r, start, end);
    }
  }

  /** A junction that decides a chunk end is the shared-prefix boundary itself or, from an aligned start, a
      whole number of blocks away. */
  lemma JunctionStored(c: Config, r: Request, start: nat, end: int)
    requires c.Valid() && start < r.sharedPrefixBoundary < end
    requires start < JunctionStop(c, r, start)
    requires start % c.blockSize != 0 ==> JunctionStop(c, r, start) <= Floor(start, c.blockSize) + c.blockSize
    ensures Stored(c, r, JunctionStop(c, r, start))
  {
    var d := r.sharedPrefixBoundary - start;
    if !(c.sharedPrefixCheckpoint && r.sharedPrefixBoundary <= r.numPromptTokens) {
      FloorAtLeast(d, c.blockSize);
      FloorLaws(start, c.blockSize);
      ShiftMod(start, d / c.blockSize, c.blockSize);
    }
  }

  lemma FloorAtLeast(x: int, unit: nat)
    requires unit > 0 && Floor(x, unit) > 0
    ensures Floor(x, unit) >= unit
  {
    assert x / unit >= 1;
  }

  /** The last block boundary whose state can be cached: the last one within the request or, when the last
      matching block is dropped, the one before it. */
  lemma LastCacheAligned(c: Config, r: Request)
    requires c.Valid()
    ensures var last := LastCachePosition(c, r);
      && 0 <= last && last % c.blockSize == 0
      && (!c.eagleBlockDrop ==> last <= r.numTokens < last + c.blockSize)
      && (c.eagleBlockDrop && c.blockSize <= r.numTokens ==> last + c.blockSize <= r.numTokens < last + 2 * c.blockSize)
  {
    var q := r.numTokens / c.blockSize;
    assert r.numTokens - r.numTokens % c.blockSize == q * c.blockSize;
    MultipleMod(q, c.blockSize);
    ShiftMod(q * c.blockSize, -1, c.blockSize);
  }

  /** Where a chunk may end unless it has to stop before: with the prefill, at a block boundary, or, if a block is too
      wide for one chunk and the offer does not get to a boundary, anywhere. */
  ghost predicate MayEnd(c: Config, r: Request, start: nat, offer: int, e: int)
    requires c.Valid()
  {
    || (e >= r.numPromptTokens && e + 1 >= r.numTokens)
    || e % c.blockSize == 0
    || ((c.blockSize > c.maxScheduledTokens || 0 < c.longPrefillThreshold < c.blockSize)
        && forall b :: start < b <= offer ==> b % c.blockSize != 0)
  }

  /** Strictly inside the longest chunk the offer would allow. */
  ghost predicate Inside(c: Config, r: Request, start: nat, offer: int, p: int)
    requires c.Valid()
  {
    start < p && exists e :: p < e <= offer && MayEnd(c, r, start, offer, e)
  }

  /** The last block boundary within the request, or the one before it when the last matching block is dropped. */
  ghost predicate IsLastCacheable(c: Config, r: Request, s: int)
    requires c.Valid()
  {
    var top := if c.eagleBlockDrop then s + c.blockSize else s;
    s % c.blockSize == 0 && top <= r.numTokens < top + c.blockSize
  }

  /** The last hash boundary within the prompt, or the one before it, if no cacheable block boundary follows it. */
  ghost predicate IsTail(c: Config, r: Request, s: int)
    requires c.Valid()
  {
    var top := if c.eagleBlockDrop then s + c.hashBlockSize else s;
    && c.partialCacheHit && s % c.hashBlockSize == 0 && top <= r.numPromptTokens < top + c.hashBlockSize
    && s < r.numPromptTokens
    && forall p :: IsLastCacheable(c, r, p) ==> p < s
  }

  /** The shared-prefix junction itself if its state can be kept, else as many whole blocks as there are before it. */
  ghost predicate IsJunctionStop(c: Config, r: Request, start: nat, s: int)
    requires c.Valid()
  {
    var junction := r.sharedPrefixBoundary;
    if c.sharedPrefixCheckpoint && junction <= r.numPromptTokens then s == junction
    else (s - start) % c.blockSize == 0 && s <= junction < s + c.blockSize
  }

  /** Where a chunk has to stop. With an internal checkpoint only the junction is left. */
  ghost predicate MustStop(c: Config, r: Request, start: nat, offer: int, checkpoint: bool, s: int)
    requires c.Valid()
  {
    && Inside(c, r, start, offer, s)
    && (|| (!checkpoint && start % c.blockSize != 0 && s % c.blockSize == 0 && s < start + c.blockSize)
        || (!checkpoint && IsLastCacheable(c, r, s))
        || (!checkpoint && IsTail(c, r, s))
        || (Inside(c, r, start, offer, r.sharedPrefixBoundary) && IsJunctionStop(c, r, start, s)))
  }

  ghost predicate Legal(c: Config, r: Request, start: nat, offer: int, checkpoint: bool, e: int)
    requires c.Valid()
  {
    && start < e <= offer
    && (MayEnd(c, r, start, offer, e) || MustStop(c, r, start, offer, checkpoint, e))
    && forall s :: MustStop(c, r, start, offer, checkpoint, s) ==> e <= s
  }

  /** A chunk of the prefill is the largest legal one within the offer, with or without an internal checkpoint, and
      empty if there is none. */
  lemma SplitIsLargest(c: Config, r: Request, start: nat, numNew: int, checkpointOk: bool)
    requires c.Valid() && (start < r.numPromptTokens || start + 1 < r.numTokens)
    ensures var n, offer := Split(c, r, start, numNew, checkpointOk), start + numNew;
      var checkpoint := checkpointOk && offer >= r.numPromptTokens && offer + 1 >= r.numTokens;
      && n >= 0
      && (n > 0 ==> Legal(c, r, start, offer, checkpoint, start + n))
      && forall e :: Legal(c, r, start, offer, checkpoint, e) ==> e <= start + n
  {
    var offer := start + numNew;
    var checkpoint := checkpointOk && offer >= r.PrefillEnd();
    var top := AlignedEnd(c, r, start, offer);
    var stops := Stops(c, r, start, top, checkpoint);
    forall s ensures MustStop(c, r, start, offer, checkpoint, s) <==> s in stops && start < s < top {
      StopsIff(c, r, start, offer, checkpoint, s);
    }
    TopIsLargest(c, r, start, offer);
    var end := Earliest(stops, start, top);
  }

  lemma TopIsLargest(c: Config, r: Request, start: nat, offer: int)
    requires c.Valid() && start < r.PrefillEnd()
    ensures var top := AlignedEnd(c, r, start, offer);
      && top <= offer
      && (top > start ==> MayEnd(c, r, start, offer, top))
      && forall e :: start < e <= offer && MayEnd(c, r, start, offer, e) ==> e <= top
  {
    FloorLaws(offer, c.blockSize);
    forall b | Floor(offer, c.blockSize) < b <= offer ensures b % c.blockSize != 0 {
      SameMultiple(b, Floor(offer, c.blockSize), c.blockSize);
    }
  }

  lemma InsideIff(c: Config, r: Request, start: nat, offer: int, p: int)
    requires c.Valid() && start < r.PrefillEnd()
    ensures Inside(c, r, start, offer, p) <==> start < p < AlignedEnd(c, r, start, offer)
  {
    TopIsLargest(c, r, start, offer);
  }

  /** Two multiples less than one unit apart are the same. */
  lemma SameMultiple(x: int, y: int, unit: nat)
    requires unit > 0 && y % unit == 0 && y <= x < y + unit
    ensures x % unit == 0 <==> x == y
  {
    ModUnique(x, unit, y / unit, x - y);
  }

  lemma LastIff(c: Config, r: Request, s: int)
    requires c.Valid() && s > 0
    ensures IsLastCacheable(c, r, s) <==> s == LastCachePosition(c, r)
  {
    var whole, top := r.numTokens - r.numTokens % c.blockSize, if c.eagleBlockDrop then s + c.blockSize else s;
    LastCacheAligned(c, r);
    FloorLaws(r.numTokens, c.blockSize);
    assert whole == Floor(r.numTokens, c.blockSize);
    ShiftMod(s, 1, c.blockSize);
    if IsLastCacheable(c, r, s) {
      if whole <= top { SameMultiple(top, whole, c.blockSize); } else { SameMultiple(whole, top, c.blockSize); }
    }
  }

  /** The tail boundary follows the last cacheable block boundary. */
  lemma BehindLast(c: Config, r: Request, s: int)
    requires c.Valid() && s > 0
    ensures (forall p :: IsLastCacheable(c, r, p) ==> p < s) <==> LastCachePosition(c, r) < s
  {
    var last := LastCachePosition(c, r);
    if last > 0 { LastIff(c, r, last); }
    forall p | IsLastCacheable(c, r, p) && p > 0 ensures p == last { LastIff(c, r, p); }
  }

  lemma TailIff(c: Config, r: Request, s: int)
    requires c.Valid() && s > 0
    ensures IsTail(c, r, s) <==> s == TailBoundary(c, r) && LastCachePosition(c, r) < s < r.numPromptTokens
  {
    var whole, top := Floor(r.numPromptTokens, c.hashBlockSize), if c.eagleBlockDrop then s + c.hashBlockSize else s;
    BehindLast(c, r, s);
    FloorLaws(r.numPromptTokens, c.hashBlockSize);
    ShiftMod(s, 1, c.hashBlockSize);
    ShiftMod(whole, -1, c.hashBlockSize);
    if top % c.hashBlockSize == 0 && top <= r.numPromptTokens < top + c.hashBlockSize {
      if whole <= top { SameMultiple(top, whole, c.hashBlockSize); } else { SameMultiple(whole, top, c.hashBlockSize); }
    }
  }

  lemma JunctionIff(c: Config, r: Request, start: nat, s: int)
    requires c.Valid()
    ensures IsJunctionStop(c, r, start, s) <==> s == JunctionStop(c, r, start)
  {
    var ahead := r.sharedPrefixBoundary - start;
    var whole := Floor(ahead, c.blockSize);
    FloorLaws(ahead, c.blockSize);
    if (s - start) % c.blockSize == 0 && s - start <= ahead < s - start + c.blockSize {
      if whole <= s - start { SameMultiple(s - start, whole, c.blockSize); }
      else { SameMultiple(whole, s - start, c.blockSize); }
    }
  }

  lemma NextBoundaryIff(unit: nat, start: nat, s: int)
    requires unit > 0 && start % unit != 0 && s > start
    ensures s % unit == 0 && s < start + unit <==> s == (start / unit + 1) * unit
  {
    var next := (start / unit + 1) * unit;
    FloorLaws(start, unit);
    assert next == Floor(start, unit) + unit;
    MultipleMod(start / unit + 1, unit);
    if s < next { ModUnique(s, unit, start / unit, s - Floor(start, unit)); } else if s < start + unit {
      SameMultiple(s, next, unit);
    }
  }

  lemma StopsIff(c: Config, r: Request, start: nat, offer: int, checkpoint: bool, s: int)
    requires c.Valid() && start < r.PrefillEnd()
    ensures var top := AlignedEnd(c, r, start, offer);
      MustStop(c, r, start, offer, checkpoint, s) <==> s in Stops(c, r, start, top, checkpoint) && start < s < top
  {
    InsideIff(c, r, start, offer, s);
    InsideIff(c, r, start, offer, r.sharedPrefixBoundary);
    if start < s {
      LastIff(c, r, s);
      TailIff(c, r, s);
      JunctionIff(c, r, start, s);
      if start % c.blockSize != 0 { NextBoundaryIff(c.blockSize, start, s); }
    }
  }

  /** Behind the prefill nothing is clipped. */
  lemma DecodeIsNotSplit(c: Config, r: Request, start: nat, numNew: int, checkpointOk: bool)
    requires c.Valid() && start >= r.numPromptTokens && start + 1 >= r.numTokens
    ensures Split(c, r, start, numNew, checkpointOk) == numNew
  {
  }

  /** A positive offer inside the prefill is refused exactly when it neither reaches the prefill end nor a
      block boundary although a block would fit in one chunk. */
  lemma StallsIff(c: Config, r: Request, start: nat, numNew: int, checkpointOk: bool)
    requires c.Valid() && start < r.PrefillEnd() && numNew > 0
    ensures Split(c, r, start, numNew, checkpointOk) == 0 <==>
              start + numNew < r.PrefillEnd() && Floor(start + numNew, c.blockSize) <= start
                  && c.blockSize <= c.ChunkLimit()
  {
  }

  /** An offer of a whole block always makes progress. */
  lemma BlockOfferProgresses(c: Config, r: Request, start: nat, numNew: int, checkpointOk: bool)
    requires c.Valid() && start < r.PrefillEnd() && numNew >= c.blockSize
    ensures Split(c, r, start, numNew, checkpointOk) > 0
  {
    FloorLaws(start + numNew, c.blockSize);
    StallsIff(c, r, start, numNew, checkpointOk);
  }

  /** A prefill: `ends` are its chunk ends, beginning with where it starts, under any sequence of offers. */
  ghost predicate IsPrefill(c: Config, r: Request, ends: seq<nat>, offers: seq<int>)
    requires c.Valid()
  {
    |ends| == |offers| + 1 && forall i :: 0 <= i < |offers| ==> IsChunk(c, r, ends[i], offers[i], ends[i + 1])
  }

  ghost predicate IsChunk(c: Config, r: Request, start: nat, numNew: int, end: nat)
    requires c.Valid()
  {
    start < r.PrefillEnd() && end == start + Split(c, r, start, numNew, false)
  }

  /** Every chunk of a prefill obeys the law of single chunks. */
  lemma PrefillObeysLaw(c: Config, r: Request, ends: seq<nat>, offers: seq<int>)
    requires c.Valid() && IsPrefill(c, r, ends, offers)
    ensures ChunksObeyLaw(c, r, ends)
  {
    forall i | 0 < i < |ends| ensures ChunkLaw(c, r, ends[i - 1], ends[i]) {
      assert IsChunk(c, r, ends[i - 1], offers[i - 1], ends[i]);
      ChunkEnds(c, r, ends[i - 1], offers[i - 1]);
    }
  }

  ghost predicate ChunksObeyLaw(c: Config, r: Request, ends: seq<nat>)
    requires c.Valid()
  {
    forall i :: 0 < i < |ends| ==> ChunkLaw(c, r, ends[i - 1], ends[i])
  }

  /** Some earlier chunk began inside the block that the i-th chunk end lies in, and a block is too wide for one
      chunk. */
  ghost predicate InsideWideBlock(c: Config, ends: seq<nat>, i: nat)
    requires c.Valid() && i < |ends|
  {
    c.blockSize > c.ChunkLimit() && exists j :: 0 <= j < i && Floor(ends[i], c.blockSize) <= ends[j] < ends[i]
  }

  /** Whole prefills: whatever is offered, every chunk end before the prefill end is where the prefill began, separately
      cacheable, or inside a block that is too wide for one chunk and that an earlier chunk began in. */
  lemma PrefillEndsCacheable(c: Config, r: Request, ends: seq<nat>, offers: seq<int>)
    requires c.Valid() && IsPrefill(c, r, ends, offers)
    ensures forall i :: 0 <= i < |ends| && ends[i] < r.PrefillEnd() ==>
      ends[i] == ends[0] || Stored(c, r, ends[i]) || InsideWideBlock(c, ends, i)
  {
    PrefillObeysLaw(c, r, ends, offers);
    LawEndsCacheable(c, r, ends);
  }

  lemma LawEndsCacheable(c: Config, r: Request, ends: seq<nat>)
    requires c.Valid() && |ends| > 0 && ChunksObeyLaw(c, r, ends)
    ensures forall i :: 0 <= i < |ends| && ends[i] < r.PrefillEnd() ==>
      ends[i] == ends[0] || Stored(c, r, ends[i]) || InsideWideBlock(c, ends, i)
  {
    for i := 1 to |ends|
      invariant forall j :: 0 <= j < i && ends[j] < r.PrefillEnd() ==>
        ends[j] == ends[0] || Stored(c, r, ends[j]) || InsideWideBlock(c, ends, j)
    {
      assert ChunkLaw(c, r, ends[i - 1], ends[i]);
      if ends[i] == ends[i - 1] && InsideWideBlock(c, ends, i - 1) {
        var j :| 0 <= j < i - 1 && Floor(ends[i - 1], c.blockSize) <= ends[j] < ends[i - 1];
        assert Floor(ends[i], c.blockSize) <= ends[j] < ends[i];
      }
    }
  }

  /** Whole prefills: a chunk end inside a block is made up for at the next block boundary, if the prefill gets
      there. */
  lemma PrefillRealigns(c: Config, r: Request, ends: seq<nat>, offers: seq<int>, i: nat)
    requires c.Valid() && IsPrefill(c, r, ends, offers) && i < |ends| && ends[i] % c.blockSize != 0
    requires Floor(ends[i], c.blockSize) + c.blockSize <= ends[|ends| - 1]
    ensures Floor(ends[i], c.blockSize) + c.blockSize in ends[i..]
  {
    PrefillObeysLaw(c, r, ends, offers);
    var next := Floor(ends[i], c.blockSize) + c.blockSize;
    FloorLaws(ends[i], c.blockSize);
    var k := i;
    while ends[k + 1] < next
      invariant i <= k < |ends| - 1 && ends[i] <= ends[k] < next
      decreases |ends| - k
    {
      assert ChunkLaw(c, r, ends[k], ends[k + 1]);
      k := k + 1;
    }
    assert ChunkLaw(c, r, ends[k], ends[k + 1]);
    SameFloor(ends[i], ends[k], c.blockSize);
    assert ends[k + 1] == next == ends[i..][k + 1 - i];
  }

  /** Positions in the same block, strictly inside it. */
  lemma SameFloor(p: nat, q: nat, unit: nat)
    requires unit > 0 && p % unit != 0 && p <= q < Floor(p, unit) + unit
    ensures Floor(q, unit) == Floor(p, unit) && q % unit != 0
  {
    FloorLaws(p, unit);
    ModUnique(q, unit, p / unit, q - Floor(p, unit));
    ModUnique(p, unit, p / unit, p - Floor(p, unit));
  }

  /** Whole prefills: a prefill that starts at or before a mandatory stop and gets past it ends a chunk there. */
  lemma PrefillVisitsStops(c: Config, r: Request, ends: seq<nat>, offers: seq<int>, s: int)
    requires c.Valid() && IsPrefill(c, r, ends, offers)
    requires MandatoryStop(c, r, s) && ends[0] <= s <= ends[|ends| - 1]
    ensures s in ends
  {
    PrefillObeysLaw(c, r, ends, offers);
    LawVisitsStops(c, r, ends, s);
  }

  lemma LawVisitsStops(c: Config, r: Request, ends: seq<nat>, s: int)
    requires c.Valid() && |ends| > 0 && ChunksObeyLaw(c, r, ends)
    requires MandatoryStop(c, r, s) && ends[0] <= s <= ends[|ends| - 1]
    ensures s in ends
  {
    var i := 0;
    while ends[i] < s
      invariant 0 <= i < |ends| && (i > 0 ==> ends[i - 1] < s)
      decreases |ends| - i
    {
      i := i + 1;
    }
    assert i > 0 ==> ChunkLaw(c, r, ends[i - 1], ends[i]);
  }

  /** Whole prefills: if every offer is at least a block, every chunk moves on, so there are at most as many
      chunks as tokens to prefill. */
  lemma PrefillProgresses(c: Config, r: Request, ends: seq<nat>, offers: seq<int>)
    requires c.Valid() && IsPrefill(c, r, ends, offers)
    requires forall i :: 0 <= i < |offers| ==> offers[i] >= c.blockSize
    ensures forall i :: 0 <= i < |ends| ==> ends[i] >= ends[0] + i
    ensures |offers| <= Max(r.PrefillEnd() - ends[0], 0)
  {
    forall i | 0 <= i < |offers| ensures ends[i] < r.PrefillEnd() && ends[i] < ends[i + 1] {
      assert IsChunk(c, r, ends[i], offers[i], ends[i + 1]);
      BlockOfferProgresses(c, r, ends[i], offers[i], false);
    }
    Climb(ends, r.PrefillEnd());
  }

  lemma Climb(ends: seq<nat>, top: int)
    requires |ends| > 0 && forall i :: 0 <= i < |ends| - 1 ==> ends[i] < top && ends[i] < ends[i + 1]
    ensures forall i :: 0 <= i < |ends| ==> ends[i] >= ends[0] + i
    ensures |ends| - 1 <= Max(top - ends[0], 0)
  {
    for i := 0 to |ends| - 1
      invariant forall j :: 0 <= j <= i ==> ends[j] >= ends[0] + j
    {
      assert ends[i] < ends[i + 1];
    }
    if |ends| > 1 { assert ends[|ends| - 2] < top; }
  }

  /** Keeps a chunk end out of the drafter's look-ahead window before the end of the known tokens. */
  function Reserve(numTokens: int, lookahead: int, computed: int, numNew: int): int {
    var remaining := numTokens - computed - numNew;
    Max(if 0 < remaining < lookahead then numNew - (lookahead - remaining) else numNew, 0)
  }

  ghost predicate InWindow(numTokens: int, lookahead: int, end: int) {
    0 < numTokens - end < lookahead
  }

  /** The result is the largest chunk, not above the one asked for, that ends outside the window. */
  lemma ReserveIsLargest(numTokens: int, lookahead: int, computed: int, numNew: int)
    requires numNew >= 0
    ensures
      var n := Reserve(numTokens, lookahead, computed, numNew);
      && 0 <= n <= numNew
      && (n > 0 ==> !InWindow(numTokens, lookahead, computed + n))
      && forall e :: computed + n < e <= computed + numNew ==> InWindow(numTokens, lookahead, e)
  {
  }

  /** The two clippings the scheduler applies one after the other. */
  function SplitAndReserve(c: Config, r: Request, lookahead: int, start: nat, numNew: int): int
    requires c.Valid()
  {
    Reserve(r.numTokens, lookahead, start, Split(c, r, start, numNew, false))
  }

  /** Together they schedule nothing exactly when the split does not, or when everything from `start` to the
      end the split demands lies in the window. */
  lemma CombinedStallsIff(c: Config, r: Request, lookahead: int, start: nat, numNew: int)
    requires c.Valid() && start < r.PrefillEnd()
    ensures
      var end := start + Split(c, r, start, numNew, false);
      SplitAndReserve(c, r, lookahead, start, numNew) == 0 <==>
        end == start || forall e :: start < e <= end ==> InWindow(r.numTokens, lookahead, e)
  {
    ChunkEnds(c, r, start, numNew);
    var n := Split(c, r, start, numNew, false);
    ReserveIsLargest(r.numTokens, lookahead, start, n);
    if n > 0 && (forall e :: start < e <= start + n ==> InWindow(r.numTokens, lookahead, e)) {
      var m := SplitAndReserve(c, r, lookahead, start, numNew);
      assert m > 0 ==> !InWindow(r.numTokens, lookahead, start + m);
    }
  }

  /** A stop applies to the chunk from `start` to `end` before the known tokens are over. */
  ghost predicate StopAhead(c: Config, r: Request, start: nat, end: int)
    requires c.Valid()
  {
    exists s :: s in Stops(c, r, start, end, false) && start < s < end && s < r.numTokens
  }

  /** Close to the end of the known tokens, both together schedule something exactly if the offer gets there and no stop
      is in between; further away, exactly if the split does. */
  lemma CombinedProgressIff(c: Config, r: Request, lookahead: int, start: nat, numNew: int)
    requires c.Valid() && start < r.PrefillEnd() && r.numPromptTokens <= r.numTokens
    ensures SplitAndReserve(c, r, lookahead, start, numNew) > 0 <==>
              if r.numTokens - start <= lookahead
              then start + numNew >= r.numTokens && !StopAhead(c, r, start, start + numNew)
              else Split(c, r, start, numNew, false) > 0
  {
    ChunkEnds(c, r, start, numNew);
    CombinedStallsIff(c, r, lookahead, start, numNew);
    var n := Split(c, r, start, numNew, false);
    var near := r.numTokens - start <= lookahead;
    assert n > 0 ==> (InWindow(r.numTokens, lookahead, start + 1) <==> near && start + 1 < r.numTokens);
    if start + numNew >= r.numTokens {
      var end := start + numNew;
      assert AlignedEnd(c, r, start, end) == end;
      assert n == Earliest(Stops(c, r, start, end, false), start, end) - start;
    }
    assert n > 0 && start + n >= r.numTokens ==> !InWindow(r.numTokens, lookahead, start + n);
  }

  /** The request is never scheduled again, whatever is offered, exactly if it is within the look-ahead of its known
      tokens' end and a stop is still ahead of it. */
  lemma StarvesIff(c: Config, r: Request, lookahead: int, start: nat)
    requires c.Valid() && start < r.PrefillEnd() && r.numPromptTokens <= r.numTokens
    ensures (forall numNew :: SplitAndReserve(c, r, lookahead, start, numNew) == 0) <==>
              r.numTokens - start <= lookahead && StopAhead(c, r, start, r.numTokens)
  {
    var rest := r.numTokens - start;
    if rest <= lookahead {
      CombinedProgressIff(c, r, lookahead, start, rest);
      if StopAhead(c, r, start, r.numTokens) {
        forall numNew ensures SplitAndReserve(c, r, lookahead, start, numNew) == 0 {
          CombinedProgressIff(c, r, lookahead, start, numNew);
          if start + numNew >= r.numTokens { StopsStay(c, r, start, r.numTokens, start + numNew); }
          ChunkEnds(c, r, start, numNew);
        }
      }
    } else {
      CombinedProgressIff(c, r, lookahead, start, c.blockSize);
      BlockOfferProgresses(c, r, start, c.blockSize, false);
    }
  }

  /** A longer chunk has at least the stops of a shorter one. */
  lemma StopsStay(c: Config, r: Request, start: nat, end: int, longer: int)
    requires c.Valid() && r.numTokens <= end <= longer && StopAhead(c, r, start, end)
    ensures StopAhead(c, r, start, longer)
  {
    var short, long := Stops(c, r, start, end, false), Stops(c, r, start, longer, false);
    StopsOnlyGain(c, r, start, end, longer);
    var s :| s in short && start < s < end && s < r.numTokens;
    var i :| 0 <= i < |short| && short[i] == s;
    assert long[i] == s && s in long;
  }

  lemma StopsOnlyGain(c: Config, r: Request, start: nat, end: int, longer: int)
    requires c.Valid() && end <= longer
    ensures var short, long := Stops(c, r, start, end, false), Stops(c, r, start, longer, false);
      |short| == |long| && forall i :: 0 <= i < |short| ==> short[i] == 0 || long[i] == short[i]
  {
  }

  /** Unless it starves, a request makes progress with every offer of all its known tokens, and outside the look-ahead
      with every offer of a block. */
  lemma CombinedOfferProgresses(c: Config, r: Request, lookahead: int, start: nat, numNew: int)
    requires c.Valid() && start < r.PrefillEnd() && r.numPromptTokens <= r.numTokens
    requires !(r.numTokens - start <= lookahead && StopAhead(c, r, start, r.numTokens))
    requires numNew == r.numTokens - start || (numNew >= c.blockSize && r.numTokens - start > lookahead)
    ensures SplitAndReserve(c, r, lookahead, start, numNew) > 0
  {
    CombinedProgressIff(c, r, lookahead, start, numNew);
    if r.numTokens - start > lookahead { SplitProgresses(c, r, start, numNew); }
  }

  lemma SplitProgresses(c: Config, r: Request, start: nat, numNew: int)
    requires c.Valid() && start < r.PrefillEnd() && r.numPromptTokens <= r.numTokens
    requires numNew == r.numTokens - start || numNew >= c.blockSize
    ensures Split(c, r, start, numNew, false) > 0
  {
    if numNew >= c.blockSize {
      BlockOfferProgresses(c, r, start, numNew, false);
    } else {
      StallsIff(c, r, start, numNew, false);
    }
  }

  /** For drafters with a look-ahead of one token the second clipping never interferes. */
  lemma LookaheadOneIsNoOp(c: Config, r: Request, start: nat, numNew: int)
    requires c.Valid() && start < r.PrefillEnd()
    ensures SplitAndReserve(c, r, 1, start, numNew) == Split(c, r, start, numNew, false)
  {
    ChunkEnds(c, r, start, numNew);
  }

  /** With a longer look-ahead the two demands can contradict each other: a prompt one token longer than a
      block, split at the block boundary, is pushed back into the block and is then never scheduled again,
      whatever is offered. */
  lemma LookaheadCanStarve()
    ensures
      var c, r := Config(16, 16, 8192, 0, false, false, false), Request(17, 17, 0);
      && SplitAndReserve(c, r, 2, 0, 17) == 15
      && forall numNew :: SplitAndReserve(c, r, 2, 15, numNew) == 0
  {
    var c, r := Config(16, 16, 8192, 0, false, false, false), Request(17, 17, 0);
    assert Stops(c, r, 0, 17, false) == [0, 16, 0, 0];
    assert Earliest([0, 16, 0, 0], 0, 17) == 16 by { assert 16 in [0, 16, 0, 0]; }
    forall numNew ensures SplitAndReserve(c, r, 2, 15, numNew) == 0 {
      var end := AlignedEnd(c, r, 15, 15 + numNew);
      assert Stops(c, r, 15, end, false) == [16, 16, 0, 0];
      assert 16 in [16, 16, 0, 0];
      if numNew > 0 { assert Earliest([16, 16, 0, 0], 15, end) <= 16; }
    }
  }
}
