/** Planning the cache: the longest model length that fits the memory of every rank, the admission check, and the number
    of blocks that all ranks agree on. */
module Capacity {
  import opened Arithmetic
  import opened Wrappers

  /** A worker rank: its memory for the cache, the bytes one block takes on it, and how many blocks a request of a
      given length needs. */
  datatype Rank = Rank(memory: int, blockBytes: nat, need: nat -> nat)

  ghost predicate Valid(r: Rank) {
    r.blockBytes > 0 && forall m, n :: m <= n ==> r.need(m) <= r.need(n)
  }

  ghost predicate AllValid(ranks: seq<Rank>) {
    forall i :: 0 <= i < |ranks| ==> Valid(ranks[i])
  }

  /** The memory to plan with: an override of the block count replaces what was measured. */
  function Memory(r: Rank, override: Option<nat>): int {
    if override.Some? then override.value * r.blockBytes else r.memory
  }

  /** What requests may use: one block is always held back. */
  function Usable(r: Rank, override: Option<nat>): int { Memory(r, override) - r.blockBytes }

  predicate Fits(r: Rank, override: Option<nat>, length: nat) {
    r.need(length) * r.blockBytes <= Usable(r, override)
  }

  predicate AllFit(ranks: seq<Rank>, override: Option<nat>, length: nat) {
    forall i :: 0 <= i < |ranks| ==> Fits(ranks[i], override, length)
  }

  lemma ShorterFits(r: Rank, override: Option<nat>, m: nat, n: nat)
    requires Valid(r) && m <= n && Fits(r, override, n)
    ensures Fits(r, override, m)
  {
    TimesMonotone(r.need(m), r.need(n), r.blockBytes);
  }

  ghost predicate TooLittle(r: Rank, override: Option<nat>, longest: nat, most: nat) {
    forall n :: longest < n <= most ==> !Fits(r, override, n)
  }

  /** The longest length up to `most` that fits, or 0. */
  ghost predicate IsLongest(r: Rank, override: Option<nat>, most: nat, longest: nat) {
    && longest <= most
    && (longest > 0 ==> Fits(r, override, longest))
    && TooLittle(r, override, longest, most)
  }

  datatype Error = NoMemory | TooLong(estimate: nat) | NothingFits

  /** The part of the configuration that planning works on. */
  class Config {
    var maxModelLen: nat
    const override: Option<nat>

    constructor (maxModelLen: nat, override: Option<nat>)
      ensures this.maxModelLen == maxModelLen && this.override == override
    {
      this.maxModelLen, this.override := maxModelLen, override;
    }

    /** Tries a length by putting it into the configuration. */
    method TryLength(r: Rank, length: nat) returns (fits: bool)
      modifies this
      ensures maxModelLen == length && fits == Fits(r, override, length)
    {
      maxModelLen := length;
      fits := r.need(maxModelLen) * r.blockBytes <= Usable(r, override);
    }

    /** Binary search for the longest length that fits; the configuration is as before when it returns. */
    method EstimateMaxModelLen(r: Rank) returns (longest: nat)
      requires Valid(r) && maxModelLen >= 1
      modifies this
      ensures maxModelLen == old(maxModelLen)
      ensures IsLongest(r, override, maxModelLen, longest)
    {
      var original := maxModelLen;
      var left, right := 1, original;
      var fits := TryLength(r, left);
      if !fits {
        forall n | 0 < n <= original ensures !Fits(r, override, n) {
          if Fits(r, override, n) { ShorterFits(r, override, 1, n); }
        }
        maxModelLen := original;
        return 0;
      }
      longest := 1;
      while left <= right
        invariant 1 <= left <= right + 1 <= original + 1
        invariant 1 <= longest <= original && Fits(r, override, longest) && left <= longest + 1
        invariant longest < left || (longest == 1 && left == 1)
        invariant forall n :: right < n <= original ==> !Fits(r, override, n)
        decreases right - left
      {
        var mid := (left + right) / 2;
        fits := TryLength(r, mid);
        if fits {
          longest, left := mid, mid + 1;
        } else {
          forall n | mid <= n <= original ensures !Fits(r, override, n) {
            if Fits(r, override, n) { ShorterFits(r, override, mid, n); }
          }
          right := mid - 1;
        }
      }
      maxModelLen := original;
    }

    /** Shortens the model length to the longest that fits all ranks. */
    method AutoFit(ranks: seq<Rank>) returns (r: Result<nat, Error>)
      requires AllValid(ranks) && maxModelLen >= 1
      modifies this
      ensures r.Err? <==> !AllFit(ranks, override, 1)
      ensures r.Err? ==> r.error == NothingFits && maxModelLen == old(maxModelLen)
      ensures r.Ok? ==> r.value == maxModelLen && 1 <= maxModelLen <= old(maxModelLen)
      ensures r.Ok? ==> AllFit(ranks, override, maxModelLen)
      ensures r.Ok? ==> forall n :: maxModelLen < n <= old(maxModelLen) ==> !AllFit(ranks, override, n)
    {
      var original, longest, i := maxModelLen, maxModelLen, 0;
      ghost var limiting := 0;
      while i < |ranks|
        invariant 0 <= i <= |ranks| && maxModelLen == original && longest <= original
        invariant longest > 0 ==> forall j :: 0 <= j < i ==> Fits(ranks[j], override, longest)
        invariant longest < original ==> limiting < i && TooLittle(ranks[limiting], override, longest, original)
      {
        var own := EstimateMaxModelLen(ranks[i]);
        if own < longest {
          forall j | 0 <= j < i && own > 0 ensures Fits(ranks[j], override, own) {
            ShorterFits(ranks[j], override, own, longest);
          }
          longest, limiting := own, i;
        } else if longest > 0 {
          ShorterFits(ranks[i], override, longest, own);
        }
        i := i + 1;
      }
      if longest == 0 {
        assert !Fits(ranks[limiting], override, 1);
        return Err(NothingFits);
      }
      forall j | 0 <= j < |ranks| ensures Fits(ranks[j], override, 1) { ShorterFits(ranks[j], override, 1, longest); }
      maxModelLen := longest;
      r := Ok(longest);
    }

    /** The admission check: every rank has memory, and enough for a request of full length. */
    method CheckEnoughMemory(ranks: seq<Rank>) returns (r: Result<nat, Error>)
      requires AllValid(ranks) && maxModelLen >= 1
      modifies this
      ensures maxModelLen == old(maxModelLen)
      ensures r.Ok? <==> Admitted(ranks, override, maxModelLen)
      ensures r.Err? && r.error.TooLong? ==>
        exists i :: 0 <= i < |ranks| && IsLongest(ranks[i], override, maxModelLen, r.error.estimate)
    {
      var i := 0;
      while i < |ranks|
        invariant 0 <= i <= |ranks| && maxModelLen == old(maxModelLen)
        invariant forall j :: 0 <= j < i ==> Usable(ranks[j], override) > 0 && Fits(ranks[j], override, maxModelLen)
      {
        if Usable(ranks[i], override) <= 0 { return Err(NoMemory); }
        if ranks[i].need(maxModelLen) * ranks[i].blockBytes > Usable(ranks[i], override) {
          var estimate := EstimateMaxModelLen(ranks[i]);
          return Err(TooLong(estimate));
        }
        i := i + 1;
      }
      r := Ok(maxModelLen);
    }
  }

  predicate Admitted(ranks: seq<Rank>, override: Option<nat>, length: nat) {
    forall i :: 0 <= i < |ranks| ==> Usable(ranks[i], override) > 0 && Fits(ranks[i], override, length)
  }

  // ---------------------------------------------------------------- block counts

  /** The number of blocks a rank gets out of its memory. */
  function Blocks(r: Rank, memory: int, override: Option<nat>): int
    requires r.blockBytes > 0
  {
    if override.Some? then override.value else memory / r.blockBytes
  }

  function Counts(ranks: seq<Rank>, override: Option<nat>): (c: seq<int>)
    requires forall i :: 0 <= i < |ranks| ==> ranks[i].blockBytes > 0
    ensures |c| == |ranks|
  {
    seq(|ranks|, i requires 0 <= i < |ranks| => Blocks(ranks[i], Memory(ranks[i], override), override))
  }

  ghost predicate IsLeast(c: seq<int>, least: int) {
    least in c && forall i :: 0 <= i < |c| ==> least <= c[i]
  }

  lemma WholeBlocks(memory: int, bytes: nat, k: int)
    requires bytes > 0 && k * bytes <= memory
    ensures k <= memory / bytes
  {
    var q := memory / bytes;
    assert memory == q * bytes + memory % bytes;
    assert (q + 1) * bytes == q * bytes + bytes;
    if q + 1 <= k { TimesMonotone(q + 1, k, bytes); }
  }

  lemma ExactBlocks(k: int, bytes: nat)
    requires bytes > 0
    ensures k * bytes / bytes == k
  {
    WholeBlocks(k * bytes, bytes, k);
    var q := k * bytes / bytes;
    assert k * bytes == q * bytes + k * bytes % bytes;
    if q > k { TimesMonotone(k + 1, q, bytes); }
  }

  /** Every rank gets as many blocks as the one with the fewest: the others are planned anew with less memory. */
  method AgreeOnBlocks(ranks: seq<Rank>, override: Option<nat>) returns (counts: seq<int>)
    requires ranks != [] && forall i :: 0 <= i < |ranks| ==> ranks[i].blockBytes > 0
    ensures |counts| == |ranks| && IsLeast(Counts(ranks, override), counts[0])
    ensures forall i :: 0 <= i < |counts| ==> counts[i] == counts[0]
  {
    counts := Counts(ranks, override);
    ghost var planned := counts;
    var least, i := counts[0], 1;
    while i < |counts|
      invariant 1 <= i <= |counts| && least in counts[..i] && forall j :: 0 <= j < i ==> least <= counts[j]
    {
      if counts[i] < least { least := counts[i]; }
      i := i + 1;
    }
    i := 0;
    while i < |ranks|
      invariant 0 <= i <= |ranks| == |counts|
      invariant forall j :: 0 <= j < |counts| ==> counts[j] == if j < i then least else planned[j]
    {
      if counts[i] != least {
        ExactBlocks(least, ranks[i].blockBytes);
        counts := counts[i := Blocks(ranks[i], least * ranks[i].blockBytes, override)];
      }
      i := i + 1;
    }
  }

  /** The rank has that many blocks: the override says so, or its memory holds them. */
  predicate HoldsBlocks(r: Rank, override: Option<nat>, n: nat) {
    if override.Some? then n <= override.value else n * r.blockBytes <= r.memory
  }

  lemma BlocksIff(r: Rank, override: Option<nat>, n: nat)
    requires r.blockBytes > 0
    ensures Blocks(r, Memory(r, override), override) >= n <==> HoldsBlocks(r, override, n)
  {
    if override == None {
      var k := Blocks(r, r.memory, override);
      assert r.memory == k * r.blockBytes + r.memory % r.blockBytes;
      if HoldsBlocks(r, override, n) {
        WholeBlocks(r.memory, r.blockBytes, n);
      } else if k >= n {
        TimesMonotone(n, k, r.blockBytes);
      }
    }
  }

  /** A length fits a rank exactly if the rank has a block more than a request of that length needs. */
  lemma FitsIff(r: Rank, override: Option<nat>, length: nat)
    requires r.blockBytes > 0
    ensures Fits(r, override, length) <==> HoldsBlocks(r, override, r.need(length) + 1)
  {
    var n := r.need(length);
    assert (n + 1) * r.blockBytes == n * r.blockBytes + r.blockBytes;
    if override.Some? {
      if override.value < n + 1 {
        LargerProduct(override.value, n + 1, r.blockBytes);
      } else {
        TimesMonotone(n + 1, override.value, r.blockBytes);
      }
    }
  }

  /** The rank has more than the one block that is held back, and a block more than a full request needs. */
  predicate HasRoom(r: Rank, override: Option<nat>, length: nat) {
    && (if override.Some? then override.value > 1 else r.memory > r.blockBytes)
    && HoldsBlocks(r, override, r.need(length) + 1)
  }

  lemma HasRoomIff(r: Rank, override: Option<nat>, length: nat)
    requires r.blockBytes > 0
    ensures Usable(r, override) > 0 && Fits(r, override, length) <==> HasRoom(r, override, length)
  {
    FitsIff(r, override, length);
    if override.Some? {
      if override.value > 1 {
        LargerProduct(1, override.value, r.blockBytes);
      } else {
        TimesMonotone(override.value, 1, r.blockBytes);
      }
    }
  }

  /** The check passes exactly if every rank has room. */
  lemma AdmittedIff(ranks: seq<Rank>, override: Option<nat>, length: nat)
    requires forall i :: 0 <= i < |ranks| ==> ranks[i].blockBytes > 0
    ensures Admitted(ranks, override, length) <==> forall i :: 0 <= i < |ranks| ==> HasRoom(ranks[i], override, length)
  {
    forall i | 0 <= i < |ranks|
      ensures Usable(ranks[i], override) > 0 && Fits(ranks[i], override, length)
        <==> HasRoom(ranks[i], override, length)
    {
      HasRoomIff(ranks[i], override, length);
    }
  }

  lemma LargerProduct(a: int, b: int, c: nat)
    requires a < b && c > 0
    ensures a * c < b * c
  {
    TimesMonotone(a + 1, b, c);
    assert (a + 1) * c == a * c + c;
  }

  /** Ranks agree on at least `n` blocks exactly if the memory of each holds `n` of its blocks. */
  lemma AgreedIff(ranks: seq<Rank>, override: Option<nat>, least: int, n: nat)
    requires (forall i :: 0 <= i < |ranks| ==> ranks[i].blockBytes > 0) && IsLeast(Counts(ranks, override), least)
    ensures least >= n <==> forall i :: 0 <= i < |ranks| ==> HoldsBlocks(ranks[i], override, n)
  {
    var c := Counts(ranks, override);
    forall i | 0 <= i < |ranks| ensures c[i] >= n <==> HoldsBlocks(ranks[i], override, n) {
      BlocksIff(ranks[i], override, n);
    }
    var k :| 0 <= k < |c| && c[k] == least;
  }

  /** Every rank's memory holds, in blocks of its own, what any rank needs for a full request, and the one held back. */
  predicate AllCouldServe(ranks: seq<Rank>, override: Option<nat>, length: nat) {
    forall i, j :: 0 <= i < |ranks| && 0 <= j < |ranks| ==> HoldsBlocks(ranks[i], override, ranks[j].need(length) + 1)
  }

  predicate AllServe(ranks: seq<Rank>, counts: seq<int>, length: nat)
    requires |counts| == |ranks|
  {
    forall i :: 0 <= i < |ranks| ==> counts[i] >= ranks[i].need(length) + 1
  }

  /** With the number of blocks the ranks agree on, each can still serve a full request exactly if the memory of every
      rank, in blocks of its own, holds what any rank needs; after a passed check that is so if all need the same. */
  lemma AllServeIff(ranks: seq<Rank>, override: Option<nat>, length: nat, counts: seq<int>)
    requires AllValid(ranks) && ranks != [] && |counts| == |ranks| && IsLeast(Counts(ranks, override), counts[0])
    requires forall i :: 0 <= i < |counts| ==> counts[i] == counts[0]
    ensures AllServe(ranks, counts, length) <==> AllCouldServe(ranks, override, length)
    ensures AllFit(ranks, override, length)
            && (forall i, j :: 0 <= i < |ranks| && 0 <= j < |ranks| ==> ranks[i].need(length) == ranks[j].need(length))
            ==> AllServe(ranks, counts, length)
  {
    forall j | 0 <= j < |ranks|
      ensures counts[j] >= ranks[j].need(length) + 1
              <==> forall i :: 0 <= i < |ranks| ==> HoldsBlocks(ranks[i], override, ranks[j].need(length) + 1)
    {
      AgreedIff(ranks, override, counts[0], ranks[j].need(length) + 1);
    }
    if AllFit(ranks, override, length) { var k := LeastHasRoom(ranks, override, length, counts[0]); }
  }

  lemma LeastHasRoom(ranks: seq<Rank>, override: Option<nat>, length: nat, least: int) returns (k: nat)
    requires AllValid(ranks) && IsLeast(Counts(ranks, override), least) && AllFit(ranks, override, length)
    ensures k < |ranks| && least >= ranks[k].need(length) + 1
  {
    var c := Counts(ranks, override);
    k :| k < |c| && c[k] == least;
    FitsIff(ranks[k], override, length);
    BlocksIff(ranks[k], override, ranks[k].need(length) + 1);
  }

  /** With different needs it can fail: the second rank needs ten blocks and has them, but the first has only six. */
  lemma UnequalNeedsCanFail(small: Rank, large: Rank)
    requires small == Rank(6, 1, small.need) && small.need(1) == 5 && Valid(small)
    requires large == Rank(11, 1, large.need) && large.need(1) == 10 && Valid(large)
    ensures Admitted([small, large], None, 1) && IsLeast(Counts([small, large], None), 6)
    ensures !AllServe([small, large], [6, 6], 1) && !AllCouldServe([small, large], None, 1)
  {
    assert Counts([small, large], None) == [6, 11];
    assert !HoldsBlocks([small, large][0], None, [small, large][1].need(1) + 1);
  }

  /** A length that was fitted passes the check, if any request needs a block at all. */
  lemma FittedIsAdmitted(ranks: seq<Rank>, override: Option<nat>, length: nat)
    requires AllValid(ranks) && length >= 1 && AllFit(ranks, override, length)
    requires forall i :: 0 <= i < |ranks| ==> ranks[i].need(1) > 0
    ensures Admitted(ranks, override, length)
  {
    forall i | 0 <= i < |ranks| ensures Usable(ranks[i], override) > 0 {
      TimesMonotone(1, ranks[i].need(length), ranks[i].blockBytes);
    }
  }

  /** get_kv_cache_configs(): fit the length if asked to, check, and give all ranks the same number of blocks. */
  method PlanCache(config: Config, ranks: seq<Rank>, autoFit: bool) returns (r: Result<seq<int>, Error>)
    requires ranks != [] && AllValid(ranks) && config.maxModelLen >= 1
    modifies config
    ensures r.Ok? ==> Admitted(ranks, config.override, config.maxModelLen)
    ensures r.Ok? ==> |r.value| == |ranks| && IsLeast(Counts(ranks, config.override), r.value[0])
    ensures r.Ok? ==> forall i :: 0 <= i < |ranks| ==> r.value[i] == r.value[0]
    ensures r.Ok? ==>
      (AllServe(ranks, r.value, config.maxModelLen) <==> AllCouldServe(ranks, config.override, config.maxModelLen))
    ensures !autoFit ==> config.maxModelLen == old(config.maxModelLen)
    ensures !autoFit ==> (r.Ok? <==> Admitted(ranks, config.override, config.maxModelLen))
    ensures autoFit && r.Ok? ==>
      forall n :: config.maxModelLen < n <= old(config.maxModelLen) ==> !AllFit(ranks, config.override, n)
    ensures autoFit && (forall i :: 0 <= i < |ranks| ==> ranks[i].need(1) > 0) ==>
      (r.Ok? <==> AllFit(ranks, config.override, 1))
  {
    if autoFit {
      var fitted := config.AutoFit(ranks);
      if fitted.Err? { return Err(fitted.error); }
      if forall i :: 0 <= i < |ranks| ==> ranks[i].need(1) > 0 {
        FittedIsAdmitted(ranks, config.override, config.maxModelLen);
      }
    }
    var checked := config.CheckEnoughMemory(ranks);
    if checked.Err? { return Err(checked.error); }
    var counts := AgreeOnBlocks(ranks, config.override);
    AllServeIff(ranks, config.override, config.maxModelLen, counts);
    r := Ok(counts);
  }
}
