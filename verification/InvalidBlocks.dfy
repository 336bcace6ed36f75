/** Recovery from failed cache loads: which requests lose how many of their computed tokens. */
module InvalidBlocks {
  import opened Arithmetic
  import opened Wrappers

  type Block = nat

  /** What recovery reads of a request; `scheduled` are the tokens of the step that has just run. */
  datatype Holder = Holder(id: nat, computed: int, scheduled: nat, blocks: seq<Block>)
  {
    function Before(): int { computed - scheduled }
  }

  /** The number of blocks that hold tokens computed before the step, perhaps loaded. */
  function Span(h: Holder, size: nat): (n: nat)
    requires size > 0
    ensures n <= |h.blocks|
  {
    var full := (h.Before() + size - 1) / size;
    if full <= 0 then 0 else Min(full, |h.blocks|)
  }

  /** The invalid blocks among the leading `n`. */
  function InvalidAmong(blocks: seq<Block>, n: nat, invalid: set<Block>): set<Block>
    requires n <= |blocks|
  {
    set i | 0 <= i < n && blocks[i] in invalid :: blocks[i]
  }

  lemma OneMoreInvalid(blocks: seq<Block>, n: nat, invalid: set<Block>)
    requires n < |blocks|
    ensures InvalidAmong(blocks, n + 1, invalid)
            == InvalidAmong(blocks, n, invalid) + if blocks[n] in invalid then {blocks[n]} else {}
    ensures blocks[n] in invalid ==> blocks[n] in InvalidAmong(blocks, n + 1, invalid)
  {
  }

  function Touched(h: Holder, size: nat, invalid: set<Block>): set<Block>
    requires size > 0
  {
    InvalidAmong(h.blocks, Span(h, size), invalid)
  }

  function From(blocks: seq<Block>, n: nat): set<Block> { set i | n <= i < |blocks| :: blocks[i] }

  /** The first block among the leading `n` that is invalid and that nobody has marked yet. */
  function FirstFresh(h: Holder, n: nat, invalid: set<Block>, marked: set<Block>): (r: Option<nat>)
    requires n <= |h.blocks|
    ensures r.Some? ==> r.value < n && h.blocks[r.value] in invalid && h.blocks[r.value] !in marked
    ensures forall i :: 0 <= i < (if r.Some? then r.value else n) ==> h.blocks[i] !in invalid || h.blocks[i] in marked
  {
    if n == 0 then None
    else
      var r := FirstFresh(h, n - 1, invalid, marked);
      if r.Some? then r
      else if h.blocks[n - 1] in invalid && h.blocks[n - 1] !in marked then Some(n - 1) else None
  }

  function Fresh(h: Holder, size: nat, invalid: set<Block>, marked: set<Block>): Option<nat>
    requires size > 0
  {
    FirstFresh(h, Span(h, size), invalid, marked)
  }

  /** What is left of the computed tokens: those before the first block the request has to compute again itself; the
      tokens from before the step if others do that for it; all if no block is invalid. */
  function Kept(h: Holder, size: nat, invalid: set<Block>, marked: set<Block>): int
    requires size > 0
  {
    var own := Fresh(h, size, invalid, marked);
    if own.Some? then own.value * size
    else if Touched(h, size, invalid) != {} then h.Before()
    else h.computed
  }

  function LostTokens(h: Holder, size: nat, invalid: set<Block>, marked: set<Block>): int
    requires size > 0
  {
    var own := Fresh(h, size, invalid, marked);
    if own.Some? then h.Before() - own.value * size
    else if Touched(h, size, invalid) != {} then h.scheduled
    else 0
  }

  function Downstream(h: Holder, size: nat, invalid: set<Block>, marked: set<Block>): set<Block>
    requires size > 0
  {
    var own := Fresh(h, size, invalid, marked);
    if own.Some? then From(h.blocks, own.value) else {}
  }

  // ---------------------------------------------------------------- a scan over requests

  /** The blocks marked once the first `n` requests have been scanned. */
  function Marked(hs: seq<Holder>, n: nat, size: nat, invalid: set<Block>): set<Block>
    requires size > 0 && n <= |hs|
  {
    if n == 0 then {} else Marked(hs, n - 1, size, invalid) + Touched(hs[n - 1], size, invalid)
  }

  function After(hs: seq<Holder>, k: nat, size: nat, invalid: set<Block>): int
    requires size > 0 && k < |hs|
  {
    Kept(hs[k], size, invalid, Marked(hs, k, size, invalid))
  }

  function LostBy(hs: seq<Holder>, k: nat, size: nat, invalid: set<Block>): int
    requires size > 0 && k < |hs|
  {
    LostTokens(hs[k], size, invalid, Marked(hs, k, size, invalid))
  }

  function DownstreamOf(hs: seq<Holder>, k: nat, size: nat, invalid: set<Block>): set<Block>
    requires size > 0 && k < |hs|
  {
    Downstream(hs[k], size, invalid, Marked(hs, k, size, invalid))
  }

  function Lost(hs: seq<Holder>, n: nat, size: nat, invalid: set<Block>): int
    requires size > 0 && n <= |hs|
  {
    if n == 0 then 0 else Lost(hs, n - 1, size, invalid) + LostBy(hs, n - 1, size, invalid)
  }

  function Evicted(hs: seq<Holder>, n: nat, size: nat, invalid: set<Block>): set<Block>
    requires size > 0 && n <= |hs|
  {
    if n == 0 then {} else Evicted(hs, n - 1, size, invalid) + DownstreamOf(hs, n - 1, size, invalid)
  }

  function Affected(hs: seq<Holder>, n: nat, size: nat, invalid: set<Block>): set<nat>
    requires size > 0 && n <= |hs|
  {
    set k | 0 <= k < n && Touched(hs[k], size, invalid) != {} :: hs[k].id
  }

  /** What the scan of the first `n` requests adds up to. */
  datatype Tally = Tally(marked: set<Block>, affected: set<nat>, lost: int, evicted: set<Block>)

  function TallyOf(hs: seq<Holder>, n: nat, size: nat, invalid: set<Block>, evict: bool): Tally
    requires size > 0 && n <= |hs|
  {
    Tally(Marked(hs, n, size, invalid), Affected(hs, n, size, invalid), Lost(hs, n, size, invalid),
          if evict then Evicted(hs, n, size, invalid) else {})
  }

  lemma ScanStep(hs: seq<Holder>, k: nat, size: nat, invalid: set<Block>, evict: bool)
    requires size > 0 && k < |hs|
    ensures var t, h := TallyOf(hs, k, size, invalid, evict), hs[k];
      TallyOf(hs, k + 1, size, invalid, evict)
      == Tally(t.marked + Touched(h, size, invalid),
               t.affected + (if Touched(h, size, invalid) != {} then {h.id} else {}),
               t.lost + LostTokens(h, size, invalid, t.marked),
               t.evicted + (if evict then Downstream(h, size, invalid, t.marked) else {}))
  {
  }

  /** The request has been cut at its own first fresh block, or not at all yet. */
  ghost predicate Cut(
    h: Holder, own: Option<nat>, size: nat, evict: bool, computed: int, lost: int, evicted: set<Block>)
  {
    match own
    case None => computed == h.computed && lost == 0 && evicted == {}
    case Some(k) =>
      && computed == k * size && lost == h.Before() - k * size
      && evicted == if evict then From(h.blocks, k) else {}
  }

  /** The request objects; recovery changes nothing but their computed counts. */
  class Request {
    const id: nat
    var computed: int
    const scheduled: nat
    const blocks: seq<Block>

    ghost function View(): Holder
      reads this
    {
      Holder(id, computed, scheduled, blocks)
    }

    constructor (id: nat, computed: int, scheduled: nat, blocks: seq<Block>)
      ensures View() == Holder(id, computed, scheduled, blocks)
    {
      this.id, this.computed, this.scheduled, this.blocks := id, computed, scheduled, blocks;
    }

    method CutHere(i: nat, size: nat, before: int, evict: bool) returns (lost: int, evicted: set<Block>)
      requires before == View().Before() && i <= |blocks|
      modifies this`computed
      ensures Cut(old(View()), Some(i), size, evict, computed, lost, evicted)
    {
      computed := i * size;
      lost := before - computed;
      evicted := if evict then From(blocks, i) else {};
    }

    /** The scan of a request's blocks, which cuts it at the first that is invalid and not yet marked. */
    method CutAtOwn(size: nat, invalid: set<Block>, marked: set<Block>, evict: bool)
      returns (affected: bool, markedBlock: bool, lost: int, evicted: set<Block>, marked': set<Block>)
      requires size > 0
      modifies this`computed
      ensures affected <==> Touched(old(View()), size, invalid) != {}
      ensures markedBlock <==> Fresh(old(View()), size, invalid, marked).Some?
      ensures Cut(old(View()), Fresh(old(View()), size, invalid, marked), size, evict, computed, lost, evicted)
      ensures marked' == marked + Touched(old(View()), size, invalid)
    {
      affected, markedBlock, lost, evicted, marked' := false, false, 0, {}, marked;
      ghost var h := View();
      var before := computed - scheduled;
      var span := (before + size - 1) / size;
      var i := 0;
      while i < span && i < |blocks|
        invariant 0 <= i <= Span(h, size)
        invariant markedBlock <==> FirstFresh(h, i, invalid, marked).Some?
        invariant marked' == marked + InvalidAmong(blocks, i, invalid)
        invariant affected <==> InvalidAmong(blocks, i, invalid) != {}
        invariant Cut(h, FirstFresh(h, i, invalid, marked), size, evict, computed, lost, evicted)
      {
        OneMoreInvalid(blocks, i, invalid);
        var block := blocks[i];
        if block in invalid {
          affected := true;
          if block !in marked' {
            marked' := marked' + {block};
            if !markedBlock {
              markedBlock := true;
              lost, evicted := CutHere(i, size, before, evict);
            }
          }
        }
        i := i + 1;
      }
      assert i == Span(h, size);
    }

    /** The scan of one request. */
    method Truncate(size: nat, invalid: set<Block>, marked: set<Block>, evict: bool)
      returns (affected: bool, lost: int, evicted: set<Block>, marked': set<Block>)
      requires size > 0
      modifies this`computed
      ensures computed == Kept(old(View()), size, invalid, marked)
      ensures affected <==> Touched(old(View()), size, invalid) != {}
      ensures lost == LostTokens(old(View()), size, invalid, marked)
      ensures evicted == if evict then Downstream(old(View()), size, invalid, marked) else {}
      ensures marked' == marked + Touched(old(View()), size, invalid)
    {
      var before := computed - scheduled;
      var markedBlock;
      affected, markedBlock, lost, evicted, marked' := CutAtOwn(size, invalid, marked, evict);
      if affected && !markedBlock {
        lost := lost + (computed - before);
        computed := before;
      }
    }

    /** The scan of the k-th request, added to what the scan of those before it came to. */
    method Scan(ghost hs: seq<Holder>, ghost k: nat, size: nat, invalid: set<Block>, evict: bool, t: Tally)
      returns (t': Tally)
      requires size > 0 && k < |hs| && View() == hs[k] && t == TallyOf(hs, k, size, invalid, evict)
      modifies this`computed
      ensures computed == After(hs, k, size, invalid) && t' == TallyOf(hs, k + 1, size, invalid, evict)
    {
      ScanStep(hs, k, size, invalid, evict);
      var hit, lost, evicted, marked := Truncate(size, invalid, t.marked, evict);
      t' := Tally(marked, t.affected + (if hit then {id} else {}), t.lost + lost, t.evicted + evicted);
    }
  }

  ghost predicate Distinct(requests: seq<Request>) {
    forall i, j :: 0 <= i < j < |requests| ==> requests[i] != requests[j]
  }

  function Outcomes(hs: seq<Holder>, size: nat, invalid: set<Block>): (after: seq<int>)
    requires size > 0
    ensures |after| == |hs| && forall k :: 0 <= k < |hs| ==> after[k] == After(hs, k, size, invalid)
  {
    seq(|hs|, k requires 0 <= k < |hs| => After(hs, k, size, invalid))
  }

  /** Scans the requests, which look like `hs` before and have the counts `after` when it is done. */
  method UpdateRequests(
    requests: seq<Request>, ghost hs: seq<Holder>, ghost after: seq<int>, size: nat, invalid: set<Block>, evict: bool)
    returns (t: Tally)
    requires size > 0 && Distinct(requests) && |hs| == |after| == |requests|
    requires forall k :: 0 <= k < |requests| ==> requests[k].View() == hs[k]
    requires forall k {:trigger TallyOf(hs, k, size, invalid, evict)} ::
      0 <= k < |hs| ==> after[k] == After(hs, k, size, invalid)
    modifies requests
    ensures forall k :: 0 <= k < |requests| ==> requests[k].computed == after[k]
    ensures t == TallyOf(hs, |hs|, size, invalid, evict)
  {
    t := Tally({}, {}, 0, {});
    var k := 0;
    while k < |requests|
      invariant 0 <= k <= |requests|
      invariant forall j :: 0 <= j < k ==> requests[j].computed == after[j]
      invariant forall j :: k <= j < |requests| ==> requests[j].View() == hs[j]
      invariant t == TallyOf(hs, k, size, invalid, evict)
    {
      label before: t := requests[k].Scan(hs, k, size, invalid, evict, t);
      forall j | 0 <= j < |requests| && j != k ensures requests[j].computed == old@before(requests[j].computed) {
        assert requests[j] != requests[k];
      }
      k := k + 1;
    }
  }

  // ---------------------------------------------------------------- what is spoiled

  /** Block `i` holds tokens that were computed before the step, perhaps only one, and it was not loaded. */
  ghost predicate Spoiled(h: Holder, size: nat, invalid: set<Block>, i: nat) {
    i < |h.blocks| && i * size < h.computed - h.scheduled && h.blocks[i] in invalid
  }

  /** And no request before the k-th has the block among its spoiled ones. */
  ghost predicate OwnSpoiled(hs: seq<Holder>, k: nat, size: nat, invalid: set<Block>, i: nat)
    requires k < |hs|
  {
    && Spoiled(hs[k], size, invalid, i)
    && forall j: nat, m: nat :: j < k && Spoiled(hs[j], size, invalid, m) ==> hs[j].blocks[m] != hs[k].blocks[i]
  }

  ghost predicate FirstOwn(hs: seq<Holder>, k: nat, size: nat, invalid: set<Block>, i: nat)
    requires k < |hs|
  {
    OwnSpoiled(hs, k, size, invalid, i) && forall m: nat :: m < i ==> !OwnSpoiled(hs, k, size, invalid, m)
  }

  lemma SpanIs(h: Holder, size: nat, i: nat)
    requires size > 0
    ensures i < Span(h, size) <==> i < |h.blocks| && i * size < h.computed - h.scheduled
  {
    var before := h.computed - h.scheduled;
    var full := (before + size - 1) / size;
    RoundedUp(before, size, full);
    if i < full { Earlier(i + 1, full, size); } else if full >= 0 { Earlier(full, i, size); }
    assert (i + 1) * size == i * size + size;
  }

  lemma RoundedUp(n: int, size: nat, full: int)
    requires size > 0 && full == (n + size - 1) / size
    ensures (full - 1) * size < n <= full * size
  {
    assert n + size - 1 == full * size + (n + size - 1) % size;
    assert (full - 1) * size == full * size - size;
  }

  lemma SpoiledIs(h: Holder, size: nat, invalid: set<Block>, i: nat)
    requires size > 0
    ensures Spoiled(h, size, invalid, i) <==> i < Span(h, size) && h.blocks[i] in invalid
  {
    SpanIs(h, size, i);
  }

  lemma TouchedIs(h: Holder, size: nat, invalid: set<Block>, b: Block)
    requires size > 0
    ensures b in Touched(h, size, invalid) <==> exists i: nat :: Spoiled(h, size, invalid, i) && h.blocks[i] == b
  {
    if b in Touched(h, size, invalid) {
      var i: nat :| i < Span(h, size) && h.blocks[i] in invalid && h.blocks[i] == b;
      SpoiledIs(h, size, invalid, i);
    } else if i: nat :| Spoiled(h, size, invalid, i) && h.blocks[i] == b {
      SpoiledIs(h, size, invalid, i);
    }
  }

  lemma TouchedIff(h: Holder, size: nat, invalid: set<Block>)
    requires size > 0
    ensures Touched(h, size, invalid) != {} <==> exists i: nat :: Spoiled(h, size, invalid, i)
  {
    if b :| b in Touched(h, size, invalid) {
      TouchedIs(h, size, invalid, b);
    } else if i: nat :| Spoiled(h, size, invalid, i) {
      TouchedIs(h, size, invalid, h.blocks[i]);
    }
  }

  lemma MarkedIs(hs: seq<Holder>, k: nat, size: nat, invalid: set<Block>, b: Block)
    requires size > 0 && k <= |hs|
    ensures b in Marked(hs, k, size, invalid)
            <==> exists j: nat, m: nat :: j < k && Spoiled(hs[j], size, invalid, m) && hs[j].blocks[m] == b
  {
    MarkedByWhom(hs, k, size, invalid, b);
    if b in Marked(hs, k, size, invalid) {
      var j: nat :| j < k && b in Touched(hs[j], size, invalid);
      TouchedIs(hs[j], size, invalid, b);
    } else if j: nat, m: nat :| j < k && Spoiled(hs[j], size, invalid, m) && hs[j].blocks[m] == b {
      TouchedIs(hs[j], size, invalid, b);
    }
  }

  lemma OwnSpoiledIs(hs: seq<Holder>, k: nat, size: nat, invalid: set<Block>, i: nat)
    requires size > 0 && k < |hs|
    ensures OwnSpoiled(hs, k, size, invalid, i) <==>
              && i < Span(hs[k], size) && hs[k].blocks[i] in invalid
              && hs[k].blocks[i] !in Marked(hs, k, size, invalid)
  {
    SpoiledIs(hs[k], size, invalid, i);
    if i < |hs[k].blocks| { MarkedIs(hs, k, size, invalid, hs[k].blocks[i]); }
  }

  /** The first own block of the specification is the first spoiled one that no request before has. */
  lemma FreshIs(hs: seq<Holder>, k: nat, size: nat, invalid: set<Block>)
    requires size > 0 && k < |hs|
    ensures var own := Fresh(hs[k], size, invalid, Marked(hs, k, size, invalid));
      if own.Some? then FirstOwn(hs, k, size, invalid, own.value)
      else forall i: nat :: !OwnSpoiled(hs, k, size, invalid, i)
  {
    forall i: nat
      ensures OwnSpoiled(hs, k, size, invalid, i) <==>
              && i < Span(hs[k], size) && hs[k].blocks[i] in invalid
              && hs[k].blocks[i] !in Marked(hs, k, size, invalid)
    {
      OwnSpoiledIs(hs, k, size, invalid, i);
    }
  }

  /** The whole outcome for a request: it goes back to its first spoiled block that no request before has; to the tokens
      from before the step if all its spoiled blocks are theirs; and keeps its count if none is spoiled. */
  lemma OutcomeIs(hs: seq<Holder>, k: nat, size: nat, invalid: set<Block>)
    requires size > 0 && k < |hs|
    ensures forall i: nat :: FirstOwn(hs, k, size, invalid, i) ==> After(hs, k, size, invalid) == i * size
    ensures (exists i: nat :: Spoiled(hs[k], size, invalid, i))
            && (forall i: nat :: !OwnSpoiled(hs, k, size, invalid, i)) ==>
              After(hs, k, size, invalid) == hs[k].computed - hs[k].scheduled
    ensures (forall i: nat :: !Spoiled(hs[k], size, invalid, i)) ==> After(hs, k, size, invalid) == hs[k].computed
  {
    FreshIs(hs, k, size, invalid);
    TouchedIff(hs[k], size, invalid);
    var own := Fresh(hs[k], size, invalid, Marked(hs, k, size, invalid));
    if own.Some? {
      forall i: nat | FirstOwn(hs, k, size, invalid, i) ensures i == own.value {
        assert !(i < own.value) && !(own.value < i);
      }
    }
  }

  /** Evicted is what lies from such a block on in the request that has it. */
  ghost predicate Behind(hs: seq<Holder>, k: nat, size: nat, invalid: set<Block>, b: Block)
    requires k < |hs|
  {
    exists i: nat, m: nat ::
      FirstOwn(hs, k, size, invalid, i) && i <= m < |hs[k].blocks| && hs[k].blocks[m] == b
  }

  lemma BehindIs(hs: seq<Holder>, k: nat, size: nat, invalid: set<Block>, b: Block)
    requires size > 0 && k < |hs|
    ensures b in DownstreamOf(hs, k, size, invalid) <==> Behind(hs, k, size, invalid, b)
  {
    FreshIs(hs, k, size, invalid);
    var own := Fresh(hs[k], size, invalid, Marked(hs, k, size, invalid));
    if b in DownstreamOf(hs, k, size, invalid) {
      var m: nat :| own.value <= m < |hs[k].blocks| && hs[k].blocks[m] == b;
      assert FirstOwn(hs, k, size, invalid, own.value);
    }
    forall i: nat | FirstOwn(hs, k, size, invalid, i) ensures own == Some(i) {
      assert own.Some? ==> !(i < own.value) && !(own.value < i);
    }
  }

  // ---------------------------------------------------------------- what recovery guarantees

  lemma {:induction false} MarkedByWhom(hs: seq<Holder>, n: nat, size: nat, invalid: set<Block>, b: Block)
    requires size > 0 && n <= |hs|
    ensures b in Marked(hs, n, size, invalid) <==> exists j :: 0 <= j < n && b in Touched(hs[j], size, invalid)
  {
    if n > 0 { MarkedByWhom(hs, n - 1, size, invalid, b); }
  }

  lemma {:induction false} EvictedByWhom(hs: seq<Holder>, n: nat, size: nat, invalid: set<Block>, b: Block)
    requires size > 0 && n <= |hs|
    ensures b in Evicted(hs, n, size, invalid) <==> exists j :: 0 <= j < n && Behind(hs, j, size, invalid, b)
  {
    if n > 0 {
      EvictedByWhom(hs, n - 1, size, invalid, b);
      BehindIs(hs, n - 1, size, invalid, b);
    }
  }

  /** The first of the requests that hold an invalid block marks it, and computes it again. */
  lemma {:induction false} FirstHolder(hs: seq<Holder>, k: nat, size: nat, invalid: set<Block>, b: Block)
      returns (j: nat)
    requires size > 0 && k < |hs| && b in Touched(hs[k], size, invalid)
    ensures j <= k && b in Touched(hs[j], size, invalid) && b !in Marked(hs, j, size, invalid)
  {
    j := k;
    MarkedByWhom(hs, k, size, invalid, b);
    if b in Marked(hs, k, size, invalid) {
      var i :| 0 <= i < k && b in Touched(hs[i], size, invalid);
      j := FirstHolder(hs, i, size, invalid, b);
    }
  }

  lemma Earlier(i: nat, j: nat, size: nat)
    requires i <= j
    ensures i * size <= j * size
  {
  }

  /** Every spoiled block of a scanned request will be computed again: some request for which it is spoiled goes back
      to its position or further, and the step's output of that request is discarded. */
  lemma EveryInvalidBlockIsRecomputed(hs: seq<Holder>, k: nat, i: nat, size: nat, invalid: set<Block>)
    returns (j: nat, at: nat)
    requires size > 0 && k < |hs| && Spoiled(hs[k], size, invalid, i)
    ensures j <= k && Spoiled(hs[j], size, invalid, at) && hs[j].blocks[at] == hs[k].blocks[i]
    ensures After(hs, j, size, invalid) <= at * size
    ensures hs[j].id in Affected(hs, |hs|, size, invalid)
  {
    var b := hs[k].blocks[i];
    TouchedIs(hs[k], size, invalid, b);
    j := FirstHolder(hs, k, size, invalid, b);
    at :| 0 <= at < Span(hs[j], size) && hs[j].blocks[at] == b;
    SpoiledIs(hs[j], size, invalid, at);
    var own := Fresh(hs[j], size, invalid, Marked(hs, j, size, invalid));
    assert own.Some? && own.value <= at;
    Earlier(own.value, at, size);
  }

  /** A request goes back behind the step's tokens, or keeps its count, exactly as it has a spoiled block or not. */
  lemma AffectedGoBack(hs: seq<Holder>, k: nat, size: nat, invalid: set<Block>)
    requires size > 0 && k < |hs|
    ensures (forall i: nat :: !Spoiled(hs[k], size, invalid, i)) ==> After(hs, k, size, invalid) == hs[k].computed
    ensures (exists i: nat :: Spoiled(hs[k], size, invalid, i)) ==>
      0 <= After(hs, k, size, invalid) <= hs[k].computed - hs[k].scheduled
  {
    OutcomeIs(hs, k, size, invalid);
    FreshIs(hs, k, size, invalid);
  }

  /** With different ids, a request is reported exactly when one of its blocks is spoiled. */
  lemma AffectedIff(hs: seq<Holder>, k: nat, size: nat, invalid: set<Block>)
    requires size > 0 && k < |hs| && forall i, j :: 0 <= i < j < |hs| ==> hs[i].id != hs[j].id
    ensures hs[k].id in Affected(hs, |hs|, size, invalid) <==> exists i: nat :: Spoiled(hs[k], size, invalid, i)
  {
    TouchedIff(hs[k], size, invalid);
    assert forall j :: 0 <= j < |hs| && hs[j].id == hs[k].id ==> j == k;
  }

  lemma AffectedIds(hs: seq<Holder>, size: nat, invalid: set<Block>, id: nat)
    requires size > 0
    ensures id in Affected(hs, |hs|, size, invalid) <==> AnySpoiled(hs, size, invalid, id)
  {
    forall k: nat | k < |hs|
      ensures Touched(hs[k], size, invalid) != {} <==> exists i: nat :: Spoiled(hs[k], size, invalid, i)
    {
      TouchedIff(hs[k], size, invalid);
    }
  }

  /** A request with this id has a spoiled block. */
  ghost predicate AnySpoiled(hs: seq<Holder>, size: nat, invalid: set<Block>, id: nat) {
    exists k: nat, i: nat :: k < |hs| && hs[k].id == id && Spoiled(hs[k], size, invalid, i)
  }

  /** What a request still counts as computed before the step is valid, or spoiled for a request before it, which
      computes it again. */
  lemma KeptBlocksAreSound(hs: seq<Holder>, k: nat, i: nat, size: nat, invalid: set<Block>)
    requires size > 0 && k < |hs| && i < |hs[k].blocks|
    requires i * size < After(hs, k, size, invalid) && i * size < hs[k].computed - hs[k].scheduled
    ensures hs[k].blocks[i] !in invalid || exists j: nat, m: nat ::
      j < k && Spoiled(hs[j], size, invalid, m) && hs[j].blocks[m] == hs[k].blocks[i]
  {
    SpanIs(hs[k], size, i);
    var own := Fresh(hs[k], size, invalid, Marked(hs, k, size, invalid));
    if own.Some? && own.value <= i { Earlier(own.value, i, size); }
    MarkedIs(hs, k, size, invalid, hs[k].blocks[i]);
  }

  /** All spoiled blocks are evicted; and no block of a request is evicted on its account that it still counts as
      computed. */
  lemma InvalidBlocksAreEvicted(hs: seq<Holder>, k: nat, size: nat, invalid: set<Block>, i: nat)
    requires size > 0 && k < |hs| && Spoiled(hs[k], size, invalid, i)
    ensures hs[k].blocks[i] in Evicted(hs, |hs|, size, invalid)
  {
    var b := hs[k].blocks[i];
    TouchedIs(hs[k], size, invalid, b);
    var j := FirstHolder(hs, k, size, invalid, b);
    var at :| 0 <= at < Span(hs[j], size) && hs[j].blocks[at] == b;
    EvictedByWhom(hs, |hs|, size, invalid, b);
    assert b in DownstreamOf(hs, j, size, invalid);
    BehindIs(hs, j, size, invalid, b);
  }

  lemma EvictedAreNotKept(hs: seq<Holder>, k: nat, size: nat, invalid: set<Block>, b: Block)
    requires size > 0 && k < |hs| && Behind(hs, k, size, invalid, b)
    ensures exists i :: 0 <= i < |hs[k].blocks| && hs[k].blocks[i] == b && After(hs, k, size, invalid) <= i * size
  {
    OutcomeIs(hs, k, size, invalid);
    var i: nat, m: nat :| FirstOwn(hs, k, size, invalid, i) && i <= m < |hs[k].blocks| && hs[k].blocks[m] == b;
    Earlier(i, m, size);
  }

  // ---------------------------------------------------------------- the count of affected tokens

  /** The tokens the requests lose in fact. */
  ghost function GivenUp(hs: seq<Holder>, n: nat, size: nat, invalid: set<Block>): int
    requires size > 0 && n <= |hs|
  {
    if n == 0 then 0 else GivenUp(hs, n - 1, size, invalid) + hs[n - 1].computed - After(hs, n - 1, size, invalid)
  }

  ghost predicate HasOwn(hs: seq<Holder>, k: nat, size: nat, invalid: set<Block>)
    requires k < |hs|
  {
    exists i: nat :: OwnSpoiled(hs, k, size, invalid, i)
  }

  /** The step tokens of the requests that go back to a block of their own. */
  ghost function Forgotten(hs: seq<Holder>, n: nat, size: nat, invalid: set<Block>): nat
    requires n <= |hs|
  {
    if n == 0 then 0
    else
      Forgotten(hs, n - 1, size, invalid)
      + if HasOwn(hs, n - 1, size, invalid) then hs[n - 1].scheduled else 0
  }

  /** The reported total leaves out exactly those. */
  lemma {:induction false} TotalLeavesOut(hs: seq<Holder>, n: nat, size: nat, invalid: set<Block>)
    requires size > 0 && n <= |hs|
    ensures Lost(hs, n, size, invalid) == GivenUp(hs, n, size, invalid) - Forgotten(hs, n, size, invalid)
  {
    if n > 0 {
      TotalLeavesOut(hs, n - 1, size, invalid);
      FreshIs(hs, n - 1, size, invalid);
    }
  }

  /** So it is exact if and only if no request that goes back to a block of its own had tokens in the step. */
  lemma {:induction false} TotalIsExactIff(hs: seq<Holder>, n: nat, size: nat, invalid: set<Block>)
    requires size > 0 && n <= |hs|
    ensures Lost(hs, n, size, invalid) == GivenUp(hs, n, size, invalid)
            <==> forall k: nat :: k < n && HasOwn(hs, k, size, invalid) ==> hs[k].scheduled == 0
  {
    TotalLeavesOut(hs, n, size, invalid);
    NothingForgottenIff(hs, n, size, invalid);
  }

  lemma {:induction false} NothingForgottenIff(hs: seq<Holder>, n: nat, size: nat, invalid: set<Block>)
    requires n <= |hs|
    ensures Forgotten(hs, n, size, invalid) == 0
            <==> forall k: nat :: k < n && HasOwn(hs, k, size, invalid) ==> hs[k].scheduled == 0
  {
    if n > 0 { NothingForgottenIff(hs, n - 1, size, invalid); }
  }

  // ---------------------------------------------------------------- both kinds of loads

  /** Which requests' output must be skipped, which to retry when their load is complete, which blocks to evict. */
  datatype Recovery = Recovery(skip: set<nat>, retry: set<nat>, evicted: set<Block>)

  function Recover(waiting: Tally, running: Tally, recompute: bool): Recovery {
    if recompute then Recovery(running.affected, waiting.affected, {})
    else Recovery(running.affected + waiting.affected, {}, running.evicted)
  }

  /** _handle_invalid_blocks(): the requests that wait for their load, then the running ones. */
  method HandleInvalidBlocks(
    groups: nat, waiting: seq<Request>, running: seq<Request>, ghost ws: seq<Holder>, ghost rs: seq<Holder>,
    size: nat, invalid: set<Block>, recompute: bool)
    returns (r: Result<Recovery, string>)
    requires size > 0 && Distinct(waiting) && Distinct(running)
    requires forall w, r :: w in waiting && r in running ==> w != r
    requires |ws| == |waiting| && forall k :: 0 <= k < |waiting| ==> waiting[k].View() == ws[k]
    requires |rs| == |running| && forall k :: 0 <= k < |running| ==> running[k].View() == rs[k]
    modifies waiting, running
    ensures groups > 1 <==> r.Err?
    ensures r.Err? ==> unchanged(waiting) && unchanged(running)
    ensures r.Ok? ==>
      && (forall k :: 0 <= k < |ws| ==> waiting[k].computed == Outcomes(ws, size, invalid)[k])
      && (forall k :: 0 <= k < |rs| ==> running[k].computed == Outcomes(rs, size, invalid)[k])
      && r.value == Recover(TallyOf(ws, |ws|, size, invalid, false), TallyOf(rs, |rs|, size, invalid, true), recompute)
  {
    if groups > 1 { return Err("block-level load failures need a single group"); }
    ghost var wAfter, rAfter := Outcomes(ws, size, invalid), Outcomes(rs, size, invalid);
    var loads := UpdateRequests(waiting, ws, wAfter, size, invalid, false);
    forall k | 0 <= k < |running| ensures running[k].View() == rs[k] {
      assert running[k] in running && running[k] !in waiting;
    }
    label before: var runs := UpdateRequests(running, rs, rAfter, size, invalid, true);
    forall k | 0 <= k < |waiting| ensures waiting[k].computed == wAfter[k] {
      assert waiting[k] in waiting && waiting[k] !in running;
      assert waiting[k].computed == old@before(waiting[k].computed);
    }
    r := Ok(Recover(loads, runs, recompute));
  }

  /** Skipped are exactly the running requests with a spoiled block, and under the failing policy those that wait for
      their load too; retried are those, under the other one; and evicted, under the failing policy only, is exactly
      what lies from the first spoiled block of its own on in a running request. */
  lemma RecoverReachesAll(
    ws: seq<Holder>, rs: seq<Holder>, size: nat, invalid: set<Block>, recompute: bool, id: nat, b: Block)
    requires size > 0
    ensures
      var waiting, running := TallyOf(ws, |ws|, size, invalid, false), TallyOf(rs, |rs|, size, invalid, true);
      var r := Recover(waiting, running, recompute);
      && (id in r.skip <==> AnySpoiled(rs, size, invalid, id) || (!recompute && AnySpoiled(ws, size, invalid, id)))
      && (id in r.retry <==> recompute && AnySpoiled(ws, size, invalid, id))
      && (b in r.evicted <==> !recompute && exists k :: 0 <= k < |rs| && Behind(rs, k, size, invalid, b))
  {
    AffectedIds(ws, size, invalid, id);
    AffectedIds(rs, size, invalid, id);
    EvictedByWhom(rs, |rs|, size, invalid, b);
  }
}
