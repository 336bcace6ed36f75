/** Preparing the drafter's first pass: one program for each request shifts the request's input by one token and adds
    the next one, copies positions and lengths, and the last program fills the rest of the buffers. */
module DraftPrefill {

  // ---------------------------------------------------------------- what a program stores

  /** A buffer after some stores. */
  function Put(d: seq<int>, w: map<nat, int>): (r: seq<int>)
    ensures |r| == |d|
    ensures forall j :: 0 <= j < |d| ==> r[j] == if j in w then w[j] else d[j]
  {
    seq(|d|, j requires 0 <= j < |d| => if j in w then w[j] else d[j])
  }

  /** A buffer after programs, or parts of them, one after the other. */
  function PutAll(d: seq<int>, ws: seq<map<nat, int>>): (r: seq<int>)
    ensures |r| == |d|
  {
    if ws == [] then d else Put(PutAll(d, ws[..|ws| - 1]), ws[|ws| - 1])
  }

  /** No two of them store different values in the same place. */
  ghost predicate Agree(ws: seq<map<nat, int>>) {
    forall i, k, j :: 0 <= i < |ws| && 0 <= k < |ws| && j in ws[i] && j in ws[k] ==> ws[i][j] == ws[k][j]
  }

  lemma {:induction false} PutAllAt(d: seq<int>, ws: seq<map<nat, int>>, j: nat)
    requires Agree(ws) && j < |d|
    ensures forall i :: 0 <= i < |ws| && j in ws[i] ==> PutAll(d, ws)[j] == ws[i][j]
    ensures (forall i :: 0 <= i < |ws| ==> j !in ws[i]) ==> PutAll(d, ws)[j] == d[j]
  {
    if ws != [] {
      var last := |ws| - 1;
      var front := ws[..last];
      assert forall i :: 0 <= i < last ==> front[i] == ws[i];
      PutAllAt(d, front, j);
    }
  }

  lemma PutAllHas(d: seq<int>, ws: seq<map<nat, int>>, i: nat, j: nat, w: map<nat, int>)
    requires Agree(ws) && i < |ws| && ws[i] == w && j < |d| && j in w
    ensures PutAll(d, ws)[j] == w[j]
  {
    PutAllAt(d, ws, j);
  }

  /** Stores that agree may be done in any order, in any portions, and more than once. */
  lemma AnyOrder(d: seq<int>, ws: seq<map<nat, int>>, vs: seq<map<nat, int>>)
    requires Agree(ws) && Agree(vs)
    requires forall i, j :: 0 <= i < |ws| && j in ws[i] ==>
        exists k :: 0 <= k < |vs| && j in vs[k] && vs[k][j] == ws[i][j]
    requires forall k, j :: 0 <= k < |vs| && j in vs[k] ==> exists i :: 0 <= i < |ws| && j in ws[i]
    ensures PutAll(d, ws) == PutAll(d, vs)
  {
    forall j: nat | j < |d| ensures PutAll(d, ws)[j] == PutAll(d, vs)[j] {
      PutAllAt(d, ws, j);
      PutAllAt(d, vs, j);
      if i :| 0 <= i < |ws| && j in ws[i] {
        var k :| 0 <= k < |vs| && j in vs[k] && vs[k][j] == ws[i][j];
      }
    }
  }

  // ---------------------------------------------------------------- the programs' input

  datatype Batch = Batch(
    ids: seq<int>, positions: seq<int>, starts: seq<nat>, lengths: seq<int>, rejected: seq<nat>,
    sampled: seq<int>, slots: seq<nat>, lastSampled: seq<int>, nextPrefill: seq<int>, maxReqs: nat)
  {
    function Reqs(): nat { |slots| }

    /** The tokens of a request that were not rejected. */
    function True(r: nat): int
      requires r + 1 < |starts| && r < |rejected|
    {
      starts[r + 1] as int - starts[r] - rejected[r]
    }

    /** The requests lie one behind the other, each with at least one token left. */
    ghost predicate Valid() {
      && 0 < Reqs() <= maxReqs && |starts| == Reqs() + 1 && |lengths| == |rejected| == |sampled| == Reqs()
      && |positions| == |ids| && starts[Reqs()] <= |ids|
      && (forall r :: 0 <= r < Reqs() ==> True(r) >= 1)
      && (forall r, q :: 0 <= r <= q <= Reqs() ==> starts[r] <= starts[q])
      && (forall r :: 0 <= r < Reqs() ==> slots[r] < |lastSampled| && slots[r] < |nextPrefill|)
    }

    function Next(r: nat): int
      requires r < |sampled| && r < |slots| && slots[r] < |lastSampled| && slots[r] < |nextPrefill|
    {
      if sampled[r] > 0 then lastSampled[slots[r]] else nextPrefill[slots[r]]
    }
  }

  /** The true input shifted by one token, and behind it the next one. */
  ghost function IdStores(b: Batch, r: nat): map<nat, int>
    requires b.Valid() && r < b.Reqs()
  {
    map j: nat | b.starts[r] <= j < b.starts[r] + b.True(r) :: IdAt(b, r, j)
  }

  ghost function IdAt(b: Batch, r: nat, j: nat): int
    requires b.Valid() && r < b.Reqs()
  {
    if j + 1 < b.starts[r] + b.True(r) && j + 1 < |b.ids| then b.ids[j + 1] else b.Next(r)
  }

  ghost function PositionStores(b: Batch, r: nat): map<nat, int>
    requires b.Valid() && r < b.Reqs()
  {
    map j: nat | b.starts[r] <= j < b.starts[r] + b.True(r) && j < |b.positions| :: b.positions[j]
  }

  /** One entry of its own; the last program stores the rest of the buffer as well. */
  ghost function EntryStores(b: Batch, r: nat, own: int, rest: int, end: nat): map<nat, int> {
    map j: nat | r <= j < r + 1 + end && (j == r || (r + 1 == b.Reqs() && j < end)) :: EntryAt(r, j, own, rest)
  }

  ghost function EntryAt(r: nat, j: nat, own: int, rest: int): int { if j == r then own else rest }

  datatype Buffer = Ids | Positions | Starts | Lengths | Lasts

  /** What the program of request `r` stores in a buffer. */
  ghost function Stores(b: Batch, x: Buffer, r: nat): map<nat, int>
    requires b.Valid() && r < b.Reqs()
  {
    match x
    case Ids => IdStores(b, r)
    case Positions => PositionStores(b, r)
    case Starts => EntryStores(b, r, b.starts[r], b.starts[r + 1], b.maxReqs + 1)
    case Lengths => EntryStores(b, r, b.lengths[r], 0, b.maxReqs)
    case Lasts => EntryStores(b, r, b.starts[r] + b.True(r) - 1, 0, b.maxReqs)
  }

  lemma OwnStretch(b: Batch, r: nat, q: nat, j: nat)
    requires b.Valid() && r < b.Reqs() && q < b.Reqs()
    requires b.starts[r] <= j < b.starts[r] + b.True(r) && b.starts[q] <= j < b.starts[q] + b.True(q)
    ensures r == q
  {
  }

  /** No two programs store in the same place of a buffer. */
  lemma StoresAreDisjoint(b: Batch, x: Buffer, r: nat, q: nat, j: nat)
    requires b.Valid() && r < b.Reqs() && q < b.Reqs() && j in Stores(b, x, r) && j in Stores(b, x, q)
    ensures r == q
  {
    if x.Ids? || x.Positions? { OwnStretch(b, r, q, j); }
  }

  // ---------------------------------------------------------------- the masked loops

  /** Copies `n` entries from `from + 1` on to one place before, in blocks. */
  method CopyShifted(src: seq<int>, dst: array<int>, from: nat, n: int, block: nat)
    requires block > 0 && from + n <= |src| && from + n <= dst.Length && n >= 1
    modifies dst
    ensures forall j :: 0 <= j < dst.Length ==> dst[j] == if from <= j < from + n - 1 then src[j + 1] else old(dst[j])
  {
    var i := 1;
    while i < n
      invariant 1 <= i
      invariant forall j :: 0 <= j < dst.Length ==>
        dst[j] == if from <= j < from + (if i < n then i else n) - 1 then src[j + 1] else old(dst[j])
    {
      forall k | i <= k < i + block && k < n { dst[from + k - 1] := src[from + k]; }
      i := i + block;
    }
  }

  method CopyStretch(src: seq<int>, dst: array<int>, from: nat, n: int, block: nat)
    requires block > 0 && from + n <= |src| && from + n <= dst.Length && n >= 0
    modifies dst
    ensures forall j :: 0 <= j < dst.Length ==> dst[j] == if from <= j < from + n then src[j] else old(dst[j])
  {
    var i := 0;
    while i < n
      invariant 0 <= i
      invariant forall j :: 0 <= j < dst.Length ==>
        dst[j] == if from <= j < from + (if i < n then i else n) then src[j] else old(dst[j])
    {
      forall k | i <= k < i + block && k < n { dst[from + k] := src[from + k]; }
      i := i + block;
    }
  }

  method Fill(dst: array<int>, from: nat, end: nat, value: int, block: nat)
    requires block > 0 && from <= end <= dst.Length
    modifies dst
    ensures forall j :: 0 <= j < dst.Length ==> dst[j] == if from <= j < end then value else old(dst[j])
  {
    var i := from;
    while i < end
      invariant from <= i
      invariant forall j :: 0 <= j < dst.Length ==>
        dst[j] == if from <= j < (if i < end then i else end) then value else old(dst[j])
    {
      forall k | i <= k < i + block && k < end { dst[k] := value; }
      i := i + block;
    }
  }

  // ---------------------------------------------------------------- the kernel

  class Buffers {
    const ids: array<int>
    const positions: array<int>
    const starts: array<int>
    const lengths: array<int>
    const last: array<int>
    var step: int

    constructor (tokens: nat, maxReqs: nat)
      ensures Valid() && ids.Length == positions.Length == tokens
      ensures starts.Length == maxReqs + 1 && lengths.Length == last.Length == maxReqs
      ensures fresh(ids) && fresh(positions) && fresh(starts) && fresh(lengths) && fresh(last)
    {
      ids, positions := new int[tokens], new int[tokens];
      starts, lengths, last := new int[maxReqs + 1], new int[maxReqs], new int[maxReqs];
      step := 0;
    }

    ghost predicate Valid() {
      && ids != positions && ids != starts && ids != lengths && ids != last && positions != starts
      && positions != lengths && positions != last && starts != lengths && starts != last && lengths != last
    }

    ghost predicate Holds(b: Batch) {
      && ids.Length == positions.Length == |b.ids| && starts.Length == b.maxReqs + 1
      && lengths.Length == last.Length == b.maxReqs
    }

    method ShiftIds(b: Batch, r: nat, block: nat)
      requires Valid() && Holds(b) && b.Valid() && r < b.Reqs() && block > 0
      modifies ids
      ensures ids[..] == Put(old(ids[..]), Stores(b, Ids, r))
    {
      var start, n := b.starts[r], b.True(r);
      assert b.starts[r + 1] <= b.starts[b.Reqs()];
      CopyShifted(b.ids, ids, start, n, block);
      ids[start + n - 1] := b.Next(r);
    }

    method CopyPositions(b: Batch, r: nat, block: nat)
      requires Valid() && Holds(b) && b.Valid() && r < b.Reqs() && block > 0
      modifies positions
      ensures positions[..] == Put(old(positions[..]), Stores(b, Positions, r))
    {
      assert b.starts[r + 1] <= b.starts[b.Reqs()];
      CopyStretch(b.positions, positions, b.starts[r], b.True(r), block);
    }

    /** Stores a request's entry; the last program fills the buffer up. */
    method StoreEntry(dst: array<int>, b: Batch, r: nat, own: int, rest: int, block: nat)
      requires b.Valid() && r < b.Reqs() <= dst.Length && block > 0
      modifies dst
      ensures dst[..] == Put(old(dst[..]), EntryStores(b, r, own, rest, dst.Length))
    {
      dst[r] := own;
      if r == b.Reqs() - 1 { Fill(dst, b.Reqs(), dst.Length, rest, block); }
    }

    /** The program of one request. */
    method Program(b: Batch, r: nat, block: nat)
      requires Valid() && Holds(b) && b.Valid() && r < b.Reqs() && block > 0
      modifies this, ids, positions, starts, lengths, last
      ensures ids[..] == Put(old(ids[..]), Stores(b, Ids, r))
      ensures positions[..] == Put(old(positions[..]), Stores(b, Positions, r))
      ensures starts[..] == Put(old(starts[..]), Stores(b, Starts, r))
      ensures lengths[..] == Put(old(lengths[..]), Stores(b, Lengths, r))
      ensures last[..] == Put(old(last[..]), Stores(b, Lasts, r))
      ensures step == if r + 1 == b.Reqs() then 0 else old(step)
    {
      ShiftIds(b, r, block);
      StoreEntry(last, b, r, b.starts[r] + b.True(r) - 1, 0, block);
      CopyPositions(b, r, block);
      StoreEntry(starts, b, r, b.starts[r], b.starts[r + 1], block);
      StoreEntry(lengths, b, r, b.lengths[r], 0, block);
      if r == b.Reqs() - 1 { step := 0; }
    }

    /** All programs, in the given order. */
    method Grid(b: Batch, order: seq<nat>, block: nat)
      requires Valid() && Holds(b) && b.Valid() && block > 0 && InGrid(b, order)
      modifies this, ids, positions, starts, lengths, last
      ensures ids[..] == PutAll(old(ids[..]), All(b, Ids, order))
      ensures positions[..] == PutAll(old(positions[..]), All(b, Positions, order))
      ensures starts[..] == PutAll(old(starts[..]), All(b, Starts, order))
      ensures lengths[..] == PutAll(old(lengths[..]), All(b, Lengths, order))
      ensures last[..] == PutAll(old(last[..]), All(b, Lasts, order))
    {
      var k := 0;
      while k < |order|
        invariant 0 <= k <= |order|
        invariant ids[..] == PutAll(old(ids[..]), All(b, Ids, order)[..k])
        invariant positions[..] == PutAll(old(positions[..]), All(b, Positions, order)[..k])
        invariant starts[..] == PutAll(old(starts[..]), All(b, Starts, order)[..k])
        invariant lengths[..] == PutAll(old(lengths[..]), All(b, Lengths, order)[..k])
        invariant last[..] == PutAll(old(last[..]), All(b, Lasts, order)[..k])
      {
        PutOneMore(old(ids[..]), All(b, Ids, order), k);
        PutOneMore(old(positions[..]), All(b, Positions, order), k);
        PutOneMore(old(starts[..]), All(b, Starts, order), k);
        PutOneMore(old(lengths[..]), All(b, Lengths, order), k);
        PutOneMore(old(last[..]), All(b, Lasts, order), k);
        Program(b, order[k], block);
        k := k + 1;
      }
      assert All(b, Ids, order)[..k] == All(b, Ids, order) && All(b, Positions, order)[..k] == All(b, Positions, order);
      assert All(b, Starts, order)[..k] == All(b, Starts, order)
          && All(b, Lengths, order)[..k] == All(b, Lengths, order);
      assert All(b, Lasts, order)[..k] == All(b, Lasts, order);
    }
  }

  lemma PutOneMore(d: seq<int>, ws: seq<map<nat, int>>, k: nat)
    requires k < |ws|
    ensures PutAll(d, ws[..k + 1]) == Put(PutAll(d, ws[..k]), ws[k])
  {
    assert ws[..k + 1][..k] == ws[..k];
  }

  ghost predicate InGrid(b: Batch, order: seq<nat>) {
    forall i :: 0 <= i < |order| ==> order[i] < b.Reqs()
  }

  ghost predicate Runs(order: seq<nat>, r: nat) { r in order }

  /** The order runs every program. */
  ghost predicate Orders(b: Batch, order: seq<nat>) {
    InGrid(b, order) && forall r: nat :: r < b.Reqs() ==> Runs(order, r)
  }

  ghost function All(b: Batch, x: Buffer, order: seq<nat>): (ws: seq<map<nat, int>>)
    requires b.Valid() && InGrid(b, order)
    ensures |ws| == |order| && forall k :: 0 <= k < |ws| ==> ws[k] == Stores(b, x, order[k])
  {
    seq(|order|, k requires 0 <= k < |order| => Stores(b, x, order[k]))
  }

  lemma AllAgree(b: Batch, x: Buffer, order: seq<nat>)
    requires b.Valid() && InGrid(b, order)
    ensures Agree(All(b, x, order))
  {
    var ws := All(b, x, order);
    forall i, k, j | 0 <= i < |ws| && 0 <= k < |ws| && j in ws[i] && j in ws[k] ensures ws[i][j] == ws[k][j] {
      StoresAreDisjoint(b, x, order[i], order[k], j);
    }
  }

  lemma Place(b: Batch, order: seq<nat>, r: nat) returns (i: nat)
    requires Orders(b, order) && r < b.Reqs()
    ensures i < |order| && order[i] == r
  {
    assert Runs(order, r);
    i :| 0 <= i < |order| && order[i] == r;
  }

  lemma StoredAt(b: Batch, x: Buffer, order: seq<nat>, d: seq<int>, i: nat, j: nat)
    requires b.Valid() && InGrid(b, order) && i < |order| && j < |d| && j in Stores(b, x, order[i])
    ensures PutAll(d, All(b, x, order))[j] == Stores(b, x, order[i])[j]
  {
    AllAgree(b, x, order);
    PutAllHas(d, All(b, x, order), i, j, Stores(b, x, order[i]));
  }

  /** What a program stores is there in the end, whatever the order of the programs. */
  lemma Stored(b: Batch, x: Buffer, order: seq<nat>, d: seq<int>, r: nat, j: nat)
    requires b.Valid() && Orders(b, order) && r < b.Reqs() && j < |d| && j in Stores(b, x, r)
    ensures PutAll(d, All(b, x, order))[j] == Stores(b, x, r)[j]
  {
    var i := Place(b, order, r);
    StoredAt(b, x, order, d, i, j);
  }

  /** What no program stores is as before. */
  lemma NotStored(b: Batch, x: Buffer, order: seq<nat>, d: seq<int>, j: nat)
    requires b.Valid() && Orders(b, order) && j < |d| && forall r :: 0 <= r < b.Reqs() ==> j !in Stores(b, x, r)
    ensures PutAll(d, All(b, x, order))[j] == d[j]
  {
    var ws := All(b, x, order);
    AllAgree(b, x, order);
    forall i | 0 <= i < |ws| ensures j !in ws[i] { assert ws[i] == Stores(b, x, order[i]); }
    PutAllAt(d, ws, j);
  }

  lemma InBuffer(b: Batch, r: nat, k: nat)
    requires b.Valid() && r < b.Reqs() && k < b.True(r)
    ensures b.starts[r] + k < |b.ids|
  {
    assert b.starts[r + 1] <= b.starts[b.Reqs()];
  }

  /** Each request has its true input, shifted by one and followed by its next token, and its positions, in whatever
      order the programs ran. */
  lemma RequestsAreShifted(b: Batch, order: seq<nat>, ids: seq<int>, positions: seq<int>, r: nat, k: nat)
    requires b.Valid() && Orders(b, order) && |ids| == |positions| == |b.ids| && r < b.Reqs()
    requires b.starts[r] + k + b.rejected[r] < b.starts[r + 1]
    ensures var j, n := b.starts[r] + k, b.starts[r + 1] - b.starts[r] - b.rejected[r];
      && j < |b.ids|
      && PutAll(ids, All(b, Ids, order))[j] ==
          (if k + 1 < n && j + 1 < |b.ids| then b.ids[j + 1]
           else if b.sampled[r] > 0 then b.lastSampled[b.slots[r]] else b.nextPrefill[b.slots[r]])
      && (k + 1 < n ==> j + 1 < |b.ids|)
      && PutAll(positions, All(b, Positions, order))[j] == b.positions[j]
  {
    var j := b.starts[r] + k;
    InBuffer(b, r, k);
    if k + 1 < b.True(r) { InBuffer(b, r, k + 1); }
    assert j in Stores(b, Ids, r) && j in Stores(b, Positions, r);
    Stored(b, Ids, order, ids, r, j);
    Stored(b, Positions, order, positions, r, j);
  }

  /** The rest of the buffers is untouched. */
  lemma RestIsUntouched(b: Batch, order: seq<nat>, ids: seq<int>, positions: seq<int>, j: nat)
    requires b.Valid() && Orders(b, order) && |ids| == |positions| == |b.ids| && j < |b.ids|
    requires forall r :: 0 <= r < b.Reqs() ==> !(b.starts[r] <= j && j + b.rejected[r] < b.starts[r + 1])
    ensures PutAll(ids, All(b, Ids, order))[j] == ids[j]
    ensures PutAll(positions, All(b, Positions, order))[j] == positions[j]
  {
    NotStored(b, Ids, order, ids, j);
    NotStored(b, Positions, order, positions, j);
  }

  /** The entries by request, and behind them the end of the queries, no length, and no last token. */
  lemma EntriesAreComplete(b: Batch, order: seq<nat>, starts: seq<int>, lengths: seq<int>, last: seq<int>, j: nat)
    requires b.Valid() && Orders(b, order) && |starts| == b.maxReqs + 1 && |lengths| == |last| == b.maxReqs
    ensures j <= b.maxReqs ==>
      PutAll(starts, All(b, Starts, order))[j] == if j < b.Reqs() then b.starts[j] else b.starts[b.Reqs()]
    ensures j < b.maxReqs ==>
      PutAll(lengths, All(b, Lengths, order))[j] == if j < b.Reqs() then b.lengths[j] else 0
    ensures j < b.maxReqs ==>
      PutAll(last, All(b, Lasts, order))[j] == if j < b.Reqs() then b.starts[j + 1] as int - b.rejected[j] - 1 else 0
  {
    var r: nat := if j < b.Reqs() then j else b.Reqs() - 1;
    if j <= b.maxReqs { Stored(b, Starts, order, starts, r, j); }
    if j < b.maxReqs {
      Stored(b, Lengths, order, lengths, r, j);
      Stored(b, Lasts, order, last, r, j);
    }
  }

  /** The order of the programs does not matter, even if their stores are torn apart and interleaved: any sequence of
      pieces of these stores that leaves none out has the same outcome. */
  lemma PiecesDoNotMatter(b: Batch, x: Buffer, order: seq<nat>, d: seq<int>, pieces: seq<map<nat, int>>)
    requires b.Valid() && Orders(b, order)
    requires var ws := All(b, x, order);
      forall k, j :: 0 <= k < |pieces| && j in pieces[k] ==>
        exists i :: 0 <= i < |ws| && j in ws[i] && ws[i][j] == pieces[k][j]
    requires var ws := All(b, x, order);
      forall i, j :: 0 <= i < |ws| && j in ws[i] ==> exists k :: 0 <= k < |pieces| && j in pieces[k]
    ensures PutAll(d, pieces) == PutAll(d, All(b, x, order))
  {
    AllAgree(b, x, order);
    var ws := All(b, x, order);
    forall i, k, j | 0 <= i < |pieces| && 0 <= k < |pieces| && j in pieces[i] && j in pieces[k]
      ensures pieces[i][j] == pieces[k][j]
    {
      var m :| 0 <= m < |ws| && j in ws[m] && ws[m][j] == pieces[i][j];
      var n :| 0 <= n < |ws| && j in ws[n] && ws[n][j] == pieces[k][j];
    }
    AnyOrder(d, pieces, ws);
  }
}
