/** A value for each token of a batch: the slot table of the requests' values, its mirror in a global map, and the
    buffer that is filled from it row by row. */
module TokenLambda {
  import opened Arithmetic
  import opened Wrappers

  // ---------------------------------------------------------------- who owns a row

  /** The rows of the first `i` requests. */
  function Prefix(counts: seq<int>, i: nat): int
    requires i <= |counts|
  {
    if i == 0 then 0 else Prefix(counts, i - 1) + counts[i - 1]
  }

  ghost predicate Positive(counts: seq<int>) { forall i :: 0 <= i < |counts| ==> counts[i] > 0 }

  lemma {:induction false} PrefixGrows(counts: seq<int>, i: nat, j: nat)
    requires i <= j <= |counts| && Positive(counts)
    ensures Prefix(counts, i) <= Prefix(counts, j) && (i < j ==> Prefix(counts, i) < Prefix(counts, j))
    decreases j
  {
    if i < j { PrefixGrows(counts, i, j - 1); }
  }

  /** The request that a row belongs to. */
  ghost predicate Owns(counts: seq<int>, i: nat, row: int) {
    i < |counts| && Prefix(counts, i) <= row < Prefix(counts, i + 1)
  }

  /** With positive counts every row has exactly one owner. */
  lemma OneOwner(counts: seq<int>, i: nat, j: nat, row: int)
    requires Positive(counts) && Owns(counts, i, row) && Owns(counts, j, row)
    ensures i == j
  {
    if i < j { PrefixGrows(counts, i + 1, j); }
    if j < i { PrefixGrows(counts, j + 1, i); }
  }

  lemma {:induction false} SomeOwner(counts: seq<int>, n: nat, row: int) returns (i: nat)
    requires Positive(counts) && n <= |counts| && 0 <= row < Prefix(counts, n)
    ensures i < n && Owns(counts, i, row)
  {
    if row >= Prefix(counts, n - 1) { i := n - 1; } else { i := SomeOwner(counts, n - 1, row); }
  }

  /** The value of the slot of the i-th request of the batch; a request without slot has none. */
  function Own(mirror: map<int, real>, slots: seq<int>, i: nat): Option<real> {
    if i < |slots| && slots[i] >= 0 && slots[i] in mirror then Some(mirror[slots[i]]) else None
  }

  function OwnOr(mirror: map<int, real>, slots: seq<int>, i: nat, base: real): real {
    if Own(mirror, slots, i).Some? then Own(mirror, slots, i).value else base
  }

  method Total(counts: seq<int>) returns (n: int)
    ensures n == Prefix(counts, |counts|)
  {
    n := 0;
    var i := 0;
    while i < |counts|
      invariant 0 <= i <= |counts| && n == Prefix(counts, i)
    {
      n := n + counts[i];
      i := i + 1;
    }
  }

  /** The first request without tokens; the expansion gets no further. */
  function Stop(counts: seq<int>): (z: nat)
    ensures z <= |counts| && (forall i :: 0 <= i < z ==> counts[i] > 0) && (z < |counts| ==> counts[z] <= 0)
  {
    if counts == [] || counts[0] <= 0 then 0 else 1 + Stop(counts[1..])
  }

  /** The row has the value of its owner, if that comes before the first request without tokens; the rows from there on
      have the common value. */
  ghost predicate Expanded(
    mirror: map<int, real>, slots: seq<int>, counts: seq<int>, base: real, row: int, value: real)
  {
    && (forall i: nat :: i < Stop(counts) && Owns(counts, i, row) ==> value == OwnOr(mirror, slots, i, base))
    && (row >= Prefix(counts, Stop(counts)) ==> value == base)
  }

  /** The row has the value of its owner. */
  ghost predicate Exact(
    mirror: map<int, real>, slots: seq<int>, counts: seq<int>, base: real, row: int, value: real)
  {
    forall i: nat :: i < |counts| && Owns(counts, i, row) ==> value == OwnOr(mirror, slots, i, base)
  }

  lemma FrontGrows(counts: seq<int>, z: nat, i: nat, j: nat)
    requires i <= j <= z <= |counts| && forall k :: 0 <= k < z ==> counts[k] > 0
    ensures Prefix(counts, i) <= Prefix(counts, j)
  {
    PrefixOfFront(counts, z, i);
    PrefixOfFront(counts, z, j);
    PrefixGrows(counts[..z], i, j);
  }

  /** Prefix sums of the requests before the stop grow, so each of their rows has one owner. */
  lemma OneOwnerBefore(counts: seq<int>, z: nat, i: nat, j: nat, row: int)
    requires z <= |counts| && (forall k :: 0 <= k < z ==> counts[k] > 0)
    requires i < z && j < z && Owns(counts, i, row) && Owns(counts, j, row)
    ensures i == j
  {
    var front := counts[..z];
    PrefixOfFront(counts, z, i);
    PrefixOfFront(counts, z, i + 1);
    PrefixOfFront(counts, z, j);
    PrefixOfFront(counts, z, j + 1);
    OneOwner(front, i, j, row);
  }

  lemma {:induction false} PrefixOfFront(counts: seq<int>, z: nat, i: nat)
    requires i <= z <= |counts|
    ensures Prefix(counts[..z], i) == Prefix(counts, i)
  {
    if i > 0 { PrefixOfFront(counts, z, i - 1); }
  }

  lemma OwnerBefore(counts: seq<int>, z: nat, row: int) returns (i: nat)
    requires z <= |counts| && (forall k :: 0 <= k < z ==> counts[k] > 0) && 0 <= row < Prefix(counts, z)
    ensures i < z && Owns(counts, i, row)
  {
    PrefixOfFront(counts, z, z);
    i := SomeOwner(counts[..z], z, row);
    PrefixOfFront(counts, z, i);
    PrefixOfFront(counts, z, i + 1);
  }

  /** That leaves no choice: a row has one value. */
  lemma ExpandedIsOneValue(
    mirror: map<int, real>, slots: seq<int>, counts: seq<int>, base: real, row: nat, v: real, w: real)
    requires Expanded(mirror, slots, counts, base, row, v) && Expanded(mirror, slots, counts, base, row, w)
    ensures v == w
  {
    if row < Prefix(counts, Stop(counts)) {
      var i := OwnerBefore(counts, Stop(counts), row);
    }
  }

  /** Runs of equal values, one for each request, until the rows are used up or a request has none. */
  method Expand(mirror: map<int, real>, slots: seq<int>, counts: seq<int>, base: real, n: nat)
    returns (per: array<real>, touched: bool)
    ensures fresh(per) && per.Length == n
    ensures forall row :: 0 <= row < n ==> Expanded(mirror, slots, counts, base, row, per[row])
    ensures !touched ==> forall row :: 0 <= row < n ==> per[row] == base
  {
    per := new real[n](_ => base);
    touched := false;
    ghost var z := Stop(counts);
    var off, i := 0, 0;
    while i < |counts|
      invariant 0 <= i <= z && 0 <= off <= n && off <= Prefix(counts, i)
      invariant off < n ==> off == Prefix(counts, i)
      invariant forall row :: off <= row < n ==> per[row] == base
      invariant forall row, j: nat :: 0 <= row < off && j < z && Owns(counts, j, row) ==>
        per[row] == OwnOr(mirror, slots, j, base)
      invariant !touched ==> forall row :: 0 <= row < n ==> per[row] == base
    {
      var c := Min(counts[i], n - off);
      if c <= 0 { break; }
      var own := Own(mirror, slots, i);
      if own.Some? {
        forall row | off <= row < off + c { per[row] := own.value; }
        touched := true;
      }
      forall row, j: nat | off <= row < off + c && j < z && Owns(counts, j, row)
        ensures per[row] == OwnOr(mirror, slots, j, base)
      {
        assert Owns(counts, i, row);
        OneOwnerBefore(counts, z, i, j, row);
      }
      off, i := off + c, i + 1;
    }
    assert off == n || i == z;
    FrontGrows(counts, z, i, z);
    forall row | 0 <= row < n ensures Expanded(mirror, slots, counts, base, row, per[row]) {
      forall j: nat | j < z && Owns(counts, j, row) ensures per[row] == OwnOr(mirror, slots, j, base) {
        FrontGrows(counts, z, j + 1, z);
      }
    }
  }

  /** Some rows of a request behind the stop are in the batch, and they should have another value. */
  ghost predicate CutShort(mirror: map<int, real>, slots: seq<int>, counts: seq<int>, base: real, n: nat) {
    exists i :: Stop(counts) <= i < |counts| && counts[i] > 0 && Prefix(counts, i) < n
        && OwnOr(mirror, slots, i, base) != base
  }

  lemma {:induction false} NonNegativeGrows(counts: seq<int>, i: nat, j: nat)
    requires i <= j <= |counts| && forall k :: 0 <= k < |counts| ==> counts[k] >= 0
    ensures 0 <= Prefix(counts, i) <= Prefix(counts, j)
    decreases j
  {
    if i < j {
      NonNegativeGrows(counts, i, j - 1);
    } else if j > 0 {
      NonNegativeGrows(counts, i - 1, j - 1);
    }
  }

  /** Without negative counts, all rows have their owner's value exactly if no request behind the first one without
      tokens is cut short. */
  lemma ExactIff(mirror: map<int, real>, slots: seq<int>, counts: seq<int>, base: real, per: seq<real>)
    requires forall k :: 0 <= k < |counts| ==> counts[k] >= 0
    requires forall row :: 0 <= row < |per| ==> Expanded(mirror, slots, counts, base, row, per[row])
    ensures (forall row :: 0 <= row < |per| ==> Exact(mirror, slots, counts, base, row, per[row]))
            <==> !CutShort(mirror, slots, counts, base, |per|)
  {
    var z := Stop(counts);
    if CutShort(mirror, slots, counts, base, |per|) {
      var i: nat :| z <= i < |counts| && counts[i] > 0 && Prefix(counts, i) < |per|
        && OwnOr(mirror, slots, i, base) != base;
      NonNegativeGrows(counts, z, i);
      var row := Prefix(counts, i);
      assert Owns(counts, i, row);
      assert Expanded(mirror, slots, counts, base, row, per[row]);
      assert !Exact(mirror, slots, counts, base, row, per[row]);
    } else {
      forall row, i: nat | 0 <= row < |per| && i < |counts| && Owns(counts, i, row)
        ensures per[row] == OwnOr(mirror, slots, i, base)
      {
        assert Expanded(mirror, slots, counts, base, row, per[row]);
        if i >= z { NonNegativeGrows(counts, z, i); }
      }
    }
  }

  /** With positive counts nothing is cut short. */
  lemma PositiveIsExact(mirror: map<int, real>, slots: seq<int>, counts: seq<int>, base: real, row: int, value: real)
    requires Positive(counts) && Expanded(mirror, slots, counts, base, row, value)
    ensures Exact(mirror, slots, counts, base, row, value)
  {
    assert Stop(counts) == |counts|;
  }

  /** A first request without tokens ends the expansion: the second one's rows do not get its value. */
  method ZeroCountEndsEarly(mirror: map<int, real>, base: real) returns (first: real)
    requires 7 in mirror && mirror[7] != base
    ensures first == base && Own(mirror, [3, 7], 1) == Some(mirror[7]) && Owns([0, 2], 1, 0)
    ensures !Exact(mirror, [3, 7], [0, 2], base, 0, first)
  {
    var per, touched := Expand(mirror, [3, 7], [0, 2], base, 2);
    first := per[0];
    assert Prefix([0, 2], 1) == 0 && Prefix([0, 2], 2) == 2;
    assert Expanded(mirror, [3, 7], [0, 2], base, 0, first);
    assert Owns([0, 2], 1, 0) && OwnOr(mirror, [3, 7], 1, base) == mirror[7];
  }

  /** The rows to fill: those of the batch, or fewer if the caller says how many there are in fact. */
  function RowsOf(counts: seq<int>, rows: Option<nat>): (n: int)
    ensures n <= Prefix(counts, |counts|) && (rows.Some? ==> n <= rows.value)
    ensures n == Prefix(counts, |counts|) || rows == Some(n)
  {
    var total := Prefix(counts, |counts|);
    if rows.Some? then Min(total, rows.value) else total
  }

  /** What the buffer holds after it was filled for a batch: its rows as expanded, and the common value behind; that
      value everywhere if there is no batch, it has no rows or it does not fit. */
  ghost predicate Filled(tok: seq<real>, mirror: map<int, real>, slots: Option<seq<int>>,
      counts: Option<seq<int>>, base: real, rows: Option<nat>)
  {
    if slots == None || counts == None || RowsOf(counts.value, rows) > |tok|
    then forall row :: 0 <= row < |tok| ==> tok[row] == base
    else forall row :: 0 <= row < |tok| ==>
      if row < RowsOf(counts.value, rows) then Expanded(mirror, slots.value, counts.value, base, row, tok[row])
      else tok[row] == base
  }

  /** The buffer that the graphs read, and the value for all tokens that was set last. */
  class Buffer {
    const tok: array<real>
    var value: real

    constructor (rows: nat, value: real)
      ensures tok.Length == rows && this.value == value && fresh(tok)
      ensures forall row :: 0 <= row < rows ==> tok[row] == value
    {
      tok := new real[rows](_ => value);
      this.value := value;
    }

    method Fill(base: real)
      modifies tok
      ensures forall row :: 0 <= row < tok.Length ==> tok[row] == base
    {
      forall row | 0 <= row < tok.Length { tok[row] := base; }
    }

    method FillNeutral(common: Option<real>)
      modifies tok
      ensures forall row :: 0 <= row < tok.Length ==> tok[row] == if common.Some? then common.value else value
    {
      Fill(if common.Some? then common.value else value);
    }

    /** Fills the buffer for a batch. */
    method FillTarget(mirror: map<int, real>, slots: Option<seq<int>>, counts: Option<seq<int>>,
        common: Option<real>, rows: Option<nat>)
      modifies tok
      ensures Filled(tok[..], mirror, slots, counts, if common.Some? then common.value else value, rows)
    {
      var base := if common.Some? then common.value else value;
      Fill(base);
      if slots == None || counts == None { return; }
      var n := Total(counts.value);
      if n <= 0 { return; }
      if rows.Some? { n := Min(n, rows.value); }
      var per, touched := Expand(mirror, slots.value, counts.value, base, n);
      if !touched {
        forall row | 0 <= row < n && row < tok.Length
          ensures Expanded(mirror, slots.value, counts.value, base, row, tok[row])
        {
          assert per[row] == base;
        }
        return;
      }
      if n > tok.Length { return; }
      forall row | 0 <= row < n { tok[row] := per[row]; }
    }
  }

  // ---------------------------------------------------------------- slots

  /** The requests' slots, each slot's value and its mirror. `given` is history: the value each request came with. */
  datatype State = State(
    slotOf: map<nat, nat>, lambdas: seq<Option<real>>, mirror: map<int, real>, given: map<nat, Option<real>>)

  function Empty(slots: nat): State { State(map[], seq(slots, _ => None), map[], map[]) }

  function WithValue(lambdas: seq<Option<real>>, i: nat, lam: Option<real>): seq<Option<real>> {
    if i < |lambdas| then lambdas[i := lam] else lambdas
  }

  /** RefusalState.add_request(): the mirror is only touched for a request that brings a value. */
  function SlotAdded(s: State, i: nat, lam: Option<real>): State {
    if i >= |s.lambdas| then s
    else s.(lambdas := s.lambdas[i := lam], mirror := if lam.Some? then s.mirror[i as int := lam.value] else s.mirror)
  }

  function SlotRemoved(s: State, i: nat): State {
    s.(lambdas := WithValue(s.lambdas, i, None), mirror := s.mirror - {i as int})
  }

  function Removed(s: State, id: nat): State {
    if id !in s.slotOf then s
    else SlotRemoved(s, s.slotOf[id]).(slotOf := s.slotOf - {id}, given := s.given - {id})
  }

  function RemovedAll(s: State, ids: seq<nat>): State {
    if ids == [] then s else Removed(RemovedAll(s, ids[..|ids| - 1]), ids[|ids| - 1])
  }

  /** A request comes in, perhaps again: its old slot is freed first, then it gets any free one. */
  function Added(s: State, id: nat, slot: nat, lam: Option<real>): State {
    var s1 := Removed(s, id);
    SlotAdded(s1, slot, lam).(slotOf := s1.slotOf[id := slot], given := s1.given[id := lam])
  }

  predicate Free(s: State, slot: nat) { slot < |s.lambdas| && forall id :: id in s.slotOf ==> s.slotOf[id] != slot }

  datatype Event = Add(id: nat, slot: nat, lam: Option<real>) | Finish(ids: seq<nat>)

  function Apply(s: State, e: Event): State {
    match e
    case Add(id, slot, lam) => Added(s, id, slot, lam)
    case Finish(ids) => RemovedAll(s, ids)
  }

  predicate Enabled(s: State, e: Event) { e.Add? ==> Free(Removed(s, e.id), e.slot) }

  ghost predicate Mirrors(lambdas: seq<Option<real>>, mirror: map<int, real>) {
    && (forall i :: i in mirror <==> 0 <= i < |lambdas| && lambdas[i].Some?)
    && (forall i :: i in mirror ==> Some(mirror[i]) == lambdas[i])
  }

  /** A request's slot has the value the request came with. */
  ghost predicate Valued(s: State) {
    && s.given.Keys == s.slotOf.Keys
    && forall id :: id in s.slotOf ==> s.slotOf[id] < |s.lambdas| && s.lambdas[s.slotOf[id]] == s.given[id]
  }

  ghost predicate OneEach(slotOf: map<nat, nat>) {
    forall a, b :: a in slotOf && b in slotOf && a != b ==> slotOf[a] != slotOf[b]
  }

  ghost predicate Clean(s: State) {
    forall i: nat :: Free(s, i) ==> s.lambdas[i] == None
  }

  /** Each slot has at most one request and the value it came with, and a free slot has none. */
  ghost predicate Kept(s: State) { Valued(s) && OneEach(s.slotOf) && Clean(s) }

  ghost predicate Inv(s: State) { Mirrors(s.lambdas, s.mirror) && Kept(s) }

  lemma SlotRemovedMirrors(s: State, i: nat)
    requires Mirrors(s.lambdas, s.mirror)
    ensures Mirrors(SlotRemoved(s, i).lambdas, SlotRemoved(s, i).mirror)
  {
  }

  lemma FreeAfterLeaving(s: State, t: State, id: nat, i: nat)
    requires Free(t, i) && id in s.slotOf && t.slotOf == s.slotOf - {id} && |t.lambdas| == |s.lambdas|
    ensures i == s.slotOf[id] || Free(s, i)
  {
    if i != s.slotOf[id] {
      forall o | o in s.slotOf ensures s.slotOf[o] != i {
        if o != id { assert o in t.slotOf && t.slotOf[o] == s.slotOf[o]; }
      }
    }
  }

  lemma LeftIsKept(s: State, t: State, id: nat)
    requires Kept(s) && id in s.slotOf && t.slotOf == s.slotOf - {id} && t.given == s.given - {id}
    requires t.lambdas == WithValue(s.lambdas, s.slotOf[id], None)
    ensures Kept(t)
  {
    forall i: nat | Free(t, i) ensures t.lambdas[i] == None { FreeAfterLeaving(s, t, id, i); }
    forall o | o in t.slotOf ensures t.slotOf[o] < |t.lambdas| && t.lambdas[t.slotOf[o]] == t.given[o] {
      assert o in s.slotOf && s.slotOf[o] != s.slotOf[id];
    }
    forall x, y | x in t.slotOf && y in t.slotOf && x != y ensures t.slotOf[x] != t.slotOf[y] {
      assert s.slotOf[x] != s.slotOf[y];
    }
  }

  lemma RemovedKeeps(s: State, id: nat)
    requires Inv(s)
    ensures Inv(Removed(s, id))
    ensures |Removed(s, id).lambdas| == |s.lambdas| && id !in Removed(s, id).slotOf
  {
    if id in s.slotOf {
      SlotRemovedMirrors(s, s.slotOf[id]);
      LeftIsKept(s, Removed(s, id), id);
    }
  }

  lemma {:induction false} RemovedAllKeeps(s: State, ids: seq<nat>)
    requires Inv(s)
    ensures Inv(RemovedAll(s, ids)) && |RemovedAll(s, ids).lambdas| == |s.lambdas|
  {
    if ids != [] {
      RemovedAllKeeps(s, ids[..|ids| - 1]);
      RemovedKeeps(RemovedAll(s, ids[..|ids| - 1]), ids[|ids| - 1]);
    }
  }

  /** In a free slot nothing is left of whoever had it before. */
  lemma FreeSlotIsClean(s: State, slot: nat)
    requires Inv(s) && Free(s, slot)
    ensures s.lambdas[slot] == None && slot as int !in s.mirror
  {
  }

  lemma SlotAddedMirrors(s: State, i: nat, lam: Option<real>)
    requires Mirrors(s.lambdas, s.mirror) && i < |s.lambdas| && s.lambdas[i] == None
    ensures Mirrors(SlotAdded(s, i, lam).lambdas, SlotAdded(s, i, lam).mirror)
  {
  }

  lemma FreeAfterEntering(s: State, t: State, id: nat, slot: nat, i: nat)
    requires Free(t, i) && id !in s.slotOf && t.slotOf == s.slotOf[id := slot] && |t.lambdas| == |s.lambdas|
    ensures Free(s, i) && i != slot
  {
    assert t.slotOf[id] == slot;
    forall o | o in s.slotOf ensures s.slotOf[o] != i { assert o in t.slotOf && t.slotOf[o] == s.slotOf[o]; }
  }

  lemma EnteredIsClean(s: State, t: State, id: nat, slot: nat, lam: Option<real>)
    requires Clean(s) && id !in s.slotOf && Free(s, slot)
    requires t.slotOf == s.slotOf[id := slot] && t.lambdas == s.lambdas[slot := lam]
    ensures Clean(t)
  {
    forall i: nat | Free(t, i) ensures t.lambdas[i] == None { FreeAfterEntering(s, t, id, slot, i); }
  }

  lemma EnteredIsOneEach(slotOf: map<nat, nat>, id: nat, slot: nat)
    requires OneEach(slotOf) && id !in slotOf && forall o :: o in slotOf ==> slotOf[o] != slot
    ensures OneEach(slotOf[id := slot])
  {
  }

  lemma EnteredIsValued(s: State, t: State, id: nat, slot: nat, lam: Option<real>)
    requires Valued(s) && id !in s.slotOf && Free(s, slot)
    requires t.slotOf == s.slotOf[id := slot] && t.given == s.given[id := lam] && t.lambdas == s.lambdas[slot := lam]
    ensures Valued(t)
  {
    forall o | o in t.slotOf ensures t.slotOf[o] < |t.lambdas| && t.lambdas[t.slotOf[o]] == t.given[o] {
      if o != id { assert s.slotOf[o] != slot; }
    }
  }

  lemma EnteredIsKept(s: State, t: State, id: nat, slot: nat, lam: Option<real>)
    requires Kept(s) && id !in s.slotOf && Free(s, slot)
    requires t.slotOf == s.slotOf[id := slot] && t.given == s.given[id := lam] && t.lambdas == s.lambdas[slot := lam]
    ensures Kept(t)
  {
    EnteredIsClean(s, t, id, slot, lam);
    EnteredIsOneEach(s.slotOf, id, slot);
    EnteredIsValued(s, t, id, slot, lam);
  }

  lemma AddedKeeps(s: State, id: nat, slot: nat, lam: Option<real>)
    requires Inv(s) && Free(Removed(s, id), slot)
    ensures Inv(Added(s, id, slot, lam))
  {
    var s1 := Removed(s, id);
    RemovedKeeps(s, id);
    FreeSlotIsClean(s1, slot);
    SlotAddedMirrors(s1, slot, lam);
    EnteredIsKept(s1, Added(s, id, slot, lam), id, slot, lam);
  }

  /** The request has left and its slot holds nothing; every other request and every other slot is as before. */
  lemma RemovedIs(s: State, id: nat, i: nat)
    requires Inv(s) && i < |s.lambdas|
    ensures var t, its := Removed(s, id), id in s.slotOf && s.slotOf[id] == i;
      && t.slotOf == s.slotOf - {id} && t.given == s.given - {id} && |t.lambdas| == |s.lambdas|
      && t.lambdas[i] == (if its then None else s.lambdas[i])
      && (i as int in t.mirror <==> i as int in s.mirror && !its)
      && (i as int in t.mirror ==> t.mirror[i as int] == s.mirror[i as int])
  {
    if id !in s.slotOf {
      assert s.slotOf - {id} == s.slotOf && s.given - {id} == s.given;
    }
  }

  /** A request of those that finish has this slot. */
  ghost predicate HadBy(s: State, ids: seq<nat>, i: nat) {
    exists k :: 0 <= k < |ids| && ids[k] in s.slotOf && s.slotOf[ids[k]] == i
  }

  lemma HadByOneMore(s: State, ids: seq<nat>, id: nat, i: nat)
    ensures HadBy(s, ids + [id], i) <==> HadBy(s, ids, i) || (id in s.slotOf && s.slotOf[id] == i)
  {
    var all := ids + [id];
    assert all[|ids|] == id;
    if HadBy(s, ids, i) {
      var k :| 0 <= k < |ids| && ids[k] in s.slotOf && s.slotOf[ids[k]] == i;
      assert all[k] == ids[k];
    }
  }

  /** Finished and preempted requests leave, their slots hold nothing, and nobody else loses anything. */
  lemma {:induction false} FinishedAreGone(s: State, ids: seq<nat>, i: nat)
    requires Inv(s) && i < |s.lambdas|
    ensures var t := RemovedAll(s, ids);
      && Inv(t) && |t.lambdas| == |s.lambdas|
      && (forall id :: id in t.slotOf <==> id in s.slotOf && id !in ids)
      && (forall id :: id in t.slotOf ==> t.slotOf[id] == s.slotOf[id])
      && t.lambdas[i] == if HadBy(s, ids, i) then None else s.lambdas[i]
  {
    if ids != [] {
      var front, id := ids[..|ids| - 1], ids[|ids| - 1];
      var t := RemovedAll(s, front);
      assert ids == front + [id];
      FinishedAreGone(s, front, i);
      RemovedIs(t, id, i);
      RemovedKeeps(t, id);
      HadByOneMore(s, front, id, i);
      if id in s.slotOf && s.slotOf[id] == i && id !in t.slotOf {
        var k :| 0 <= k < |front| && front[k] == id;
        assert HadBy(s, front, i);
      }
    }
  }

  lemma PutBack<V>(m: map<nat, V>, id: nat, v: V)
    ensures (m - {id})[id := v] == m[id := v]
  {
  }

  /** A request that comes in has the slot and what it came with; every other request keeps both. */
  lemma AddedIs(s: State, id: nat, slot: nat, lam: Option<real>)
    ensures Added(s, id, slot, lam).slotOf == s.slotOf[id := slot]
    ensures Added(s, id, slot, lam).given == s.given[id := lam]
  {
    PutBack(s.slotOf, id, slot);
    PutBack(s.given, id, lam);
  }

  ghost predicate IsRun(ss: seq<State>, es: seq<Event>) {
    && |ss| == |es| + 1 && ss[0] == Empty(|ss[0].lambdas|)
    && forall i :: 0 <= i < |es| ==> Enabled(ss[i], es[i]) && ss[i + 1] == Apply(ss[i], es[i])
  }

  lemma {:induction false} RunKeeps(ss: seq<State>, es: seq<Event>, n: nat)
    requires IsRun(ss, es) && n < |ss|
    ensures Inv(ss[n])
  {
    if n > 0 {
      RunKeeps(ss, es, n - 1);
      match es[n - 1]
      case Add(id, slot, lam) => AddedKeeps(ss[n - 1], id, slot, lam);
      case Finish(ids) => RemovedAllKeeps(ss[n - 1], ids);
    }
  }

  /** In every run of additions, finishes and preemptions, a live request's slot has the value the request came with,
      and none if it came with none, whoever had the slot before. */
  lemma NobodyInherits(ss: seq<State>, es: seq<Event>, n: nat, slots: seq<int>, i: nat, id: nat)
    requires IsRun(ss, es) && n < |ss| && id in ss[n].slotOf && i < |slots| && slots[i] == ss[n].slotOf[id]
    ensures id in ss[n].given && Own(ss[n].mirror, slots, i) == ss[n].given[id]
  {
    RunKeeps(ss, es, n);
  }

  /** From the life of a request to its rows: once the buffer is filled for a batch that fits, each row of a live
      request that no request without tokens precedes has the value the request came with, or the common one. */
  lemma RowsFollowRequests(
    ss: seq<State>, es: seq<Event>, n: nat, slots: seq<int>, counts: seq<int>, base: real, rows: Option<nat>,
    tok: seq<real>, i: nat, id: nat, row: nat)
    requires IsRun(ss, es) && n < |ss| && id in ss[n].slotOf && i < |slots| && slots[i] == ss[n].slotOf[id]
    requires Filled(tok, ss[n].mirror, Some(slots), Some(counts), base, rows) && RowsOf(counts, rows) <= |tok|
    requires i < Stop(counts) && Owns(counts, i, row) && row < RowsOf(counts, rows)
    ensures id in ss[n].given && tok[row] == if ss[n].given[id].Some? then ss[n].given[id].value else base
  {
    NobodyInherits(ss, es, n, slots, i, id);
    assert Expanded(ss[n].mirror, slots, counts, base, row, tok[row]);
  }

  /** And each row of the batch before the first request without tokens is such a row: for a batch of live requests, it
      belongs to one of them, and has its value or the common one. */
  lemma EveryRowFollowsOne(
    ss: seq<State>, es: seq<Event>, n: nat, ids: seq<nat>, slots: seq<int>, counts: seq<int>, base: real,
    rows: Option<nat>, tok: seq<real>, row: nat)
    returns (i: nat)
    requires IsRun(ss, es) && n < |ss| && |ids| == |slots| == |counts|
    requires forall j :: 0 <= j < |ids| ==> ids[j] in ss[n].slotOf && slots[j] == ss[n].slotOf[ids[j]]
    requires Filled(tok, ss[n].mirror, Some(slots), Some(counts), base, rows) && RowsOf(counts, rows) <= |tok|
    requires row < RowsOf(counts, rows) && row < Prefix(counts, Stop(counts))
    ensures i < |ids| && Owns(counts, i, row) && ids[i] in ss[n].given
    ensures tok[row] == if ss[n].given[ids[i]].Some? then ss[n].given[ids[i]].value else base
  {
    i := OwnerBefore(counts, Stop(counts), row);
    RowsFollowRequests(ss, es, n, slots, counts, base, rows, tok, i, ids[i], row);
  }

  /** On its own, adding to a slot keeps the mirror right exactly if the request brings a value or the slot has none. */
  lemma SlotAddedMirrorsIff(s: State, i: nat, lam: Option<real>)
    requires i < |s.lambdas|
    requires forall j :: j in s.mirror <==> 0 <= j < |s.lambdas| && s.lambdas[j].Some?
    requires forall j :: j in s.mirror ==> Some(s.mirror[j]) == s.lambdas[j]
    ensures var t := SlotAdded(s, i, lam);
      (forall j :: j in t.mirror <==> 0 <= j < |t.lambdas| && t.lambdas[j].Some?)
      <==> lam.Some? || s.lambdas[i] == None
  {
    var t := SlotAdded(s, i, lam);
    if lam == None && s.lambdas[i].Some? {
      assert i as int in t.mirror && t.lambdas[i] == None;
    }
  }

  /** The runner's tables in place. */
  class SlotTable {
    var slotOf: map<nat, nat>
    const lambdas: array<Option<real>>
    var mirror: map<int, real>
    ghost var given: map<nat, Option<real>>

    ghost function View(): State
      reads this, lambdas
    {
      State(slotOf, lambdas[..], mirror, given)
    }

    constructor (slots: nat)
      ensures View() == Empty(slots) && fresh(lambdas)
    {
      lambdas := new Option<real>[slots](_ => None);
      slotOf, mirror, given := map[], map[], map[];
      new;
      assert lambdas[..] == Empty(slots).lambdas;
    }

    method AddToSlot(i: nat, lam: Option<real>)
      modifies this`mirror, lambdas
      ensures View() == SlotAdded(old(View()), i, lam)
    {
      if i >= lambdas.Length { return; }
      lambdas[i] := lam;
      if lam.Some? { mirror := mirror[i as int := lam.value]; }
    }

    method RemoveFromSlot(i: nat)
      modifies this`mirror, lambdas
      ensures View() == SlotRemoved(old(View()), i)
    {
      if i < lambdas.Length { lambdas[i] := None; }
      mirror := mirror - {i as int};
    }

    method RemoveRequest(id: nat) returns (found: bool)
      modifies this, lambdas
      ensures View() == Removed(old(View()), id) && found == (id in old(slotOf))
    {
      found := id in slotOf;
      if found {
        var slot := slotOf[id];
        slotOf, given := slotOf - {id}, given - {id};
        RemoveFromSlot(slot);
      }
    }

    method AddRequest(id: nat, slot: nat, lam: Option<real>)
      modifies this, lambdas
      ensures View() == Added(old(View()), id, slot, lam)
    {
      var again := RemoveRequest(id);
      slotOf, given := slotOf[id := slot], given[id := lam];
      AddToSlot(slot, lam);
    }

    method FinishRequests(ids: seq<nat>)
      modifies this, lambdas
      ensures View() == RemovedAll(old(View()), ids)
    {
      var k := 0;
      while k < |ids|
        invariant 0 <= k <= |ids| && View() == RemovedAll(old(View()), ids[..k])
      {
        assert ids[..k + 1][..k] == ids[..k];
        var found := RemoveRequest(ids[k]);
        k := k + 1;
      }
      assert ids[..k] == ids;
    }
  }
}
