/** Finding the captured graph for a batch: the table from token counts to candidates, the table from adapter counts to
    captured cases, and the lookup. */
module CudaGraphIndex {
  import opened Arithmetic
  import opened Wrappers

  datatype Mode = Full | Piecewise | NoGraph

  /** The shape a graph was captured for; an absent part does not constrain the batch. */
  datatype Desc = Desc(
    mode: Mode, tokens: nat, reqs: Option<nat>, uniform: Option<nat>, maxQuery: Option<nat>, loras: int, ubatches: nat)

  datatype Batch = Batch(reqs: nat, tokens: nat, uniform: Option<nat>, loras: int, maxQuery: Option<nat>, ubatches: nat)

  predicate Compatible(d: Desc, b: Batch, loras: int) {
    && (d.uniform == None || d.uniform == b.uniform)
    && (d.maxQuery == None || (b.maxQuery.Some? && d.maxQuery.value >= b.maxQuery.value))
    && (d.reqs == None || d.reqs.value >= b.reqs)
    && d.tokens >= b.tokens && d.loras == loras && d.ubatches == b.ubatches
  }

  // ---------------------------------------------------------------- what a graph can serve

  function Sum(lengths: seq<nat>): nat {
    if lengths == [] then 0 else Sum(lengths[..|lengths| - 1]) + lengths[|lengths| - 1]
  }

  /** What the caller tells of the requests' query lengths: their number and sum, and, if at all, their maximum and
      the one length they all have. */
  ghost predicate Tells(b: Batch, lengths: seq<nat>) {
    && b.reqs == |lengths| && b.tokens == Sum(lengths)
    && (b.maxQuery.Some? ==> b.maxQuery.value in lengths && forall n :: n in lengths ==> n <= b.maxQuery.value)
    && (b.uniform.Some? ==> lengths != [] && forall n :: n in lengths ==> n == b.uniform.value)
  }

  /** The graph was captured for the batch's adapters and microbatches, and takes its requests: it has room for all of
      them and for their tokens; if it bounds a query, none is longer, and the caller has told the longest; and if it
      is for one length, all have it, and the caller has told. */
  ghost predicate Takes(d: Desc, b: Batch, lengths: seq<nat>, loras: int) {
    && d.loras == loras && d.ubatches == b.ubatches
    && Sum(lengths) <= d.tokens && (d.reqs.Some? ==> |lengths| <= d.reqs.value)
    && (d.maxQuery.Some? ==> b.maxQuery.Some? && forall n :: n in lengths ==> n <= d.maxQuery.value)
    && (d.uniform.Some? ==> b.uniform.Some? && forall n :: n in lengths ==> n == d.uniform.value)
  }

  lemma CompatibleIff(d: Desc, b: Batch, lengths: seq<nat>, loras: int)
    requires Tells(b, lengths)
    ensures Compatible(d, b, loras) <==> Takes(d, b, lengths, loras)
  {
    if b.uniform.Some? { assert lengths[0] in lengths; }
  }

  // ---------------------------------------------------------------- candidates by token count

  ghost predicate Ascending(ds: seq<Desc>) {
    forall i, j :: 0 <= i < j < |ds| ==> ds[i].tokens <= ds[j].tokens
  }

  /** The graphs of one adapter case, in order. */
  function OfLora(ds: seq<Desc>, loras: int): (r: seq<Desc>)
    ensures forall d :: d in r <==> d in ds && d.loras == loras
  {
    if ds == [] then []
    else
      assert ds == ds[..|ds| - 1] + [ds[|ds| - 1]];
      OfLora(ds[..|ds| - 1], loras) + (if ds[|ds| - 1].loras == loras then [ds[|ds| - 1]] else [])
  }

  /** Choosing keeps order and number: it works piece by piece. */
  lemma {:induction false} OfLoraSplits(a: seq<Desc>, b: seq<Desc>, loras: int)
    ensures OfLora(a + b, loras) == OfLora(a, loras) + OfLora(b, loras)
  {
    if b == [] {
      assert a + b == a;
    } else {
      var last := |b| - 1;
      assert (a + b)[..|a + b| - 1] == a + b[..last];
      OfLoraSplits(a, b[..last], loras);
    }
  }

  lemma {:induction false} OfLoraAscends(ds: seq<Desc>, loras: int)
    requires Ascending(ds)
    ensures Ascending(OfLora(ds, loras))
  {
    if ds != [] {
      var front, d := ds[..|ds| - 1], ds[|ds| - 1];
      OfLoraAscends(front, loras);
      var r := OfLora(front, loras);
      forall i | 0 <= i < |r| ensures r[i].tokens <= d.tokens {
        assert r[i] in front;
      }
    }
  }

  /** How many graphs at the front are too small for `n` tokens. */
  function TooSmall(ds: seq<Desc>, n: nat): (k: nat)
    ensures k <= |ds| && forall i :: 0 <= i < k ==> ds[i].tokens < n
    ensures k < |ds| ==> ds[k].tokens >= n
  {
    if ds == [] || ds[0].tokens >= n then 0
    else
      assert forall i :: 0 <= i < |ds[1..]| ==> ds[1..][i] == ds[i + 1];
      1 + TooSmall(ds[1..], n)
  }

  /** All graphs of the least size that holds `n` tokens. */
  function Group(ds: seq<Desc>, n: nat): seq<Desc> {
    var k := TooSmall(ds, n);
    if k == |ds| then [] else ds[k..Max(k, TooSmall(ds, ds[k].tokens + 1))]
  }

  lemma GroupSlice(ds: seq<Desc>, n: nat, k: nat, end: nat)
    requires Ascending(ds) && k == TooSmall(ds, n) < |ds| && end == TooSmall(ds, ds[k].tokens + 1)
    ensures k < end && Group(ds, n) == ds[k..end]
    ensures forall i :: k <= i < end ==> ds[i].tokens == ds[k].tokens
  {
  }

  lemma GroupHolds(ds: seq<Desc>, n: nat, i: nat)
    requires Ascending(ds) && i < |ds| && ds[i].tokens >= n
    requires forall e :: e in ds && e.tokens >= n ==> ds[i].tokens <= e.tokens
    ensures ds[i] in Group(ds, n)
  {
    var k := TooSmall(ds, n);
    assert k <= i && ds[k] in ds;
    var end := TooSmall(ds, ds[k].tokens + 1);
    GroupSlice(ds, n, k, end);
    assert ds[i].tokens == ds[k].tokens && i < end;
    assert ds[k..end][i - k] == ds[i];
  }

  lemma NoneSmaller(ds: seq<Desc>, n: nat, k: nat, e: Desc)
    requires Ascending(ds) && k == TooSmall(ds, n) && e in ds && e.tokens >= n
    ensures k < |ds| && ds[k].tokens <= e.tokens
  {
    var j :| 0 <= j < |ds| && ds[j] == e;
    assert k <= j;
  }

  lemma GroupHoldsOnly(ds: seq<Desc>, n: nat, i: nat)
    requires Ascending(ds) && i < |Group(ds, n)|
    ensures var d := Group(ds, n)[i];
      d in ds && d.tokens >= n && forall e :: e in ds && e.tokens >= n ==> d.tokens <= e.tokens
  {
    var k := TooSmall(ds, n);
    var end := TooSmall(ds, ds[k].tokens + 1);
    GroupSlice(ds, n, k, end);
    assert ds[k..end][i] == ds[k + i];
    forall e | e in ds && e.tokens >= n ensures ds[k].tokens <= e.tokens { NoneSmaller(ds, n, k, e); }
  }

  /** The group is what it is meant to be: the graphs that hold the tokens and than which none that does is smaller. */
  lemma GroupIs(ds: seq<Desc>, n: nat, d: Desc)
    requires Ascending(ds)
    ensures d in Group(ds, n)
            <==> d in ds && d.tokens >= n && forall e :: e in ds && e.tokens >= n ==> d.tokens <= e.tokens
  {
    if d in Group(ds, n) {
      var i :| 0 <= i < |Group(ds, n)| && Group(ds, n)[i] == d;
      GroupHoldsOnly(ds, n, i);
    } else if d in ds && d.tokens >= n && forall e :: e in ds && e.tokens >= n ==> d.tokens <= e.tokens {
      var i :| 0 <= i < |ds| && ds[i] == d;
      GroupHolds(ds, n, i);
    }
  }

  type Table = map<(nat, int), seq<Desc>>

  function Get(t: Table, n: nat, loras: int): seq<Desc> {
    if (n, loras) in t then t[(n, loras)] else []
  }

  lemma SizeIs(ds: seq<Desc>, n: nat, k: nat)
    requires Ascending(ds) && k <= |ds|
    requires (k > 0 ==> ds[k - 1].tokens < n) && (k < |ds| ==> ds[k].tokens >= n)
    ensures TooSmall(ds, n) == k
  {
    assert forall i :: 0 <= i < k ==> ds[i].tokens <= ds[k - 1].tokens;
  }

  /** The table has got the groups for all counts below `start`, and nothing else, since it was `t`. */
  ghost predicate Extended(t: Table, t': Table, ds: seq<Desc>, loras: int, start: nat) {
    forall n: nat, l: int {:trigger Get(t', n, l)} ::
        Get(t', n, l) == Get(t, n, l) + (if l == loras && n < start then Group(ds, n) else [])
  }

  ghost predicate RangeFilled(t: Table, t': Table, from: nat, until: nat, loras: int, group: seq<Desc>) {
    forall n: nat, l: int :: Get(t', n, l) == Get(t, n, l) + (if l == loras && from <= n < until then group else [])
  }

  /** Appends a group to the candidates of a range of token counts. */
  method FillRange(t: Table, from: nat, until: nat, loras: int, group: seq<Desc>) returns (t': Table)
    requires from <= until
    ensures RangeFilled(t, t', from, until, loras, group)
  {
    t' := t;
    var i := from;
    while i < until
      invariant from <= i <= until && RangeFilled(t, t', from, i, loras, group)
    {
      t' := t'[(i, loras) := Get(t', i, loras) + group];
      i := i + 1;
    }
  }

  lemma OneGroup(ds: seq<Desc>, start: nat, k: nat, end: nat, n: nat)
    requires Ascending(ds) && TooSmall(ds, start) == k < |ds| && k < end <= |ds|
    requires forall i :: k <= i < end ==> ds[i].tokens == ds[k].tokens
    requires end < |ds| ==> ds[end].tokens != ds[k].tokens
    requires start <= n <= ds[k].tokens
    ensures Group(ds, n) == ds[k..end]
    ensures TooSmall(ds, ds[k].tokens + 1) == end
  {
    assert end < |ds| ==> ds[k].tokens <= ds[end].tokens;
    SizeIs(ds, ds[k].tokens + 1, end);
    assert k > 0 ==> ds[k - 1].tokens < n;
    SizeIs(ds, n, k);
    GroupSlice(ds, n, k, end);
  }

  /** One entry, before and after a group was appended to some. */
  lemma OneMoreEntry(before: seq<Desc>, middle: seq<Desc>, after: seq<Desc>, group: seq<Desc>, had: bool, now: bool)
    requires !(had && now) && middle == before + (if had then group else [])
    requires after == middle + (if now then group else [])
    ensures after == before + (if had || now then group else [])
  {
  }

  lemma ExtendedAt(t: Table, t1: Table, t2: Table, ds: seq<Desc>, loras: int, start: nat, until: nat, n: nat, l: int)
    requires start <= until && Extended(t, t1, ds, loras, start)
    requires Get(t2, n, l) == Get(t1, n, l) + (if l == loras && start <= n < until then Group(ds, n) else [])
    ensures Get(t2, n, l) == Get(t, n, l) + (if l == loras && n < until then Group(ds, n) else [])
  {
    var had, now := l == loras && n < start, l == loras && start <= n < until;
    OneMoreEntry(Get(t, n, l), Get(t1, n, l), Get(t2, n, l), Group(ds, n), had, now);
  }

  lemma ExtendedByRange(t: Table, t1: Table, t2: Table, ds: seq<Desc>, loras: int, start: nat, until: nat,
      group: seq<Desc>)
    requires start <= until && Extended(t, t1, ds, loras, start) && RangeFilled(t1, t2, start, until, loras, group)
    requires forall n: nat :: start <= n < until ==> Group(ds, n) == group
    ensures Extended(t, t2, ds, loras, until)
  {
    forall n: nat, l: int
      ensures Get(t2, n, l) == Get(t, n, l) + (if l == loras && n < until then Group(ds, n) else [])
    {
      ExtendedAt(t, t1, t2, ds, loras, start, until, n, l);
    }
  }

  method GroupEnd(ds: seq<Desc>, k: nat) returns (end: nat)
    requires k < |ds|
    ensures k < end <= |ds| && forall i :: k <= i < end ==> ds[i].tokens == ds[k].tokens
    ensures end < |ds| ==> ds[end].tokens != ds[k].tokens
  {
    end := k + 1;
    while end < |ds| && ds[end].tokens == ds[k].tokens
      invariant k < end <= |ds| && forall i :: k <= i < end ==> ds[i].tokens == ds[k].tokens
    {
      end := end + 1;
    }
  }

  lemma GroupOfRange(ds: seq<Desc>, start: nat, k: nat, end: nat)
    requires Ascending(ds) && TooSmall(ds, start) == k < |ds| && k < end <= |ds|
    requires forall i :: k <= i < end ==> ds[i].tokens == ds[k].tokens
    requires end < |ds| ==> ds[end].tokens != ds[k].tokens
    ensures start <= ds[k].tokens && TooSmall(ds, ds[k].tokens + 1) == end
    ensures forall n: nat :: start <= n < ds[k].tokens + 1 ==> Group(ds, n) == ds[k..end]
  {
    forall n: nat | start <= n <= ds[k].tokens ensures Group(ds, n) == ds[k..end] { OneGroup(ds, start, k, end, n); }
    OneGroup(ds, start, k, end, ds[k].tokens);
  }

  lemma GroupAdded(t: Table, t1: Table, t2: Table, ds: seq<Desc>, loras: int, start: nat, k: nat, end: nat)
    requires Ascending(ds) && TooSmall(ds, start) == k < |ds| && k < end <= |ds|
    requires forall i :: k <= i < end ==> ds[i].tokens == ds[k].tokens
    requires end < |ds| ==> ds[end].tokens != ds[k].tokens
    requires Extended(t, t1, ds, loras, start) && RangeFilled(t1, t2, start, ds[k].tokens + 1, loras, ds[k..end])
    ensures Extended(t, t2, ds, loras, ds[k].tokens + 1) && TooSmall(ds, ds[k].tokens + 1) == end
  {
    GroupOfRange(ds, start, k, end);
    ExtendedByRange(t, t1, t2, ds, loras, start, ds[k].tokens + 1, ds[k..end]);
  }

  ghost predicate CaseAdded(t: Table, t': Table, ds: seq<Desc>, loras: int) {
    forall n: nat, l: int {:trigger Get(t', n, l)} ::
        Get(t', n, l) == Get(t, n, l) + (if l == loras then Group(ds, n) else [])
  }

  lemma ExtendedToTheEnd(t: Table, t': Table, ds: seq<Desc>, loras: int, start: nat)
    requires Ascending(ds) && Extended(t, t', ds, loras, start) && TooSmall(ds, start) == |ds|
    ensures CaseAdded(t, t', ds, loras)
  {
    forall n: nat | n >= start ensures Group(ds, n) == [] {
      if ds != [] { assert ds[|ds| - 1].tokens < start; }
      SizeIs(ds, n, |ds|);
    }
  }

  /** Adds the group that begins at `k`, for the counts it covers. */
  method AddGroup(t: Table, ds: seq<Desc>, loras: int, start: nat, k: nat, ghost t0: Table)
      returns (t': Table, end: nat)
    requires Ascending(ds) && TooSmall(ds, start) == k < |ds| && Extended(t0, t, ds, loras, start)
    ensures k < end <= |ds| && Extended(t0, t', ds, loras, ds[k].tokens + 1) && TooSmall(ds, ds[k].tokens + 1) == end
  {
    end := GroupEnd(ds, k);
    t' := FillRange(t, start, ds[k].tokens + 1, loras, ds[k..end]);
    GroupAdded(t0, t, t', ds, loras, start, k, end);
  }

  /** Adds the graphs of one mode and adapter case: each group covers the counts down to the next smaller one. */
  method AddCase(t: Table, ds: seq<Desc>, loras: int) returns (t': Table)
    requires Ascending(ds)
    ensures CaseAdded(t, t', ds, loras)
  {
    t' := t;
    var start: nat, k := 0, 0;
    while k < |ds|
      invariant 0 <= k <= |ds| && TooSmall(ds, start) == k && Extended(t, t', ds, loras, start)
    {
      var tokens := ds[k].tokens;
      t', k := AddGroup(t', ds, loras, start, k, t);
      start := tokens + 1;
    }
    ExtendedToTheEnd(t, t', ds, loras, start);
  }

  ghost predicate ModeAdded(t: Table, t': Table, ds: seq<Desc>, cases: seq<int>) {
    forall n: nat, l: int {:trigger Get(t', n, l)} ::
        Get(t', n, l) == Get(t, n, l) + (if l in cases then Group(OfLora(ds, l), n) else [])
  }

  lemma OneMoreCaseAt(t: Table, t1: Table, t2: Table, ds: seq<Desc>, cases: seq<int>, loras: int, n: nat, l: int)
    requires ModeAdded(t, t1, ds, cases) && CaseAdded(t1, t2, OfLora(ds, loras), loras) && loras !in cases
    ensures Get(t2, n, l) == Get(t, n, l) + (if l in cases || l == loras then Group(OfLora(ds, l), n) else [])
  {
    var group := Group(OfLora(ds, l), n);
    assert Get(t1, n, l) == Get(t, n, l) + (if l in cases then group else []);
    assert Get(t2, n, l) == Get(t1, n, l) + (if l == loras then group else []);
    OneMoreEntry(Get(t, n, l), Get(t1, n, l), Get(t2, n, l), group, l in cases, l == loras);
  }

  lemma OneMoreCase(t: Table, t1: Table, t2: Table, ds: seq<Desc>, cases: seq<int>, i: nat)
    requires i < |cases| && forall i, j :: 0 <= i < j < |cases| ==> cases[i] != cases[j]
    requires ModeAdded(t, t1, ds, cases[..i]) && CaseAdded(t1, t2, OfLora(ds, cases[i]), cases[i])
    ensures ModeAdded(t, t2, ds, cases[..i + 1])
  {
    var done := cases[..i + 1];
    assert done == cases[..i] + [cases[i]];
    forall n: nat, l: int
        ensures Get(t2, n, l) == Get(t, n, l) + (if l in done then Group(OfLora(ds, l), n) else []) {
      OneMoreCaseAt(t, t1, t2, ds, cases[..i], cases[i], n, l);
    }
  }

  lemma NoCaseYet(t: Table, ds: seq<Desc>)
    ensures ModeAdded(t, t, ds, [])
  {
  }

  /** Adds the graphs of one mode, for each of the captured adapter cases. */
  method AddMode(t: Table, ds: seq<Desc>, cases: seq<int>) returns (t': Table)
    requires Ascending(ds) && forall i, j :: 0 <= i < j < |cases| ==> cases[i] != cases[j]
    ensures ModeAdded(t, t', ds, cases)
  {
    t' := t;
    var i := 0;
    NoCaseYet(t, ds);
    while i < |cases|
      invariant 0 <= i <= |cases| && ModeAdded(t, t', ds, cases[..i])
    {
      OfLoraAscends(ds, cases[i]);
      var t1 := AddCase(t', OfLora(ds, cases[i]), cases[i]);
      OneMoreCase(t, t', t1, ds, cases, i);
      t', i := t1, i + 1;
    }
    assert cases[..i] == cases;
  }

  /** The candidates: for each count and case, the least full graphs that hold it, then the least piecewise ones. */
  ghost function Candidates(full: seq<Desc>, piecewise: seq<Desc>, cases: seq<int>, n: nat, loras: int): seq<Desc> {
    if loras in cases then Group(OfLora(full, loras), n) + Group(OfLora(piecewise, loras), n) else []
  }

  ghost predicate IsTable(t: Table, full: seq<Desc>, piecewise: seq<Desc>, cases: seq<int>) {
    forall n: nat, l: int :: Get(t, n, l) == Candidates(full, piecewise, cases, n, l)
  }

  lemma BothModes(t1: Table, t2: Table, full: seq<Desc>, piecewise: seq<Desc>, cases: seq<int>)
    requires ModeAdded(map[], t1, full, cases) && ModeAdded(t1, t2, piecewise, cases)
    ensures IsTable(t2, full, piecewise, cases)
  {
    forall n: nat, l: int ensures Get(t2, n, l) == Candidates(full, piecewise, cases, n, l) {
      var a, b := Group(OfLora(full, l), n), Group(OfLora(piecewise, l), n);
      var none: Table := map[];
      assert Get(none, n, l) == [];
      assert Get(t1, n, l) == Get(none, n, l) + (if l in cases then a else []);
      assert Get(t2, n, l) == Get(t1, n, l) + (if l in cases then b else []);
      if l in cases {
        assert Get(t1, n, l) == a;
      } else {
        assert Get(t1, n, l) == [];
      }
    }
  }

  method InitCandidates(full: seq<Desc>, piecewise: seq<Desc>, cases: seq<int>) returns (t: Table)
    requires Ascending(full) && Ascending(piecewise) && forall i, j :: 0 <= i < j < |cases| ==> cases[i] != cases[j]
    ensures IsTable(t, full, piecewise, cases)
  {
    var t1 := AddMode(map[], full, cases);
    t := AddMode(t1, piecewise, cases);
    BothModes(t1, t, full, piecewise, cases);
  }

  // ---------------------------------------------------------------- adapter cases

  predicate Sorted(s: seq<int>) { forall i, j :: 0 <= i < j < |s| ==> s[i] <= s[j] }

  function Insert(x: int, s: seq<int>): (r: seq<int>)
    requires Sorted(s)
    ensures Sorted(r) && r != [] && forall y :: y in r <==> y == x || y in s
  {
    if s == [] then [x]
    else if x <= s[0] then [x] + s
    else
      assert s == [s[0]] + s[1..];
      var r := Insert(x, s[1..]);
      HeadIsLeast(s);
      SortedBehind(s[0], r);
      [s[0]] + r
  }

  lemma HeadIsLeast(s: seq<int>)
    requires Sorted(s) && s != []
    ensures forall y :: y in s[1..] ==> s[0] <= y
  {
  }

  lemma SortedBehind(x: int, s: seq<int>)
    requires Sorted(s) && forall y :: y in s ==> x <= y
    ensures Sorted([x] + s)
  {
    forall i | 0 <= i < |s| ensures x <= s[i] { assert s[i] in s; }
  }

  /** The captured cases with adapters, in order. */
  function Positive(cases: seq<int>): (r: seq<int>)
    ensures Sorted(r) && forall c :: c in r <==> c in cases && c > 0
  {
    if cases == [] then []
    else
      assert cases == [cases[0]] + cases[1..];
      if cases[0] > 0 then Insert(cases[0], Positive(cases[1..])) else Positive(cases[1..])
  }

  /** The least case that serves `n` adapters. */
  ghost predicate Serves(captured: seq<int>, n: int, c: int) {
    c in captured && c >= n && forall d :: d in captured && d >= n ==> c <= d
  }

  ghost predicate IsLoraMap(captured: seq<int>, m: map<int, int>, most: int) {
    && most == (if captured == [] then 0 else captured[|captured| - 1])
    && (forall n :: n in m <==> 1 <= n <= most)
    && (forall n :: n in m ==> Serves(captured, n, m[n]))
  }

  method NextCase(captured: seq<int>, n: int, k0: nat) returns (k: nat)
    requires Sorted(captured) && k0 < |captured| && n <= captured[|captured| - 1]
    requires forall i :: 0 <= i < k0 ==> captured[i] < n
    ensures k < |captured| && forall i :: 0 <= i < k ==> captured[i] < n
    ensures Serves(captured, n, captured[k])
  {
    k := k0;
    while captured[k] < n
      invariant k < |captured| && forall i :: 0 <= i < k ==> captured[i] < n
      decreases |captured| - k
    {
      k := k + 1;
    }
  }

  method BuildLoraMap(cases: seq<int>) returns (m: map<int, int>, most: int)
    ensures IsLoraMap(Positive(cases), m, most)
  {
    var captured := Positive(cases);
    if captured == [] { return map[], 0; }
    m, most := map[], captured[|captured| - 1];
    assert most in captured;
    var n, k := 1, 0;
    while n <= most
      invariant 1 <= n <= most + 1 && 0 <= k < |captured|
      invariant forall i :: 0 <= i < k ==> captured[i] < n
      invariant forall j :: j in m <==> 1 <= j < n
      invariant forall j :: j in m ==> Serves(captured, j, m[j])
    {
      k := NextCase(captured, n, k);
      m := m[n := captured[k]];
      n := n + 1;
    }
  }

  function Resolve(m: map<int, int>, most: int, loras: int): int {
    if loras <= 0 || m == map[] then loras else if loras in m then m[loras] else most
  }

  /** What a number of adapters is served by: itself if there are none or none are captured, the least case that is
      large enough, or the largest. */
  ghost predicate Resolved(cases: seq<int>, loras: int, r: int) {
    if loras <= 0 || forall c :: c in cases ==> c <= 0 then r == loras
    else if exists c :: c in cases && c >= loras
    then r in cases && r >= loras && forall c :: c in cases && c >= loras ==> r <= c
    else r in cases && forall c :: c in cases ==> c <= r
  }

  lemma ResolveNone(cases: seq<int>, m: map<int, int>, most: int, loras: int)
    requires Positive(cases) == [] && IsLoraMap([], m, most)
    ensures Resolved(cases, loras, Resolve(m, most, loras))
  {
    assert m == map[] by { assert forall n :: n !in m; }
    forall c | c in cases ensures c <= 0 { assert c > 0 ==> c in Positive(cases); }
  }

  lemma ResolveIs(cases: seq<int>, m: map<int, int>, most: int, loras: int)
    requires IsLoraMap(Positive(cases), m, most)
    ensures Resolved(cases, loras, Resolve(m, most, loras))
  {
    var captured := Positive(cases);
    if captured == [] {
      ResolveNone(cases, m, most, loras);
    } else if loras > 0 {
      assert most in captured && 1 in m && forall c :: c in captured ==> c <= most;
      ResolveCaptured(cases, captured, m, most, loras);
    }
  }

  lemma ResolveCaptured(cases: seq<int>, captured: seq<int>, m: map<int, int>, most: int, loras: int)
    requires IsLoraMap(captured, m, most) && most in captured && 1 in m && loras > 0
    requires forall c :: c in captured <==> c in cases && c > 0
    requires forall c :: c in captured ==> c <= most
    ensures Resolved(cases, loras, Resolve(m, most, loras))
  {
    if loras in m {
      assert Serves(captured, loras, m[loras]);
    } else {
      assert forall c :: c in cases ==> c < loras && c <= most;
    }
  }

  // ---------------------------------------------------------------- lookup

  function NoGraphFor(b: Batch, loras: int): Desc {
    Desc(NoGraph, b.tokens, Some(b.reqs), None, None, loras, b.ubatches)
  }

  /** The first candidate that is compatible. */
  method Dispatch(t: Table, m: map<int, int>, most: int, captured: bool, b: Batch) returns (d: Desc)
    ensures var loras := Resolve(m, most, b.loras);
      var candidates := Get(t, b.tokens, loras);
      if captured && b.tokens > 0 && Finds(t, b, loras)
        then Found(candidates, b, loras, d) else d == NoGraphFor(b, loras)
    ensures var loras := Resolve(m, most, b.loras);
      forall lengths :: Tells(b, lengths) ==>
        if captured && b.tokens > 0 && Finds(t, b, loras) then Takes(d, b, lengths, loras)
        else d == Desc(NoGraph, Sum(lengths), Some(|lengths|), None, None, loras, b.ubatches)
  {
    var loras := Resolve(m, most, b.loras);
    if captured && b.tokens > 0 && (b.tokens, loras) in t {
      var candidates, i := t[(b.tokens, loras)], 0;
      while i < |candidates|
        invariant 0 <= i <= |candidates| && forall j :: 0 <= j < i ==> !Compatible(candidates[j], b, loras)
      {
        if Compatible(candidates[i], b, loras) {
          assert candidates[i] in Get(t, b.tokens, loras);
          forall lengths | Tells(b, lengths) ensures Takes(candidates[i], b, lengths, loras) {
            CompatibleIff(candidates[i], b, lengths, loras);
          }
          return candidates[i];
        }
        i := i + 1;
      }
    }
    d := NoGraphFor(b, loras);
  }

  /** What the lookup may return: a candidate such that none before it is compatible. */
  ghost predicate Found(cs: seq<Desc>, b: Batch, loras: int, d: Desc) {
    exists i :: 0 <= i < |cs| && cs[i] == d && Compatible(d, b, loras)
      && forall j :: 0 <= j < i ==> !Compatible(cs[j], b, loras)
  }

  ghost predicate OfMode(ds: seq<Desc>, mode: Mode) { forall d :: d in ds ==> d.mode == mode }

  lemma LeastOfMode(ds: seq<Desc>, loras: int, b: Batch, d: Desc)
    requires Ascending(ds) && d in Group(OfLora(ds, loras), b.tokens)
    ensures d in ds && forall e :: e in ds && Compatible(e, b, loras) ==> d.tokens <= e.tokens
  {
    OfLoraAscends(ds, loras);
    GroupIs(OfLora(ds, loras), b.tokens, d);
  }

  lemma FoundWhere(front: seq<Desc>, back: seq<Desc>, b: Batch, loras: int, d: Desc)
    requires Found(front + back, b, loras, d)
    ensures d in front || (d in back && forall e :: e in front ==> !Compatible(e, b, loras))
  {
    var cs := front + back;
    var i :| 0 <= i < |cs| && cs[i] == d && Compatible(d, b, loras)
      && forall j :: 0 <= j < i ==> !Compatible(cs[j], b, loras);
    if i >= |front| {
      forall e | e in front ensures !Compatible(e, b, loras) {
        var j :| 0 <= j < |front| && front[j] == e;
        assert cs[j] == e;
      }
    }
  }

  /** What is found was captured and takes the requests, and no smaller graph of its mode that takes them was captured.
      A piecewise graph is only found if no full graph of the least size takes them. */
  lemma FoundIsLeast(
    full: seq<Desc>, piecewise: seq<Desc>, cases: seq<int>, b: Batch, lengths: seq<nat>, loras: int, d: Desc)
    requires Ascending(full) && Ascending(piecewise) && OfMode(full, Full) && OfMode(piecewise, Piecewise)
    requires Tells(b, lengths)
    ensures Found(Candidates(full, piecewise, cases, b.tokens, loras), b, loras, d) ==>
      && Takes(d, b, lengths, loras) && d.mode != NoGraph && (d in full || d in piecewise)
      && (forall e :: (e in full || e in piecewise) && e.mode == d.mode && Takes(e, b, lengths, loras) ==>
          d.tokens <= e.tokens)
      && (d.mode == Piecewise ==> forall e :: LeastThatHolds(full, b, loras, e) ==> !Takes(e, b, lengths, loras))
  {
    var front, back := Group(OfLora(full, loras), b.tokens), Group(OfLora(piecewise, loras), b.tokens);
    forall e ensures Compatible(e, b, loras) <==> Takes(e, b, lengths, loras) { CompatibleIff(e, b, lengths, loras); }
    forall e ensures e in front <==> LeastThatHolds(full, b, loras, e) { GroupOfLoraIs(full, loras, b, e); }
    if Found(Candidates(full, piecewise, cases, b.tokens, loras), b, loras, d) {
      FoundWhere(front, back, b, loras, d);
      if d in front { LeastOfMode(full, loras, b, d); } else { LeastOfMode(piecewise, loras, b, d); }
    }
  }

  /** A captured graph of the case that holds the batch's tokens, and no smaller one of its mode does. */
  ghost predicate LeastThatHolds(ds: seq<Desc>, b: Batch, loras: int, d: Desc) {
    && d in ds && d.loras == loras && d.tokens >= b.tokens
    && forall e :: e in ds && e.loras == loras && e.tokens >= b.tokens ==> d.tokens <= e.tokens
  }

  lemma GroupOfLoraIs(ds: seq<Desc>, loras: int, b: Batch, d: Desc)
    requires Ascending(ds)
    ensures d in Group(OfLora(ds, loras), b.tokens) <==> LeastThatHolds(ds, b, loras, d)
  {
    OfLoraAscends(ds, loras);
    GroupIs(OfLora(ds, loras), b.tokens, d);
  }

  ghost predicate Finds(t: Table, b: Batch, loras: int) {
    exists d :: d in Get(t, b.tokens, loras) && Compatible(d, b, loras)
  }

  /** With the table of the captured graphs, the lookup finds one exactly if some captured graph takes the requests and
      is of the least size of its mode and case that holds the tokens. */
  lemma FindsIff(
    t: Table, full: seq<Desc>, piecewise: seq<Desc>, cases: seq<int>, b: Batch, lengths: seq<nat>, loras: int)
    requires Ascending(full) && Ascending(piecewise) && IsTable(t, full, piecewise, cases) && loras in cases
    requires Tells(b, lengths)
    ensures Finds(t, b, loras) <==>
              exists d :: Takes(d, b, lengths, loras)
                  && (LeastThatHolds(full, b, loras, d) || LeastThatHolds(piecewise, b, loras, d))
  {
    var cs := Get(t, b.tokens, loras);
    assert cs == Candidates(full, piecewise, cases, b.tokens, loras);
    forall d ensures d in cs <==> LeastThatHolds(full, b, loras, d) || LeastThatHolds(piecewise, b, loras, d) {
      GroupOfLoraIs(full, loras, b, d);
      GroupOfLoraIs(piecewise, loras, b, d);
    }
    forall d ensures Compatible(d, b, loras) <==> Takes(d, b, lengths, loras) { CompatibleIff(d, b, lengths, loras); }
  }

  ghost predicate ServedBy(ds: seq<Desc>, b: Batch, lengths: seq<nat>, loras: int) {
    exists d :: d in ds && Takes(d, b, lengths, loras)
  }

  /** Captured graphs would do and none is found exactly if one takes the requests, and each that does has a smaller
      graph of its mode and case in front of it that holds the tokens. */
  lemma MissesIff(
    t: Table, full: seq<Desc>, piecewise: seq<Desc>, cases: seq<int>, b: Batch, lengths: seq<nat>, loras: int)
    requires Ascending(full) && Ascending(piecewise) && IsTable(t, full, piecewise, cases) && loras in cases
    requires Tells(b, lengths)
    ensures (ServedBy(full, b, lengths, loras) || ServedBy(piecewise, b, lengths, loras)) && !Finds(t, b, loras) <==>
              && (ServedBy(full, b, lengths, loras) || ServedBy(piecewise, b, lengths, loras))
              && (forall d :: d in full && Takes(d, b, lengths, loras) ==> Shadowed(full, b, loras, d))
              && (forall d :: d in piecewise && Takes(d, b, lengths, loras) ==> Shadowed(piecewise, b, loras, d))
  {
    FindsIff(t, full, piecewise, cases, b, lengths, loras);
    forall d, ds | (ds == full || ds == piecewise) && d in ds && Takes(d, b, lengths, loras)
      ensures LeastThatHolds(ds, b, loras, d) <==> !Shadowed(ds, b, loras, d)
    {
    }
  }

  /** A smaller captured graph of the same case holds the tokens too. */
  ghost predicate Shadowed(ds: seq<Desc>, b: Batch, loras: int, d: Desc) {
    exists e :: e in ds && e.loras == loras && b.tokens <= e.tokens < d.tokens
  }

  /** Two graphs for uniform batches: the smaller holds the tokens but is for another query length, the larger would
      take the two requests of three tokens. */
  lemma LargerGraphIsMissed()
    ensures var small := Desc(Full, 8, Some(4), Some(2), None, 0, 1);
      var large := Desc(Full, 9, Some(3), Some(3), None, 0, 1);
      var b := Batch(2, 6, Some(3), 0, None, 1);
      && Tells(b, [3, 3]) && Takes(large, b, [3, 3], 0)
      && Candidates([small, large], [], [0], 6, 0) == [small] && !Takes(small, b, [3, 3], 0)
  {
    var small, large := Desc(Full, 8, Some(4), Some(2), None, 0, 1), Desc(Full, 9, Some(3), Some(3), None, 0, 1);
    assert [3, 3][..1] == [3] && [3][..0] == [];
    assert 3 in [3, 3];
    OnlyTheSmaller(small, large, 6);
  }

  lemma OnlyTheSmaller(small: Desc, large: Desc, n: nat)
    requires small.loras == large.loras && n <= small.tokens < large.tokens
    ensures Candidates([small, large], [], [small.loras], n, small.loras) == [small]
  {
    var ds, loras := [small, large], small.loras;
    assert ds[..1] == [small] && [small][..0] == [];
    assert OfLora([], loras) == [] && OfLora([small], loras) == [small];
    assert OfLora(ds, loras) == ds;
    SizeIs(ds, n, 0);
    SizeIs(ds, small.tokens + 1, 1);
    assert Group(ds, n) == [small];
  }

  /** A graph that bounds a query is kept from a batch with a longer one. */
  lemma PrefillIsNotADecode(b: Batch, lengths: seq<nat>, d: Desc, loras: int)
    requires Tells(b, lengths) && d.maxQuery.Some? && exists n :: n in lengths && n > d.maxQuery.value
    ensures !Compatible(d, b, loras)
  {
    CompatibleIff(d, b, lengths, loras);
  }
}
