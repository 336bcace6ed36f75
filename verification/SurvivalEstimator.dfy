/** Estimates behind the choice of a speculation depth: how likely each draft position is accepted, what a step of each
    depth costs, and what it is expected to yield. */
module SurvivalEstimator {

  /** A step that verified `depth` drafts for each request, and how many of them each accepted. */
  datatype Record = Record(depth: nat, accepted: seq<int>)

  // ---------------------------------------------------------------- counting

  /** The observations that say something about position `j`: it was verified, and all before it were accepted. */
  ghost function Exposed(records: seq<Record>, j: nat): set<(nat, nat)> {
    set r: nat, i: nat | r < |records| && i < |records[r].accepted| && j < records[r].depth
        && records[r].accepted[i] >= j
      :: (r, i)
  }

  /** Those of them in which position `j` was accepted. */
  ghost function Hit(records: seq<Record>, j: nat): set<(nat, nat)> {
    set r: nat, i: nat | r < |records| && i < |records[r].accepted| && j < records[r].depth
        && records[r].accepted[i] > j
      :: (r, i)
  }

  function CountIn(accepted: seq<int>, least: int): nat {
    if accepted == [] then 0
    else CountIn(accepted[..|accepted| - 1], least) + (if accepted[|accepted| - 1] >= least then 1 else 0)
  }

  function Exposures(records: seq<Record>, j: nat): nat {
    if records == [] then 0
    else
      var last := records[|records| - 1];
      Exposures(records[..|records| - 1], j) + (if j < last.depth then CountIn(last.accepted, j) else 0)
  }

  function Hits(records: seq<Record>, j: nat): nat {
    if records == [] then 0
    else
      var last := records[|records| - 1];
      Hits(records[..|records| - 1], j) + (if j < last.depth then CountIn(last.accepted, j + 1) else 0)
  }

  ghost function Reaching(accepted: seq<int>, least: int, r: nat): set<(nat, nat)> {
    set i: nat | i < |accepted| && accepted[i] >= least :: (r, i)
  }

  lemma {:induction false} CountIsCardinality(accepted: seq<int>, least: int, r: nat)
    ensures CountIn(accepted, least) == |Reaching(accepted, least, r)|
  {
    if accepted == [] {
      assert Reaching(accepted, least, r) == {};
    } else {
      var last := |accepted| - 1;
      CountIsCardinality(accepted[..last], least, r);
      assert Reaching(accepted, least, r)
             == Reaching(accepted[..last], least, r) + (if accepted[last] >= least then {(r, last)} else {});
    }
  }

  /** The counts are the numbers of observations. */
  lemma {:induction false} ExposuresCount(records: seq<Record>, j: nat)
    ensures Exposures(records, j) == |Exposed(records, j)|
  {
    if records == [] {
      assert Exposed(records, j) == {};
    } else {
      var n := |records| - 1;
      var front, last := records[..n], records[n];
      ExposuresCount(front, j);
      CountIsCardinality(last.accepted, j, n);
      var more := if j < last.depth then Reaching(last.accepted, j, n) else {};
      assert Exposed(records, j) == Exposed(front, j) + more;
      assert Exposed(front, j) !! more;
    }
  }

  lemma {:induction false} HitsCount(records: seq<Record>, j: nat)
    ensures Hits(records, j) == |Hit(records, j)|
  {
    if records == [] {
      assert Hit(records, j) == {};
    } else {
      var n := |records| - 1;
      var front, last := records[..n], records[n];
      HitsCount(front, j);
      CountIsCardinality(last.accepted, j + 1, n);
      var more := if j < last.depth then Reaching(last.accepted, j + 1, n) else {};
      assert Hit(records, j) == Hit(front, j) + more;
      assert Hit(front, j) !! more;
    }
  }

  lemma SmallerSet(a: set<(nat, nat)>, b: set<(nat, nat)>)
    requires a <= b
    ensures |a| <= |b|
  {
    assert b == a + (b - a);
  }

  /** A position is exposed no more often than the one before it is accepted, and that no more often than exposed. */
  lemma CountsAreNested(records: seq<Record>, j: nat)
    ensures Exposures(records, j + 1) <= Hits(records, j) <= Exposures(records, j)
  {
    ExposuresCount(records, j);
    ExposuresCount(records, j + 1);
    HitsCount(records, j);
    SmallerSet(Exposed(records, j + 1), Hit(records, j));
    SmallerSet(Hit(records, j), Exposed(records, j));
  }

  /** A step says nothing about positions it did not verify. */
  lemma Censored(records: seq<Record>, last: Record, j: nat)
    requires j >= last.depth
    ensures Exposures(records + [last], j) == Exposures(records, j) && Hits(records + [last], j) == Hits(records, j)
  {
    assert (records + [last])[..|records|] == records;
  }

  /** What the first `i` requests of a step add to the exposures, or hits if `least` is one more, of position `j`. */
  function Gain(record: Record, i: nat, j: nat, least: int): nat
    requires i <= |record.accepted|
  {
    if j < record.depth then CountIn(record.accepted[..i], least) else 0
  }

  lemma GainStep(record: Record, i: nat, j: nat, least: int)
    requires i < |record.accepted|
    ensures Gain(record, i + 1, j, least)
            == Gain(record, i, j, least) + (if j < record.depth && record.accepted[i] >= least then 1 else 0)
  {
    assert record.accepted[..i + 1][..i] == record.accepted[..i];
  }

  lemma RecordStep(records: seq<Record>, n: nat, j: nat)
    requires n < |records|
    ensures Exposures(records[..n + 1], j) == Exposures(records[..n], j) + Gain(records[n], |records[n].accepted|, j, j)
    ensures Hits(records[..n + 1], j) == Hits(records[..n], j) + Gain(records[n], |records[n].accepted|, j, j + 1)
  {
    assert records[..n + 1][..n] == records[..n];
    assert records[n].accepted[..|records[n].accepted|] == records[n].accepted;
  }

  /** The nested loops of estimates(). */
  method CountAcceptance(records: seq<Record>) returns (exposures: seq<nat>, hits: seq<nat>)
    requires forall r :: r in records ==> r.depth <= 4
    ensures |exposures| == |hits| == 4
    ensures forall j :: 0 <= j < 4 ==> exposures[j] == Exposures(records, j) && hits[j] == Hits(records, j)
  {
    exposures, hits := [0, 0, 0, 0], [0, 0, 0, 0];
    var n := 0;
    while n < |records|
      invariant 0 <= n <= |records| && |exposures| == |hits| == 4
      invariant forall j :: 0 <= j < 4 ==>
          exposures[j] == Exposures(records[..n], j) && hits[j] == Hits(records[..n], j)
    {
      forall j: nat | j < 4
        ensures Exposures(records[..n + 1], j) == exposures[j] + Gain(records[n], |records[n].accepted|, j, j)
        ensures Hits(records[..n + 1], j) == hits[j] + Gain(records[n], |records[n].accepted|, j, j + 1)
      {
        RecordStep(records, n, j);
      }
      exposures, hits := CountRecord(records[n], exposures, hits);
      n := n + 1;
    }
    assert records[..n] == records;
  }

  method CountRecord(record: Record, exposures0: seq<nat>, hits0: seq<nat>)
    returns (exposures: seq<nat>, hits: seq<nat>)
    requires |exposures0| == |hits0| == 4 && record.depth <= 4
    ensures |exposures| == |hits| == 4
    ensures forall j :: 0 <= j < 4 ==> exposures[j] == exposures0[j] + Gain(record, |record.accepted|, j, j)
    ensures forall j :: 0 <= j < 4 ==> hits[j] == hits0[j] + Gain(record, |record.accepted|, j, j + 1)
  {
    exposures, hits := exposures0, hits0;
    var i := 0;
    assert forall j, least :: Gain(record, 0, j, least) == 0;
    while i < |record.accepted|
      invariant 0 <= i <= |record.accepted| && |exposures| == |hits| == 4
      invariant forall j :: 0 <= j < 4 ==> exposures[j] == exposures0[j] + Gain(record, i, j, j)
      invariant forall j :: 0 <= j < 4 ==> hits[j] == hits0[j] + Gain(record, i, j, j + 1)
    {
      ghost var e0, h0 := exposures, hits;
      exposures, hits := CountRequest(record.depth, record.accepted[i], exposures, hits);
      forall j: nat | j < 4
        ensures exposures[j] == exposures0[j] + Gain(record, i + 1, j, j)
        ensures hits[j] == hits0[j] + Gain(record, i + 1, j, j + 1)
      {
        GainStep(record, i, j, j);
        GainStep(record, i, j, j + 1);
      }
      i := i + 1;
    }
  }

  method CountRequest(depth: nat, a: int, exposures0: seq<nat>, hits0: seq<nat>)
    returns (exposures: seq<nat>, hits: seq<nat>)
    requires |exposures0| == |hits0| == 4 && depth <= 4
    ensures |exposures| == |hits| == 4
    ensures forall j :: 0 <= j < 4 ==> exposures[j] == exposures0[j] + (if j < depth && a >= j then 1 else 0)
    ensures forall j :: 0 <= j < 4 ==> hits[j] == hits0[j] + (if j < depth && a > j then 1 else 0)
  {
    exposures, hits := exposures0, hits0;
    var j := 0;
    while j < depth
      invariant 0 <= j <= depth && |exposures| == |hits| == 4
      invariant forall m :: 0 <= m < 4 ==> exposures[m] == exposures0[m] + (if m < j && a >= m then 1 else 0)
      invariant forall m :: 0 <= m < 4 ==> hits[m] == hits0[m] + (if m < j && a > m then 1 else 0)
    {
      if a >= j {
        exposures := exposures[j := exposures[j] + 1];
        hits := hits[j := hits[j] + (if a > j then 1 else 0)];
      }
      j := j + 1;
    }
  }

  /** One more step of a single request bears on position `j` only if it verified the position and accepted all before
      it. */
  lemma OneMore(records: seq<Record>, depth: nat, a: int, j: nat)
    ensures var more := records + [Record(depth, [a])];
      && |Exposed(more, j)| == |Exposed(records, j)| + (if j < depth && a >= j then 1 else 0)
      && |Hit(more, j)| == |Hit(records, j)| + (if j < depth && a > j then 1 else 0)
  {
    var more, last := records + [Record(depth, [a])], (|records|, 0);
    assert Exposed(more, j) == Exposed(records, j) + (if j < depth && a >= j then {last} else {});
    assert Hit(more, j) == Hit(records, j) + (if j < depth && a > j then {last} else {});
  }

  // ---------------------------------------------------------------- the middle of some measurements

  predicate Ascending(s: seq<real>) { forall i, j :: 0 <= i < j < |s| ==> s[i] <= s[j] }

  function Insert(x: real, s: seq<real>): (r: seq<real>)
    ensures |r| == |s| + 1 && multiset(r) == multiset(s) + multiset{x}
  {
    if s == [] then [x]
    else if x <= s[0] then [x] + s
    else
      assert s == [s[0]] + s[1..];
      [s[0]] + Insert(x, s[1..])
  }

  lemma {:induction false} InsertAscends(x: real, s: seq<real>)
    requires Ascending(s)
    ensures Ascending(Insert(x, s))
  {
    if s != [] && x > s[0] {
      InsertAscends(x, s[1..]);
      OnTop(s[0], s[1..], x, Insert(x, s[1..]));
    }
  }

  lemma OnTop(least: real, s: seq<real>, x: real, t: seq<real>)
    requires Ascending([least] + s) && least <= x && Ascending(t) && multiset(t) == multiset(s) + multiset{x}
    ensures Ascending([least] + t)
  {
    forall i | 0 <= i < |t| ensures least <= t[i] {
      assert t[i] in multiset(t);
      if t[i] != x {
        var m :| 0 <= m < |s| && s[m] == t[i];
        assert ([least] + s)[0] <= ([least] + s)[m + 1];
      }
    }
  }

  function Sort(s: seq<real>): (r: seq<real>)
    ensures |r| == |s| && multiset(r) == multiset(s) && Ascending(r)
  {
    if s == [] then []
    else
      WithoutFirst(s);
      InsertAscends(s[0], Sort(s[1..]));
      Insert(s[0], Sort(s[1..]))
  }

  function Median(s: seq<real>): real
    requires s != []
  {
    var r, n := Sort(s), |s|;
    if n % 2 == 1 then r[n / 2] else (r[n / 2 - 1] + r[n / 2]) / 2.0
  }

  lemma SameLength(s: seq<real>, t: seq<real>)
    requires multiset(s) == multiset(t)
    ensures |s| == |t|
  {
    assert |s| == |multiset(s)| && |t| == |multiset(t)|;
  }

  lemma LeastFirst(s: seq<real>, t: seq<real>)
    requires s != [] && t != [] && Ascending(s) && multiset(s) == multiset(t)
    ensures s[0] <= t[0]
  {
    assert t[0] in multiset(t);
    assert t[0] in s;
  }

  lemma WithoutFirst(s: seq<real>)
    requires s != []
    ensures multiset(s[1..]) == multiset(s) - multiset{s[0]}
  {
    assert s == [s[0]] + s[1..];
  }

  lemma {:induction false} SortedOnce(s: seq<real>, t: seq<real>)
    requires Ascending(s) && Ascending(t) && multiset(s) == multiset(t)
    ensures s == t
  {
    SameLength(s, t);
    if s != [] {
      LeastFirst(s, t);
      LeastFirst(t, s);
      WithoutFirst(s);
      WithoutFirst(t);
      SortedOnce(s[1..], t[1..]);
    }
  }

  /** However the values are put in order, the median is halfway between the two in the middle, which are the same one
      if there is an odd number of them. */
  lemma MedianIs(s: seq<real>, t: seq<real>)
    requires s != [] && Ascending(t) && multiset(t) == multiset(s)
    ensures |t| == |s| && Median(s) == (t[(|s| - 1) / 2] + t[|s| / 2]) / 2.0
  {
    SortedOnce(Sort(s), t);
    TwoInTheMiddle(|s|);
  }

  lemma TwoInTheMiddle(n: nat)
    requires n > 0
    ensures (n - 1) / 2 == if n % 2 == 1 then n / 2 else n / 2 - 1
  {
  }

  lemma MedianIsPositive(s: seq<real>)
    requires s != [] && forall x :: x in s ==> x > 0.0
    ensures Median(s) > 0.0
  {
    var r := Sort(s);
    forall i | 0 <= i < |r| ensures r[i] > 0.0 {
      assert r[i] in multiset(r) && multiset(r) == multiset(s);
      assert r[i] in s;
    }
  }

  // ---------------------------------------------------------------- acceptance, cost, yield

  /** The estimate of each position's acceptance; without observations it stays what it was. */
  function Acceptance(records: seq<Record>, q: seq<real>, j: nat): real
    requires |q| == 4 && j < 4
  {
    if Exposures(records, j) > 0 then (Hits(records, j) as real + 0.5) / (Exposures(records, j) as real + 1.0) else q[j]
  }

  lemma AcceptanceIsProper(records: seq<Record>, q: seq<real>, j: nat)
    requires |q| == 4 && j < 4 && 0.0 < q[j] < 1.0
    ensures 0.0 < Acceptance(records, q, j) < 1.0
  {
    CountsAreNested(records, j);
    var h, e := Hits(records, j) as real, Exposures(records, j) as real;
    if Exposures(records, j) > 0 { Fraction(h + 0.5, e + 1.0); }
  }

  /** The estimate is halfway between the rates that one more observation, rejected or accepted, would give. So it is
      off the rate observed by at most half of one observation in one more than there are, and it is at least one half
      exactly if at least half of the observations are hits. */
  lemma AcceptanceIs(records: seq<Record>, q: seq<real>, j: nat)
    requires |q| == 4 && j < 4
    ensures var h, e, a := |Hit(records, j)|, |Exposed(records, j)|, Acceptance(records, q, j);
      if e == 0 then a == q[j]
      else
        && a == (h as real / (e + 1) as real + (h + 1) as real / (e + 1) as real) / 2.0
        && h as real / e as real - 0.5 / (e + 1) as real <= a <= h as real / e as real + 0.5 / (e + 1) as real
        && (a >= 0.5 <==> e <= 2 * h)
  {
    ExposuresCount(records, j);
    HitsCount(records, j);
    CountsAreNested(records, j);
    if Exposures(records, j) > 0 { Halfway(Hits(records, j) as real, Exposures(records, j) as real); }
  }

  /** One more observation of a position raises its estimate if the position was accepted and lowers it if it was
      not. */
  lemma OneMoreTells(records: seq<Record>, q: seq<real>, depth: nat, a: int, j: nat)
    requires |q| == 4 && j < 4 && Exposed(records, j) != {}
    ensures var before, after := Acceptance(records, q, j), Acceptance(records + [Record(depth, [a])], q, j);
      && (after > before <==> j < depth && a > j)
      && (after < before <==> j < depth && a == j)
  {
    var more := records + [Record(depth, [a])];
    OneMore(records, depth, a, j);
    ExposuresCount(records, j);
    ExposuresCount(more, j);
    HitsCount(records, j);
    HitsCount(more, j);
    CountsAreNested(records, j);
    Moves(Hits(records, j) as real, Exposures(records, j) as real);
  }

  lemma Moves(h: real, e: real)
    requires 0.0 <= h <= e
    ensures (h + 0.5) / (e + 2.0) < (h + 0.5) / (e + 1.0) < (h + 1.5) / (e + 2.0)
  {
    var a := (h + 0.5) / (e + 1.0);
    assert a * (e + 1.0) == h + 0.5;
    Fraction(h + 0.5, e + 1.0);
    Sums(a, e + 1.0, 1.0);
    assert a * (e + 2.0) == h + 0.5 + a;
    assert (h + 0.5) / (e + 2.0) * (e + 2.0) == h + 0.5 && (h + 1.5) / (e + 2.0) * (e + 2.0) == h + 1.5;
    ScalesIff(a, (h + 0.5) / (e + 2.0), e + 2.0);
    ScalesIff((h + 1.5) / (e + 2.0), a, e + 2.0);
  }

  lemma Scales(x: real, y: real, b: real)
    requires x <= y && b >= 0.0
    ensures x * b <= y * b
  {
  }

  lemma ScalesIff(x: real, y: real, b: real)
    requires b > 0.0
    ensures x <= y <==> x * b <= y * b
  {
    if x > y { assert (x - y) * b > 0.0; }
  }

  lemma Sums(a: real, b: real, n: real)
    ensures (a - b) * n == a * n - b * n && (a + b) * n == a * n + b * n
  {
  }

  lemma Rate(h: real, e: real)
    requires 0.0 <= h <= e && e > 0.0
    ensures 0.0 <= h / e <= 1.0
  {
    assert h / e * e == h;
    ScalesIff(0.0, h / e, e);
    ScalesIff(h / e, 1.0, e);
  }

  lemma Halfway(h: real, e: real)
    requires 0.0 <= h <= e && e >= 1.0
    ensures var a := (h + 0.5) / (e + 1.0);
      && a == (h / (e + 1.0) + (h + 1.0) / (e + 1.0)) / 2.0
      && h / e - 0.5 / (e + 1.0) <= a <= h / e + 0.5 / (e + 1.0)
      && (a >= 0.5 <==> e <= 2.0 * h)
  {
    var n := e + 1.0;
    Rate(h, e);
    Near((h + 0.5) / n, h / e, 0.5 / n, h, e, n);
    Mean(h, n);
  }

  lemma Near(a: real, rate: real, off: real, h: real, e: real, n: real)
    requires a * n == h + 0.5 && rate * e == h && off * n == 0.5 && n == e + 1.0 && n > 0.0 && 0.0 <= rate <= 1.0
    ensures rate - off <= a <= rate + off
    ensures a >= 0.5 <==> e <= 2.0 * h
  {
    Sums(e, 1.0, rate);
    assert rate * n == h + rate;
    Sums(rate, off, n);
    ScaledIff(rate - off, a, n, h + rate - 0.5, h + 0.5);
    ScaledIff(a, rate + off, n, h + 0.5, h + rate + 0.5);
    ScaledIff(0.5, a, n, 0.5 * n, h + 0.5);
  }

  lemma Mean(h: real, n: real)
    requires n > 0.0
    ensures (h + 0.5) / n == (h / n + (h + 1.0) / n) / 2.0
  {
    var a, low, high := (h + 0.5) / n, h / n, (h + 1.0) / n;
    assert a * n == h + 0.5 && low * n == h && high * n == h + 1.0;
    Sums(low, high, n);
    Sums(a, a, n);
    ScalesIff(low + high, a + a, n);
    ScalesIff(a + a, low + high, n);
  }

  lemma Fraction(a: real, b: real)
    requires 0.0 < a < b
    ensures 0.0 < a / b < 1.0
  {
    var x := a / b;
    assert x * b == a;
    if x >= 1.0 { Scales(1.0, x, b); }
  }

  ghost predicate Proper(q: seq<real>) {
    |q| == 4 && forall j :: 0 <= j < 4 ==> 0.0 < q[j] < 1.0
  }

  /** The chance that position `j` and all before it are accepted. */
  function Survival(q: seq<real>, j: nat): real
    requires j < |q|
  {
    if j == 0 then q[0] else Survival(q, j - 1) * q[j]
  }

  /** The expected number of tokens of a step of depth `k`. */
  function Reward(q: seq<real>, k: nat): real
    requires k <= |q|
  {
    if k == 0 then 1.0 else Reward(q, k - 1) + Survival(q, k - 1)
  }

  /** The drafts are checked one after another: a rejected one gives way to one token, and that is all; an accepted one
      comes out, and so does what follows; behind the last there is one token more. */
  ghost function Expected(q: seq<real>, k: nat): real
    requires k <= |q|
  {
    if k == 0 then 1.0 else (1.0 - q[0]) * 1.0 + q[0] * (1.0 + Expected(q[1..], k - 1))
  }

  lemma {:induction false} SurvivalOfRest(q: seq<real>, j: nat)
    requires 0 < j < |q|
    ensures Survival(q, j) == q[0] * Survival(q[1..], j - 1)
  {
    if j > 1 {
      SurvivalOfRest(q, j - 1);
      Regrouped(q[0], Survival(q[1..], j - 2), q[j]);
    }
  }

  lemma Regrouped(a: real, b: real, c: real)
    ensures a * b * c == a * (b * c)
  {
  }

  lemma {:induction false} RewardOfRest(q: seq<real>, k: nat)
    requires 0 < k <= |q|
    ensures Reward(q, k) == 1.0 + q[0] * Reward(q[1..], k - 1)
  {
    if k > 1 {
      RewardOfRest(q, k - 1);
      SurvivalOfRest(q, k - 1);
      assert Reward(q[1..], k - 1) == Reward(q[1..], k - 2) + Survival(q[1..], k - 2);
    } else {
      assert Reward(q, 1) == Reward(q, 0) + Survival(q, 0);
    }
  }

  /** The reward is what such a step yields on average. */
  lemma {:induction false} RewardIsExpected(q: seq<real>, k: nat)
    requires k <= |q|
    ensures Reward(q, k) == Expected(q, k)
  {
    if k > 0 {
      RewardIsExpected(q[1..], k - 1);
      RewardOfRest(q, k);
    }
  }

  ghost predicate NoWorse(q: seq<real>, q': seq<real>, k: nat)
    requires |q| == |q'| == 4 && k <= 4
  {
    forall i :: 0 <= i < k ==> q[i] <= q'[i]
  }

  lemma {:induction false} SurvivalsRise(q: seq<real>, q': seq<real>, k: nat)
    requires Proper(q) && Proper(q') && 0 < k <= 4 && NoWorse(q, q', k)
    ensures Survival(q, k - 1) <= Survival(q', k - 1)
    ensures q[..k] != q'[..k] ==> Survival(q, k - 1) < Survival(q', k - 1)
  {
    assert q[..k] == q[..k - 1] + [q[k - 1]] && q'[..k] == q'[..k - 1] + [q'[k - 1]];
    if k > 1 {
      SurvivalsRise(q, q', k - 1);
      SurvivalDecreases(q, k - 2);
      SurvivalRises(Survival(q, k - 2), Survival(q', k - 2), q[k - 1], q'[k - 1], Survival(q, k - 1),
                    Survival(q', k - 1));
    }
  }

  /** Where no estimate falls the reward does not fall, and where one rises it rises. */
  lemma {:induction false} RewardRises(q: seq<real>, q': seq<real>, k: nat)
    requires Proper(q) && Proper(q') && k <= 4 && NoWorse(q, q', k)
    ensures Reward(q, k) <= Reward(q', k)
    ensures q[..k] != q'[..k] ==> Reward(q, k) < Reward(q', k)
  {
    if k > 0 {
      RewardRises(q, q', k - 1);
      SurvivalsRise(q, q', k);
    }
  }

  lemma SurvivalRises(a: real, a': real, b: real, b': real, ab: real, ab': real)
    requires 0.0 < a <= a' && 0.0 < b <= b' && ab == a * b && ab' == a' * b'
    ensures ab <= ab'
    ensures a < a' || b < b' ==> ab < ab'
  {
    ProductsRise(a, a', b, b');
  }

  lemma ProductsRise(a: real, a': real, b: real, b': real)
    requires 0.0 < a <= a' && 0.0 < b <= b'
    ensures a * b <= a' * b'
    ensures a < a' || b < b' ==> a * b < a' * b'
  {
    ScaledIff(a, a', b, a * b, a' * b);
    ScaledIff(b, b', a', a' * b, a' * b');
  }

  lemma ScaledIff(x: real, y: real, b: real, xb: real, yb: real)
    requires b > 0.0 && xb == x * b && yb == y * b
    ensures (x <= y <==> xb <= yb) && (x < y <==> xb < yb)
  {
    ScalesIff(x, y, b);
    ScalesIff(y, x, b);
  }

  lemma {:induction false} SurvivalDecreases(q: seq<real>, j: nat)
    requires Proper(q) && j < 4
    ensures 0.0 < Survival(q, j) < 1.0
    ensures j > 0 ==> Survival(q, j) < Survival(q, j - 1)
  {
    if j == 0 {
      assert Survival(q, 0) == q[0];
    } else {
      SurvivalDecreases(q, j - 1);
      ProductLess(Survival(q, j - 1), q[j], Survival(q, j));
      ProductPositive(Survival(q, j - 1), q[j], Survival(q, j));
    }
  }

  lemma Product(a: real, b: real)
    requires 0.0 < a && 0.0 < b
    ensures 0.0 < a * b
  {
  }

  lemma Less(a: real, b: real)
    requires 0.0 < a && b < 1.0
    ensures a * b < a
  {
    Product(a, 1.0 - b);
    assert a * b == a - a * (1.0 - b);
  }

  lemma ProductLess(a: real, b: real, product: real)
    requires 0.0 < a && b < 1.0 && product == a * b
    ensures product < a
  {
    Less(a, b);
  }

  lemma ProductPositive(a: real, b: real, product: real)
    requires 0.0 < a && 0.0 < b && product == a * b
    ensures 0.0 < product
  {
    Product(a, b);
  }

  /** Measured seconds of a step of each depth, to begin with. */
  function Prior(k: nat): real
    requires 1 <= k <= 4
  {
    if k == 1 then 0.040 else if k == 2 then 0.046 else if k == 3 then 0.051 else 0.056
  }

  /** Own measurements once there are four; else the prior at the measured scale. */
  function RawCost(costs: seq<seq<real>>, scales: seq<real>, k: nat): real
    requires |costs| == 4 && 1 <= k <= 4
  {
    if |costs[k - 1]| >= 4 then Median(costs[k - 1])
    else Prior(k) * (if scales != [] then Median(scales) else 1.0)
  }

  /** A deeper step costs at least one percent more. */
  function Cost(costs: seq<seq<real>>, scales: seq<real>, k: nat): real
    requires |costs| == 4 && 1 <= k <= 4
  {
    var raw := RawCost(costs, scales, k);
    if k == 1 then raw
    else
      var least := Cost(costs, scales, k - 1) * 1.01;
      if raw < least then least else raw
  }

  ghost predicate Positive(s: seq<real>) { forall x :: x in s ==> x > 0.0 }

  lemma {:induction false} CostsIncrease(costs: seq<seq<real>>, scales: seq<real>, k: nat)
    requires |costs| == 4 && 1 <= k <= 4 && Positive(scales) && forall i :: 0 <= i < 4 ==> Positive(costs[i])
    ensures Cost(costs, scales, k) > 0.0
    ensures k > 1 ==> Cost(costs, scales, k) >= Cost(costs, scales, k - 1) * 1.01
  {
    if |costs[k - 1]| >= 4 { MedianIsPositive(costs[k - 1]); }
    if scales != [] {
      MedianIsPositive(scales);
      Product(Prior(k), Median(scales));
    }
    if k > 1 { CostsIncrease(costs, scales, k - 1); }
  }

  /** The costs are the least that are as high as measured, or assumed, and grow by one percent a depth. */
  lemma {:induction false} CostIsLeast(costs: seq<seq<real>>, scales: seq<real>, k: nat, c: seq<real>)
    requires |costs| == |c| == 4 && 1 <= k <= 4
    requires forall i :: 0 <= i < 4 ==> c[i] >= RawCost(costs, scales, i + 1)
    requires forall i :: 0 <= i < 3 ==> c[i + 1] >= c[i] * 1.01
    ensures RawCost(costs, scales, k) <= Cost(costs, scales, k) <= c[k - 1]
  {
    if k > 1 { CostIsLeast(costs, scales, k - 1, c); }
  }

  lemma AtFirst(none: seq<seq<real>>)
    requires none == [[], [], [], []]
    ensures Cost(none, [], 1) == 0.040 && Cost(none, [], 2) == 0.046
    ensures Cost(none, [], 3) == 0.051 && Cost(none, [], 4) == 0.056
  {
    assert RawCost(none, [], 1) == 0.040 && RawCost(none, [], 2) == 0.046;
    assert RawCost(none, [], 3) == 0.051 && RawCost(none, [], 4) == 0.056;
    assert Cost(none, [], 2) == 0.046;
  }

  /** What is halfway between the two in the middle, however the values are put in order. */
  ghost predicate Middle(s: seq<real>, middle: real) {
    exists t :: Ascending(t) && multiset(t) == multiset(s) && s != [] && |t| == |s|
                && middle == (t[(|s| - 1) / 2] + t[|s| / 2]) / 2.0
  }

  /** Until there are four own measurements they do not matter, and the cost is the assumed one at the measured scale,
      if there is one; from then on only the own measurements matter. */
  lemma RawCostIs(costs: seq<seq<real>>, scales: seq<real>, k: nat, middle: real)
    requires |costs| == 4 && 1 <= k <= 4
    requires Middle(if |costs[k - 1]| < 4 then scales else costs[k - 1], middle)
    ensures RawCost(costs, scales, k) == if |costs[k - 1]| < 4 then Prior(k) * middle else middle
  {
    if |costs[k - 1]| < 4 { MiddleIs(scales, middle); } else { MiddleIs(costs[k - 1], middle); }
  }

  lemma MiddleIs(s: seq<real>, middle: real)
    requires Middle(s, middle)
    ensures s != [] && Median(s) == middle
  {
    var t :| Ascending(t) && multiset(t) == multiset(s) && s != [] && |t| == |s|
      && middle == (t[(|s| - 1) / 2] + t[|s| / 2]) / 2.0;
    MedianIs(s, t);
  }

  /** The most a step one deeper than `k` could yield. */
  function UpperReward(q: seq<real>, k: nat): real
    requires 1 <= k <= |q|
  {
    Reward(q, k) + Survival(q, k - 1)
  }

  /** Whatever the acceptance at the next position, the deeper step yields no more than that. */
  lemma UpperRewardBounds(q: seq<real>, k: nat, tail: real)
    requires Proper(q) && 1 <= k < 4 && 0.0 <= tail <= 1.0
    ensures Reward(q[k := tail], k + 1) <= UpperReward(q, k)
    ensures tail == 1.0 ==> Reward(q[k := tail], k + 1) == UpperReward(q, k)
  {
    RewardOfPrefix(q, q[k := tail], k);
    SurvivalDecreases(q, k - 1);
    AtMost(Survival(q, k - 1), tail);
  }

  lemma AtMost(a: real, b: real)
    requires 0.0 < a && 0.0 <= b <= 1.0
    ensures a * b <= a && (b == 1.0 ==> a * b == a)
  {
  }

  lemma {:induction false} RewardOfPrefix(q: seq<real>, q': seq<real>, k: nat)
    requires k <= |q| && k <= |q'| && q[..k] == q'[..k]
    ensures Reward(q, k) == Reward(q', k)
    ensures k > 0 ==> Survival(q, k - 1) == Survival(q', k - 1)
  {
    if k > 0 {
      assert q[..k - 1] == q[..k][..k - 1] && q'[..k - 1] == q'[..k][..k - 1];
      assert q[k - 1] == q[..k][k - 1] && q'[k - 1] == q'[..k][k - 1];
      RewardOfPrefix(q, q', k - 1);
    }
  }

  lemma {:induction false} RewardIsPositive(q: seq<real>, k: nat)
    requires Proper(q) && k <= 4
    ensures Reward(q, k) >= 1.0
  {
    if k > 0 {
      RewardIsPositive(q, k - 1);
      SurvivalDecreases(q, k - 1);
    }
  }

  /** Tokens per second expected of depth `k`. */
  function Score(q: seq<real>, costs: seq<seq<real>>, scales: seq<real>, k: nat): real
    requires |q| == 4 && |costs| == 4 && 1 <= k <= 4
  {
    var cost := Cost(costs, scales, k);
    if cost == 0.0 then 0.0 else Reward(q, k) / cost
  }

  /** Depth `k` scores higher if a position that it verifies is accepted more often, and no other matters to it. */
  lemma ScoreRises(q: seq<real>, costs: seq<seq<real>>, scales: seq<real>, k: nat, q': seq<real>)
    requires Proper(q) && Proper(q') && |costs| == 4 && 1 <= k <= 4 && NoWorse(q, q', k)
    requires Positive(scales) && forall i :: 0 <= i < 4 ==> Positive(costs[i])
    ensures var before, after := Score(q, costs, scales, k), Score(q', costs, scales, k);
      && before <= after
      && (before < after <==> q[..k] != q'[..k])
  {
    CostsIncrease(costs, scales, k);
    RewardRises(q, q', k);
    if q[..k] == q'[..k] { RewardOfPrefix(q, q', k); }
    DividedIff(Reward(q', k), Reward(q, k), Cost(costs, scales, k));
    DividedIff(Reward(q, k), Reward(q', k), Cost(costs, scales, k));
  }

  lemma DividedIff(a: real, b: real, c: real)
    requires c > 0.0
    ensures a / c <= b / c <==> a <= b
  {
    assert a / c * c == a && b / c * c == b;
    ScalesIff(a / c, b / c, c);
  }

  /** Tokens per second: what such a step yields on average, over what it costs. */
  lemma ScoreIs(q: seq<real>, costs: seq<seq<real>>, scales: seq<real>, k: nat)
    requires |q| == |costs| == 4 && 1 <= k <= 4
    requires Positive(scales) && forall i :: 0 <= i < 4 ==> Positive(costs[i])
    ensures Cost(costs, scales, k) > 0.0
    ensures Score(q, costs, scales, k) == Expected(q, k) / Cost(costs, scales, k)
  {
    CostsIncrease(costs, scales, k);
    RewardIsExpected(q, k);
  }

  /** So an accepted draft that nobody measured before speaks for every depth that verifies its position, and a rejected
      one against it. */
  lemma AcceptedSpeaksForDepth(records: seq<Record>, q: seq<real>, q': seq<real>, depth: nat, a: int, j: nat,
                               costs: seq<seq<real>>, scales: seq<real>, k: nat)
    requires Proper(q) && |costs| == 4 && 1 <= k <= 4 && j < 4 && j < depth && Exposed(records, j) != {}
    requires Positive(scales) && forall i :: 0 <= i < 4 ==> Positive(costs[i])
    requires q[j] == Acceptance(records, q, j)
    requires q' == q[j := Acceptance(records + [Record(depth, [a])], q, j)]
    ensures var before, after := Score(q, costs, scales, k), Score(q', costs, scales, k);
      && (after > before <==> j < k && a > j)
      && (after < before <==> j < k && a == j)
  {
    AcceptanceIsProper(records + [Record(depth, [a])], q, j);
    OneMoreTells(records, q, depth, a, j);
    assert q[..k] == q'[..k] <==> j >= k || q[j] == q'[j] by {
      if j < k { assert q[..k][j] == q[j] && q'[..k][j] == q'[j]; }
    }
    if a > j { ScoreRises(q, costs, scales, k, q'); } else { ScoreRises(q', costs, scales, k, q); }
  }

  /** Without an observation of the next position: if the gate stays shut, no acceptance there would make the deeper
      step better by more than four percent. */
  lemma GateMissesNothing(q: seq<real>, costs: seq<seq<real>>, scales: seq<real>, k: nat, tail: real)
    requires Proper(q) && |costs| == 4 && 1 <= k < 4 && 0.0 <= tail <= 1.0
    requires Positive(scales) && forall i :: 0 <= i < 4 ==> Positive(costs[i])
    requires var cost := Cost(costs, scales, k + 1);
      cost > 0.0 ==> UpperReward(q, k) / cost <= Score(q, costs, scales, k) * 1.04
    ensures Score(q[k := tail], costs, scales, k + 1) <= Score(q, costs, scales, k) * 1.04
  {
    CostsIncrease(costs, scales, k + 1);
    UpperRewardBounds(q, k, tail);
    Divided(Reward(q[k := tail], k + 1), UpperReward(q, k), Cost(costs, scales, k + 1));
  }

  lemma Divided(a: real, b: real, c: real)
    requires a <= b && c > 0.0
    ensures a / c <= b / c
  {
  }
}