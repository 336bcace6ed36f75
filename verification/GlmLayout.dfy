/** Cache layout of a model that mixes Mamba, latent-attention and indexer layers: how the Mamba layers are grouped so
    that every pipeline stage has a slot for each, and where in the buffer every layer's blocks lie. */
module GlmLayout {
  import opened Arithmetic
  import opened Wrappers

  /** A layer's name and its position in the model. */
  datatype Layer = Layer(name: nat, index: int)

  /** The positions a pipeline stage runs. */
  datatype Stage = Stage(start: int, end: int)

  predicate On(s: Stage, l: Layer) { s.start <= l.index < s.end }

  function CDiv(a: nat, b: nat): nat
    requires b > 0
  {
    (a + b - 1) / b
  }

  /** The layers of the list that a stage runs, in order. */
  function Project(layers: seq<Layer>, s: Stage): seq<Layer> {
    if layers == [] then []
    else Project(layers[..|layers| - 1], s) + (if On(s, layers[|layers| - 1]) then [layers[|layers| - 1]] else [])
  }

  /** Rounding up is the least multiple that reaches. */
  lemma CDivIsLeast(a: nat, b: nat, n: nat)
    requires b > 0
    ensures CDiv(a, b) <= n <==> a <= n * b
  {
    var q := CDiv(a, b);
    assert a + b - 1 == q * b + (a + b - 1) % b;
    if q <= n {
      TimesMonotone(q, n, b);
    } else {
      TimesMonotone(n + 1, q, b);
      assert (n + 1) * b == n * b + b;
    }
  }

  /** The positions, below `m`, of layers that the stage runs. */
  ghost function Places(layers: seq<Layer>, s: Stage, m: nat): set<nat>
    requires m <= |layers|
  {
    set i: nat | i < m && s.start <= layers[i].index < s.end
  }

  lemma {:induction false} ProjectCount(layers: seq<Layer>, s: Stage, m: nat)
    requires m <= |layers|
    ensures |Project(layers[..m], s)| == |Places(layers, s, m)|
  {
    if m == 0 {
      assert Places(layers, s, 0) == {};
    } else {
      ProjectCount(layers, s, m - 1);
      assert layers[..m][..m - 1] == layers[..m - 1];
      assert Places(layers, s, m) == Places(layers, s, m - 1) + (if On(s, layers[m - 1]) then {m - 1} else {});
    }
  }

  lemma {:induction false} ProjectGrows(layers: seq<Layer>, s: Stage, m: nat)
    requires m <= |layers|
    ensures Project(layers[..m], s) <= Project(layers, s)
    decreases |layers|
  {
    if m == |layers| {
      assert layers[..m] == layers;
    } else {
      var front := layers[..|layers| - 1];
      assert front[..m] == layers[..m];
      ProjectGrows(front, s, m);
    }
  }

  /** What a stage keeps: as many layers as it runs, and each of them behind those it runs before. */
  lemma ProjectIs(layers: seq<Layer>, s: Stage, i: nat)
    requires i < |layers| && s.start <= layers[i].index < s.end
    ensures |Project(layers, s)| == |Places(layers, s, |layers|)|
    ensures var k := |Places(layers, s, i)|; k < |Project(layers, s)| && Project(layers, s)[k] == layers[i]
  {
    ProjectCount(layers, s, |layers|);
    ProjectCount(layers, s, i);
    ProjectGrows(layers, s, |layers|);
    ProjectGrows(layers, s, i + 1);
    assert layers[..|layers|] == layers && layers[..i + 1][..i] == layers[..i];
    assert Project(layers[..i + 1], s) == Project(layers[..i], s) + [layers[i]];
  }

  // ---------------------------------------------------------------- how many groups

  /** Each stage has a slot for each of its Mamba layers if they are dealt to `n` groups. */
  ghost predicate Fits(n: nat, mamba: seq<Layer>, mla: seq<Layer>, s: Stage) {
    |Project(mamba, s)| <= n * |Project(mla, s)|
  }

  ghost predicate Slotless(mamba: seq<Layer>, mla: seq<Layer>, s: Stage) {
    Project(mamba, s) != [] && Project(mla, s) == []
  }

  ghost predicate FitsAll(n: nat, mamba: seq<Layer>, mla: seq<Layer>, stages: seq<Stage>, k: nat)
    requires k <= |stages|
  {
    && |mamba| <= n * |mla|
    && forall j :: 0 <= j < k ==> Fits(n, mamba, mla, stages[j])
  }

  lemma FitsMore(n: nat, more: nat, mamba: seq<Layer>, mla: seq<Layer>, s: Stage)
    requires n <= more && Fits(n, mamba, mla, s)
    ensures Fits(more, mamba, mla, s)
  {
    TimesMonotone(n, more, |Project(mla, s)|);
  }

  /** A stage with slots is fitted exactly by its even share and more. */
  lemma FitsIff(n: nat, mamba: seq<Layer>, mla: seq<Layer>, s: Stage)
    requires Project(mla, s) != []
    ensures Fits(n, mamba, mla, s) <==> CDiv(|Project(mamba, s)|, |Project(mla, s)|) <= n
  {
    CDivIsLeast(|Project(mamba, s)|, |Project(mla, s)|, n);
  }

  /** What one more stage makes of the least count that fits. */
  function WithStage(groups: nat, mamba: seq<Layer>, mla: seq<Layer>, s: Stage): nat
    requires !Slotless(mamba, mla, s)
  {
    if Project(mamba, s) == [] then groups else Max(groups, CDiv(|Project(mamba, s)|, |Project(mla, s)|))
  }

  lemma WithStageFits(groups: nat, mamba: seq<Layer>, mla: seq<Layer>, s: Stage, n: nat)
    requires !Slotless(mamba, mla, s)
    ensures groups <= n && Fits(n, mamba, mla, s) <==> WithStage(groups, mamba, mla, s) <= n
  {
    if Project(mamba, s) == [] {
      assert 0 <= n * |Project(mla, s)|;
    } else {
      FitsIff(n, mamba, mla, s);
    }
  }

  /** With one more stage, the least count that fits is the greater of the old one and what the stage needs. */
  lemma StageStep(mamba: seq<Layer>, mla: seq<Layer>, stages: seq<Stage>, k: nat, groups: nat)
    requires k < |stages| && FitsAll(groups, mamba, mla, stages, k) && !Slotless(mamba, mla, stages[k])
    requires forall n: nat :: FitsAll(n, mamba, mla, stages, k) ==> groups <= n
    ensures var more, k' := WithStage(groups, mamba, mla, stages[k]), k + 1;
      FitsAll(more, mamba, mla, stages, k') && forall n: nat :: FitsAll(n, mamba, mla, stages, k') ==> more <= n
  {
    var more, k' := WithStage(groups, mamba, mla, stages[k]), k + 1;
    WithStageFits(groups, mamba, mla, stages[k], more);
    TimesMonotone(groups, more, |mla|);
    forall j | 0 <= j < k ensures Fits(more, mamba, mla, stages[j]) { FitsMore(groups, more, mamba, mla, stages[j]); }
    forall n: nat | FitsAll(n, mamba, mla, stages, k') ensures more <= n {
      assert FitsAll(n, mamba, mla, stages, k) && Fits(n, mamba, mla, stages[k]);
      WithStageFits(groups, mamba, mla, stages[k], n);
    }
  }

  method CountOn(layers: seq<Layer>, s: Stage) returns (n: nat)
    ensures n == |Project(layers, s)|
  {
    n := 0;
    var i := 0;
    while i < |layers|
      invariant 0 <= i <= |layers| && n == |Project(layers[..i], s)|
    {
      assert layers[..i + 1][..i] == layers[..i];
      if On(s, layers[i]) { n := n + 1; }
      i := i + 1;
    }
    assert layers[..i] == layers;
  }

  /** The number of Mamba groups: the least that fits the whole model and every stage; none if a stage has Mamba
      layers and no slot. A single stage is not looked at on its own. */
  method BalancedGroupCount(mamba: seq<Layer>, mla: seq<Layer>, stages: seq<Stage>) returns (r: Option<nat>)
    requires mla != []
    ensures r == None <==> |stages| != 1 && exists j :: 0 <= j < |stages| && Slotless(mamba, mla, stages[j])
    ensures r.Some? ==> var k := if |stages| == 1 then 0 else |stages|;
      FitsAll(r.value, mamba, mla, stages, k) && forall n: nat :: FitsAll(n, mamba, mla, stages, k) ==> r.value <= n
  {
    var groups: nat := CDiv(|mamba|, |mla|);
    forall n: nat | |mamba| <= n * |mla| ensures groups <= n { CDivIsLeast(|mamba|, |mla|, n); }
    CDivIsLeast(|mamba|, |mla|, groups);
    if |stages| == 1 { return Some(groups); }
    var i := 0;
    while i < |stages|
      invariant 0 <= i <= |stages| && FitsAll(groups, mamba, mla, stages, i)
      invariant forall n: nat :: FitsAll(n, mamba, mla, stages, i) ==> groups <= n
      invariant forall j :: 0 <= j < i ==> !Slotless(mamba, mla, stages[j])
    {
      var numMamba := CountOn(mamba, stages[i]);
      var numMla := CountOn(mla, stages[i]);
      if numMamba > 0 && numMla == 0 {
        assert Slotless(mamba, mla, stages[i]);
        return None;
      }
      var more := if numMamba > 0 then Max(groups, CDiv(numMamba, numMla)) else groups;
      StageStep(mamba, mla, stages, i, groups);
      groups, i := more, i + 1;
    }
    r := Some(groups);
  }

  // ---------------------------------------------------------------- dealing the layers out

  /** Every n-th of the first `m` layers, beginning with the g-th. */
  function Strided(layers: seq<Layer>, n: nat, g: nat, m: nat): (s: seq<Layer>)
    requires m <= |layers| && n > 0
  {
    if m == 0 then []
    else Strided(layers, n, g, m - 1) + (if (m - 1) % n == g then [layers[m - 1]] else [])
  }

  /** The k-th layer of the g-th group is the one at `k * n + g`. */
  lemma {:induction false} StridedAt(layers: seq<Layer>, n: nat, g: nat, m: nat, k: nat)
    requires m <= |layers| && g < n
    ensures k < |Strided(layers, n, g, m)| <==> k * n + g < m
    ensures k < |Strided(layers, n, g, m)| ==> Strided(layers, n, g, m)[k] == layers[k * n + g]
  {
    StridedLength(layers, n, g, m);
    HitsExceed(n, g, m, k);
    if m > 0 {
      StridedAt(layers, n, g, m - 1, k);
      if k == |Strided(layers, n, g, m - 1)| && (m - 1) % n == g {
        StridedLength(layers, n, g, m - 1);
        HitsExceed(n, g, m - 1, k);
      }
    }
  }

  lemma {:induction false} StridedLength(layers: seq<Layer>, n: nat, g: nat, m: nat)
    requires m <= |layers| && g < n
    ensures |Strided(layers, n, g, m)| == Hits(n, g, m)
  {
    if m > 0 { StridedLength(layers, n, g, m - 1); }
  }

  /** More than `k` numbers below `m` leave the remainder exactly if the k-th one that does is below. */
  lemma HitsExceed(n: nat, g: nat, m: nat, k: nat)
    requires g < n
    ensures k < Hits(n, g, m) <==> k * n + g < m
  {
    HitsExactly(n, g, m);
    Compare(k, g, m / n, m % n, n);
    Recomposed(m, n);
  }

  lemma Recomposed(m: nat, n: nat)
    requires n > 0
    ensures m == m / n * n + m % n
  {
  }

  lemma Compare(k: nat, g: nat, q: nat, r: nat, n: nat)
    requires g < n && r < n
    ensures k < q || (k == q && g < r) <==> k * n + g < q * n + r
  {
    OneApart(k, q, n);
    OneApart(q, k, n);
  }

  lemma OneApart(k: nat, q: nat, n: nat)
    ensures k < q ==> k * n + n <= q * n
  {
    if k < q {
      TimesMonotone(k + 1, q, n);
      OneMore(k, n);
    }
  }

  method DealOut(layers: seq<Layer>, n: nat) returns (groups: seq<seq<Layer>>)
    requires layers != [] ==> n > 0
    ensures |groups| == n
    ensures forall g :: 0 <= g < n ==> groups[g] == Strided(layers, n, g, |layers|)
  {
    groups := seq(n, _ => []);
    var i := 0;
    while i < |layers|
      invariant 0 <= i <= |layers| && |groups| == n
      invariant forall g :: 0 <= g < n ==> groups[g] == Strided(layers, n, g, i)
    {
      groups := groups[i % n := groups[i % n] + [layers[i]]];
      i := i + 1;
    }
  }

  ghost predicate Sorted(layers: seq<Layer>) {
    forall i, j :: 0 <= i < j < |layers| ==> layers[i].index <= layers[j].index
  }

  lemma ProjectAppend(layers: seq<Layer>, l: Layer, s: Stage)
    ensures Project(layers + [l], s) == Project(layers, s) + (if On(s, l) then [l] else [])
  {
    assert (layers + [l])[..|layers|] == layers;
  }

  lemma DivStep(m: nat, n: nat)
    requires n > 0 && m > 0
    ensures if m % n == 0 then (m - 1) / n == m / n - 1 && (m - 1) % n == n - 1
            else (m - 1) / n == m / n && (m - 1) % n == m % n - 1
  {
    var q, r := m / n, m % n;
    assert m == q * n + r;
    if r == 0 {
      assert m - 1 == (q - 1) * n + (n - 1) by { assert q * n == (q - 1) * n + n; }
      QuotientIs(m - 1, n, q - 1, n - 1);
    } else {
      QuotientIs(m - 1, n, q, r - 1);
    }
  }

  lemma QuotientIs(m: int, n: nat, q: int, r: int)
    requires 0 <= r < n && m == q * n + r
    ensures m / n == q && m % n == r
  {
    var d := m / n - q;
    assert m == m / n * n + m % n;
    assert d * n == m / n * n - q * n;
    assert d >= 1 ==> d * n >= n;
    assert d <= -1 ==> d * n <= -1 * n;
  }

  /** How many of the numbers below `m` leave the remainder `g`. */
  ghost function Hits(n: nat, g: nat, m: nat): nat
    requires n > 0
  {
    if m == 0 then 0 else Hits(n, g, m - 1) + (if (m - 1) % n == g then 1 else 0)
  }

  lemma {:induction false} HitsExactly(n: nat, g: nat, m: nat)
    requires n > 0 && g < n
    ensures Hits(n, g, m) == m / n + (if m % n > g then 1 else 0)
  {
    if m == 0 {
      QuotientIs(0, n, 0, 0);
    } else {
      HitsExactly(n, g, m - 1);
      DivStep(m, n);
      var r := (m - 1) % n;
      assert Hits(n, g, m) == Hits(n, g, m - 1) + (if r == g then 1 else 0);
    }
  }

  lemma HitsBounds(n: nat, g: nat, m: nat)
    requires n > 0 && g < n
    ensures m - g <= Hits(n, g, m) * n <= m - g + n - 1
  {
    HitsExactly(n, g, m);
    OneMore(m / n, n);
    assert m == m / n * n + m % n;
  }

  lemma OneMore(q: int, n: int)
    ensures (q + 1) * n == q * n + n
  {
  }

  lemma HitsEven(n: nat, g: nat, a: nat, b: nat)
    requires n > 0 && g < n && a <= b
    ensures Hits(n, g, b) - Hits(n, g, a) <= CDiv(b - a, n)
  {
    HitsBounds(n, g, a);
    HitsBounds(n, g, b);
    TooMany(Hits(n, g, a), Hits(n, g, b), n, b - a);
  }

  lemma TooMany(h: nat, k: nat, n: nat, c: nat)
    requires n > 0 && k * n - h * n <= c + n - 1
    ensures k - h <= CDiv(c, n)
  {
    var q := CDiv(c, n);
    CDivIsLeast(c, n, q);
    OneMore(q, n);
    assert (k - h) * n == k * n - h * n;
    if k - h > q { TimesMonotone(q + 1, k - h, n); }
  }

  /** In a sorted list a stage runs a stretch of it. */
  lemma Stretch(layers: seq<Layer>, s: Stage) returns (a: nat, b: nat)
    requires Sorted(layers)
    ensures a <= b <= |layers| && forall i :: 0 <= i < |layers| ==> (On(s, layers[i]) <==> a <= i < b)
  {
    a := 0;
    while a < |layers| && layers[a].index < s.start
      invariant a <= |layers| && forall i :: 0 <= i < a ==> layers[i].index < s.start
    {
      a := a + 1;
    }
    b := a;
    while b < |layers| && layers[b].index < s.end
      invariant a <= b <= |layers| && forall i :: a <= i < b ==> layers[i].index < s.end
    {
      b := b + 1;
    }
  }

  lemma {:induction false} StretchLength(layers: seq<Layer>, m: nat, s: Stage, a: nat, b: nat)
    requires m <= |layers| && a <= b <= |layers|
    requires forall i :: 0 <= i < |layers| ==> (On(s, layers[i]) <==> a <= i < b)
    ensures |Project(layers[..m], s)| == if m <= a then 0 else if m <= b then m - a else b - a
  {
    if m > 0 {
      StretchLength(layers, m - 1, s, a, b);
      assert layers[..m] == layers[..m - 1] + [layers[m - 1]];
      ProjectAppend(layers[..m - 1], layers[m - 1], s);
    }
  }

  lemma {:induction false} DealtFrom(layers: seq<Layer>, n: nat, g: nat, m: nat, s: Stage, a: nat, b: nat)
    requires n > 0 && g < n && m <= |layers| && a <= b <= |layers|
    requires forall i :: 0 <= i < |layers| ==> (On(s, layers[i]) <==> a <= i < b)
    ensures |Project(Strided(layers, n, g, m), s)|
            == if m <= a then 0 else Hits(n, g, if m <= b then m else b) - Hits(n, g, a)
  {
    if m > 0 {
      DealtFrom(layers, n, g, m - 1, s, a, b);
      var before := Strided(layers, n, g, m - 1);
      var now := if (m - 1) % n == g then before + [layers[m - 1]] else before;
      assert Strided(layers, n, g, m) == now;
      ProjectAppend(before, layers[m - 1], s);
      assert Hits(n, g, m) == Hits(n, g, m - 1) + (if (m - 1) % n == g then 1 else 0);
    }
  }

  /** If the Mamba layers are dealt in model order to as many groups as fit, no group has more layers on a stage than
      the stage has slots. */
  lemma EveryGroupFits(mamba: seq<Layer>, mla: seq<Layer>, n: nat, g: nat, s: Stage)
    requires Sorted(mamba) && n > 0 && g < n && Fits(n, mamba, mla, s)
    ensures |Project(Strided(mamba, n, g, |mamba|), s)| <= |Project(mla, s)|
  {
    ModelOrderIsEven(mamba, n, s);
    CDivIsLeast(|Project(mamba, s)|, n, |Project(mla, s)|);
  }

  /** Whatever slots the stage has, a group count that fits it leaves no group with more layers than slots, exactly if
      every group gets at most its even share of the stage's layers. */
  lemma FitsWhateverTheSlotsIff(mamba: seq<Layer>, n: nat, s: Stage)
    requires n > 0
    ensures (forall mla :: Fits(n, mamba, mla, s) ==> NoGroupOverflows(mamba, n, s, |Project(mla, s)|))
            <==> NoGroupOverflows(mamba, n, s, CDiv(|Project(mamba, s)|, n))
  {
    var m := |Project(mamba, s)|;
    if NoGroupOverflows(mamba, n, s, CDiv(m, n)) {
      forall mla | Fits(n, mamba, mla, s) ensures NoGroupOverflows(mamba, n, s, |Project(mla, s)|) {
        CDivIsLeast(m, n, |Project(mla, s)|);
      }
    } else {
      var g :| 0 <= g < n && |Project(Strided(mamba, n, g, |mamba|), s)| > CDiv(m, n);
      ProjectMembers(Strided(mamba, n, g, |mamba|), s);
      var l := Project(Strided(mamba, n, g, |mamba|), s)[0];
      assert l in Project(Strided(mamba, n, g, |mamba|), s);
      var mla := seq(CDiv(m, n), _ => l);
      ProjectAll(mla, s);
      CDivIsLeast(m, n, CDiv(m, n));
      assert Fits(n, mamba, mla, s) && !NoGroupOverflows(mamba, n, s, |Project(mla, s)|);
    }
  }

  ghost predicate NoGroupOverflows(mamba: seq<Layer>, n: nat, s: Stage, slots: nat)
    requires n > 0
  {
    forall g :: 0 <= g < n ==> |Project(Strided(mamba, n, g, |mamba|), s)| <= slots
  }

  /** In model order every group gets at most its even share on every stage. */
  lemma ModelOrderIsEven(mamba: seq<Layer>, n: nat, s: Stage)
    requires Sorted(mamba) && n > 0
    ensures NoGroupOverflows(mamba, n, s, CDiv(|Project(mamba, s)|, n))
  {
    var a, b := Stretch(mamba, s);
    StretchLength(mamba, |mamba|, s, a, b);
    assert mamba[..|mamba|] == mamba;
    forall g | 0 <= g < n ensures |Project(Strided(mamba, n, g, |mamba|), s)| <= CDiv(b - a, n) {
      DealtFrom(mamba, n, g, |mamba|, s, a, b);
      HitsEven(n, g, a, b);
    }
  }

  lemma {:induction false} ProjectMembers(layers: seq<Layer>, s: Stage)
    ensures forall l :: l in Project(layers, s) <==> l in layers && On(s, l)
  {
    if layers != [] {
      ProjectMembers(layers[..|layers| - 1], s);
      assert layers == layers[..|layers| - 1] + [layers[|layers| - 1]];
    }
  }

  lemma {:induction false} ProjectAll(layers: seq<Layer>, s: Stage)
    requires forall l :: l in layers ==> On(s, l)
    ensures Project(layers, s) == layers
  {
    if layers != [] {
      assert layers == layers[..|layers| - 1] + [layers[|layers| - 1]];
      ProjectAll(layers[..|layers| - 1], s);
    }
  }

  lemma ProjectTwo(a: Layer, b: Layer, s: Stage)
    ensures Project([a, b], s) == (if On(s, a) then [a] else []) + (if On(s, b) then [b] else [])
  {
    assert [] + [a] == [a] && [a] + [b] == [a, b];
    ProjectAppend([], a, s);
    ProjectAppend([a], b, s);
  }

  lemma DealFour(a: Layer, b: Layer, c: Layer, d: Layer)
    ensures Strided([a, b, c, d], 2, 0, 4) == [a, c]
  {
    var layers := [a, b, c, d];
    assert Strided(layers, 2, 0, 1) == [a];
    assert Strided(layers, 2, 0, 2) == [a];
    assert Strided(layers, 2, 0, 3) == [a, c];
  }

  /** Out of model order it goes wrong: two stages with two Mamba layers and one slot each, and the first stage's
      layers come to lie in the same group. */
  lemma OutOfOrderOverflows(a: Layer, b: Layer, c: Layer, d: Layer, p: Layer, q: Layer, s: Stage)
    requires On(s, a) && !On(s, b) && On(s, c) && !On(s, d) && On(s, p) && !On(s, q)
    ensures Fits(2, [a, b, c, d], [p, q], s)
    ensures |Project(Strided([a, b, c, d], 2, 0, 4), s)| == 2 && |Project([p, q], s)| == 1
  {
    DealFour(a, b, c, d);
    ProjectTwo(a, c, s);
    ProjectTwo(p, q, s);
    ProjectTwo(a, b, s);
    assert [a, b, c, d] == [a, b] + [c] + [d];
    ProjectAppend([a, b], c, s);
    ProjectAppend([a, b] + [c], d, s);
  }

  // ---------------------------------------------------------------- where the layers lie

  /** A layer's place in the buffer: its block `b` takes the `page` bytes from `offset + b * page` on. */
  datatype Tensor = Tensor(layer: Layer, page: nat, offset: nat)

  /** What a stage has to place: slots for the latent-attention layers, which the Mamba groups share, and behind them
      those for the indexer layers, which the tails share. */
  datatype Plan = Plan(
    mla: seq<Layer>, groups: seq<seq<Layer>>, idx: seq<Layer>, tails: seq<Layer>,
    mlaPage: nat, idxPage: nat, blocks: nat)
  {
    ghost predicate Valid() { mlaPage > 0 && idxPage > 0 && (tails != [] ==> |tails| == |idx|) }

    function BytesPerBlock(): nat { |mla| * mlaPage + |idx| * idxPage }

    function Size(): nat { BytesPerBlock() * blocks }

    function MlaOffset(i: nat): nat { i * mlaPage * blocks }

    function IdxOffset(i: nat): nat { |mla| * mlaPage * blocks + i * idxPage * blocks }
  }

  /** The layers of the first `g` groups that share a slot. */
  function Sharing(p: Plan, index: nat, g: nat): seq<Tensor>
    requires g <= |p.groups|
  {
    if g == 0 then []
    else Sharing(p, index, g - 1)
         + (if index < |p.groups[g - 1]| then [Tensor(p.groups[g - 1][index], p.mlaPage, p.MlaOffset(index))] else [])
  }

  function MlaTensors(p: Plan, n: nat): seq<Tensor>
    requires n <= |p.mla|
  {
    if n == 0 then []
    else MlaTensors(p, n - 1) + [Tensor(p.mla[n - 1], p.mlaPage, p.MlaOffset(n - 1))] + Sharing(p, n - 1, |p.groups|)
  }

  function IdxTensors(p: Plan, n: nat): seq<Tensor>
    requires n <= |p.idx| && p.Valid()
  {
    if n == 0 then []
    else IdxTensors(p, n - 1) + [Tensor(p.idx[n - 1], p.idxPage, p.IdxOffset(n - 1))]
         + (if p.tails != [] then [Tensor(p.tails[n - 1], p.idxPage, p.IdxOffset(n - 1))] else [])
  }

  function Layout(p: Plan): seq<Tensor>
    requires p.Valid()
  {
    MlaTensors(p, |p.mla|) + IdxTensors(p, |p.idx|)
  }

  method PlaceSlots(p: Plan) returns (tensors: seq<Tensor>)
    ensures tensors == MlaTensors(p, |p.mla|)
  {
    tensors := [];
    var i := 0;
    while i < |p.mla|
      invariant 0 <= i <= |p.mla| && tensors == MlaTensors(p, i)
    {
      var offset := p.MlaOffset(i);
      tensors := tensors + [Tensor(p.mla[i], p.mlaPage, offset)];
      ghost var before := tensors;
      var g := 0;
      while g < |p.groups|
        invariant 0 <= g <= |p.groups| && tensors == before + Sharing(p, i, g)
      {
        if i < |p.groups[g]| { tensors := tensors + [Tensor(p.groups[g][i], p.mlaPage, offset)]; }
        g := g + 1;
      }
      i := i + 1;
    }
  }

  method PlaceIndexers(p: Plan) returns (tensors: seq<Tensor>)
    requires p.Valid()
    ensures tensors == IdxTensors(p, |p.idx|)
  {
    tensors := [];
    var i := 0;
    while i < |p.idx|
      invariant 0 <= i <= |p.idx| && tensors == IdxTensors(p, i)
    {
      var offset := p.IdxOffset(i);
      tensors := tensors + [Tensor(p.idx[i], p.idxPage, offset)];
      if p.tails != [] { tensors := tensors + [Tensor(p.tails[i], p.idxPage, offset)]; }
      i := i + 1;
    }
  }

  method BuildLayout(p: Plan) returns (tensors: seq<Tensor>)
    requires p.Valid()
    ensures tensors == Layout(p)
  {
    var slots := PlaceSlots(p);
    var indexers := PlaceIndexers(p);
    tensors := slots + indexers;
  }

  ghost function Count(tensors: seq<Tensor>, l: Layer): nat {
    if tensors == [] then 0
    else Count(tensors[..|tensors| - 1], l) + (if tensors[|tensors| - 1].layer == l then 1 else 0)
  }

  lemma {:induction false} CountAppend(a: seq<Tensor>, b: seq<Tensor>, l: Layer)
    ensures Count(a + b, l) == Count(a, l) + Count(b, l)
  {
    if b == [] {
      assert a + b == a;
    } else {
      CountAppend(a, b[..|b| - 1], l);
      assert (a + b)[..|a + b| - 1] == a + b[..|b| - 1];
    }
  }

  /** No layer is listed twice. */
  ghost predicate Distinct(p: Plan) {
    && (forall g, k, h, m ::
      (0 <= g < |p.groups| && 0 <= k < |p.groups[g]| && 0 <= h < |p.groups| && 0 <= m < |p.groups[h]|
       && p.groups[g][k] == p.groups[h][m]) ==> g == h && k == m)
    && (forall g, l :: 0 <= g < |p.groups| && l in p.groups[g] ==> l !in p.mla && l !in p.idx && l !in p.tails)
  }

  lemma CountOne(t: Tensor, l: Layer)
    ensures Count([t], l) == if t.layer == l then 1 else 0
  {
    assert [t][..0] == [];
  }

  lemma SameOnlyIfSame(p: Plan, g: nat, k: nat, h: nat, m: nat)
    requires Distinct(p) && g < |p.groups| && k < |p.groups[g]| && h < |p.groups| && m < |p.groups[h]|
    ensures p.groups[g][k] == p.groups[h][m] <==> g == h && k == m
  {
  }

  lemma {:induction false} CountSharing(p: Plan, index: nat, n: nat, g: nat, k: nat)
    requires Distinct(p) && n <= |p.groups| && g < |p.groups| && k < |p.groups[g]|
    ensures Count(Sharing(p, index, n), p.groups[g][k]) == if g < n && index == k then 1 else 0
  {
    if n > 0 {
      var front := Sharing(p, index, n - 1);
      CountSharing(p, index, n - 1, g, k);
      if index < |p.groups[n - 1]| {
        var t := Tensor(p.groups[n - 1][index], p.mlaPage, p.MlaOffset(index));
        SameOnlyIfSame(p, n - 1, index, g, k);
        CountOne(t, p.groups[g][k]);
        CountAppend(front, [t], p.groups[g][k]);
      } else {
        assert Sharing(p, index, n) == front;
      }
    }
  }

  lemma CountThree(a: seq<Tensor>, t: Tensor, b: seq<Tensor>, l: Layer)
    requires t.layer != l
    ensures Count(a + [t] + b, l) == Count(a, l) + Count(b, l)
  {
    CountOne(t, l);
    CountAppend(a, [t], l);
    CountAppend(a + [t], b, l);
  }

  lemma {:induction false} CountMla(p: Plan, n: nat, g: nat, k: nat)
    requires Distinct(p) && n <= |p.mla| && g < |p.groups| && k < |p.groups[g]|
    ensures Count(MlaTensors(p, n), p.groups[g][k]) == if k < n then 1 else 0
  {
    if n > 0 {
      var l, before := p.groups[g][k], MlaTensors(p, n - 1);
      var t := Tensor(p.mla[n - 1], p.mlaPage, p.MlaOffset(n - 1));
      CountMla(p, n - 1, g, k);
      assert l in p.groups[g] && p.mla[n - 1] in p.mla;
      CountSharing(p, n - 1, |p.groups|, g, k);
      CountThree(before, t, Sharing(p, n - 1, |p.groups|), l);
    }
  }

  lemma {:induction false} CountAbsent(tensors: seq<Tensor>, l: Layer)
    requires forall t :: t in tensors ==> t.layer != l
    ensures Count(tensors, l) == 0
  {
    if tensors != [] { CountAbsent(tensors[..|tensors| - 1], l); }
  }

  lemma {:induction false} IdxLayers(p: Plan, n: nat, t: Tensor)
    requires p.Valid() && n <= |p.idx| && t in IdxTensors(p, n)
    ensures t.layer in p.idx || t.layer in p.tails
  {
    if t in IdxTensors(p, n - 1) { IdxLayers(p, n - 1, t); }
  }

  lemma CountIdx(p: Plan, g: nat, k: nat)
    requires Distinct(p) && p.Valid() && g < |p.groups| && k < |p.groups[g]|
    ensures Count(IdxTensors(p, |p.idx|), p.groups[g][k]) == 0
  {
    var l := p.groups[g][k];
    assert l in p.groups[g];
    forall t | t in IdxTensors(p, |p.idx|) ensures t.layer != l { IdxLayers(p, |p.idx|, t); }
    CountAbsent(IdxTensors(p, |p.idx|), l);
  }

  /** A Mamba layer is placed once if the stage has a slot for it, and otherwise not at all. */
  lemma PlacedOnceIff(p: Plan, g: nat, k: nat)
    requires Distinct(p) && p.Valid() && g < |p.groups| && k < |p.groups[g]|
    ensures Count(Layout(p), p.groups[g][k]) == if k < |p.mla| then 1 else 0
  {
    CountMla(p, |p.mla|, g, k);
    CountIdx(p, g, k);
    CountAppend(MlaTensors(p, |p.mla|), IdxTensors(p, |p.idx|), p.groups[g][k]);
  }

  ghost predicate NoRepeats(layers: seq<Layer>) {
    forall i, j :: 0 <= i < j < |layers| ==> layers[i] != layers[j]
  }

  ghost predicate Apart(a: seq<Layer>, b: seq<Layer>) { forall l :: l in a ==> l !in b }

  /** The g-th group has the layers at the positions that leave the remainder `g`. */
  lemma {:induction false} StridedMembers(layers: seq<Layer>, n: nat, g: nat, m: nat)
    requires m <= |layers| && n > 0
    ensures forall i :: 0 <= i < m && i % n == g ==> layers[i] in Strided(layers, n, g, m)
    ensures forall l :: l in Strided(layers, n, g, m) ==> exists i :: 0 <= i < m && i % n == g && layers[i] == l
  {
    if m > 0 {
      StridedMembers(layers, n, g, m - 1);
      var front := Strided(layers, n, g, m - 1);
      forall l | l in Strided(layers, n, g, m) ensures exists i :: 0 <= i < m && i % n == g && layers[i] == l {
        if l in front {
          var i :| 0 <= i < m - 1 && i % n == g && layers[i] == l;
        } else {
          assert (m - 1) % n == g && layers[m - 1] == l;
        }
      }
    }
  }

  lemma {:induction false} StridedNoRepeats(layers: seq<Layer>, n: nat, g: nat, m: nat)
    requires m <= |layers| && n > 0 && NoRepeats(layers)
    ensures NoRepeats(Strided(layers, n, g, m))
  {
    if m > 0 {
      StridedNoRepeats(layers, n, g, m - 1);
      StridedMembers(layers, n, g, m - 1);
      var front := Strided(layers, n, g, m - 1);
      forall k | 0 <= k < |front| ensures front[k] != layers[m - 1] {
        assert front[k] in front;
        var i :| 0 <= i < m - 1 && i % n == g && layers[i] == front[k];
      }
    }
  }

  lemma {:induction false} ProjectNoRepeats(layers: seq<Layer>, s: Stage)
    requires NoRepeats(layers)
    ensures NoRepeats(Project(layers, s))
  {
    if layers != [] {
      var last := |layers| - 1;
      ProjectNoRepeats(layers[..last], s);
      ProjectMembers(layers[..last], s);
      var front := Project(layers[..last], s);
      forall k | 0 <= k < |front| ensures front[k] != layers[last] {
        assert front[k] in layers[..last];
      }
    }
  }

  /** The layers of a model: no Mamba layer twice, and none of another kind. */
  ghost predicate ProperModel(mamba: seq<Layer>, mla: seq<Layer>, idx: seq<Layer>, tails: seq<Layer>) {
    NoRepeats(mamba) && Apart(mamba, mla) && Apart(mamba, idx) && Apart(mamba, tails)
  }

  /** The plan is what a stage keeps of the model: its layers, and its part of each of the `n` groups. */
  ghost predicate ProjectedPlan(
    p: Plan, mamba: seq<Layer>, mla: seq<Layer>, idx: seq<Layer>, tails: seq<Layer>, n: nat, s: Stage)
  {
    && p.mla == Project(mla, s) && p.idx == Project(idx, s) && p.tails == Project(tails, s) && |p.groups| == n
    && (n > 0 ==> forall g :: 0 <= g < n ==> p.groups[g] == Project(Strided(mamba, n, g, |mamba|), s))
  }

  lemma GroupsAreApart(mamba: seq<Layer>, n: nat, s: Stage, g: nat, h: nat, l: Layer)
    requires NoRepeats(mamba) && g < n && h < n
    requires l in Project(Strided(mamba, n, g, |mamba|), s) && l in Project(Strided(mamba, n, h, |mamba|), s)
    ensures g == h
  {
    ProjectMembers(Strided(mamba, n, g, |mamba|), s);
    ProjectMembers(Strided(mamba, n, h, |mamba|), s);
    StridedMembers(mamba, n, g, |mamba|);
    StridedMembers(mamba, n, h, |mamba|);
    var i :| 0 <= i < |mamba| && i % n == g && mamba[i] == l;
    var j :| 0 <= j < |mamba| && j % n == h && mamba[j] == l;
    assert i == j;
  }

  lemma InGroup(mamba: seq<Layer>, n: nat, s: Stage, g: nat, l: Layer)
    requires g < n && l in Project(Strided(mamba, n, g, |mamba|), s)
    ensures l in mamba && On(s, l)
  {
    ProjectMembers(Strided(mamba, n, g, |mamba|), s);
    StridedMembers(mamba, n, g, |mamba|);
  }

  lemma ProjectedIsDistinct(
    p: Plan, mamba: seq<Layer>, mla: seq<Layer>, idx: seq<Layer>, tails: seq<Layer>, n: nat, s: Stage)
    requires ProperModel(mamba, mla, idx, tails) && ProjectedPlan(p, mamba, mla, idx, tails, n, s)
    ensures Distinct(p)
  {
    forall g, k, h, m |
      0 <= g < n && 0 <= k < |p.groups[g]| && 0 <= h < n && 0 <= m < |p.groups[h]| && p.groups[g][k] == p.groups[h][m]
      ensures g == h && k == m
    {
      var l := p.groups[g][k];
      assert l in p.groups[g] && l in p.groups[h];
      GroupsAreApart(mamba, n, s, g, h, l);
      StridedNoRepeats(mamba, n, g, |mamba|);
      ProjectNoRepeats(Strided(mamba, n, g, |mamba|), s);
    }
    ProjectMembers(mla, s);
    ProjectMembers(idx, s);
    ProjectMembers(tails, s);
    forall g, l | 0 <= g < n && l in p.groups[g] ensures l !in p.mla && l !in p.idx && l !in p.tails {
      InGroup(mamba, n, s, g, l);
    }
  }

  /** From the whole model to a stage: dealt in model order into a number of groups that fits, every Mamba layer that
      the stage runs has exactly one place there, and no other Mamba layer has any. */
  lemma EveryMambaLayerHasOnePlace(
    p: Plan, mamba: seq<Layer>, mla: seq<Layer>, idx: seq<Layer>, tails: seq<Layer>, n: nat, s: Stage, i: nat)
    requires p.Valid() && ProperModel(mamba, mla, idx, tails) && Sorted(mamba)
    requires ProjectedPlan(p, mamba, mla, idx, tails, n, s) && Fits(n, mamba, mla, s) && i < |mamba| && n > 0
    ensures Count(Layout(p), mamba[i]) == if s.start <= mamba[i].index < s.end then 1 else 0
  {
    ProjectedIsDistinct(p, mamba, mla, idx, tails, n, s);
    var g := i % n;
    var l := mamba[i];
    if On(s, l) {
      StridedMembers(mamba, n, g, |mamba|);
      ProjectMembers(Strided(mamba, n, g, |mamba|), s);
      assert l in p.groups[g];
      var k :| 0 <= k < |p.groups[g]| && p.groups[g][k] == l;
      EveryGroupFits(mamba, mla, n, g, s);
      PlacedOnceIff(p, g, k);
    } else {
      NotPlaced(p, mamba, mla, idx, tails, n, s, l);
    }
  }

  lemma EveryMambaLayerIsPlaced(
    p: Plan, mamba: seq<Layer>, mla: seq<Layer>, idx: seq<Layer>, tails: seq<Layer>, n: nat, s: Stage)
    requires p.Valid() && ProperModel(mamba, mla, idx, tails) && Sorted(mamba)
    requires ProjectedPlan(p, mamba, mla, idx, tails, n, s) && Fits(n, mamba, mla, s) && (mamba != [] ==> n > 0)
    ensures forall i :: 0 <= i < |mamba| ==> Count(Layout(p), mamba[i]) == if On(s, mamba[i]) then 1 else 0
  {
    forall i: nat | i < |mamba| ensures Count(Layout(p), mamba[i]) == if On(s, mamba[i]) then 1 else 0 {
      EveryMambaLayerHasOnePlace(p, mamba, mla, idx, tails, n, s, i);
    }
  }

  lemma {:induction false} SharingLayers(p: Plan, index: nat, n: nat, t: Tensor)
    requires n <= |p.groups| && t in Sharing(p, index, n)
    ensures exists g :: 0 <= g < n && t.layer in p.groups[g]
  {
    if t in Sharing(p, index, n - 1) {
      SharingLayers(p, index, n - 1, t);
    } else {
      assert t.layer == p.groups[n - 1][index] && t.layer in p.groups[n - 1];
    }
  }

  lemma InOneOfThree<T>(a: seq<T>, b: T, c: seq<T>, x: T)
    requires x in a + [b] + c
    ensures x in a || x == b || x in c
  {
  }

  /** A layer in a slot that is not the slot's own shares it. */
  lemma {:induction false} SharedWhere(p: Plan, n: nat, t: Tensor) returns (index: nat)
    requires n <= |p.mla| && t in MlaTensors(p, n) && t.layer !in p.mla
    ensures index < n && t in Sharing(p, index, |p.groups|)
  {
    var own := Tensor(p.mla[n - 1], p.mlaPage, p.MlaOffset(n - 1));
    InOneOfThree(MlaTensors(p, n - 1), own, Sharing(p, n - 1, |p.groups|), t);
    if t in MlaTensors(p, n - 1) {
      index := SharedWhere(p, n - 1, t);
    } else {
      index := n - 1;
    }
  }

  lemma MlaLayers(p: Plan, n: nat, t: Tensor)
    requires n <= |p.mla| && t in MlaTensors(p, n)
    ensures t.layer in p.mla || exists g :: 0 <= g < |p.groups| && t.layer in p.groups[g]
  {
    if t.layer !in p.mla {
      var index := SharedWhere(p, n, t);
      SharingLayers(p, index, |p.groups|, t);
    }
  }

  lemma NotPlaced(
    p: Plan, mamba: seq<Layer>, mla: seq<Layer>, idx: seq<Layer>, tails: seq<Layer>, n: nat, s: Stage, l: Layer)
    requires p.Valid() && ProjectedPlan(p, mamba, mla, idx, tails, n, s) && !On(s, l)
    ensures Count(Layout(p), l) == 0
  {
    ProjectMembers(mla, s);
    ProjectMembers(idx, s);
    ProjectMembers(tails, s);
    forall t | t in Layout(p) ensures t.layer != l {
      if t in MlaTensors(p, |p.mla|) {
        MlaLayers(p, |p.mla|, t);
        if g :| 0 <= g < |p.groups| && t.layer in p.groups[g] { InGroup(mamba, n, s, g, t.layer); }
      } else {
        IdxLayers(p, |p.idx|, t);
      }
    }
    CountAbsent(Layout(p), l);
  }

  method ProjectLayers(layers: seq<Layer>, s: Stage) returns (kept: seq<Layer>)
    ensures kept == Project(layers, s)
  {
    kept := [];
    var i := 0;
    while i < |layers|
      invariant 0 <= i <= |layers| && kept == Project(layers[..i], s)
    {
      assert layers[..i + 1][..i] == layers[..i];
      if On(s, layers[i]) { kept := kept + [layers[i]]; }
      i := i + 1;
    }
    assert layers[..i] == layers;
  }

  method ProjectGroups(dealt: seq<seq<Layer>>, s: Stage) returns (groups: seq<seq<Layer>>)
    ensures |groups| == |dealt| && forall g :: 0 <= g < |dealt| ==> groups[g] == Project(dealt[g], s)
  {
    groups := [];
    while |groups| < |dealt|
      invariant |groups| <= |dealt| && forall g :: 0 <= g < |groups| ==> groups[g] == Project(dealt[g], s)
    {
      var kept := ProjectLayers(dealt[|groups|], s);
      groups := groups + [kept];
    }
  }

  /** A single stage runs the whole model. */
  ghost predicate WholeModel(mamba: seq<Layer>, mla: seq<Layer>, s: Stage) {
    (forall l :: l in mamba ==> On(s, l)) && forall l :: l in mla ==> On(s, l)
  }

  lemma CountFits(mamba: seq<Layer>, mla: seq<Layer>, stages: seq<Stage>, k: nat, n: nat)
    requires k < |stages| && (|stages| == 1 ==> WholeModel(mamba, mla, stages[0]))
    requires Deals(n, mamba, mla, stages)
    ensures Fits(n, mamba, mla, stages[k]) && (mamba != [] ==> n > 0)
  {
    if |stages| == 1 {
      ProjectAll(mamba, stages[0]);
      ProjectAll(mla, stages[0]);
    }
  }

  /** The least number of groups that fits. */
  ghost predicate Deals(n: nat, mamba: seq<Layer>, mla: seq<Layer>, stages: seq<Stage>) {
    var k := if |stages| == 1 then 0 else |stages|;
    FitsAll(n, mamba, mla, stages, k) && forall other: nat :: FitsAll(other, mamba, mla, stages, k) ==> n <= other
  }

  /** The whole way: choose the number of groups, deal the layers out, project the groups to stage `k`, and lay its
      cache out. It fails exactly if some stage of several has Mamba layers and no slot; otherwise each Mamba layer
      of the stage has exactly one place. */
  method LayOutStage(
    mamba: seq<Layer>, mla: seq<Layer>, idx: seq<Layer>, tails: seq<Layer>, stages: seq<Stage>, k: nat,
    mlaPage: nat, idxPage: nat, blocks: nat)
    returns (r: Option<seq<Tensor>>)
    requires k < |stages| && mla != [] && mlaPage > 0 && idxPage > 0
    requires ProperModel(mamba, mla, idx, tails) && Sorted(mamba)
    requires |stages| == 1 ==> WholeModel(mamba, mla, stages[0])
    requires |Project(tails, stages[k])| == 0 || |Project(tails, stages[k])| == |Project(idx, stages[k])|
    ensures r == None <==> |stages| != 1 && exists j :: 0 <= j < |stages| && Slotless(mamba, mla, stages[j])
    ensures r.Some? ==>
      forall i :: 0 <= i < |mamba| ==>
        Count(r.value, mamba[i]) == if stages[k].start <= mamba[i].index < stages[k].end then 1 else 0
    ensures r.Some? ==> exists n, p: Plan ::
      && Deals(n, mamba, mla, stages) && ProjectedPlan(p, mamba, mla, idx, tails, n, stages[k])
      && p.mlaPage == mlaPage && p.idxPage == idxPage && p.blocks == blocks && p.Valid() && r.value == Layout(p)
  {
    var s := stages[k];
    var count := BalancedGroupCount(mamba, mla, stages);
    if count == None { return None; }
    var n := count.value;
    CountFits(mamba, mla, stages, k, n);
    var dealt := DealOut(mamba, n);
    var groups := ProjectGroups(dealt, s);
    var slots := ProjectLayers(mla, s);
    var indexers := ProjectLayers(idx, s);
    var ends := ProjectLayers(tails, s);
    var p := Plan(slots, groups, indexers, ends, mlaPage, idxPage, blocks);
    assert ProjectedPlan(p, mamba, mla, idx, tails, n, s);
    EveryMambaLayerIsPlaced(p, mamba, mla, idx, tails, n, s);
    var tensors := BuildLayout(p);
    r := Some(tensors);
  }

  // ---------------------------------------------------------------- which layer lies where

  /** The slot of a latent-attention layer begins behind those before it. */
  ghost predicate AtSlot(p: Plan, t: Tensor, l: Layer, i: nat) {
    i < |p.mla| && t == Tensor(l, p.mlaPage, i * p.mlaPage * p.blocks)
  }

  /** The slots of the indexer layers come behind all of these. */
  ghost predicate AtIndexer(p: Plan, t: Tensor, l: Layer, i: nat) {
    i < |p.idx| && t == Tensor(l, p.idxPage, |p.mla| * p.mlaPage * p.blocks + i * p.idxPage * p.blocks)
  }

  ghost predicate OwnsSlot(p: Plan, t: Tensor) { exists i: nat :: i < |p.mla| && AtSlot(p, t, p.mla[i], i) }

  ghost predicate SharesSlot(p: Plan, t: Tensor) {
    exists g: nat, k: nat :: g < |p.groups| && k < |p.groups[g]| && AtSlot(p, t, p.groups[g][k], k)
  }

  ghost predicate OwnsIndexer(p: Plan, t: Tensor) { exists i: nat :: i < |p.idx| && AtIndexer(p, t, p.idx[i], i) }

  ghost predicate SharesIndexer(p: Plan, t: Tensor) {
    exists i: nat :: i < |p.tails| && AtIndexer(p, t, p.tails[i], i)
  }

  lemma {:induction false} SharingIs(p: Plan, index: nat, n: nat, t: Tensor)
    requires index < |p.mla| && n <= |p.groups|
    ensures t in Sharing(p, index, n)
            <==> exists g: nat :: g < n && index < |p.groups[g]| && AtSlot(p, t, p.groups[g][index], index)
  {
    if n > 0 {
      SharingIs(p, index, n - 1, t);
      if index < |p.groups[n - 1]| && AtSlot(p, t, p.groups[n - 1][index], index) { assert t in Sharing(p, index, n); }
    }
  }

  lemma {:induction false} MlaTensorsAre(p: Plan, n: nat, t: Tensor)
    requires n <= |p.mla|
    ensures t in MlaTensors(p, n) <==> exists i: nat :: i < n && AtSlotOf(p, t, i)
  {
    if n > 0 {
      var i := n - 1;
      MlaTensorsAre(p, i, t);
      SharingIs(p, i, |p.groups|, t);
      assert AtSlotOf(p, t, i) <==> t == Tensor(p.mla[i], p.mlaPage, p.MlaOffset(i)) || t in Sharing(p, i, |p.groups|);
      InThree(MlaTensors(p, i), Tensor(p.mla[i], p.mlaPage, p.MlaOffset(i)), Sharing(p, i, |p.groups|), t);
    }
  }

  lemma InThree<T>(a: seq<T>, b: T, c: seq<T>, x: T)
    ensures x in a + [b] + c <==> x in a || x == b || x in c
  {
  }

  /** The layer of the slot, or one of those that share it. */
  ghost predicate AtSlotOf(p: Plan, t: Tensor, i: nat) {
    && i < |p.mla|
    && (AtSlot(p, t, p.mla[i], i)
        || exists g: nat :: g < |p.groups| && i < |p.groups[g]| && AtSlot(p, t, p.groups[g][i], i))
  }

  ghost predicate AtIndexerOf(p: Plan, t: Tensor, i: nat) {
    i < |p.idx| && (AtIndexer(p, t, p.idx[i], i) || (i < |p.tails| && AtIndexer(p, t, p.tails[i], i)))
  }

  lemma LastIndexer(p: Plan, n: nat, t: Tensor)
    requires p.Valid() && 0 < n <= |p.idx|
    ensures t in IdxTensors(p, n) <==> t in IdxTensors(p, n - 1) || AtIndexerOf(p, t, n - 1)
  {
    var own := Tensor(p.idx[n - 1], p.idxPage, p.IdxOffset(n - 1));
    var tail := if p.tails != [] then [Tensor(p.tails[n - 1], p.idxPage, p.IdxOffset(n - 1))] else [];
    InThree(IdxTensors(p, n - 1), own, tail, t);
  }

  lemma {:induction false} IdxTensorsAre(p: Plan, n: nat, t: Tensor)
    requires p.Valid() && n <= |p.idx|
    ensures t in IdxTensors(p, n) <==> exists i: nat :: i < n && AtIndexerOf(p, t, i)
  {
    if n > 0 {
      IdxTensorsAre(p, n - 1, t);
      LastIndexer(p, n, t);
    }
  }

  /** The layout lists the slots' layers, the Mamba layers with a slot of their number, the indexer layers and the
      tails, each at its place, and nothing else. */
  lemma LayoutIs(p: Plan, t: Tensor)
    requires p.Valid()
    ensures t in Layout(p) <==> OwnsSlot(p, t) || SharesSlot(p, t) || OwnsIndexer(p, t) || SharesIndexer(p, t)
  {
    MlaTensorsAre(p, |p.mla|, t);
    IdxTensorsAre(p, |p.idx|, t);
    if OwnsSlot(p, t) {
      var i: nat :| i < |p.mla| && AtSlot(p, t, p.mla[i], i);
      assert AtSlotOf(p, t, i);
    }
    if SharesSlot(p, t) {
      var g: nat, k: nat :| g < |p.groups| && k < |p.groups[g]| && AtSlot(p, t, p.groups[g][k], k);
      assert AtSlotOf(p, t, k);
    }
    if OwnsIndexer(p, t) {
      var i: nat :| i < |p.idx| && AtIndexer(p, t, p.idx[i], i);
      assert AtIndexerOf(p, t, i);
    }
    if SharesIndexer(p, t) {
      var i: nat :| i < |p.tails| && AtIndexer(p, t, p.tails[i], i);
      assert AtIndexerOf(p, t, i);
    }
  }

  /** No layer of the plan is listed twice in any list or in two of them. */
  ghost predicate AllDistinct(p: Plan) {
    && Distinct(p) && NoRepeats(p.mla) && NoRepeats(p.idx) && NoRepeats(p.tails)
    && Apart(p.mla, p.idx) && Apart(p.mla, p.tails) && Apart(p.idx, p.tails)
  }

  lemma {:induction false} CountOwn(p: Plan, n: nat, i: nat)
    requires AllDistinct(p) && n <= |p.mla| && i < |p.mla|
    ensures Count(MlaTensors(p, n), p.mla[i]) == if i < n then 1 else 0
  {
    if n > 0 {
      var before, own := MlaTensors(p, n - 1), Tensor(p.mla[n - 1], p.mlaPage, p.MlaOffset(n - 1));
      var l, sharing := p.mla[i], Sharing(p, n - 1, |p.groups|);
      CountOwn(p, n - 1, i);
      assert l in p.mla && (p.mla[n - 1] == l <==> n - 1 == i);
      forall t | t in sharing ensures t.layer != l { SharingLayers(p, n - 1, |p.groups|, t); }
      CountAbsent(sharing, l);
      CountOne(own, l);
      CountAppend(before, [own], l);
      CountAppend(before + [own], sharing, l);
    }
  }

  lemma {:induction false} CountIndexer(p: Plan, n: nat, i: nat)
    requires AllDistinct(p) && p.Valid() && n <= |p.idx| && i < |p.idx|
    ensures Count(IdxTensors(p, n), p.idx[i]) == if i < n then 1 else 0
    ensures p.tails != [] ==> Count(IdxTensors(p, n), p.tails[i]) == if i < n then 1 else 0
  {
    if n > 0 {
      CountIndexer(p, n - 1, i);
      OneIndexer(p, n - 1, i);
      CountLast(p, n, p.idx[i]);
      if p.tails != [] { CountLast(p, n, p.tails[i]); }
    }
  }

  lemma OneIndexer(p: Plan, n: nat, i: nat)
    requires AllDistinct(p) && p.Valid() && n < |p.idx| && i < |p.idx|
    ensures p.idx[n] == p.idx[i] <==> n == i
    ensures p.tails != [] ==>
      p.idx[n] != p.tails[i] && p.tails[n] != p.idx[i] && (p.tails[n] == p.tails[i] <==> n == i)
  {
    assert p.idx[n] in p.idx && p.idx[i] in p.idx;
  }

  lemma CountLast(p: Plan, n: nat, l: Layer)
    requires p.Valid() && 0 < n <= |p.idx|
    ensures Count(IdxTensors(p, n), l) == Count(IdxTensors(p, n - 1), l) + (if p.idx[n - 1] == l then 1 else 0)
            + (if p.tails != [] && p.tails[n - 1] == l then 1 else 0)
  {
    var before, own := IdxTensors(p, n - 1), Tensor(p.idx[n - 1], p.idxPage, p.IdxOffset(n - 1));
    var tail := if p.tails != [] then [Tensor(p.tails[n - 1], p.idxPage, p.IdxOffset(n - 1))] else [];
    CountPair(before, own, tail, l);
  }

  lemma CountPair(before: seq<Tensor>, own: Tensor, tail: seq<Tensor>, l: Layer)
    requires |tail| <= 1
    ensures Count(before + [own] + tail, l) == Count(before, l) + (if own.layer == l then 1 else 0)
            + (if tail != [] && tail[0].layer == l then 1 else 0)
  {
    CountOne(own, l);
    CountAppend(before, [own], l);
    CountAppend(before + [own], tail, l);
    if tail != [] {
      assert tail == [tail[0]];
      CountOne(tail[0], l);
    }
  }

  /** Every other layer of the stage is placed once, too. */
  lemma OthersPlacedOnce(p: Plan, l: Layer)
    requires AllDistinct(p) && p.Valid() && (l in p.mla || l in p.idx || l in p.tails)
    ensures Count(Layout(p), l) == 1
  {
    var slots, indexers := MlaTensors(p, |p.mla|), IdxTensors(p, |p.idx|);
    CountAppend(slots, indexers, l);
    if l in p.mla {
      var i :| 0 <= i < |p.mla| && p.mla[i] == l;
      CountOwn(p, |p.mla|, i);
      forall t | t in indexers ensures t.layer != l { IdxLayers(p, |p.idx|, t); }
      CountAbsent(indexers, l);
    } else {
      forall t | t in slots ensures t.layer != l { MlaLayers(p, |p.mla|, t); }
      CountAbsent(slots, l);
      if i :| 0 <= i < |p.idx| && p.idx[i] == l {
        CountIndexer(p, |p.idx|, i);
      } else {
        var i :| 0 <= i < |p.tails| && p.tails[i] == l;
        CountIndexer(p, |p.idx|, i);
      }
    }
  }

  // ---------------------------------------------------------------- the bytes

  /** The regions of the buffer: the slots of the latent-attention layers, then those of the indexer layers. */
  function Regions(p: Plan): nat { |p.mla| + |p.idx| }

  function RegionPage(p: Plan, r: nat): nat { if r < |p.mla| then p.mlaPage else p.idxPage }

  function RegionOffset(p: Plan, r: nat): nat {
    if r < |p.mla| then p.MlaOffset(r) else p.IdxOffset(r - |p.mla|)
  }

  /** The byte lies in block `b` of region `r`. */
  ghost predicate Holds(p: Plan, r: nat, b: nat, x: int) {
    RegionOffset(p, r) + b * RegionPage(p, r) <= x < RegionOffset(p, r) + b * RegionPage(p, r) + RegionPage(p, r)
  }

  ghost predicate OnRegion(p: Plan, t: Tensor, r: nat) {
    t.offset == RegionOffset(p, r) && t.page == RegionPage(p, r)
  }

  /** Blocks counted through from the beginning of the slots of one kind. */
  lemma Linear(r: nat, b: nat, page: nat, blocks: nat)
    ensures r * page * blocks + b * page == (r * blocks + b) * page
  {
    assert r * page * blocks == r * blocks * page by { Shuffle(r, page, blocks); }
    Distribute(r * blocks, b, page);
  }

  lemma Shuffle(a: nat, b: nat, c: nat)
    ensures a * b * c == a * c * b
  {
  }

  lemma Distribute(a: int, b: int, c: int)
    ensures (a + b) * c == a * c + b * c
  {
  }

  /** Two blocks of the same kind that hold a byte are the same. */
  lemma SameBlock(r: nat, b: nat, q: nat, c: nat, page: nat, blocks: nat, x: int)
    requires page > 0 && b < blocks && c < blocks
    requires (r * blocks + b) * page <= x < (r * blocks + b) * page + page
    requires (q * blocks + c) * page <= x < (q * blocks + c) * page + page
    ensures r == q && b == c
  {
    var i, j := r * blocks + b, q * blocks + c;
    QuotientIs(x, page, i, x - i * page);
    QuotientIs(x, page, j, x - j * page);
    QuotientIs(i, blocks, r, b);
    QuotientIs(i, blocks, q, c);
  }

  lemma Divide(x: nat, d: nat, n: nat) returns (q: nat, r: nat)
    requires d > 0 && x < n * d
    ensures x == q * d + r && r < d && q < n
  {
    q, r := x / d, x % d;
    if q >= n { TimesMonotone(n, q, d); }
  }

  /** A byte of the slots of one kind lies in one of their blocks. */
  lemma FindBlock(n: nat, page: nat, blocks: nat, x: nat) returns (r: nat, b: nat)
    requires page > 0 && x < n * page * blocks
    ensures r < n && b < blocks && (r * blocks + b) * page <= x < (r * blocks + b) * page + page
  {
    Shuffle(n, page, blocks);
    var i, rest := Divide(x, page, n * blocks);
    assert blocks > 0;
    r, b := Divide(i, blocks, n);
  }

  lemma SlotsEnd(n: nat, r: nat, b: nat, page: nat, blocks: nat)
    requires r < n && b < blocks
    ensures (r * blocks + b) * page + page <= n * page * blocks
  {
    Shuffle(n, page, blocks);
    OneMore(r, blocks);
    OneMore(r * blocks + b, page);
    TimesMonotone(r + 1, n, blocks);
    TimesMonotone(r * blocks + b + 1, n * blocks, page);
  }

  lemma SizeIs(p: Plan)
    ensures p.Size() == |p.mla| * p.mlaPage * p.blocks + |p.idx| * p.idxPage * p.blocks
  {
    Distribute(|p.mla| * p.mlaPage, |p.idx| * p.idxPage, p.blocks);
  }

  /** A block, seen from where the slots of its kind begin. */
  lemma HoldsLinear(p: Plan, r: nat, b: nat, x: int)
    ensures Holds(p, r, b, x)
            <==> if r < |p.mla| then (r * p.blocks + b) * p.mlaPage <= x < (r * p.blocks + b) * p.mlaPage + p.mlaPage
                 else var i, y := (r - |p.mla|) * p.blocks + b, x - |p.mla| * p.mlaPage * p.blocks;
                   i * p.idxPage <= y < i * p.idxPage + p.idxPage
  {
    if r < |p.mla| { Linear(r, b, p.mlaPage, p.blocks); } else { Linear(r - |p.mla|, b, p.idxPage, p.blocks); }
  }

  /** Where the slots of the first kind end. */
  function Base(p: Plan): nat { |p.mla| * p.mlaPage * p.blocks }

  lemma HeldBySlot(p: Plan, r: nat, b: nat, x: int)
    requires r < |p.mla| && b < p.blocks && Holds(p, r, b, x)
    ensures 0 <= x < Base(p)
  {
    HoldsLinear(p, r, b, x);
    SlotsEnd(|p.mla|, r, b, p.mlaPage, p.blocks);
  }

  lemma HeldByIndexerSlot(p: Plan, r: nat, b: nat, x: int)
    requires |p.mla| <= r < Regions(p) && b < p.blocks && Holds(p, r, b, x)
    ensures Base(p) <= x < Base(p) + |p.idx| * p.idxPage * p.blocks
  {
    HoldsLinear(p, r, b, x);
    SlotsEnd(|p.idx|, r - |p.mla|, b, p.idxPage, p.blocks);
  }

  lemma HeldByKind(p: Plan, r: nat, b: nat, x: int)
    requires r < Regions(p) && b < p.blocks && Holds(p, r, b, x)
    ensures if r < |p.mla| then 0 <= x < Base(p) else Base(p) <= x < p.Size()
    ensures Base(p) <= p.Size()
  {
    SizeIs(p);
    if r < |p.mla| { HeldBySlot(p, r, b, x); } else { HeldByIndexerSlot(p, r, b, x); }
  }

  lemma HolderOf(p: Plan, x: nat) returns (r: nat, b: nat)
    requires p.Valid() && x < p.Size()
    ensures r < Regions(p) && b < p.blocks && Holds(p, r, b, x)
  {
    SizeIs(p);
    if x < Base(p) {
      r, b := FindBlock(|p.mla|, p.mlaPage, p.blocks, x);
    } else {
      r, b := FindBlock(|p.idx|, p.idxPage, p.blocks, x - Base(p));
      r := |p.mla| + r;
    }
    HoldsLinear(p, r, b, x);
  }

  /** The blocks tile the buffer: a byte lies in it exactly if some block holds it. */
  lemma BlocksCoverIff(p: Plan, x: int)
    requires p.Valid()
    ensures 0 <= x < p.Size() <==> exists r, b :: 0 <= r < Regions(p) && 0 <= b < p.blocks && Holds(p, r, b, x)
  {
    if 0 <= x < p.Size() {
      var r, b := HolderOf(p, x);
    } else if r: nat, b: nat :| r < Regions(p) && b < p.blocks && Holds(p, r, b, x) {
      HeldByKind(p, r, b, x);
    }
  }

  lemma SameSlot(p: Plan, r: nat, b: nat, q: nat, c: nat, x: int)
    requires p.Valid() && r < |p.mla| && q < |p.mla| && b < p.blocks && c < p.blocks
    requires Holds(p, r, b, x) && Holds(p, q, c, x)
    ensures r == q && b == c
  {
    HoldsLinear(p, r, b, x);
    HoldsLinear(p, q, c, x);
    SameBlock(r, b, q, c, p.mlaPage, p.blocks, x);
  }

  lemma SameIndexerSlot(p: Plan, r: nat, b: nat, q: nat, c: nat, x: int)
    requires p.Valid() && |p.mla| <= r && |p.mla| <= q && b < p.blocks && c < p.blocks
    requires Holds(p, r, b, x) && Holds(p, q, c, x)
    ensures r == q && b == c
  {
    HoldsLinear(p, r, b, x);
    HoldsLinear(p, q, c, x);
    SameBlock(r - |p.mla|, b, q - |p.mla|, c, p.idxPage, p.blocks, x - Base(p));
  }

  /** No byte lies in two blocks. */
  lemma BlocksAreDisjoint(p: Plan, r: nat, b: nat, q: nat, c: nat, x: int)
    requires p.Valid() && r < Regions(p) && q < Regions(p) && b < p.blocks && c < p.blocks
    requires Holds(p, r, b, x) && Holds(p, q, c, x)
    ensures r == q && b == c
  {
    HeldByKind(p, r, b, x);
    HeldByKind(p, q, c, x);
    if r < |p.mla| { SameSlot(p, r, b, q, c, x); } else { SameIndexerSlot(p, r, b, q, c, x); }
  }

  // ---------------------------------------------------------------- who shares bytes with whom

  lemma {:induction false} SharingOnRegion(p: Plan, index: nat, n: nat, t: Tensor)
    requires index < |p.mla| && n <= |p.groups| && t in Sharing(p, index, n)
    ensures OnRegion(p, t, index) && exists g :: 0 <= g < n && index < |p.groups[g]| && t.layer == p.groups[g][index]
  {
    if t in Sharing(p, index, n - 1) { SharingOnRegion(p, index, n - 1, t); }
  }

  lemma SharingMamba(p: Plan, index: nat, t: Tensor, g: nat, k: nat)
    requires Distinct(p) && index < |p.mla| && t in Sharing(p, index, |p.groups|)
    requires g < |p.groups| && k < |p.groups[g]| && t.layer == p.groups[g][k]
    ensures k == index && OnRegion(p, t, k)
  {
    SharingOnRegion(p, index, |p.groups|, t);
    var h :| 0 <= h < |p.groups| && index < |p.groups[h]| && t.layer == p.groups[h][index];
    assert p.groups[h][index] == p.groups[g][k];
  }

  /** The place of a Mamba layer is the slot with its number in the group. */
  lemma MambaRegion(p: Plan, n: nat, t: Tensor, g: nat, k: nat)
    requires Distinct(p) && n <= |p.mla| && t in MlaTensors(p, n)
    requires g < |p.groups| && k < |p.groups[g]| && t.layer == p.groups[g][k]
    ensures k < n && OnRegion(p, t, k)
  {
    assert t.layer in p.groups[g];
    var index := SharedWhere(p, n, t);
    SharingMamba(p, index, t, g, k);
  }

  lemma NoMambaBehind(p: Plan, t: Tensor, g: nat)
    requires Distinct(p) && p.Valid() && t in IdxTensors(p, |p.idx|) && g < |p.groups|
    ensures t.layer !in p.groups[g]
  {
    IdxLayers(p, |p.idx|, t);
  }

  /** Blocks of two Mamba layers share a byte only if it is the same block and the layers have the same number, in the
      same or in different groups. So layers of one group never do, and neither do groups with different blocks. */
  lemma MambaLayersOverlapOnly(p: Plan, t: Tensor, u: Tensor, g: nat, k: nat, h: nat, m: nat, b: nat, c: nat, x: int)
    requires p.Valid() && Distinct(p) && t in Layout(p) && u in Layout(p) && b < p.blocks && c < p.blocks
    requires g < |p.groups| && k < |p.groups[g]| && t.layer == p.groups[g][k]
    requires h < |p.groups| && m < |p.groups[h]| && u.layer == p.groups[h][m]
    requires t.offset + b * t.page <= x < t.offset + b * t.page + t.page
    requires u.offset + c * u.page <= x < u.offset + c * u.page + u.page
    ensures k == m && b == c && (g == h ==> t.layer == u.layer)
  {
    if t in IdxTensors(p, |p.idx|) { NoMambaBehind(p, t, g); }
    if u in IdxTensors(p, |p.idx|) { NoMambaBehind(p, u, h); }
    MambaRegion(p, |p.mla|, t, g, k);
    MambaRegion(p, |p.mla|, u, h, m);
    BlocksAreDisjoint(p, k, b, m, c, x);
  }
}