/** The controller that chooses how many draft tokens to verify in a step: it measures, decides, and now and then
    probes one position further. */
module DepthController {
  import opened Wrappers
  import opened SurvivalEstimator

  datatype Params = Params(window: int, interval: int, margin: real, probeSteps: int, probeInterval: int)
  {
    predicate Valid() {
      && 32 <= window <= 256 && 8 <= interval <= 64 && 4 <= probeSteps <= 32 && 32 <= probeInterval <= 256
      && 0.0 <= margin <= 0.25
    }
  }

  const DEFAULTS := Params(64, 16, 0.04, 8, 96)

  /** What the control file says, if it can be read as that at all. */
  datatype Control = Control(adaptive: bool, fixed: int, params: Params)

  /** A request's share of a step: the tokens and drafts scheduled for it, and how many tokens came out. */
  datatype Share = Share(id: nat, tokens: int, drafts: int, emitted: int)

  /** What has been measured, and what it is taken to mean: for each draft position whether it has been seen accepted
      or not, and the estimate of its acceptance. */
  datatype Measurements = Measurements(
    records: seq<Record>, costs: seq<seq<real>>, scales: seq<real>, q: seq<real>, seen: seq<bool>)

  /** Where the controller stands: `probeLeft` are the observations left to a probe, -1 when it has just run out, and
      `anchor` the depth it goes back to. */
  datatype Course = Course(
    k: int, settle: int, steps: int, sinceDecision: int, lastProbe: int, probeLeft: int, anchor: int)

  datatype State = State(
    adaptive: bool, fixed: int, params: Params, readAfter: real, signature: seq<nat>, previous: Option<real>,
    course: Course, m: Measurements)

  const NO_MEASUREMENTS: Measurements :=
    Measurements([], [[], [], [], []], [], [0.5, 0.5, 0.5, 0.5], [false, false, false, false])

  function FreshCourse(k: int): Course { Course(k, 2, 0, 0, 0, 0, k) }

  /** A bounded queue drops its oldest entry. */
  function Push<T>(s: seq<T>, x: T, most: nat): (r: seq<T>)
    ensures |s| <= most && most > 0 ==> |r| <= most
    ensures forall y :: y in r ==> y in s || y == x
  {
    var t := s + [x];
    if |t| > most then t[|t| - most..] else t
  }

  function Pushes<T>(s: seq<T>, most: nat): seq<T> {
    if s == [] then [] else Push(Pushes(s[..|s| - 1], most), s[|s| - 1], most)
  }

  function Newest<T>(s: seq<T>, most: nat): seq<T> { if |s| <= most then s else s[|s| - most..] }

  lemma PushOnNewest<T>(s: seq<T>, x: T, most: nat)
    requires most > 0
    ensures Push(Newest(s, most), x, most) == Newest(s + [x], most)
  {
    if |s| >= most {
      assert (s[|s| - most..] + [x])[1..] == (s + [x])[|s| + 1 - most..];
    }
  }

  /** So however many entries came, the queue holds the newest of them, as many as it may. */
  lemma {:induction false} PushesKeepNewest<T>(s: seq<T>, most: nat)
    requires most > 0
    ensures Pushes(s, most) == Newest(s, most)
  {
    if s != [] {
      PushesKeepNewest(s[..|s| - 1], most);
      PushOnNewest(s[..|s| - 1], s[|s| - 1], most);
      assert s[..|s| - 1] + [s[|s| - 1]] == s;
    }
  }

  function Reset(s: State): State {
    s.(previous := None, course := FreshCourse(if s.adaptive then 3 else s.fixed), m := NO_MEASUREMENTS)
  }

  function Initial(): State {
    State(true, 3, DEFAULTS, 0.0, [], None, FreshCourse(3), NO_MEASUREMENTS)
  }

  predicate Accepted(c: Option<Control>) {
    c.Some? && 1 <= c.value.fixed <= 4 && c.value.params.Valid()
  }

  /** Reads the control file at most once a second; a file that is not in order is ignored. */
  function Refreshed(s: State, now: real, c: Option<Control>): State {
    if now < s.readAfter then s
    else
      var s1 := s.(readAfter := now + 1.0);
      if !Accepted(c)
          || (c.value.adaptive == s.adaptive && c.value.fixed == s.fixed && c.value.params == s.params) then s1
      else Reset(s1.(adaptive := c.value.adaptive, fixed := c.value.fixed, params := c.value.params))
  }

  /** For another batch everything starts anew. */
  function Chosen(s: State, now: real, c: Option<Control>, ids: seq<nat>): State {
    var s1 := Refreshed(s, now, c);
    if ids != s1.signature then Reset(s1.(signature := ids)) else s1
  }

  /** Settings change exactly when the file is read, at most once a second, and holds others in order; then, and for
      another batch, everything starts anew; otherwise nothing changes. */
  lemma ChosenIs(s: State, now: real, c: Option<Control>, ids: seq<nat>)
    ensures var t, read := Chosen(s, now, c, ids), now >= s.readAfter;
      var p := if c.Some? then c.value.params else s.params;
      var good := c.Some? && 1 <= c.value.fixed <= 4 && 32 <= p.window <= 256 && 8 <= p.interval <= 64
        && 4 <= p.probeSteps <= 32 && 32 <= p.probeInterval <= 256 && 0.0 <= p.margin <= 0.25;
      var other := read && good && !(c.value.adaptive == s.adaptive && c.value.fixed == s.fixed && p == s.params);
      && t.signature == ids
      && t.readAfter == (if read then now + 1.0 else s.readAfter)
      && (read && good ==> t.adaptive == c.value.adaptive && t.fixed == c.value.fixed && t.params == p)
      && (!(read && good) ==> t.adaptive == s.adaptive && t.fixed == s.fixed && t.params == s.params)
      && (other || ids != s.signature ==>
          var depth := if t.adaptive then 3 else t.fixed;
          && t.previous == None
          && t.course == Course(depth, 2, 0, 0, 0, 0, depth)
          && t.m == Measurements([], [[], [], [], []], [], [0.5, 0.5, 0.5, 0.5], [false, false, false, false]))
      && (!other && ids == s.signature ==> t.previous == s.previous && t.course == s.course && t.m == s.m)
  {
    RefreshedIs(s, now, c);
  }

  lemma RefreshedIs(s: State, now: real, c: Option<Control>)
    ensures var t, read := Refreshed(s, now, c), now >= s.readAfter && Accepted(c);
      && t.signature == s.signature
      && t.readAfter == (if now >= s.readAfter then now + 1.0 else s.readAfter)
      && (read ==> t.adaptive == c.value.adaptive && t.fixed == c.value.fixed && t.params == c.value.params)
      && (!read ==> t.adaptive == s.adaptive && t.fixed == s.fixed && t.params == s.params)
      && (t.adaptive != s.adaptive || t.fixed != s.fixed || t.params != s.params ==>
          t.previous == None && t.course == FreshCourse(if t.adaptive then 3 else t.fixed) && t.m == NO_MEASUREMENTS)
      && (t.adaptive == s.adaptive && t.fixed == s.fixed && t.params == s.params ==>
          t.previous == s.previous && t.course == s.course && t.m == s.m)
  {
  }

  // ---------------------------------------------------------------- deciding

  predicate Usable(m: Measurements) {
    && |m.q| == 4 && |m.seen| == 4 && |m.costs| == 4
    && forall r :: r in m.records ==> r.depth <= 4
  }

  predicate OnCourse(c: Course) { 1 <= c.k <= 4 && 1 <= c.anchor <= 4 }

  function Estimated(m: Measurements): Measurements
    requires Usable(m)
  {
    m.(q := seq(4, j requires 0 <= j < 4 => Acceptance(m.records, m.q, j)),
       seen := seq(4, j requires 0 <= j < 4 => m.seen[j] || Exposures(m.records, j) > 0))
  }

  /** A position counts as seen from its first observation on, and its estimate changes only by observations. */
  lemma EstimatedIs(m: Measurements, j: nat)
    requires Usable(m) && j < 4
    ensures var t := Estimated(m);
      && (t.seen[j] <==> m.seen[j] || Exposed(m.records, j) != {})
      && t.q[j] == Acceptance(m.records, m.q, j)
      && (Exposed(m.records, j) == {} ==> t.q[j] == m.q[j])
      && |t.q| == |t.seen| == 4 && t.records == m.records && t.costs == m.costs && t.scales == m.scales
  {
    ExposuresCount(m.records, j);
    if Exposures(m.records, j) == 0 { assert Exposed(m.records, j) == {}; }
  }

  /** The expected yield of depths 1 to 4. */
  function Scores(m: Measurements): seq<real>
    requires Usable(m)
  {
    seq(4, i requires 0 <= i < 4 => Score(m.q, m.costs, m.scales, i + 1))
  }

  /** One position beyond depth `k` has not been observed and could pay for itself. */
  predicate CouldPay(m: Measurements, k: int)
    requires Usable(m) && 1 <= k <= 4
  {
    && k < 4 && !m.seen[k]
    && var cost := Cost(m.costs, m.scales, k + 1);
       cost != 0.0 && UpperReward(m.q, k) / cost > Score(m.q, m.costs, m.scales, k) * 1.04
  }

  /** The first of the first `n` depths with the greatest score. */
  function Best(scores: seq<real>, n: nat): (b: int)
    requires 1 <= n <= |scores|
    ensures 1 <= b <= n
    ensures forall i :: 0 <= i < n ==> scores[i] <= scores[b - 1]
    ensures forall i :: 0 <= i < b - 1 ==> scores[i] < scores[b - 1]
  {
    if n == 1 then 1
    else
      var b := Best(scores, n - 1);
      if scores[n - 1] > scores[b - 1] then n else b
  }

  function Bar(score: real, margin: real): (bar: real)
    ensures bar - score == score * margin
  {
    score * (1.0 + margin)
  }

  /** The best depth, or the incumbent if the best is not better by the margin. */
  function Winner(scores: seq<real>, incumbent: int, margin: real): int
    requires |scores| == 4 && 1 <= incumbent <= 4
  {
    var best := Best(scores, 4);
    if scores[best - 1] <= Bar(scores[incumbent - 1], margin) then incumbent else best
  }

  function Switched(c: Course, depth: int): Course {
    (if depth != c.k then c.(k := depth, settle := 2) else c).(sinceDecision := 0)
  }

  function Incumbent(c: Course): int { if c.probeLeft == -1 then c.anchor else c.k }

  predicate Probes(c: Course, params: Params, best: int, couldPay: bool) {
    c.probeLeft != -1 && best == c.k && c.k < 4 && (couldPay || c.steps - c.lastProbe >= params.probeInterval)
  }

  function Settled(c: Course, params: Params, best: int, couldPay: bool): Course {
    if Probes(c, params, best, couldPay)
    then Switched(c.(anchor := c.k, probeLeft := params.probeSteps, lastProbe := c.steps), c.k + 1)
    else Switched(c.(probeLeft := 0), best)
  }

  function Decided(c: Course, params: Params, m: Measurements): Course
    requires Usable(m) && OnCourse(c)
  {
    Settled(c, params, Winner(Scores(m), Incumbent(c), params.margin), CouldPay(m, c.k))
  }

  // ---------------------------------------------------------------- observing

  function Ids(shares: seq<Share>): (ids: seq<nat>)
    ensures |ids| == |shares|
  {
    seq(|shares|, i requires 0 <= i < |shares| => shares[i].id)
  }

  /** The step ran the chosen depth for exactly the batch it was chosen for. */
  predicate Matches(signature: seq<nat>, k: int, shares: seq<Share>) {
    && Ids(shares) == signature && shares != []
    && forall x :: x in shares ==> x.drafts == k && x.tokens == k + 1
  }

  predicate Measured(k: int, elapsed: real, shares: seq<Share>) {
    0.0 < elapsed < 2.0 && forall x :: x in shares ==> 1 <= x.emitted <= k + 1
  }

  function RecordOf(k: nat, shares: seq<Share>): Record {
    Record(k, seq(|shares|, i requires 0 <= i < |shares| => shares[i].emitted - 1))
  }

  function Noted(m: Measurements, params: Params, k: int, elapsed: real, shares: seq<Share>): Measurements
    requires Usable(m) && 1 <= k <= 4
  {
    m.(records := Push(m.records, RecordOf(k, shares), if params.window > 0 then params.window else 1),
       costs := m.costs[k - 1 := Push(m.costs[k - 1], elapsed, 32)],
       scales := Push(m.scales, elapsed / Prior(k), 32))
  }

  /** Counts an observation; the second part says whether a decision is due. */
  function Counted(c: Course, params: Params): (Course, bool) {
    var c1 := c.(steps := c.steps + 1, sinceDecision := c.sinceDecision + 1);
    if c.probeLeft > 0 then
      (c1.(probeLeft := if c.probeLeft == 1 then -1 else c.probeLeft - 1), c.probeLeft == 1)
    else (c1, c1.sinceDecision >= params.interval)
  }

  function Taken(s: State, elapsed: real, shares: seq<Share>): State
    requires Usable(s.m) && OnCourse(s.course)
  {
    var m := Noted(s.m, s.params, s.course.k, elapsed, shares);
    var (c, due) := Counted(s.course, s.params);
    if due then s.(course := Decided(c, s.params, Estimated(m)), m := Estimated(m)) else s.(course := c, m := m)
  }

  function Observed(s: State, now: real, shares: seq<Share>): State
    requires Usable(s.m) && OnCourse(s.course)
  {
    var s1 := s.(previous := Some(now));
    if !s.adaptive || s.previous == None then s1
    else if !Matches(s.signature, s.course.k, shares) then s1.(course := s.course.(settle := 2))
    else if s.course.settle != 0 then s1.(course := s.course.(settle := s.course.settle - 1))
    else if !Measured(s.course.k, now - s.previous.value, shares) then s1
    else Taken(s1, now - s.previous.value, shares)
  }

  // ---------------------------------------------------------------- the invariant

  ghost predicate Sound(m: Measurements, window: int) {
    && Usable(m) && Proper(m.q) && |m.records| <= window
    && Positive(m.scales) && forall i :: 0 <= i < 4 ==> Positive(m.costs[i])
  }

  /** While probing, the depth is one more than the depth to go back to, and the observations since the decision are
      those the probe has used; otherwise a decision is never overdue. */
  ghost predicate Steady(c: Course, params: Params) {
    && OnCourse(c) && 0 <= c.settle <= 2 && c.lastProbe <= c.steps && c.probeLeft >= 0
    && if c.probeLeft > 0 then c.k == c.anchor + 1 && c.sinceDecision == params.probeSteps - c.probeLeft
       else 0 <= c.sinceDecision < params.interval
  }

  ghost predicate Inv(s: State) {
    && s.params.Valid() && 1 <= s.fixed <= 4 && Sound(s.m, s.params.window) && Steady(s.course, s.params)
    && (!s.adaptive ==> s.course.k == s.fixed && s.course.probeLeft == 0)
  }

  lemma ResetKeeps(s: State)
    requires s.params.Valid() && 1 <= s.fixed <= 4
    ensures Inv(Reset(s))
  {
  }

  lemma ChosenKeeps(s: State, now: real, c: Option<Control>, ids: seq<nat>)
    requires Inv(s)
    ensures Inv(Chosen(s, now, c, ids)) && Chosen(s, now, c, ids).signature == ids
  {
    var s1 := Refreshed(s, now, c);
    if now >= s.readAfter && Accepted(c) {
      var v := c.value;
      ResetKeeps(s.(readAfter := now + 1.0, adaptive := v.adaptive, fixed := v.fixed, params := v.params));
    }
    ResetKeeps(s1.(signature := ids));
  }

  lemma EstimatedKeepsSound(m: Measurements, window: int)
    requires Sound(m, window)
    ensures Sound(Estimated(m), window)
  {
    forall j | 0 <= j < 4 ensures 0.0 < Acceptance(m.records, m.q, j) < 1.0 {
      AcceptanceIsProper(m.records, m.q, j);
    }
  }

  lemma NotedKeepsSound(m: Measurements, params: Params, k: int, elapsed: real, shares: seq<Share>)
    requires Sound(m, params.window) && params.Valid() && 1 <= k <= 4 && elapsed > 0.0
    ensures Sound(Noted(m, params, k, elapsed, shares), params.window)
  {
    var t := Noted(m, params, k, elapsed, shares);
    assert elapsed / Prior(k) > 0.0;
    forall i | 0 <= i < 4 ensures Positive(t.costs[i]) {
      assert Positive(m.costs[i]);
    }
  }

  lemma SettledKeeps(c: Course, params: Params, best: int, couldPay: bool)
    requires params.Valid() && OnCourse(c) && 0 <= c.settle <= 2 && c.lastProbe <= c.steps && 1 <= best <= 4
    ensures Steady(Settled(c, params, best, couldPay), params)
  {
  }

  lemma TakenKeeps(s: State, elapsed: real, shares: seq<Share>)
    requires Inv(s) && s.adaptive && elapsed > 0.0
    ensures Inv(Taken(s, elapsed, shares))
  {
    var m := Noted(s.m, s.params, s.course.k, elapsed, shares);
    NotedKeepsSound(s.m, s.params, s.course.k, elapsed, shares);
    EstimatedKeepsSound(m, s.params.window);
    var (c, due) := Counted(s.course, s.params);
    if due {
      var e := Estimated(m);
      SettledKeeps(c, s.params, Winner(Scores(e), Incumbent(c), s.params.margin), CouldPay(e, c.k));
    }
  }

  lemma ObservedKeeps(s: State, now: real, shares: seq<Share>)
    requires Inv(s)
    ensures Inv(Observed(s, now, shares))
  {
    if s.adaptive && s.previous != None && Measured(s.course.k, now - s.previous.value, shares) {
      TakenKeeps(s.(previous := Some(now)), now - s.previous.value, shares);
    }
  }

  /** When the measurement of a step is taken. */
  ghost predicate Counts(s: State, now: real, shares: seq<Share>) {
    && s.adaptive && s.previous.Some? && s.course.settle == 0 && |shares| == |s.signature| > 0
    && 0.0 < now - s.previous.value < 2.0
    && forall i :: 0 <= i < |shares| ==> shares[i].id == s.signature[i] && Full(shares[i], s.course.k)
  }

  /** All of the chosen depth, and something came out. */
  ghost predicate Full(share: Share, k: int) {
    share.drafts == k && share.tokens == k + 1 && 1 <= share.emitted <= k + 1
  }

  lemma MatchesIff(signature: seq<nat>, k: int, shares: seq<Share>)
    ensures Matches(signature, k, shares) <==>
      (|shares| == |signature| > 0
       && forall i :: 0 <= i < |shares| ==>
         shares[i].id == signature[i] && shares[i].drafts == k && shares[i].tokens == k + 1)
  {
    if |shares| == |signature| > 0 && forall i :: 0 <= i < |shares| ==> shares[i].id == signature[i] {
      assert Ids(shares) == signature;
    }
    if Matches(signature, k, shares) {
      forall i | 0 <= i < |shares| ensures shares[i].id == signature[i] {
        assert Ids(shares)[i] == shares[i].id;
      }
    }
  }

  lemma CountsIff(s: State, now: real, shares: seq<Share>)
    ensures Counts(s, now, shares) <==>
      s.adaptive && s.previous.Some? && Matches(s.signature, s.course.k, shares) && s.course.settle == 0
      && Measured(s.course.k, now - s.previous.value, shares)
  {
    MatchesIff(s.signature, s.course.k, shares);
    if Counts(s, now, shares) {
      forall x | x in shares ensures 1 <= x.emitted <= s.course.k + 1 {
        var i :| 0 <= i < |shares| && shares[i] == x;
        assert Full(shares[i], s.course.k);
      }
    }
    if s.previous.Some? && Matches(s.signature, s.course.k, shares)
        && Measured(s.course.k, now - s.previous.value, shares) {
      forall i | 0 <= i < |shares| ensures Full(shares[i], s.course.k) {
        assert shares[i] in shares;
      }
    }
  }

  /** What an observation does unless it counts: a step of another kind has the settling begin again, one that settles
      brings it on, and nothing else changes but the time. */
  lemma NotCounted(s: State, now: real, shares: seq<Share>)
    requires Inv(s) && !Counts(s, now, shares)
    ensures var t, alike := Observed(s, now, shares), s.adaptive && s.previous.Some?;
      var other := !Matches(s.signature, s.course.k, shares);
      t == s.(previous := Some(now), course := s.course.(settle :=
        if alike && other then 2 else if alike && s.course.settle > 0 then s.course.settle - 1 else s.course.settle))
  {
    CountsIff(s, now, shares);
  }

  /** What is added to the measurements when it counts. */
  lemma Counting(s: State, now: real, shares: seq<Share>)
    requires Inv(s) && Counts(s, now, shares)
    ensures var t, k, elapsed := Observed(s, now, shares), s.course.k, now - s.previous.value;
      && t == s.(previous := Some(now), course := t.course, m := t.m)
      && t.m.scales == Newest(s.m.scales + [elapsed / Prior(k)], 32)
      && t.m.records == Newest(s.m.records + [RecordOf(k, shares)], s.params.window)
      && t.m.costs == s.m.costs[k - 1 := Newest(s.m.costs[k - 1] + [elapsed], 32)]
  {
    CountsIff(s, now, shares);
  }

  /** A decision is due exactly at the end of a probe or, outside of one, after as many measurements as the interval. */
  lemma DueIff(s: State, now: real, shares: seq<Share>)
    requires Inv(s) && Counts(s, now, shares)
    ensures var c, t, probing := s.course, Observed(s, now, shares), s.course.probeLeft > 0;
      var due := c.sinceDecision + 1 == if probing then s.params.probeSteps else s.params.interval;
      var counted := c.(steps := c.steps + 1, sinceDecision := c.sinceDecision + 1);
      && (!due ==>
        && t.course == counted.(probeLeft := if probing then c.probeLeft - 1 else 0)
        && t.m.q == s.m.q && t.m.seen == s.m.seen)
      && (due ==>
        && t.m == Estimated(t.m.(q := s.m.q, seen := s.m.seen))
        && t.course == Decided(counted.(probeLeft := if probing then -1 else 0), s.params, t.m))
  {
    CountsIff(s, now, shares);
    CountedIs(s.course, s.params);
  }

  lemma CountedIs(c: Course, params: Params)
    requires Steady(c, params)
    ensures var (t, due) := Counted(c, params);
      && (due <==> c.sinceDecision + 1 == if c.probeLeft > 0 then params.probeSteps else params.interval)
      && t == c.(steps := c.steps + 1, sinceDecision := c.sinceDecision + 1,
                 probeLeft := if c.probeLeft <= 0 then 0 else if due then -1 else c.probeLeft - 1)
  {
  }

  lemma RecordIs(k: nat, shares: seq<Share>, i: nat)
    requires i < |shares|
    ensures var r := RecordOf(k, shares);
      r.depth == k && |r.accepted| == |shares| && r.accepted[i] + 1 == shares[i].emitted
  {
  }

  // ---------------------------------------------------------------- decisions

  lemma ScoresArePositive(m: Measurements, window: int)
    requires Sound(m, window)
    ensures forall i :: 0 <= i < 4 ==> Scores(m)[i] > 0.0
  {
    forall i: nat | i < 4 ensures Scores(m)[i] > 0.0 {
      CostsIncrease(m.costs, m.scales, i + 1);
      RewardIsPositive(m.q, i + 1);
      PositiveQuotient(Reward(m.q, i + 1), Cost(m.costs, m.scales, i + 1));
      assert Scores(m)[i] == Score(m.q, m.costs, m.scales, i + 1);
    }
  }

  lemma PositiveQuotient(a: real, b: real)
    requires a > 0.0 && b > 0.0
    ensures a / b > 0.0
  {
    var x := a / b;
    assert x * b == a;
    if x <= 0.0 { Scales(x, 0.0, b); }
  }

  lemma BarIsHigher(x: real, margin: real)
    requires x >= 0.0 && margin >= 0.0
    ensures x <= Bar(x, margin)
  {
  }

  ghost predicate FirstOfBest(scores: seq<real>, k: int)
    requires |scores| == 4 && 1 <= k <= 4
  {
    forall i :: 0 <= i < 4 ==> scores[i] <= scores[k - 1] && (i < k - 1 ==> scores[i] < scores[k - 1])
  }

  /** The winner is the incumbent exactly if no depth is better by the margin; otherwise it is the best of all. */
  lemma WinnerIs(scores: seq<real>, incumbent: int, margin: real)
    requires |scores| == 4 && 1 <= incumbent <= 4 && margin >= 0.0 && scores[incumbent - 1] > 0.0
    ensures var w, bar := Winner(scores, incumbent, margin), Bar(scores[incumbent - 1], margin);
      && (w == incumbent <==> forall i :: 0 <= i < 4 ==> scores[i] <= bar)
      && (w != incumbent ==> 1 <= w <= 4 && bar < scores[w - 1] && FirstOfBest(scores, w))
  {
    BarIsHigher(scores[incumbent - 1], margin);
  }

  /** A decision that does not probe leaves the incumbent exactly if some depth is better by the margin, and then for
      the best; and a probe that has just run out is not followed by another. */
  lemma LeavingNeedsMargin(c: Course, params: Params, m: Measurements)
    requires params.Valid() && OnCourse(c) && Sound(m, params.window)
    ensures var t, scores := Decided(c, params, m), Scores(m);
      var incumbent := if c.probeLeft == -1 then c.anchor else c.k;
      var bar := Bar(scores[incumbent - 1], params.margin);
      && (c.probeLeft == -1 ==> t.probeLeft == 0)
      && (t.probeLeft == 0 ==>
        && 1 <= t.k <= 4
        && (t.k == incumbent <==> forall i :: 0 <= i < 4 ==> scores[i] <= bar)
        && (t.k != incumbent ==> FirstOfBest(scores, t.k)))
  {
    ScoresArePositive(m, params.window);
    WinnerIs(Scores(m), Incumbent(c), params.margin);
  }

  /** A probe begins exactly when the incumbent wins, is not the deepest, was not just being compared with a probe, and
      the next position could pay for itself or has not been probed for long; then it looks one position further. */
  lemma ProbeBeginsIff(c: Course, params: Params, m: Measurements)
    requires params.Valid() && OnCourse(c) && Usable(m) && (c.probeLeft == 0 || c.probeLeft == -1)
    ensures var t := Decided(c, params, m);
      && (t.probeLeft > 0 <==>
          (c.probeLeft == 0 && c.k < 4 && Winner(Scores(m), c.k, params.margin) == c.k
           && (CouldPay(m, c.k) || c.steps - c.lastProbe >= params.probeInterval)))
      && (t.probeLeft > 0 ==>
          t == Course(c.k + 1, 2, c.steps, 0, c.steps, params.probeSteps, c.k))
      && (t.probeLeft <= 0 ==>
          t == Course(t.k, if t.k == c.k then c.settle else 2, c.steps, 0, c.lastProbe, 0, c.anchor))
  {
  }

  /** A position beyond the depth could pay for itself exactly if it has not been observed and there is an acceptance
      for which the deeper step would be better by more than four percent. */
  lemma CouldPayIff(m: Measurements, window: int, k: int)
    requires Sound(m, window) && 1 <= k <= 4
    ensures CouldPay(m, k) <==>
      k < 4 && !m.seen[k] && exists tail: real :: 0.0 <= tail <= 1.0 && Better(m, k, tail)
  {
    if k < 4 {
      CostsIncrease(m.costs, m.scales, k + 1);
      if CouldPay(m, k) {
        UpperRewardBounds(m.q, k, 1.0);
        assert Better(m, k, 1.0);
      } else if !m.seen[k] {
        forall tail: real | 0.0 <= tail <= 1.0 ensures !Better(m, k, tail) {
          GateMissesNothing(m.q, m.costs, m.scales, k, tail);
        }
      }
    }
  }

  ghost predicate Better(m: Measurements, k: int, tail: real)
    requires Usable(m) && 1 <= k < 4
  {
    Score(m.q[k := tail], m.costs, m.scales, k + 1) > Score(m.q, m.costs, m.scales, k) * 1.04
  }

  lemma StaysUnlessItCouldPay(c: Course, params: Params, best: int, couldPay: bool)
    requires c.probeLeft == 0 && c.k < 4 && Settled(c, params, best, couldPay).k == c.k
    ensures !couldPay
  {
  }

  /** If a decision stays and does not probe a position never observed, no acceptance there would have made it better by
      more than four percent. */
  lemma NoProbeMissesNothing(c: Course, params: Params, m: Measurements, tail: real)
    requires params.Valid() && OnCourse(c) && Sound(m, params.window) && c.probeLeft == 0
    requires c.k < 4 && !m.seen[c.k] && 0.0 <= tail <= 1.0
    ensures Decided(c, params, m).k == c.k ==>
      Score(m.q[c.k := tail], m.costs, m.scales, c.k + 1) <= Scores(m)[c.k - 1] * 1.04
  {
    if Decided(c, params, m).k == c.k {
      StaysUnlessItCouldPay(c, params, Winner(Scores(m), Incumbent(c), params.margin), CouldPay(m, c.k));
      GateMissesNothing(m.q, m.costs, m.scales, c.k, tail);
    }
  }

  // ---------------------------------------------------------------- whole runs

  datatype Event =
    | Choose(now: real, control: Option<Control>, ids: seq<nat>)
    | Observe(now: real, shares: seq<Share>)

  function Apply(s: State, e: Event): State
    requires Usable(s.m) && OnCourse(s.course)
  {
    match e
    case Choose(now, control, ids) => Chosen(s, now, control, ids)
    case Observe(now, shares) => Observed(s, now, shares)
  }

  /** Any sequence of calls, clock readings and contents of the control file. */
  ghost predicate IsRun(ss: seq<State>, es: seq<Event>) {
    && |ss| == |es| + 1 && ss[0] == Initial()
    && forall i :: 0 <= i < |es| ==> Usable(ss[i].m) && OnCourse(ss[i].course) && ss[i + 1] == Apply(ss[i], es[i])
  }

  lemma {:induction false} RunKeeps(ss: seq<State>, es: seq<Event>, n: nat)
    requires IsRun(ss, es) && n < |ss|
    ensures Inv(ss[n])
  {
    if n > 0 {
      RunKeeps(ss, es, n - 1);
      match es[n - 1]
      case Choose(now, control, ids) => ChosenKeeps(ss[n - 1], now, control, ids);
      case Observe(now, shares) => ObservedKeeps(ss[n - 1], now, shares);
    }
  }

  /** The step's measurement is taken. */
  ghost predicate Records(s: State, e: Event) { e.Observe? && Counts(s, e.now, e.shares) }

  /** The step matches and is waited for. */
  predicate Settles(s: State, e: Event) {
    e.Observe? && s.adaptive && s.previous.Some? && Matches(s.signature, s.course.k, e.shares) && s.course.settle > 0
  }

  /** Only a matching step brings the settling count down, by one; a new depth or batch sets it to two. */
  lemma SettleStep(s: State, e: Event)
    requires Inv(s)
    ensures var t := Apply(s, e);
      && (t.course.settle < s.course.settle ==> Settles(s, e) && t.course.settle == s.course.settle - 1)
      && (t.course.k != s.course.k || t.signature != s.signature ==> t.course.settle == 2)
  {
  }

  /** The last time the settling count came down to `v`. */
  lemma {:induction false} LastDrop(ss: seq<State>, es: seq<Event>, n: nat, v: int) returns (a: nat)
    requires IsRun(ss, es) && n < |ss| && ss[n].course.settle <= v < 2
    ensures a < n && Settles(ss[a], es[a]) && ss[a].course.settle == v + 1
    ensures forall m :: a < m <= n ==> ss[m].course.settle <= v
  {
    RunKeeps(ss, es, n);
    assert n > 0;
    RunKeeps(ss, es, n - 1);
    SettleStep(ss[n - 1], es[n - 1]);
    if ss[n - 1].course.settle <= v {
      a := LastDrop(ss, es, n - 1, v);
    } else {
      a := n - 1;
    }
  }

  lemma {:induction false} Unchanged(ss: seq<State>, es: seq<Event>, a: nat, n: nat)
    requires IsRun(ss, es) && a <= n < |ss| && forall m :: a < m <= n ==> ss[m].course.settle < 2
    ensures forall m :: a <= m <= n ==> ss[m].course.k == ss[n].course.k && ss[m].signature == ss[n].signature
    decreases n - a
  {
    if a < n {
      Unchanged(ss, es, a + 1, n);
      RunKeeps(ss, es, a);
      SettleStep(ss[a], es[a]);
      assert ss[a + 1].course.settle < 2 && ss[a + 1] == Apply(ss[a], es[a]);
    }
  }

  /** In every run, a measurement is taken only after two other matching steps, and since before the first of them
      neither depth nor batch has changed. */
  lemma RecordsAreSettled(ss: seq<State>, es: seq<Event>, n: nat) returns (a: nat, b: nat)
    requires IsRun(ss, es) && n < |es| && Records(ss[n], es[n])
    ensures a < b < n && Settles(ss[a], es[a]) && Settles(ss[b], es[b])
    ensures forall m :: a <= m <= n ==> ss[m].course.k == ss[n].course.k && ss[m].signature == ss[n].signature
  {
    CountsIff(ss[n], es[n].now, es[n].shares);
    b := LastDrop(ss, es, n, 0);
    a := LastDrop(ss, es, b, 1);
    Unchanged(ss, es, a, n);
  }

  // ---------------------------------------------------------------- the controller in place

  class Controller {
    var adaptive: bool
    var fixed: int
    var readAfter: real
    var signature: seq<nat>
    var params: Params
    var k: int
    var previous: Option<real>
    var settle: int
    var steps: int
    var sinceDecision: int
    var records: seq<Record>
    var costs: seq<seq<real>>
    var scales: seq<real>
    var q: seq<real>
    var seen: seq<bool>
    var lastProbe: int
    var probeLeft: int
    var anchor: int

    ghost function TheCourse(): Course
      reads this
    {
      Course(k, settle, steps, sinceDecision, lastProbe, probeLeft, anchor)
    }

    ghost function TheMeasurements(): Measurements
      reads this
    {
      Measurements(records, costs, scales, q, seen)
    }

    ghost function View(): State
      reads this
    {
      State(adaptive, fixed, params, readAfter, signature, previous, TheCourse(), TheMeasurements())
    }

    constructor ()
      ensures View() == Initial()
      ensures View() == State(true, 3, Params(64, 16, 0.04, 8, 96), 0.0, [], None, Course(3, 2, 0, 0, 0, 0, 3),
        Measurements([], [[], [], [], []], [], [0.5, 0.5, 0.5, 0.5], [false, false, false, false]))
    {
      adaptive, fixed, readAfter, signature, params := true, 3, 0.0, [], DEFAULTS;
      new;
      ResetAll();
    }

    method ForgetMeasurements()
      modifies this`records, this`costs, this`scales, this`q, this`seen
      ensures TheMeasurements() == NO_MEASUREMENTS
    {
      var none := NO_MEASUREMENTS;
      records, costs, scales, q, seen := none.records, none.costs, none.scales, none.q, none.seen;
    }

    method StartOver(depth: int)
      modifies this`previous
      modifies this`k, this`settle, this`steps, this`sinceDecision, this`lastProbe, this`probeLeft, this`anchor
      ensures previous == None && TheCourse() == FreshCourse(depth)
    {
      previous := None;
      k, settle, steps, sinceDecision, lastProbe, probeLeft, anchor := depth, 2, 0, 0, 0, 0, depth;
    }

    method ResetAll()
      modifies this
      ensures View() == Reset(old(View()))
    {
      var depth := if adaptive then 3 else fixed;
      StartOver(depth);
      label between:
      ForgetMeasurements();
      assert TheCourse() == old@between(TheCourse()) == FreshCourse(depth);
      assert View() == old(View()).(previous := None, course := FreshCourse(depth), m := NO_MEASUREMENTS);
    }

    method Refresh(now: real, c: Option<Control>)
      modifies this
      ensures View() == Refreshed(old(View()), now, c)
    {
      if now < readAfter { return; }
      readAfter := now + 1.0;
      if !Accepted(c) { return; }
      var control := c.value;
      if control.adaptive != adaptive || control.fixed != fixed || control.params != params {
        adaptive, fixed, params := control.adaptive, control.fixed, control.params;
        assert View() == old(View()).(readAfter := now + 1.0, adaptive := control.adaptive, fixed := control.fixed,
                                      params := control.params);
        ResetAll();
      }
    }

    method ChooseDepth(now: real, c: Option<Control>, ids: seq<nat>) returns (depth: int)
      modifies this
      ensures View() == Chosen(old(View()), now, c, ids) && depth == k
    {
      Refresh(now, c);
      if ids != signature {
        signature := ids;
        ResetAll();
      }
      depth := k;
    }

    method Switch(depth: int)
      modifies this`k, this`settle, this`sinceDecision
      ensures TheCourse() == Switched(old(TheCourse()), depth)
    {
      if depth != k {
        k := depth;
        settle := 2;
      }
      sinceDecision := 0;
    }

    method Estimate()
      requires Usable(TheMeasurements())
      modifies this`q, this`seen
      ensures TheMeasurements() == Estimated(old(TheMeasurements()))
    {
      var exposures, hits := CountAcceptance(records);
      var j := 0;
      ghost var e := Estimated(TheMeasurements());
      while j < 4
        invariant 0 <= j <= 4 && |q| == 4 && |seen| == 4
        invariant forall i :: 0 <= i < 4 ==> q[i] == if i < j then e.q[i] else old(q)[i]
        invariant forall i :: 0 <= i < 4 ==> seen[i] == if i < j then e.seen[i] else old(seen)[i]
      {
        if exposures[j] > 0 {
          q := q[j := (hits[j] as real + 0.5) / (exposures[j] as real + 1.0)];
          seen := seen[j := true];
        }
        j := j + 1;
      }
      assert q == e.q && seen == e.seen;
    }

    method PickWinner(incumbent: int) returns (best: int)
      requires Usable(TheMeasurements()) && 1 <= incumbent <= 4
      ensures best == Winner(Scores(TheMeasurements()), incumbent, params.margin)
    {
      var scores := Scores(Measurements(records, costs, scales, q, seen));
      best := 1;
      var depth := 2;
      while depth <= 4
        invariant 2 <= depth <= 5 && best == Best(scores, depth - 1)
      {
        if scores[depth - 1] > scores[best - 1] { best := depth; }
        depth := depth + 1;
      }
      if scores[best - 1] <= Bar(scores[incumbent - 1], params.margin) { best := incumbent; }
    }

    method WantsProbe(best: int) returns (probe: bool)
      requires Usable(TheMeasurements()) && OnCourse(TheCourse())
      ensures probe == Probes(TheCourse(), params, best, CouldPay(TheMeasurements(), k))
    {
      probe := false;
      if probeLeft != -1 && best == k && k < 4 {
        var cost := Cost(costs, scales, k + 1);
        if !seen[k] && cost != 0.0 && UpperReward(q, k) / cost > Score(q, costs, scales, k) * 1.04 {
          probe := true;
        } else if steps - lastProbe >= params.probeInterval {
          probe := true;
        }
      }
    }

    method Decide()
      requires Usable(TheMeasurements()) && OnCourse(TheCourse())
      modifies this`q, this`seen, this`k, this`settle, this`sinceDecision, this`lastProbe, this`probeLeft, this`anchor
      ensures TheMeasurements() == Estimated(old(TheMeasurements()))
      ensures TheCourse() == Decided(old(TheCourse()), params, TheMeasurements())
    {
      Estimate();
      var best := PickWinner(if probeLeft == -1 then anchor else k);
      var probe := WantsProbe(best);
      if probe {
        anchor, probeLeft, lastProbe := k, params.probeSteps, steps;
        Switch(k + 1);
      } else {
        probeLeft := 0;
        Switch(best);
      }
    }

    method Note(elapsed: real, shares: seq<Share>)
      requires Usable(TheMeasurements()) && 1 <= k <= 4
      modifies this`records, this`costs, this`scales
      ensures TheMeasurements() == Noted(old(TheMeasurements()), params, k, elapsed, shares)
    {
      records := Push(records, RecordOf(k, shares), if params.window > 0 then params.window else 1);
      costs := costs[k - 1 := Push(costs[k - 1], elapsed, 32)];
      scales := Push(scales, elapsed / Prior(k), 32);
    }

    method CountStep() returns (due: bool)
      modifies this`steps, this`sinceDecision, this`probeLeft
      ensures (TheCourse(), due) == Counted(old(TheCourse()), params)
    {
      steps := steps + 1;
      sinceDecision := sinceDecision + 1;
      due := false;
      if probeLeft > 0 {
        probeLeft := probeLeft - 1;
        if probeLeft == 0 {
          probeLeft := -1;
          due := true;
        }
      } else if sinceDecision >= params.interval {
        due := true;
      }
    }

    method Take(elapsed: real, shares: seq<Share>)
      requires Usable(TheMeasurements()) && OnCourse(TheCourse())
      modifies this
      ensures View() == Taken(old(View()), elapsed, shares)
    {
      Note(elapsed, shares);
      label noted:
      assert TheCourse() == old(TheCourse());
      var due := CountStep();
      assert TheMeasurements() == old@noted(TheMeasurements());
      if due { Decide(); }
      assert View() == old(View()).(course := TheCourse(), m := TheMeasurements());
    }

    method ObserveStep(now: real, shares: seq<Share>)
      requires Usable(TheMeasurements()) && OnCourse(TheCourse())
      modifies this
      ensures View() == Observed(old(View()), now, shares)
    {
      var before := previous;
      previous := Some(now);
      if !adaptive || before == None { return; }
      if !Matches(signature, k, shares) {
        settle := 2;
      } else if settle != 0 {
        settle := settle - 1;
      } else if Measured(k, now - before.value, shares) {
        Take(now - before.value, shares);
      }
    }
  }
}
