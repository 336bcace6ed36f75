/** The token counters of one request under speculative decoding: what is scheduled, what the model accepts, and
    what is rolled back, through chunked prefill, padded admission, preemption and stale output. */
module SpecTokens {
  import opened Arithmetic
  import MambaSplit
  import opened Wrappers

  datatype Status = Waiting | Running | Finished

  /** A step's share of the request that has not come back yet. `at` is history: the position it samples for. */
  datatype Chunk = Chunk(n: int, drafts: int, samples: bool, stale: bool, at: int)

  datatype Request = Request(
    status: Status, tokens: int, computed: int, drafts: int, prefillChunk: bool, drop: bool, flight: seq<Chunk>)

  datatype Params = Params(maxLen: int, numSpec: int)

  datatype Event =
    | Schedule(n: int)
    | Admit(hit: int, n: int, pad: bool)
    | Preempt(dropOutput: bool)
    | Process(sampled: int, stops: int -> bool)
    | Propose(count: int)
    | Abort

  /** What the request asks of the running loop, and what the model length leaves. */
  function Want(r: Request): int { r.tokens + r.drafts - r.computed }

  function Room(p: Params, r: Request): int { p.maxLen - r.computed - 1 }

  predicate HasStale(r: Request) { exists i :: 0 <= i < |r.flight| && r.flight[i].stale }

  predicate Sampling(r: Request) {
    r.flight != [] && !r.flight[|r.flight| - 1].stale && r.flight[|r.flight| - 1].samples
  }

  /** The tokens that a waiting request gets at least before it can be admitted: it has to wait for stale output that
      is still going to be delivered. */
  function Owed(r: Request): int {
    if !r.drop && r.flight != [] && r.flight[|r.flight| - 1].samples then 1 else 0
  }

  /** The request holds drafts that it can be scheduled for ahead of output that is still to come: more of them than are
      just being checked, or any for a request that waits, and room for another token. */
  predicate Overtakes(p: Params, r: Request) {
    && r.drafts > 0
    && match r.status
       case Waiting => r.tokens + Owed(r) + 1 < p.maxLen
       case Running =>
         && Sampling(r) && r.drafts > r.flight[|r.flight| - 1].drafts
         && r.tokens + r.flight[|r.flight| - 1].drafts + 1 < p.maxLen
       case Finished => false
  }

  /** Sampled output comes back for the chunks that reach the end of the tokens: at least one token, at most one
      more than the drafts. A request that reaches the model length stops. Drafts may be proposed at any time and for
      any request, as long as they cannot overtake output. */
  ghost predicate Enabled(p: Params, r: Request, e: Event) {
    match e
    case Schedule(n) => r.status.Running? && 0 < n <= Min(Want(r), Room(p, r))
    case Admit(hit, n, pad) =>
      && r.status.Waiting? && 0 <= hit < r.tokens && (HasStale(r) ==> r.drop)
      && if pad then p.numSpec > 0 && n == 1 + p.numSpec && hit + 1 == r.tokens && hit + n + 1 <= p.maxLen
         else 0 < n <= r.tokens - hit
    case Preempt(_) => r.status.Running?
    case Process(sampled, stops) =>
      && r.flight != []
      && (if r.flight[0].samples then 1 <= sampled <= 1 + r.flight[0].drafts else sampled == 0)
      && (forall n :: n >= p.maxLen ==> stops(n))
    case Propose(count) => count >= 0 && !Overtakes(p, Proposed(r, count))
    case Abort => true
  }

  /** A scheduled chunk: the drafts it reaches go along, the others are forgotten. */
  function Scheduled(r: Request, n: int): Request {
    var reached := n + r.computed - r.tokens;
    var along := if r.drafts > 0 && reached > 0 then Min(r.drafts, reached) else 0;
    Launch(r.(drafts := 0), n, along)
  }

  /** _update_after_schedule(). */
  function Launch(r: Request, n: int, along: int): Request {
    var computed := r.computed + n;
    r.(computed := computed, prefillChunk := computed < r.tokens,
       flight := r.flight + [Chunk(n, along, computed >= r.tokens, false, r.tokens)])
  }

  function Admitted(p: Params, r: Request, hit: int, n: int, pad: bool): Request {
    Launch(r.(status := Running, computed := hit), n, if pad then p.numSpec else 0)
  }

  function AllStale(flight: seq<Chunk>): (f: seq<Chunk>)
    ensures |f| == |flight| && forall i :: 0 <= i < |f| ==> f[i] == flight[i].(stale := true)
  {
    seq(|flight|, i requires 0 <= i < |flight| => flight[i].(stale := true))
  }

  function Preempted(r: Request, dropOutput: bool): Request {
    r.(status := Waiting, computed := 0, drafts := 0,
       drop := dropOutput || (r.drop && HasStale(r)), flight := AllStale(r.flight))
  }

  /** How many of `left` sampled tokens are kept: up to and including the first that stops the request. */
  function Kept(tokens: int, left: nat, stops: int -> bool): (r: (nat, bool))
    ensures r.0 <= left && (!r.1 ==> r.0 == left)
    ensures forall k :: tokens < k < tokens + r.0 ==> !stops(k)
    ensures if r.1 then r.0 > 0 && stops(tokens + r.0) else forall k :: tokens < k <= tokens + left ==> !stops(k)
    decreases left
  {
    if left == 0 then (0, false)
    else if stops(tokens + 1) then (1, true)
    else
      var (more, stopped) := Kept(tokens + 1, left - 1, stops);
      (1 + more, stopped)
  }

  /** Rejected drafts are taken back from the computed tokens. */
  function RolledBack(r: Request, c: Chunk, sampled: int): Request {
    var accepted := if sampled > 1 then sampled - 1 else 0;
    if c.drafts > 0 && sampled > 0 && !c.stale && r.computed > 0 then r.(computed := r.computed - (c.drafts - accepted))
    else r
  }

  function Delivered(r: Request, sampled: nat, stops: int -> bool): Request {
    var (kept, stopped) := Kept(r.tokens, sampled, stops);
    r.(tokens := r.tokens + kept, status := if stopped then Finished else r.status)
  }

  /** update_from_output() for one request. */
  function Processed(r: Request, sampled: nat, stops: int -> bool): Request
    requires r.flight != []
  {
    var c := r.flight[0];
    var r1 := r.(flight := r.flight[1..]);
    if r.status.Finished? || (c.stale && r.drop) then r1
    else Delivered(RolledBack(r1, c, sampled), sampled, stops)
  }

  function Proposed(r: Request, count: int): Request {
    if r.status.Finished? then r else if r.prefillChunk then r.(drafts := 0) else r.(drafts := count)
  }

  ghost function Apply(p: Params, r: Request, e: Event): Request
    requires Enabled(p, r, e)
  {
    match e
    case Schedule(n) => Scheduled(r, n)
    case Admit(hit, n, pad) => Admitted(p, r, hit, n, pad)
    case Preempt(dropOutput) => Preempted(r, dropOutput)
    case Process(sampled, stops) => Processed(r, sampled, stops)
    case Propose(count) => Proposed(r, count)
    case Abort => r.(status := Finished)
  }

  // ---------------------------------------------------------------- the invariant

  /** Stale chunks come before the others; among the others only the last one samples. */
  ghost predicate Ordered(flight: seq<Chunk>) {
    && (forall i, j :: 0 <= i < j < |flight| && flight[j].stale ==> flight[i].stale)
    && (forall i :: 0 <= i < |flight| - 1 && !flight[i].stale ==> !flight[i].samples)
  }

  /** A sampling chunk carries a row for each draft and one for the last token. */
  ghost predicate Rows(c: Chunk) {
    c.n > 0 && 0 <= c.drafts && (c.samples ==> c.n >= 1 + c.drafts) && (!c.samples ==> c.drafts == 0)
  }

  /** Between steps the request has computed less than it has; while a step samples for it, exactly the tokens and
      the drafts. Output that is still going to be delivered is for the position the request is at. */
  ghost predicate Inv(p: Params, r: Request) {
    && Ordered(r.flight) && (forall c :: c in r.flight ==> Rows(c))
    && r.drafts >= 0
    && (!r.status.Finished? ==>
      && 0 < r.tokens < p.maxLen
      && (r.status.Waiting? ==> r.computed == 0 && r.drafts == 0 && forall c :: c in r.flight ==> c.stale)
      && (r.status.Running? ==> HasStale(r) ==> r.drop)
      && 0 <= r.computed <= p.maxLen - 1
      && (if Sampling(r) then r.computed == r.tokens + r.flight[|r.flight| - 1].drafts && r.drafts == 0
          else r.computed < r.tokens)
      && (forall c :: c in r.flight && c.samples && !(c.stale && r.drop) ==> c.at == r.tokens)
      && (!r.drop ==> forall i :: 0 <= i < |r.flight| - 1 ==> !r.flight[i].samples))
  }

  function Fresh(prompt: int): Request { Request(Waiting, prompt, 0, 0, false, false, []) }

  lemma FreshInv(p: Params, prompt: int)
    requires 0 < prompt < p.maxLen
    ensures Inv(p, Fresh(prompt))
  {
  }

  lemma LaunchKeeps(p: Params, r: Request, n: int, along: int)
    requires r.status.Running? && 0 < r.tokens < p.maxLen && r.drafts == 0 && (HasStale(r) ==> r.drop)
    requires Ordered(r.flight) && forall c :: c in r.flight ==> Rows(c) && (!c.stale ==> !c.samples)
    requires 0 <= r.computed < r.tokens && 0 < n && r.computed + n <= p.maxLen - 1
    requires along == if r.computed + n >= r.tokens then r.computed + n - r.tokens else 0
    ensures Inv(p, Launch(r, n, along))
  {
    var t := Launch(r, n, along);
    assert t.flight[..|r.flight|] == r.flight;
    forall c | c in t.flight ensures Rows(c) && (!c.stale && c.samples ==> c.at == r.tokens) {
      assert c in r.flight || c == t.flight[|r.flight|];
    }
  }

  lemma NotSampling(r: Request)
    requires Ordered(r.flight) && !Sampling(r)
    ensures forall c :: c in r.flight && !c.stale ==> !c.samples
  {
  }

  lemma ScheduleKeeps(p: Params, r: Request, n: int)
    requires Inv(p, r) && Enabled(p, r, Schedule(n))
    ensures Inv(p, Scheduled(r, n))
  {
    assert r.flight != [] ==> r.flight[|r.flight| - 1] in r.flight;
    NotSampling(r);
    var reached := n + r.computed - r.tokens;
    LaunchKeeps(p, r.(drafts := 0), n, if reached > 0 then reached else 0);
  }

  lemma AdmitKeeps(p: Params, r: Request, hit: int, n: int, pad: bool)
    requires Inv(p, r) && Enabled(p, r, Admit(hit, n, pad))
    ensures Inv(p, Admitted(p, r, hit, n, pad))
  {
    LaunchKeeps(p, r.(status := Running, computed := hit), n, if pad then p.numSpec else 0);
  }

  lemma PreemptKeeps(p: Params, r: Request, dropOutput: bool)
    requires Inv(p, r) && Enabled(p, r, Preempt(dropOutput))
    ensures Inv(p, Preempted(r, dropOutput))
  {
    var t := Preempted(r, dropOutput);
    forall c | c in t.flight ensures Rows(c) && c.stale && (c.samples && !t.drop ==> c.at == r.tokens) {
      var i :| 0 <= i < |t.flight| && t.flight[i] == c;
      assert r.flight[i] in r.flight;
    }
    if !t.drop { assert forall i :: 0 <= i < |r.flight| ==> !r.flight[i].stale; }
  }

  /** With the processed chunk gone, everything but the counters is in order again. */
  lemma FlightShrinks(p: Params, r: Request, t: Request)
    requires Inv(p, r) && r.flight != [] && t.flight == r.flight[1..]
    ensures Ordered(t.flight) && forall c :: c in t.flight ==> c in r.flight && Rows(c)
    ensures HasStale(t) ==> HasStale(r)
    ensures !r.status.Finished? && !r.drop ==> forall i :: 0 <= i < |t.flight| - 1 ==> !t.flight[i].samples
  {
    assert forall i :: 0 <= i < |t.flight| ==> t.flight[i] == r.flight[i + 1];
  }

  /** The request goes on: the tokens are for its position, and if the chunk was not stale the rest was rejected. */
  lemma DeliveryKeeps(p: Params, r: Request, t: Request, sampled: nat)
    requires Inv(p, r) && r.flight != [] && !r.status.Finished? && !(r.flight[0].stale && r.drop)
    requires if r.flight[0].samples then 1 <= sampled <= 1 + r.flight[0].drafts else sampled == 0
    requires r.tokens + sampled < p.maxLen
    requires var c := r.flight[0];
      t == r.(flight := r.flight[1..], tokens := r.tokens + sampled,
              computed := if c.samples && !c.stale then r.tokens + sampled - 1 else r.computed)
    ensures Inv(p, t)
  {
    FlightShrinks(p, r, t);
    assert r.flight[0].samples ==> |r.flight| == 1;
  }

  lemma ProcessKeeps(p: Params, r: Request, sampled: nat, stops: int -> bool)
    requires Inv(p, r) && Enabled(p, r, Process(sampled, stops))
    ensures Inv(p, Processed(r, sampled, stops))
  {
    var c, t := r.flight[0], Processed(r, sampled, stops);
    assert c in r.flight;
    if r.status.Finished? || (c.stale && r.drop) {
      DroppingKeeps(p, r);
    } else if Kept(r.tokens, sampled, stops).1 {
      StoppingKeeps(p, r, t);
    } else {
      assert Kept(r.tokens, sampled, stops).0 == sampled && (sampled > 0 ==> !stops(r.tokens + sampled));
      DeliveryKeeps(p, r, t, sampled);
    }
  }

  lemma StoppingKeeps(p: Params, r: Request, t: Request)
    requires Inv(p, r) && r.flight != [] && t.flight == r.flight[1..] && t.status.Finished? && t.drafts == r.drafts
    ensures Inv(p, t)
  {
    FlightShrinks(p, r, t);
  }

  /** The chunk's output is thrown away. */
  lemma DroppingKeeps(p: Params, r: Request)
    requires Inv(p, r) && r.flight != [] && (r.status.Finished? || (r.flight[0].stale && r.drop))
    ensures Inv(p, r.(flight := r.flight[1..]))
  {
    FlightShrinks(p, r, r.(flight := r.flight[1..]));
  }

  // ---------------------------------------------------------------- drafts that come early

  /** The counters are in order but for drafts that came early, and those cannot overtake output. */
  ghost predicate Safe(p: Params, r: Request) {
    r.drafts >= 0 && Inv(p, r.(drafts := 0)) && !Overtakes(p, r)
  }

  lemma InvIsSafe(p: Params, r: Request)
    requires Inv(p, r)
    ensures Safe(p, r)
  {
  }

  /** Once nothing samples for a running request any more, early drafts are drafts like others. */
  lemma SafeIsInv(p: Params, r: Request)
    requires Safe(p, r) && !r.status.Waiting? && (r.status.Running? ==> !Sampling(r))
    ensures Inv(p, r)
  {
  }

  lemma AlreadyComputed(p: Params, r: Request)
    requires Safe(p, r) && r.status.Running? && Sampling(r)
    ensures var c := r.flight[|r.flight| - 1]; c.drafts >= 0 && r.computed == r.tokens + c.drafts
    ensures Min(Want(r), Room(p, r)) <= 0
  {
    assert Sampling(r.(drafts := 0)) && r.flight[|r.flight| - 1] in r.flight;
  }

  lemma ScheduleIsSafe(p: Params, r: Request, n: int)
    requires Safe(p, r) && Enabled(p, r, Schedule(n))
    ensures Safe(p, Scheduled(r, n))
  {
    if Sampling(r) { AlreadyComputed(p, r); }
    SafeIsInv(p, r);
    ScheduleKeeps(p, r, n);
    InvIsSafe(p, Scheduled(r, n));
  }

  lemma AdmitIsSafe(p: Params, r: Request, hit: int, n: int, pad: bool)
    requires Safe(p, r) && Enabled(p, r, Admit(hit, n, pad))
    ensures Safe(p, Admitted(p, r, hit, n, pad))
  {
    var r0 := r.(drafts := 0);
    AdmitKeeps(p, r0, hit, n, pad);
    assert Admitted(p, r, hit, n, pad).(drafts := 0) == Admitted(p, r0, hit, n, pad);
    if r.flight != [] { assert r.flight[0] in r.flight && HasStale(r); }
  }

  lemma PreemptIsSafe(p: Params, r: Request, dropOutput: bool)
    requires Safe(p, r) && Enabled(p, r, Preempt(dropOutput))
    ensures Safe(p, Preempted(r, dropOutput))
  {
    PreemptKeeps(p, r.(drafts := 0), dropOutput);
    assert HasStale(r.(drafts := 0)) == HasStale(r);
    assert Preempted(r.(drafts := 0), dropOutput) == Preempted(r, dropOutput);
    InvIsSafe(p, Preempted(r, dropOutput));
  }

  /** Whatever is processed, early drafts that could not overtake output still cannot: a chunk that is processed before
      the last one brings no tokens. */
  lemma ProcessingLetsNoneOvertake(p: Params, r: Request, sampled: nat, stops: int -> bool)
    requires Safe(p, r) && Enabled(p, r, Process(sampled, stops))
    ensures !Overtakes(p, Processed(r, sampled, stops))
  {
    var c, t := r.flight[0], Processed(r, sampled, stops);
    assert c in r.flight;
    if |r.flight| > 1 && !r.status.Finished? {
      assert t.flight[|t.flight| - 1] == r.flight[|r.flight| - 1];
      EarlierBringsNone(p, r.(drafts := 0));
    }
  }

  lemma EarlierBringsNone(p: Params, r: Request)
    requires Inv(p, r) && |r.flight| > 1 && !r.status.Finished?
    ensures r.flight[0].samples ==> r.flight[0].stale && r.drop
    ensures r.flight[0].samples || r.flight[0].drafts == 0
  {
    assert r.flight[0] in r.flight && (r.flight[0].stale ==> HasStale(r));
  }

  lemma ProcessIsSafe(p: Params, r: Request, sampled: nat, stops: int -> bool)
    requires Safe(p, r) && Enabled(p, r, Process(sampled, stops))
    ensures Safe(p, Processed(r, sampled, stops))
  {
    var r0 := r.(drafts := 0);
    ProcessKeeps(p, r0, sampled, stops);
    DraftsStay(r, sampled, stops);
    ProcessingLetsNoneOvertake(p, r, sampled, stops);
  }

  lemma DraftsStay(r: Request, sampled: nat, stops: int -> bool)
    requires r.flight != []
    ensures Processed(r, sampled, stops).drafts == r.drafts
    ensures Processed(r.(drafts := 0), sampled, stops) == Processed(r, sampled, stops).(drafts := 0)
  {
  }

  lemma Keeps(p: Params, r: Request, e: Event)
    requires Safe(p, r) && Enabled(p, r, e)
    ensures Safe(p, Apply(p, r, e))
  {
    match e
    case Schedule(n) => ScheduleIsSafe(p, r, n);
    case Admit(hit, n, pad) => AdmitIsSafe(p, r, hit, n, pad);
    case Preempt(dropOutput) => PreemptIsSafe(p, r, dropOutput);
    case Process(sampled, stops) => ProcessIsSafe(p, r, sampled, stops);
    case Propose(count) => assert Proposed(r, count).(drafts := 0) == r.(drafts := 0) || r.status.Finished?;
    case Abort =>
  }

  /** A number of events, one after the other. */
  ghost predicate Reaches(p: Params, r: Request, es: seq<Event>, t: Request)
    decreases |es|
  {
    if es == [] then r == t
    else Enabled(p, r, es[0]) && Reaches(p, Apply(p, r, es[0]), es[1..], t)
  }

  /** Processing delivers tokens that were sampled for another position than the one at which the request stands. */
  ghost predicate Misplaces(p: Params, r: Request, sampled: nat, stops: int -> bool) {
    && Enabled(p, r, Process(sampled, stops))
    && Processed(r, sampled, stops).tokens != r.tokens && r.flight[0].at != r.tokens
  }

  /** From here on, output can come to be delivered at a wrong position. */
  ghost predicate CanMisplace(p: Params, r: Request) {
    exists es, t, sampled, stops :: Reaches(p, r, es, t) && Misplaces(p, t, sampled, stops)
  }

  lemma {:induction false} StaysSafe(p: Params, r: Request, es: seq<Event>, t: Request)
    requires Safe(p, r) && Reaches(p, r, es, t)
    ensures Safe(p, t)
    decreases |es|
  {
    if es != [] {
      Keeps(p, r, es[0]);
      StaysSafe(p, Apply(p, r, es[0]), es[1..], t);
    }
  }

  lemma SafeDeliversInPlace(p: Params, r: Request, sampled: nat, stops: int -> bool)
    requires Safe(p, r)
    ensures !Misplaces(p, r, sampled, stops)
  {
    if r.flight != [] { assert r.flight[0] in r.(drafts := 0).flight; }
  }

  lemma SafeNeverMisplaces(p: Params, r: Request)
    requires Safe(p, r)
    ensures !CanMisplace(p, r)
  {
    forall es, t, sampled: nat, stops | Reaches(p, r, es, t) ensures !Misplaces(p, t, sampled, stops) {
      StaysSafe(p, r, es, t);
      SafeDeliversInPlace(p, t, sampled, stops);
    }
  }

  lemma MisplacesNow(p: Params, r: Request, sampled: nat, stops: int -> bool)
    requires Misplaces(p, r, sampled, stops)
    ensures CanMisplace(p, r)
  {
    assert Reaches(p, r, [], r);
  }

  lemma MisplacesLater(p: Params, r: Request, e: Event)
    requires Enabled(p, r, e) && CanMisplace(p, Apply(p, r, e))
    ensures CanMisplace(p, r)
  {
    var es, t, sampled, stops :| Reaches(p, Apply(p, r, e), es, t) && Misplaces(p, t, sampled, stops);
    assert ([e] + es)[0] == e && ([e] + es)[1..] == es;
    assert Reaches(p, r, [e] + es, t);
  }

  /** Nothing but the model length stops the request. */
  ghost function AtTheEnd(p: Params): int -> bool { n => n >= p.maxLen }

  /** Two chunks sample for the same position. */
  ghost predicate Doubled(p: Params, r: Request) {
    && r.status.Running? && r.tokens + 1 < p.maxLen && |r.flight| >= 2
    && (forall i :: |r.flight| - 2 <= i < |r.flight| ==>
          r.flight[i].samples && !r.flight[i].stale && r.flight[i].drafts >= 0 && r.flight[i].at == r.tokens)
    && (forall i :: 0 <= i < |r.flight| - 2 ==> r.flight[i].drafts >= 0)
    && (forall i :: 0 <= i < |r.flight| - 2 ==>
          if r.flight[i].samples then r.flight[i].stale && r.drop else r.flight[i].drafts == 0)
  }

  lemma {:induction false} DoubledMisplaces(p: Params, r: Request)
    requires Doubled(p, r)
    ensures CanMisplace(p, r)
    decreases |r.flight|
  {
    var sampled: nat := if r.flight[0].samples then 1 else 0;
    var stops := AtTheEnd(p);
    var t := Processed(r, sampled, stops);
    assert forall i :: 0 <= i < |t.flight| ==> t.flight[i] == r.flight[i + 1];
    if |r.flight| == 2 {
      MisplacesNow(p, t, 1, stops);
    } else {
      DoubledMisplaces(p, t);
    }
    MisplacesLater(p, r, Process(sampled, stops));
  }

  lemma RunningOvertakes(p: Params, r: Request)
    requires r.drafts >= 0 && Inv(p, r.(drafts := 0)) && r.status.Running? && Overtakes(p, r)
    ensures CanMisplace(p, r)
  {
    assert Sampling(r.(drafts := 0)) && r.flight[|r.flight| - 1] in r.flight;
    var t := Scheduled(r, 1);
    assert t.flight[..|r.flight|] == r.flight;
    EarlierSampleNot(p, r.(drafts := 0));
    DoubledMisplaces(p, t);
    MisplacesLater(p, r, Schedule(1));
  }

  lemma EarlierSampleNot(p: Params, r: Request)
    requires Inv(p, r) && r.status.Running?
    ensures forall i :: 0 <= i < |r.flight| ==> r.flight[i].drafts >= 0
    ensures forall i :: 0 <= i < |r.flight| - 1 ==>
      if r.flight[i].samples then r.flight[i].stale && r.drop else r.flight[i].drafts == 0
  {
    forall i | 0 <= i < |r.flight| ensures Rows(r.flight[i]) && (r.flight[i].stale ==> r.drop) {
      assert r.flight[i] in r.flight && (r.flight[i].stale ==> HasStale(r));
    }
  }

  /** A waiting request gets what it is owed, one token if there is a choice, and can still overtake the rest. */
  lemma WaitingIsPaid(p: Params, r: Request, sampled: nat)
    requires r.drafts >= 0 && Inv(p, r.(drafts := 0)) && r.status.Waiting? && Overtakes(p, r)
    requires r.flight != [] && !r.drop && sampled == if r.flight[0].samples then 1 else 0
    ensures Enabled(p, r, Process(sampled, AtTheEnd(p)))
    ensures var t := Processed(r, sampled, AtTheEnd(p));
      && t.drafts == r.drafts && Inv(p, t.(drafts := 0)) && t.status.Waiting? && Overtakes(p, t)
      && t.flight == r.flight[1..]
  {
    assert r.flight[0] in r.flight;
    ProcessKeeps(p, r.(drafts := 0), sampled, AtTheEnd(p));
    DraftsStay(r, sampled, AtTheEnd(p));
  }

  lemma {:induction false} WaitingOvertakes(p: Params, r: Request)
    requires r.drafts >= 0 && Inv(p, r.(drafts := 0)) && r.status.Waiting? && Overtakes(p, r)
    ensures CanMisplace(p, r)
    decreases |r.flight|
  {
    if r.flight != [] && !r.drop {
      assert r.flight[0] in r.flight;
      var sampled: nat := if r.flight[0].samples then 1 else 0;
      WaitingIsPaid(p, r, sampled);
      WaitingOvertakes(p, Processed(r, sampled, AtTheEnd(p)));
      MisplacesLater(p, r, Process(sampled, AtTheEnd(p)));
    } else {
      var e := Admit(0, r.tokens, false);
      AdmitKeeps(p, r.(drafts := 0), 0, r.tokens, false);
      RunningOvertakes(p, Apply(p, r, e));
      MisplacesLater(p, r, e);
    }
  }

  /** A proposal, for any request and at any time, can lead to output at a wrong position exactly if it is not ignored
      and finds the request waiting, with room for a token beyond those it has and is owed, or being sampled, with more
      drafts than are just being checked and room for a token beyond those. */
  lemma ProposalMisplacesIff(p: Params, r: Request, count: nat)
    requires Safe(p, r)
    ensures CanMisplace(p, Proposed(r, count)) <==>
      && count > 0 && !r.prefillChunk
      && match r.status
         case Waiting => r.tokens + Owed(r) + 1 < p.maxLen
         case Running =>
           && Sampling(r) && count > r.flight[|r.flight| - 1].drafts
           && r.tokens + r.flight[|r.flight| - 1].drafts + 1 < p.maxLen
         case Finished => false
  {
    var t := Proposed(r, count);
    if !r.status.Finished? { assert t.(drafts := 0) == r.(drafts := 0); }
    if !Overtakes(p, t) {
      SafeNeverMisplaces(p, t);
    } else if r.status.Waiting? {
      WaitingOvertakes(p, t);
    } else {
      RunningOvertakes(p, t);
    }
  }

  function EarlyDraft(n: int): Request { Request(Running, n, n, 1, false, false, [Chunk(n, 0, true, false, n)]) }

  function TwoForOne(n: int): Request {
    Request(Running, n, n + 1, 0, false, false, [Chunk(n, 0, true, false, n), Chunk(1, 1, true, false, n)])
  }

  function OneTooFar(n: int): Request {
    Request(Running, n + 1, n + 1, 0, false, false, [Chunk(1, 1, true, false, n)])
  }

  lemma WholePrompt(p: Params, n: int)
    requires n > 0
    ensures Enabled(p, Fresh(n), Admit(0, n, false))
    ensures Proposed(Admitted(p, Fresh(n), 0, n, false), 1) == EarlyDraft(n)
  {
    var c := Chunk(n, 0, true, false, n);
    assert Fresh(n).flight + [c] == [c];
  }

  lemma DraftIsScheduled(p: Params, n: int)
    requires n + 1 < p.maxLen
    ensures Enabled(p, EarlyDraft(n), Schedule(1)) && Scheduled(EarlyDraft(n), 1) == TwoForOne(n)
  {
  }

  lemma FirstIsDelivered(p: Params, n: int)
    requires n + 1 < p.maxLen
    ensures Enabled(p, TwoForOne(n), Process(1, AtTheEnd(p)))
    ensures Processed(TwoForOne(n), 1, AtTheEnd(p)) == OneTooFar(n)
  {
    assert TwoForOne(n).flight[1..] == OneTooFar(n).flight;
  }

  /** A prompt is admitted, a draft is proposed while its first output is still to come, and is scheduled: both chunks
      sample for the end of the prompt, and the output of the second is delivered one position behind it. */
  lemma EarlyDraftMisplaces(p: Params, n: int)
    requires 0 < n < p.maxLen - 1
    ensures Enabled(p, Fresh(n), Admit(0, n, false))
    ensures Proposed(Apply(p, Fresh(n), Admit(0, n, false)), 1) == EarlyDraft(n)
    ensures Reaches(p, EarlyDraft(n), [Schedule(1), Process(1, AtTheEnd(p))], OneTooFar(n))
    ensures Misplaces(p, OneTooFar(n), 1, AtTheEnd(p))
  {
    WholePrompt(p, n);
    DraftIsScheduled(p, n);
    FirstIsDelivered(p, n);
    var es := [Schedule(1), Process(1, AtTheEnd(p))];
    assert es[1..] == [Process(1, AtTheEnd(p))] && es[1..][1..] == [];
    assert Reaches(p, TwoForOne(n), es[1..], OneTooFar(n));
  }

  // ---------------------------------------------------------------- whole runs

  /** A life of the request: states and the events between them, from admission with any prompt that fits. */
  ghost predicate IsRun(p: Params, rs: seq<Request>, es: seq<Event>) {
    && |rs| == |es| + 1
    && 0 < rs[0].tokens < p.maxLen && rs[0] == Fresh(rs[0].tokens)
    && forall i :: 0 <= i < |es| ==> Enabled(p, rs[i], es[i]) && rs[i + 1] == Apply(p, rs[i], es[i])
  }

  lemma {:induction false} RunKeeps(p: Params, rs: seq<Request>, es: seq<Event>, k: nat)
    requires IsRun(p, rs, es) && k < |rs|
    ensures Safe(p, rs[k])
  {
    if k == 0 {
      FreshInv(p, rs[0].tokens);
      InvIsSafe(p, rs[0]);
    } else {
      RunKeeps(p, rs, es, k - 1);
      Keeps(p, rs[k - 1], es[k - 1]);
    }
  }

  /** Conservation: in every run, once a sampling step that is not stale has been processed and the request goes on,
      everything but the newest token is computed, whatever was truncated, accepted or rejected. */
  lemma ComputedAllButTheLast(p: Params, rs: seq<Request>, es: seq<Event>, k: nat, sampled: int, stops: int -> bool)
    requires IsRun(p, rs, es) && k < |es| && es[k] == Process(sampled, stops)
    requires rs[k].flight[0].samples && !rs[k].flight[0].stale && !rs[k + 1].status.Finished?
    ensures rs[k + 1].computed == rs[k + 1].tokens - 1 && rs[k + 1].tokens == rs[k].tokens + sampled
    ensures rs[k + 1].status.Running?
  {
    var r := rs[k];
    RunKeeps(p, rs, es, k);
    assert |r.flight| == 1;
    assert r.flight[0] in r.flight;
  }

  /** In every run, sampled output is for the position at which the request stands when it is delivered: nothing is
      delivered twice, out of order or after a gap, stale or not. */
  lemma OutputContinuesTheRequest(p: Params, rs: seq<Request>, es: seq<Event>, k: nat, sampled: int, stops: int -> bool)
    requires IsRun(p, rs, es) && k < |es| && es[k] == Process(sampled, stops)
    requires rs[k + 1].tokens != rs[k].tokens
    ensures rs[k].flight[0].at == rs[k].tokens && rs[k].flight[0].samples
    ensures rs[k].tokens < rs[k + 1].tokens <= rs[k].tokens + 1 + rs[k].flight[0].drafts
  {
    RunKeeps(p, rs, es, k);
    assert rs[k].flight[0] in rs[k].flight;
  }

  /** In every run, no scheduled position passes the model length, and a sampling chunk has a row for each draft it
      carries and one more. */
  lemma PositionsFit(p: Params, rs: seq<Request>, es: seq<Event>, k: nat)
    requires IsRun(p, rs, es) && k < |es| && (es[k].Schedule? || es[k].Admit?)
    requires !rs[k].status.Finished?
    ensures var c := rs[k + 1].flight[|rs[k].flight|];
      && rs[k + 1].flight == rs[k].flight + [c] && rs[k + 1].status.Running? && rs[k + 1].tokens == rs[k].tokens
      && (rs[k + 1].prefillChunk <==> !c.samples) && (c.samples <==> rs[k + 1].computed >= rs[k].tokens) && !c.stale
      && (es[k].Schedule? ==> rs[k + 1].drafts == 0)
      && rs[k + 1].computed <= p.maxLen - 1
      && c.n == rs[k + 1].computed - (if es[k].Admit? then es[k].hit else rs[k].computed)
      && (c.samples ==> c.n >= 1 + c.drafts && rs[k + 1].computed == rs[k].tokens + c.drafts)
      && (!c.samples ==> rs[k + 1].computed < rs[k].tokens && c.drafts == 0)
  {
    RunKeeps(p, rs, es, k);
    RunKeeps(p, rs, es, k + 1);
    var c := rs[k + 1].flight[|rs[k].flight|];
    assert c in rs[k + 1].flight;
  }

  /** In every run, a proposal for a running request that nothing samples for and that is not in the middle of its
      prefill has it ask for as many tokens more as there are drafts; and if all it asks for is scheduled, the chunk
      samples and carries every draft. A finished request or one in the middle of its prefill gets no drafts. */
  lemma DraftsAreScheduled(p: Params, rs: seq<Request>, es: seq<Event>, k: nat, count: nat)
    requires IsRun(p, rs, es) && k < |rs| && rs[k].status.Running? && !Sampling(rs[k])
    ensures var r, t := rs[k], Proposed(rs[k], count);
      && t.computed == r.computed && t.tokens == r.tokens && t.flight == r.flight && t.status == r.status
      && Want(t) == r.tokens - r.computed + (if r.prefillChunk then 0 else count)
      && (!r.prefillChunk ==>
          var after := Scheduled(t, Want(t));
          after.flight == r.flight + [Chunk(r.tokens - r.computed + count, count, true, false, r.tokens)])
  {
    RunKeeps(p, rs, es, k);
    SafeIsInv(p, rs[k]);
  }

  /** In every run, a request that was aborted, or has stopped, stays finished; it gets no more tokens or drafts. */
  lemma {:induction false} EndsForGood(p: Params, rs: seq<Request>, es: seq<Event>, k: nat, n: nat)
    requires IsRun(p, rs, es) && k < n < |rs| && (es[k] == Abort || rs[k].status.Finished?)
    ensures rs[n].status.Finished? && rs[n].tokens == rs[k].tokens && rs[n].drafts == rs[k].drafts
    decreases n
  {
    if k < n - 1 { EndsForGood(p, rs, es, k, n - 1); }
    assert rs[n - 1 + 1] == Apply(p, rs[n - 1], es[n - 1]) && Enabled(p, rs[n - 1], es[n - 1]);
  }

  /** In every run, when a step is processed its output is thrown away exactly if the request is finished or the output
      is stale and to be dropped; otherwise tokens are appended up to the first that stops the request, all of them if
      none does, and of the drafts that were checked those accepted stay computed. */
  lemma ProcessingIs(p: Params, rs: seq<Request>, es: seq<Event>, k: nat, sampled: nat, stops: int -> bool)
    requires IsRun(p, rs, es) && k < |es| && es[k] == Process(sampled, stops)
    ensures var r, t, c := rs[k], rs[k + 1], rs[k].flight[0];
      var thrown := r.status.Finished? || (c.stale && r.drop);
      && t.flight == r.flight[1..] && t.drafts == r.drafts && t.prefillChunk == r.prefillChunk && t.drop == r.drop
      && (thrown ==> t.tokens == r.tokens && t.status == r.status && t.computed == r.computed)
      && (!thrown ==>
        && r.tokens <= t.tokens <= r.tokens + sampled
        && (forall n :: r.tokens < n < t.tokens ==> !stops(n))
        && (t.tokens < r.tokens + sampled ==> t.tokens > r.tokens && stops(t.tokens))
        && t.status == (if sampled > 0 && stops(t.tokens) then Finished else r.status)
        && t.computed == (if c.samples && !c.stale then r.tokens + sampled - 1 else r.computed))
  {
    var r, c := rs[k], rs[k].flight[0];
    RunKeeps(p, rs, es, k);
    assert c in r.flight && r.flight == r.(drafts := 0).flight;
    if c.samples && !c.stale && !r.status.Finished? { assert |r.flight| == 1 && Sampling(r.(drafts := 0)); }
  }

  /** In every run, a preemption takes back all that was computed and proposed, and the output still to come is dropped
      exactly if that is asked for or older output is still being dropped. */
  lemma PreemptionIs(p: Params, rs: seq<Request>, es: seq<Event>, k: nat, dropOutput: bool)
    requires IsRun(p, rs, es) && k < |es| && es[k] == Preempt(dropOutput)
    ensures var r, t := rs[k], rs[k + 1];
      && t.status.Waiting? && t.computed == 0 && t.drafts == 0 && t.tokens == r.tokens
      && |t.flight| == |r.flight|
      && (forall i :: 0 <= i < |r.flight| ==> t.flight[i].stale && t.flight[i] == r.flight[i].(stale := true))
      && (t.drop <==> dropOutput || exists i :: 0 <= i < |r.flight| && r.flight[i].stale)
  {
    RunKeeps(p, rs, es, k);
    assert HasStale(rs[k].(drafts := 0)) == HasStale(rs[k]);
  }

  /** In every run, a running request for which nothing samples has a token to schedule and room for it. */
  lemma NeverStuck(p: Params, rs: seq<Request>, es: seq<Event>, k: nat)
    requires IsRun(p, rs, es) && k < |rs| && rs[k].status.Running? && !Sampling(rs[k])
    ensures Min(Want(rs[k]), Room(p, rs[k])) >= 1
  {
    RunKeeps(p, rs, es, k);
  }

  /** While its drafts are being checked the request asks for minus their number, and for what drafts have come early;
      with the room there is that is none. The look-ahead reservation makes it none, whatever the clipping before it
      did, so the request is passed over. */
  lemma NoSecondStepWhileSampling(p: Params, rs: seq<Request>, es: seq<Event>, k: nat)
    requires IsRun(p, rs, es) && k < |rs| && rs[k].status.Running? && Sampling(rs[k])
    ensures Want(rs[k]) == rs[k].drafts - rs[k].flight[|rs[k].flight| - 1].drafts
    ensures Min(Want(rs[k]), Room(p, rs[k])) <= 0
    ensures forall lookahead, n :: n <= Min(Want(rs[k]), Room(p, rs[k])) ==>
        MambaSplit.Reserve(rs[k].tokens, lookahead, rs[k].computed, n) == 0
  {
    RunKeeps(p, rs, es, k);
    AlreadyComputed(p, rs[k]);
  }

  // ---------------------------------------------------------------- padded admission

  /** How many tokens a waiting request is admitted with, and whether they are padded with draft positions; None
      when it has to wait. `align` is the block split, if the model needs one. */
  function AdmissionCount(
    p: Params, r: Request, hit: int, mayPad: bool, budget: int, threshold: int, chunked: bool, align: Option<int -> int>
  ): Option<(int, bool)>
  {
    var plain := r.tokens - hit;
    var wantsPad := p.numSpec > 0 && mayPad && plain == 1 && hit + (1 + p.numSpec) + 1 <= p.maxLen;
    if wantsPad && 1 + p.numSpec > budget then None
    else
      var n := if wantsPad then 1 + p.numSpec else plain;
      var n1 := if 0 < threshold < n then threshold else n;
      if !chunked && n1 > budget then None
      else
        var n2 := Min(n1, budget);
        match align
        case None => Some((n2, wantsPad))
        case Some(split) =>
          var n3 := split(n2);
          if n3 == 0 then None
          else if wantsPad && n3 != 1 + p.numSpec then Some((1, false))
          else Some((n3, wantsPad))
  }

  /** Padded rows are complete, as the step asserts, except exactly when the long-prefill threshold cuts into the
      padding and there is no block split to notice. */
  lemma PaddingIsCutIff(p: Params, r: Request, hit: int, mayPad: bool, budget: int, threshold: int,
      chunked: bool, align: Option<int -> int>)
    requires hit < r.tokens && budget > 0
    requires align.Some? ==> forall n :: n > 0 ==> 0 <= align.value(n) <= n
    ensures var a := AdmissionCount(p, r, hit, mayPad, budget, threshold, chunked, align);
      && (a.Some? && !a.value.1 ==> 0 < a.value.0 <= r.tokens - hit)
      && ((a.Some? && a.value.1 && a.value.0 != 1 + p.numSpec)
          <==> (mayPad && hit == r.tokens - 1 && hit + p.numSpec + 2 <= p.maxLen && 1 + p.numSpec <= budget
                && align.None? && 0 < threshold <= p.numSpec))
  {
  }

  /** The greatest number of tokens that demand, budget and threshold allow. */
  ghost predicate IsMost(m: int, demand: int, budget: int, threshold: int) {
    && m <= demand && m <= budget && (threshold > 0 ==> m <= threshold)
    && (m == demand || m == budget || m == threshold > 0)
  }

  /** A waiting request is admitted with as many tokens as demand, budget, threshold and block split allow. It has to
      wait exactly if the budget does not hold its padding, or a prefill that may not be split, or the block split
      refuses; and if the block split cuts into its padding it goes without. */
  lemma AdmissionIs(p: Params, r: Request, hit: int, mayPad: bool, budget: int, threshold: int, chunked: bool,
                    align: Option<int -> int>, m: int)
    requires hit < r.tokens && budget > 0
    requires var pads := p.numSpec > 0 && mayPad && hit == r.tokens - 1 && hit + p.numSpec + 2 <= p.maxLen;
      IsMost(m, if pads then 1 + p.numSpec else r.tokens - hit, budget, threshold)
    ensures var a := AdmissionCount(p, r, hit, mayPad, budget, threshold, chunked, align);
      var pads := p.numSpec > 0 && mayPad && hit == r.tokens - 1 && hit + p.numSpec + 2 <= p.maxLen;
      var demand := if pads then 1 + p.numSpec else r.tokens - hit;
      var n := if align.Some? then align.value(m) else m;
      var whole, tooLong := n == 1 + p.numSpec, budget < demand && (pads || (!chunked && !(0 < threshold <= budget)));
      && (a.None? <==> tooLong || (align.Some? && n == 0))
      && (a.Some? ==> a.value == if pads && align.Some? && !whole then (1, false) else (n, pads))
  {
  }

  /** With three drafts and a threshold of two, a lone decode is admitted with two rows for four. */
  lemma ThresholdCutsPadding()
    ensures AdmissionCount(Params(100, 3), Fresh(10), 9, true, 50, 2, true, None) == Some((2, true))
  {
  }

  // ---------------------------------------------------------------- the counters in place

  class TrackedRequest {
    var status: Status
    var tokens: int
    var computed: int
    var drafts: int
    var prefillChunk: bool
    var drop: bool
    var flight: seq<Chunk>

    ghost function View(): Request
      reads this
    {
      Request(status, tokens, computed, drafts, prefillChunk, drop, flight)
    }

    constructor (prompt: int)
      ensures View() == Fresh(prompt)
    {
      status, tokens, computed, drafts, prefillChunk, drop, flight := Waiting, prompt, 0, 0, false, false, [];
    }

    method UpdateAfterSchedule(n: int, along: int)
      modifies this
      ensures View() == Launch(old(View()), n, along)
    {
      computed := computed + n;
      prefillChunk := computed < tokens;
      flight := flight + [Chunk(n, along, computed >= tokens, false, tokens)];
    }

    method ScheduleRunning(n: int)
      requires drafts >= 0
      modifies this
      ensures View() == Scheduled(old(View()), n)
    {
      var along := 0;
      if drafts > 0 {
        var reached := n + computed - tokens;
        if reached > 0 { along := if drafts > reached then reached else drafts; }
        drafts := 0;
      }
      UpdateAfterSchedule(n, along);
    }

    method AdmitWaiting(p: Params, hit: int, n: int, pad: bool)
      modifies this
      ensures View() == Admitted(p, old(View()), hit, n, pad)
    {
      status := Running;
      computed := hit;
      UpdateAfterSchedule(n, if pad then p.numSpec else 0);
    }

    method PreemptRequest(dropOutput: bool)
      modifies this
      ensures View() == Preempted(old(View()), dropOutput)
    {
      status := Waiting;
      computed := 0;
      drafts := 0;
      drop := dropOutput || (drop && exists i :: 0 <= i < |flight| && flight[i].stale);
      flight := AllStale(flight);
    }

    /** Appends sampled tokens up to the first that stops the request. */
    method Append(sampled: nat, stops: int -> bool) returns (stopped: bool)
      modifies this`tokens
      ensures (tokens - old(tokens), stopped) == Kept(old(tokens), sampled, stops)
    {
      stopped := false;
      var left := sampled;
      ghost var was := tokens;
      while left > 0 && !stopped
        invariant left >= 0
        invariant var (kept, stop) := Kept(was, sampled, stops);
          if stopped then stop && tokens == was + kept
          else var (more, later) := Kept(tokens, left, stops); tokens + more == was + kept && later == stop
        decreases left
      {
        tokens := tokens + 1;
        stopped := stops(tokens);
        left := left - 1;
      }
    }

    method UpdateWithOutput(sampled: nat, stops: int -> bool)
      modifies this`tokens, this`status
      ensures View() == Delivered(old(View()), sampled, stops)
    {
      var stopped := Append(sampled, stops);
      if stopped { status := Finished; }
    }

    method RollBack(c: Chunk, sampled: int)
      modifies this`computed
      ensures View() == RolledBack(old(View()), c, sampled)
    {
      if c.drafts > 0 && sampled > 0 {
        var accepted := if sampled - 1 > 0 then sampled - 1 else 0;
        if !c.stale && computed > 0 { computed := computed - (c.drafts - accepted); }
      }
    }

    method UpdateFromOutput(sampled: nat, stops: int -> bool)
      requires flight != []
      modifies this
      ensures View() == Processed(old(View()), sampled, stops)
    {
      var c := flight[0];
      flight := flight[1..];
      if status.Finished? || (c.stale && drop) { return; }
      RollBack(c, sampled);
      UpdateWithOutput(sampled, stops);
    }

    method UpdateDraftTokens(count: int)
      modifies this
      ensures View() == Proposed(old(View()), count)
    {
      if status.Finished? { return; }
      drafts := if prefillChunk then 0 else count;
    }
  }
}