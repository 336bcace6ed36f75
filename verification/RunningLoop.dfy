/** The loop of schedule() over the running requests: it hands out token, input and encoder budget, and
    preempts requests when no cache blocks are left. */
module RunningLoop {
  import opened Arithmetic
  import opened Wrappers

  datatype Policy = Fcfs | Priority

  /** A running request as the loop sees it: how many tokens it asks for, how many the model length leaves room
      for, whether this step skips it, and whether its blocks could be freed at once. */
  datatype Candidate = Candidate(
    id: nat, priority: int, arrival: int, want: int, room: int, skip: bool, freeable: bool)

  /** What the step grants a request. */
  datatype Grant = Grant(id: nat, tokens: int, embeds: int)

  /** The parts the loop only calls: `clip` stands for block alignment, encoder caps and look-ahead, `embeds` for
      the encoder inputs scheduled along, and the verdicts are those of the n-th attempt to allocate blocks. */
  datatype Env = Env(
    policy: Policy, threshold: int, draftSlots: int,
    clip: (Candidate, int) -> int,
    embeds: (Candidate, int) -> int,
    gotBlocks: nat -> bool,
    freesPending: nat -> bool)
  {
    ghost predicate Valid() {
      && draftSlots >= 0
      && (forall c, n :: clip(c, n) <= Max(n, 0))
      && (forall c, budget :: budget >= 0 ==> 0 <= embeds(c, budget) <= budget)
    }
  }

  /** `lost` is history: encoder budget that was given back and then overwritten. */
  datatype Loop = Loop(
    running: seq<Candidate>, reqIndex: nat,
    tokenBudget: int, inputBudget: int, encoderBudget: int,
    granted: seq<Grant>, preempted: seq<Candidate>, attempts: nat, lost: int)

  /** No request is queued twice. */
  ghost predicate Sane(running: seq<Candidate>) {
    forall i, j :: 0 <= i < j < |running| ==> running[i].id != running[j].id
  }

  function Start(running: seq<Candidate>, tokens: int, inputs: int, encoder: int): Loop {
    Loop(running, 0, tokens, inputs, encoder, [], [], 0, 0)
  }

  /** What the loop decides to schedule for a request. A request may have computed more than it asks for, or be past
      the model length; the look-ahead reservation that ends the clipping turns a negative count into none. */
  function NumNew(env: Env, s: Loop, c: Candidate): int {
    var n := if 0 < env.threshold < c.want then env.threshold else c.want;
    Max(env.clip(c, Min(Min(n, Min(s.tokenBudget, s.inputBudget - env.draftSlots)), c.room)), 0)
  }

  /** The first request matters less: it has the greater priority number, or came later. */
  predicate RanksBehind(a: Candidate, b: Candidate) {
    a.priority > b.priority || (a.priority == b.priority && a.arrival > b.arrival)
  }

  /** The first of the requests with the greatest (priority, arrival). */
  function Lowest(running: seq<Candidate>): (i: nat)
    requires running != []
    ensures i < |running|
    ensures forall j :: 0 <= j < |running| ==> !RanksBehind(running[j], running[i])
    ensures forall j :: 0 <= j < i ==> RanksBehind(running[i], running[j])
  {
    if |running| == 1 then 0
    else
      var n := |running| - 1;
      var i := Lowest(running[..n]);
      if RanksBehind(running[n], running[i]) then n else i
  }

  function GrantOf(granted: seq<Grant>, id: nat): (r: seq<Grant>)
    ensures |r| <= 1 && forall g :: g in r ==> g.id == id && g in granted
    ensures r == [] <==> forall g :: g in granted ==> g.id != id
  {
    if granted == [] then [] else if granted[0].id == id then [granted[0]] else GrantOf(granted[1..], id)
  }

  function Revoke(granted: seq<Grant>, id: nat): seq<Grant> {
    if granted == [] then [] else if granted[0].id == id then granted[1..] else [granted[0]] + Revoke(granted[1..], id)
  }

  function VictimIndex(env: Env, s: Loop): (i: nat)
    requires s.running != []
    ensures i < |s.running|
  {
    if env.policy.Priority? then Lowest(s.running) else |s.running| - 1
  }

  /** Takes back what this step granted the request, with the budget that went into it. */
  function Refund(env: Env, s: Loop, id: nat): Loop {
    var g := GrantOf(s.granted, id);
    if g == [] then s
    else s.(granted := Revoke(s.granted, id),
            tokenBudget := s.tokenBudget + g[0].tokens,
            inputBudget := s.inputBudget + g[0].tokens + env.draftSlots,
            encoderBudget := s.encoderBudget + g[0].embeds)
  }

  function RemoveAt(running: seq<Candidate>, i: nat): (r: seq<Candidate>)
    requires i < |running|
    ensures |r| == |running| - 1
    ensures forall j :: 0 <= j < |r| ==> r[j] == running[if j < i then j else j + 1]
  {
    running[..i] + running[i + 1..]
  }

  lemma RemoveKeepsSane(running: seq<Candidate>, i: nat)
    requires Sane(running) && i < |running|
    ensures Sane(RemoveAt(running, i))
  {
    assert forall c :: c in RemoveAt(running, i) ==> c in running;
  }

  /** Takes the request at `i` out of the queue. */
  function Dequeue(env: Env, s: Loop, i: nat): Loop
    requires i < |s.running|
  {
    s.(running := RemoveAt(s.running, i),
       preempted := s.preempted + [s.running[i]],
       reqIndex := if env.policy.Priority? && i < s.reqIndex then s.reqIndex - 1 else s.reqIndex)
  }

  function Evict(env: Env, s: Loop): Loop
    requires s.running != []
  {
    var i := VictimIndex(env, s);
    var t := Dequeue(env, s, i);
    if env.policy.Fcfs? then t else Refund(env, t, s.running[i].id)
  }

  function Attempted(s: Loop): Loop { s.(attempts := s.attempts + 1) }

  /** The attempt fails and there is a victim whose blocks would help. */
  predicate Evicts(env: Env, s: Loop)
    requires s.running != []
  {
    && !env.gotBlocks(s.attempts) && !env.freesPending(s.attempts)
    && s.running[VictimIndex(env, s)].freeable
  }

  /** Allocates blocks for the request at `reqIndex`, evicting others, until it succeeds or must give up. */
  function Allocate(env: Env, s: Loop): (r: (bool, Loop))
    requires s.reqIndex < |s.running|
    decreases |s.running|
  {
    if !Evicts(env, s) then (env.gotBlocks(s.attempts), Attempted(s))
    else if VictimIndex(env, s) == s.reqIndex then (false, Evict(env, Attempted(s)))
    else Allocate(env, Evict(env, Attempted(s)))
  }

  /** Books the grant; the encoder budget is overwritten with the value worked out before the allocation. */
  function Book(env: Env, s: Loop, c: Candidate, n: int, encoderBefore: int, embeds: int): Loop {
    s.(granted := s.granted + [Grant(c.id, n, embeds)],
       tokenBudget := s.tokenBudget - n,
       inputBudget := s.inputBudget - (n + env.draftSlots),
       encoderBudget := if embeds > 0 then encoderBefore - embeds else s.encoderBudget,
       lost := s.lost + (if embeds > 0 then s.encoderBudget - encoderBefore else 0),
       reqIndex := s.reqIndex + 1)
  }

  function Run(env: Env, s: Loop): Loop
    requires s.reqIndex <= |s.running|
    decreases |s.running| - s.reqIndex
  {
    if s.reqIndex == |s.running| || s.tokenBudget <= 0 || s.inputBudget <= env.draftSlots then s
    else
      var c := s.running[s.reqIndex];
      var n := NumNew(env, s, c);
      if c.skip || n == 0 then Run(env, s.(reqIndex := s.reqIndex + 1))
      else
        var (ok, s1) := Allocate(env, s);
        if !ok then s1
        else
          AllocateKeepsRequest(env, s);
          Run(env, Book(env, s1, c, n, s.encoderBudget, env.embeds(c, s.encoderBudget)))
  }

  lemma EvictKeepsRequest(env: Env, s: Loop)
    requires s.reqIndex < |s.running| && VictimIndex(env, s) != s.reqIndex
    ensures var t := Evict(env, s);
      && t.reqIndex < |t.running| == |s.running| - 1
      && t.running[t.reqIndex] == s.running[s.reqIndex]
      && |t.running| - t.reqIndex <= |s.running| - s.reqIndex
  {
  }

  /** A successful allocation leaves the request where the index points. */
  lemma {:induction false} AllocateKeepsRequest(env: Env, s: Loop)
    requires s.reqIndex < |s.running|
    ensures var r := Allocate(env, s);
      r.0 ==> r.1.reqIndex < |r.1.running| && r.1.running[r.1.reqIndex] == s.running[s.reqIndex]
              && |r.1.running| - r.1.reqIndex <= |s.running| - s.reqIndex
    decreases |s.running|
  {
    if Evicts(env, s) && VictimIndex(env, s) != s.reqIndex {
      var t := Evict(env, Attempted(s));
      EvictKeepsRequest(env, Attempted(s));
      AllocateKeepsRequest(env, t);
    }
  }

  // ---------------------------------------------------------------- budgets

  ghost function SumTokens(granted: seq<Grant>): int {
    if granted == [] then 0 else granted[0].tokens + SumTokens(granted[1..])
  }

  ghost function SumEmbeds(granted: seq<Grant>): int {
    if granted == [] then 0 else granted[0].embeds + SumEmbeds(granted[1..])
  }

  lemma {:induction false} SumsAppend(granted: seq<Grant>, g: Grant)
    ensures SumTokens(granted + [g]) == SumTokens(granted) + g.tokens
    ensures SumEmbeds(granted + [g]) == SumEmbeds(granted) + g.embeds
  {
    if granted == [] {
      assert [g][1..] == [] && granted + [g] == [g];
    } else {
      assert (granted + [g])[1..] == granted[1..] + [g];
      SumsAppend(granted[1..], g);
    }
  }

  /** Revoking a grant takes out exactly what it held, and nothing else. */
  lemma {:induction false} Revoked(granted: seq<Grant>, id: nat)
    requires GrantOf(granted, id) != []
    ensures var g := GrantOf(granted, id)[0];
      && SumTokens(Revoke(granted, id)) == SumTokens(granted) - g.tokens
      && SumEmbeds(Revoke(granted, id)) == SumEmbeds(granted) - g.embeds
      && |Revoke(granted, id)| == |granted| - 1
      && multiset(Revoke(granted, id)) == multiset(granted) - multiset{g}
  {
    assert granted == [granted[0]] + granted[1..];
    if granted[0].id != id {
      Revoked(granted[1..], id);
      assert Revoke(granted, id)[1..] == Revoke(granted[1..], id);
    }
  }

  /** What has been given out and what is left make up the budgets the step began with. */
  ghost predicate Balanced(env: Env, s0: Loop, s: Loop) {
    && s.tokenBudget + SumTokens(s.granted) == s0.tokenBudget
    && s.inputBudget + SumTokens(s.granted) + env.draftSlots * |s.granted| == s0.inputBudget
    && s.encoderBudget + SumEmbeds(s.granted) + s.lost == s0.encoderBudget
    && s.tokenBudget >= 0 && s.inputBudget >= 0 && s.encoderBudget >= 0 && s.lost >= 0
    && (env.policy.Fcfs? ==> s.lost == 0)
    && (forall g :: g in s.granted ==> g.tokens > 0 && g.embeds >= 0)
  }

  lemma {:induction false} RevokeLeavesNone(granted: seq<Grant>, id: nat)
    ensures forall g :: g in Revoke(granted, id) ==> g in granted
    ensures forall g :: g in GrantOf(granted, id) ==> g in granted
  {
    if granted != [] && granted[0].id != id { RevokeLeavesNone(granted[1..], id); }
  }

  lemma RefundKeepsBalance(env: Env, s0: Loop, s: Loop, id: nat)
    requires env.Valid() && Balanced(env, s0, s)
    ensures var t := Refund(env, s, id);
      && t.tokenBudget + SumTokens(t.granted) == s0.tokenBudget
      && t.inputBudget + SumTokens(t.granted) + env.draftSlots * |t.granted| == s0.inputBudget
      && t.encoderBudget + SumEmbeds(t.granted) + t.lost == s0.encoderBudget
      && t.tokenBudget >= s.tokenBudget && t.inputBudget >= s.inputBudget && t.encoderBudget >= s.encoderBudget
      && t.lost == s.lost && (forall g :: g in t.granted ==> g in s.granted)
  {
    RevokeLeavesNone(s.granted, id);
    var g := GrantOf(s.granted, id);
    if g != [] {
      assert g[0] in g;
      Revoked(s.granted, id);
      OneLess(env.draftSlots, |s.granted|);
    }
  }

  lemma OneLess(slots: int, n: int)
    ensures slots * (n - 1) == slots * n - slots
  {
  }

  lemma EvictKeepsBalance(env: Env, s0: Loop, s: Loop)
    requires env.Valid() && Balanced(env, s0, s) && s.running != []
    ensures Balanced(env, s0, Evict(env, s))
    ensures var t := Evict(env, s);
      t.tokenBudget >= s.tokenBudget && t.inputBudget >= s.inputBudget && t.encoderBudget >= s.encoderBudget
      && t.lost == s.lost && (env.policy.Fcfs? ==> t.encoderBudget == s.encoderBudget)
  {
    var i := VictimIndex(env, s);
    RefundKeepsBalance(env, s0, Dequeue(env, s, i), s.running[i].id);
  }

  lemma {:induction false} AllocateKeepsBalance(env: Env, s0: Loop, s: Loop)
    requires env.Valid() && Balanced(env, s0, s) && s.reqIndex < |s.running|
    ensures Balanced(env, s0, Allocate(env, s).1)
    ensures var t := Allocate(env, s).1;
      t.tokenBudget >= s.tokenBudget && t.inputBudget >= s.inputBudget && t.encoderBudget >= s.encoderBudget
      && t.lost == s.lost && (env.policy.Fcfs? ==> t.encoderBudget == s.encoderBudget)
    decreases |s.running|
  {
    if Evicts(env, s) {
      var s1 := Attempted(s);
      EvictKeepsBalance(env, s0, s1);
      var t := Evict(env, s1);
      if VictimIndex(env, s) != s.reqIndex { AllocateKeepsBalance(env, s0, t); }
    }
  }

  lemma BookKeepsBalance(env: Env, s0: Loop, s: Loop, t: Loop, c: Candidate)
    requires env.Valid() && Balanced(env, s0, t) && s.encoderBudget >= 0 && NumNew(env, s, c) > 0
    requires s.tokenBudget > 0 && s.inputBudget > env.draftSlots
    requires t.tokenBudget >= s.tokenBudget && t.inputBudget >= s.inputBudget && t.encoderBudget >= s.encoderBudget
    requires env.policy.Fcfs? ==> t.encoderBudget == s.encoderBudget
    ensures Balanced(env, s0, Book(env, t, c, NumNew(env, s, c), s.encoderBudget, env.embeds(c, s.encoderBudget)))
  {
    var n, e := NumNew(env, s, c), env.embeds(c, s.encoderBudget);
    SumsAppend(t.granted, Grant(c.id, n, e));
    assert env.draftSlots * (|t.granted| + 1) == env.draftSlots * |t.granted| + env.draftSlots;
  }

  // ---------------------------------------------------------------- who runs, who is preempted

  /** The queue without the preempted requests, everyone else in the old order. */
  ghost function Without(running: seq<Candidate>, gone: seq<Candidate>): seq<Candidate> {
    if running == [] then []
    else (if running[0] in gone then [] else [running[0]]) + Without(running[1..], gone)
  }

  lemma {:induction false} WithoutNone(running: seq<Candidate>)
    ensures Without(running, []) == running
  {
    if running != [] { WithoutNone(running[1..]); }
  }

  lemma {:induction false} WithoutMembers(running: seq<Candidate>, gone: seq<Candidate>)
    ensures forall c :: c in Without(running, gone) <==> c in running && c !in gone
  {
    if running != [] {
      WithoutMembers(running[1..], gone);
      assert running == [running[0]] + running[1..];
    }
  }

  lemma WithoutHead(running: seq<Candidate>, gone: seq<Candidate>)
    requires running != []
    ensures Without(running, gone)
            == (if running[0] in gone then [] else [running[0]]) + Without(running[1..], gone)
  {
  }

  /** Taking one more request out of what is left is the same as filtering by one more. */
  lemma {:induction false} WithoutOneMore(running: seq<Candidate>, gone: seq<Candidate>, left: seq<Candidate>, i: nat)
    requires forall j, k :: 0 <= j < k < |running| ==> running[j] != running[k]
    requires left == Without(running, gone) && i < |left|
    ensures Without(running, gone + [left[i]]) == RemoveAt(left, i)
  {
    var tail, c := running[1..], left[i];
    var rest := Without(tail, gone);
    WithoutHead(running, gone);
    WithoutHead(running, gone + [c]);
    if running[0] in gone {
      WithoutOneMore(tail, gone, rest, i);
    } else if i == 0 {
      assert c !in tail;
      WithoutAbsent(tail, gone, c);
      assert RemoveAt(left, 0) == rest;
    } else {
      assert c == rest[i - 1];
      WithoutMembers(tail, gone);
      assert running[0] != c && running[0] !in gone + [c];
      WithoutOneMore(tail, gone, rest, i - 1);
      RemoveAfterHead(running[0], rest, i);
    }
  }

  lemma RemoveAfterHead(head: Candidate, rest: seq<Candidate>, i: nat)
    requires 0 < i <= |rest|
    ensures RemoveAt([head] + rest, i) == [head] + RemoveAt(rest, i - 1)
  {
  }

  lemma {:induction false} WithoutAbsent(running: seq<Candidate>, gone: seq<Candidate>, c: Candidate)
    requires c !in running
    ensures Without(running, gone + [c]) == Without(running, gone)
  {
    if running != [] { WithoutAbsent(running[1..], gone, c); }
  }

  /** The grant is one the request asked for and may have. */
  ghost predicate Backs(env: Env, c: Candidate, g: Grant) {
    c.id == g.id && 0 < g.tokens <= c.want && g.tokens <= c.room && (env.threshold > 0 ==> g.tokens <= env.threshold)
  }

  ghost predicate Unique(granted: seq<Grant>) {
    forall k, l :: 0 <= k < l < |granted| ==> granted[k].id != granted[l].id
  }

  /** Each grant is held by a request in front of the index. */
  ghost predicate Held(env: Env, running: seq<Candidate>, reqIndex: nat, granted: seq<Grant>) {
    forall g :: g in granted ==> exists j :: 0 <= j < reqIndex && j < |running| && Backs(env, running[j], g)
  }

  /** Grants go to different requests, all in front of the index; nobody else holds one. */
  ghost predicate Granted(env: Env, running: seq<Candidate>, reqIndex: nat, granted: seq<Grant>) {
    Unique(granted) && Held(env, running, reqIndex, granted)
  }

  /** First come, first served: the queue keeps a prefix and loses its tail, last one first. */
  ghost predicate TailLost(all: seq<Candidate>, running: seq<Candidate>, preempted: seq<Candidate>) {
    && |running| + |preempted| == |all|
    && (forall k :: 0 <= k < |running| ==> running[k] == all[k])
    && (forall k :: 0 <= k < |preempted| ==> preempted[k] == all[|all| - 1 - k])
  }

  /** Priorities: nobody who stays, and nobody preempted later, ranks behind a victim. */
  ghost predicate LowestLost(running: seq<Candidate>, preempted: seq<Candidate>) {
    && (forall k, c :: 0 <= k < |preempted| && c in running ==> !RanksBehind(c, preempted[k]))
    && (forall k, l :: 0 <= k < l < |preempted| ==> !RanksBehind(preempted[l], preempted[k]))
  }

  /** Where everyone is: still running, or preempted according to the policy. */
  ghost predicate Queued(policy: Policy, all: seq<Candidate>, running: seq<Candidate>, preempted: seq<Candidate>) {
    && Sane(running)
    && running == Without(all, preempted)
    && |running| + |preempted| == |all|
    && (forall v :: v in preempted ==> v in all)
    && (policy.Fcfs? ==> TailLost(all, running, preempted))
    && (policy.Priority? ==> LowestLost(running, preempted))
  }

  ghost predicate Shape(env: Env, all: seq<Candidate>, s: Loop) {
    && s.reqIndex <= |s.running|
    && Queued(env.policy, all, s.running, s.preempted)
    && Granted(env, s.running, s.reqIndex, s.granted)
  }

  lemma {:induction false} RevokeTakesOne(granted: seq<Grant>, id: nat)
    requires Unique(granted)
    ensures var r := Revoke(granted, id);
      (forall g :: g in r <==> g in granted && g.id != id) && Unique(r)
  {
    if granted != [] {
      assert granted == [granted[0]] + granted[1..];
      if granted[0].id != id { RevokeTakesOne(granted[1..], id); }
    }
  }

  lemma HolderMoves(env: Env, running: seq<Candidate>, reqIndex: nat, i: nat, j: nat, g: Grant)
    requires i < |running| && j < |running| && j < reqIndex && j != i && Backs(env, running[j], g)
    ensures var left, index := RemoveAt(running, i), if i < reqIndex then reqIndex - 1 else reqIndex;
      exists k :: 0 <= k < index && k < |left| && Backs(env, left[k], g)
  {
    var left, k := RemoveAt(running, i), if j < i then j else j - 1;
    assert left[k] == running[j] && Backs(env, left[k], g);
  }

  lemma OthersStayHeld(env: Env, running: seq<Candidate>, reqIndex: nat, granted: seq<Grant>, i: nat, rest: seq<Grant>)
    requires i < |running| && Held(env, running, reqIndex, granted)
    requires forall g :: g in rest ==> g in granted && g.id != running[i].id
    ensures Held(env, RemoveAt(running, i), if i < reqIndex then reqIndex - 1 else reqIndex, rest)
  {
    var left, index := RemoveAt(running, i), if i < reqIndex then reqIndex - 1 else reqIndex;
    forall g | g in rest ensures exists k :: 0 <= k < index && k < |left| && Backs(env, left[k], g) {
      var j: nat :| j < reqIndex && j < |running| && Backs(env, running[j], g);
      HolderMoves(env, running, reqIndex, i, j, g);
    }
  }

  /** A request behind the index holds no grant. */
  lemma BehindHoldsNone(env: Env, running: seq<Candidate>, reqIndex: nat, granted: seq<Grant>, i: nat)
    requires Sane(running) && Held(env, running, reqIndex, granted) && reqIndex <= i < |running|
    ensures forall g :: g in granted ==> g.id != running[i].id
  {
    forall g | g in granted ensures g.id != running[i].id {
      var j: nat :| j < reqIndex && j < |running| && Backs(env, running[j], g);
    }
  }

  /** A victim in the queue takes its grant with it, if it has one; the others still hold theirs. */
  lemma EvictKeepsGrants(
    env: Env, running: seq<Candidate>, reqIndex: nat, granted: seq<Grant>, i: nat, rest: seq<Grant>)
    requires Sane(running) && i < |running| && Granted(env, running, reqIndex, granted)
    requires if i < reqIndex then rest == Revoke(granted, running[i].id) else rest == granted
    ensures Granted(env, RemoveAt(running, i), if i < reqIndex then reqIndex - 1 else reqIndex, rest)
    ensures forall g :: g in rest ==> g.id != running[i].id
  {
    RevokeTakesOne(granted, running[i].id);
    if i >= reqIndex { BehindHoldsNone(env, running, reqIndex, granted, i); }
    OthersStayHeld(env, running, reqIndex, granted, i, rest);
  }

  lemma RevokeNothing(granted: seq<Grant>, id: nat)
    requires forall g :: g in granted ==> g.id != id
    ensures Revoke(granted, id) == granted && GrantOf(granted, id) == []
  {
  }

  lemma EvictKeepsLowest(running: seq<Candidate>, preempted: seq<Candidate>, i: nat)
    requires running != [] && LowestLost(running, preempted) && i == Lowest(running)
    ensures LowestLost(RemoveAt(running, i), preempted + [running[i]])
  {
    var left, victims := RemoveAt(running, i), preempted + [running[i]];
    forall c | c in left ensures c in running && !RanksBehind(c, running[i]) {
      var j :| 0 <= j < |left| && left[j] == c;
      assert c == running[if j < i then j else j + 1];
    }
    forall k, c | 0 <= k < |victims| && c in left ensures !RanksBehind(c, victims[k]) {
      if k < |preempted| { assert victims[k] == preempted[k]; }
    }
    forall k, l | 0 <= k < l < |victims| ensures !RanksBehind(victims[l], victims[k]) {
      assert victims[k] == preempted[k] && running[i] in running;
    }
  }

  lemma EvictKeepsTail(all: seq<Candidate>, running: seq<Candidate>, preempted: seq<Candidate>)
    requires running != [] && TailLost(all, running, preempted)
    ensures TailLost(all, RemoveAt(running, |running| - 1), preempted + [running[|running| - 1]])
  {
  }

  /** What eviction does to the grants: a granted victim stands before the index and loses its grant. */
  lemma EvictedGrants(env: Env, s: Loop)
    requires s.running != [] && Sane(s.running) && Granted(env, s.running, s.reqIndex, s.granted)
    requires s.reqIndex < |s.running|
    ensures var i := VictimIndex(env, s);
      && Evict(env, s).granted == (if i < s.reqIndex then Revoke(s.granted, s.running[i].id) else s.granted)
      && Evict(env, s).reqIndex == (if i < s.reqIndex then s.reqIndex - 1 else s.reqIndex)
  {
    var i := VictimIndex(env, s);
    if i >= s.reqIndex {
      EvictKeepsGrants(env, s.running, s.reqIndex, s.granted, i, s.granted);
      RevokeNothing(s.granted, s.running[i].id);
    } else if GrantOf(s.granted, s.running[i].id) == [] {
      RevokeNothing(s.granted, s.running[i].id);
    }
  }

  lemma EvictKeepsQueue(policy: Policy, all: seq<Candidate>, running: seq<Candidate>, preempted: seq<Candidate>, i: nat)
    requires Sane(all) && Queued(policy, all, running, preempted) && running != []
    requires i == if policy.Priority? then Lowest(running) else |running| - 1
    ensures Queued(policy, all, RemoveAt(running, i), preempted + [running[i]])
  {
    WithoutOneMore(all, preempted, running, i);
    WithoutMembers(all, preempted);
    RemoveKeepsSane(running, i);
    if policy.Priority? {
      EvictKeepsLowest(running, preempted, i);
    } else {
      EvictKeepsTail(all, running, preempted);
    }
  }

  lemma EvictKeepsShape(env: Env, all: seq<Candidate>, s: Loop)
    requires Sane(all) && Shape(env, all, s) && s.reqIndex < |s.running|
    ensures Shape(env, all, Evict(env, s))
  {
    var i := VictimIndex(env, s);
    EvictKeepsQueue(env.policy, all, s.running, s.preempted, i);
    EvictedGrants(env, s);
    EvictKeepsGrants(env, s.running, s.reqIndex, s.granted, i, Evict(env, s).granted);
  }

  lemma {:induction false} AllocateKeepsShape(env: Env, all: seq<Candidate>, s: Loop)
    requires Sane(all) && Shape(env, all, s) && s.reqIndex < |s.running|
    ensures Shape(env, all, Allocate(env, s).1)
    decreases |s.running|
  {
    if Evicts(env, s) {
      var s1 := Attempted(s);
      EvictKeepsShape(env, all, s1);
      var t := Evict(env, s1);
      if VictimIndex(env, s) != s.reqIndex {
        EvictKeepsRequest(env, s1);
        AllocateKeepsShape(env, all, t);
      }
    }
  }

  lemma BookKeepsShape(env: Env, all: seq<Candidate>, s: Loop, c: Candidate, n: int, encoder: int, embeds: int)
    requires Shape(env, all, s) && s.reqIndex < |s.running| && s.running[s.reqIndex] == c
    requires Backs(env, c, Grant(c.id, n, embeds))
    ensures Shape(env, all, Book(env, s, c, n, encoder, embeds))
  {
    var t := Book(env, s, c, n, encoder, embeds);
    forall g | g in s.granted ensures g.id != c.id {
      var j :| 0 <= j < s.reqIndex && j < |s.running| && Backs(env, s.running[j], g);
    }
    forall g | g in t.granted
        ensures exists j :: 0 <= j < t.reqIndex && j < |t.running| && Backs(env, t.running[j], g) {
      if g in s.granted {
        var j: nat :| 0 <= j < s.reqIndex && j < |s.running| && Backs(env, s.running[j], g);
        assert Backs(env, t.running[j], g);
      } else {
        assert Backs(env, t.running[s.reqIndex], g);
      }
    }
  }

  /** Encoder budget goes missing exactly when a request with encoder inputs evicts, for its own blocks, requests
      that were granted encoder inputs in this step; as much as those held. */
  lemma LostExactly(env: Env, s0: Loop, s: Loop, c: Candidate, n: int)
    requires env.Valid() && Balanced(env, s0, s) && s.reqIndex < |s.running|
    ensures var t := Allocate(env, s).1;
      var e := env.embeds(c, s.encoderBudget);
      Book(env, t, c, n, s.encoderBudget, e).lost - s.lost
      == if e > 0 then SumEmbeds(s.granted) - SumEmbeds(t.granted) else 0
  {
    AllocateKeepsBalance(env, s0, s);
  }

  /** Conservation and order over the whole loop: the books balance and no budget is overdrawn; the queue is the old
      one without the victims, who hold no grant, and every grant is one its request asked for. */
  lemma {:induction false} RunIsConsistent(env: Env, s0: Loop, s: Loop)
    requires env.Valid() && Sane(s0.running) && Balanced(env, s0, s) && Shape(env, s0.running, s)
    ensures Balanced(env, s0, Run(env, s)) && Shape(env, s0.running, Run(env, s))
    decreases |s.running| - s.reqIndex
  {
    if s.reqIndex < |s.running| && s.tokenBudget > 0 && s.inputBudget > env.draftSlots {
      var c := s.running[s.reqIndex];
      var n := NumNew(env, s, c);
      if c.skip || n == 0 {
        RunIsConsistent(env, s0, s.(reqIndex := s.reqIndex + 1));
      } else {
        AllocateKeepsBalance(env, s0, s);
        AllocateKeepsShape(env, s0.running, s);
        AllocateKeepsRequest(env, s);
        var (ok, s1) := Allocate(env, s);
        if ok {
          var e := env.embeds(c, s.encoderBudget);
          BookKeepsBalance(env, s0, s, s1, c);
          BookKeepsShape(env, s0.running, s1, c, n, s.encoderBudget, e);
          RunIsConsistent(env, s0, Book(env, s1, c, n, s.encoderBudget, e));
        }
      }
    }
  }

  // ---------------------------------------------------------------- turn by turn

  /** What the loop schedules for the request: the least of all limits, clipped, and nothing if that is negative. */
  ghost predicate Counts(env: Env, s: Loop, c: Candidate, n: int) {
    exists least :: IsLeastLimit(env, s, c, least) && n == Max(env.clip(c, least), 0)
  }

  ghost predicate IsLeastLimit(env: Env, s: Loop, c: Candidate, least: int) {
    var limits := {c.want, c.room, s.tokenBudget, s.inputBudget - env.draftSlots}
      + if env.threshold > 0 then {env.threshold} else {};
    least in limits && forall limit :: limit in limits ==> least <= limit
  }

  lemma NumNewCounts(env: Env, s: Loop, c: Candidate)
    ensures forall n :: Counts(env, s, c, n) <==> n == NumNew(env, s, c)
  {
    var least := Min(Min(if 0 < env.threshold < c.want then env.threshold else c.want,
                         Min(s.tokenBudget, s.inputBudget - env.draftSlots)), c.room);
    assert IsLeastLimit(env, s, c, least);
    forall other | IsLeastLimit(env, s, c, other) ensures other == least {}
  }

  /** First come, first served takes the last request; priorities take the one with the greatest priority number, of
      those the last to arrive, and of those the first in the queue. */
  ghost predicate IsVictim(policy: Policy, running: seq<Candidate>, i: nat) {
    && i < |running|
    && (policy.Fcfs? ==> i == |running| - 1)
    && (policy.Priority? ==> forall j :: 0 <= j < |running| && j != i ==>
          || running[j].priority < running[i].priority
          || (running[j].priority == running[i].priority
              && if j < i then running[j].arrival < running[i].arrival else running[j].arrival <= running[i].arrival))
  }

  lemma VictimIs(env: Env, s: Loop, i: nat)
    requires s.running != []
    ensures IsVictim(env.policy, s.running, i) <==> i == VictimIndex(env, s)
  {
    assert IsVictim(env.policy, s.running, VictimIndex(env, s));
    if IsVictim(env.policy, s.running, i) { OneVictim(env.policy, s.running, i, VictimIndex(env, s)); }
  }

  lemma OneVictim(policy: Policy, running: seq<Candidate>, i: nat, j: nat)
    requires IsVictim(policy, running, i) && IsVictim(policy, running, j)
    ensures i == j
  {
    assert running[i].priority == running[j].priority || policy.Fcfs?;
  }

  /** An attempt fails and the victim, whose blocks would help, goes with what it was granted. */
  ghost predicate MakesRoom(env: Env, s: Loop, t: Loop, i: nat) {
    && IsVictim(env.policy, s.running, i) && s.running[i].freeable
    && !env.gotBlocks(s.attempts) && !env.freesPending(s.attempts) && t.attempts == s.attempts + 1
    && t.running == s.running[..i] + s.running[i + 1..] && t.preempted == s.preempted + [s.running[i]]
    && t.reqIndex == (if i < s.reqIndex then s.reqIndex - 1 else s.reqIndex)
    && Loses(s.granted, s.running[i].id, t.granted) && t.lost == s.lost
  }

  /** The grants but for those of one request. */
  ghost predicate Loses(granted: seq<Grant>, id: nat, left: seq<Grant>) {
    forall g :: g in left <==> g in granted && g.id != id
  }

  ghost predicate OtherMakesRoom(env: Env, s: Loop, t: Loop) {
    exists i: nat :: i != s.reqIndex && MakesRoom(env, s, t, i)
  }

  /** One victim after another, none of them the request that is to get blocks. */
  ghost predicate MakeRoom(env: Env, ss: seq<Loop>) {
    ss != [] && forall k :: 0 <= k < |ss| - 1 ==> OtherMakesRoom(env, ss[k], ss[k + 1])
  }

  ghost predicate VictimKeepsBlocks(env: Env, s: Loop) {
    exists i: nat :: IsVictim(env.policy, s.running, i) && !s.running[i].freeable
  }

  /** What allocating comes to after the last of those victims. */
  ghost predicate Settles(env: Env, last: Loop, ok: bool, t: Loop) {
    if ok then env.gotBlocks(last.attempts) && t == last.(attempts := last.attempts + 1)
    else
      && !env.gotBlocks(last.attempts)
      && (MakesRoom(env, last, t, last.reqIndex)
          || ((env.freesPending(last.attempts) || VictimKeepsBlocks(env, last))
              && t == last.(attempts := last.attempts + 1)))
  }

  lemma EvictionLoses(env: Env, all: seq<Candidate>, s: Loop)
    requires Sane(all) && Shape(env, all, s) && s.reqIndex < |s.running|
    ensures var i, t := VictimIndex(env, s), Evict(env, s);
      && Loses(s.granted, s.running[i].id, t.granted)
      && t.reqIndex == if i < s.reqIndex then s.reqIndex - 1 else s.reqIndex
  {
    var i := VictimIndex(env, s);
    EvictedGrants(env, s);
    RevokeTakesOne(s.granted, s.running[i].id);
    if i >= s.reqIndex { BehindHoldsNone(env, s.running, s.reqIndex, s.granted, i); }
  }

  lemma EvictTakesOut(env: Env, s: Loop)
    requires s.running != []
    ensures var i, t := VictimIndex(env, s), Evict(env, s);
      && t.running == s.running[..i] + s.running[i + 1..] && t.preempted == s.preempted + [s.running[i]]
      && t.attempts == s.attempts && t.lost == s.lost
  {
  }

  lemma EvictionMakesRoom(env: Env, all: seq<Candidate>, s: Loop)
    requires Sane(all) && Shape(env, all, s) && s.reqIndex < |s.running| && Evicts(env, s)
    ensures MakesRoom(env, s, Evict(env, Attempted(s)), VictimIndex(env, s))
  {
    var s1 := Attempted(s);
    VictimIs(env, s, VictimIndex(env, s));
    assert VictimIndex(env, s1) == VictimIndex(env, s);
    EvictionLoses(env, all, s1);
    EvictTakesOut(env, s1);
  }

  lemma NoEvictionSettles(env: Env, s: Loop)
    requires s.reqIndex < |s.running| && !Evicts(env, s)
    ensures Settles(env, s, env.gotBlocks(s.attempts), Attempted(s))
  {
    VictimIs(env, s, VictimIndex(env, s));
    assert !env.gotBlocks(s.attempts) && !env.freesPending(s.attempts) ==> VictimKeepsBlocks(env, s);
  }

  lemma {:induction false} AllocateIs(env: Env, all: seq<Candidate>, s: Loop) returns (ss: seq<Loop>)
    requires Sane(all) && Shape(env, all, s) && s.reqIndex < |s.running|
    ensures MakeRoom(env, ss) && ss[0] == s
    ensures Settles(env, ss[|ss| - 1], Allocate(env, s).0, Allocate(env, s).1)
    decreases |s.running|
  {
    if !Evicts(env, s) {
      NoEvictionSettles(env, s);
      ss := [s];
    } else {
      var t, i := Evict(env, Attempted(s)), VictimIndex(env, s);
      EvictionMakesRoom(env, all, s);
      if i == s.reqIndex {
        ss := [s];
      } else {
        EvictKeepsShape(env, all, Attempted(s));
        EvictKeepsRequest(env, Attempted(s));
        assert OtherMakesRoom(env, s, t);
        var rest := AllocateIs(env, all, t);
        ss := [s] + rest;
        OneVictimMore(env, s, rest);
      }
    }
  }

  lemma OneVictimMore(env: Env, s: Loop, rest: seq<Loop>)
    requires MakeRoom(env, rest) && OtherMakesRoom(env, s, rest[0])
    ensures MakeRoom(env, [s] + rest)
  {
    var ss := [s] + rest;
    forall k | 0 <= k < |ss| - 1 ensures OtherMakesRoom(env, ss[k], ss[k + 1]) {
      if k > 0 { assert ss[k] == rest[k - 1] && ss[k + 1] == rest[k]; }
    }
  }

  /** The request is passed over only if the step skips it or schedules nothing for it; the next one has its turn. */
  ghost predicate PassedOver(env: Env, s: Loop, t: Loop)
    requires s.reqIndex < |s.running|
  {
    var c := s.running[s.reqIndex];
    (c.skip || Counts(env, s, c, 0)) && t == s.(reqIndex := s.reqIndex + 1)
  }

  /** The request is to be scheduled. */
  ghost predicate HasTurn(env: Env, s: Loop, n: int) {
    s.reqIndex < |s.running| && !s.running[s.reqIndex].skip && n > 0 && Counts(env, s, s.running[s.reqIndex], n)
  }

  /** The request gets its blocks, after victims if need be, and is granted what was worked out before that. */
  ghost predicate Served(env: Env, s: Loop, t: Loop, n: int, ss: seq<Loop>) {
    && HasTurn(env, s, n) && MakeRoom(env, ss) && ss[0] == s
    && var last, c := ss[|ss| - 1], s.running[s.reqIndex];
       var e := env.embeds(c, s.encoderBudget);
       && env.gotBlocks(last.attempts) && t.attempts == last.attempts + 1
       && t.running == last.running && t.preempted == last.preempted && t.reqIndex == last.reqIndex + 1
       && t.granted == last.granted + [Grant(c.id, n, e)]
       && t.encoderBudget == (if e > 0 then s.encoderBudget - e else last.encoderBudget)
  }

  ghost predicate Turn(env: Env, s: Loop, t: Loop) {
    && s.reqIndex < |s.running| && s.tokenBudget > 0 && s.inputBudget > env.draftSlots
    && (PassedOver(env, s, t) || exists n, ss :: Served(env, s, t, n, ss))
  }

  /** The loop ends with the queue or with a budget, or when the request whose turn it is gets no blocks. */
  ghost predicate Ends(env: Env, s: Loop, f: Loop) {
    || (f == s && (s.reqIndex == |s.running| || s.tokenBudget <= 0 || s.inputBudget <= env.draftSlots))
    || exists n, ss :: HasTurn(env, s, n) && MakeRoom(env, ss) && ss[0] == s && Settles(env, ss[|ss| - 1], false, f)
  }

  ghost predicate Sound(env: Env, s0: Loop, s: Loop) { Balanced(env, s0, s) && Shape(env, s0.running, s) }

  ghost predicate Turns(env: Env, s0: Loop, ss: seq<Loop>) {
    && ss != []
    && (forall k :: 0 <= k < |ss| ==> Sound(env, s0, ss[k]))
    && (forall k :: 0 <= k < |ss| - 1 ==> Turn(env, ss[k], ss[k + 1]))
  }

  lemma PassingIsATurn(env: Env, s: Loop)
    requires s.reqIndex < |s.running| && s.tokenBudget > 0 && s.inputBudget > env.draftSlots && !Asks(env, s)
    ensures Turn(env, s, s.(reqIndex := s.reqIndex + 1))
  {
    NumNewCounts(env, s, s.running[s.reqIndex]);
  }

  lemma BookServes(env: Env, s0: Loop, s: Loop)
    requires env.Valid() && Sane(s0.running) && Balanced(env, s0, s) && Shape(env, s0.running, s)
    requires Asks(env, s) && Allocate(env, s).0
    ensures var c := s.running[s.reqIndex];
      Turn(env, s, Book(env, Allocate(env, s).1, c, NumNew(env, s, c), s.encoderBudget, env.embeds(c, s.encoderBudget)))
  {
    var c := s.running[s.reqIndex];
    var n := NumNew(env, s, c);
    var t := Book(env, Allocate(env, s).1, c, n, s.encoderBudget, env.embeds(c, s.encoderBudget));
    NumNewCounts(env, s, c);
    var ss := AllocateIs(env, s0.running, s);
    AllocateKeepsRequest(env, s);
    assert Served(env, s, t, n, ss);
  }

  lemma RefusedEnds(env: Env, s0: Loop, s: Loop)
    requires env.Valid() && Sane(s0.running) && Balanced(env, s0, s) && Shape(env, s0.running, s)
    requires Asks(env, s) && !Allocate(env, s).0
    ensures Ends(env, s, Allocate(env, s).1)
  {
    var c := s.running[s.reqIndex];
    NumNewCounts(env, s, c);
    var ss := AllocateIs(env, s0.running, s);
    assert HasTurn(env, s, NumNew(env, s, c));
  }

  lemma PassingKeeps(env: Env, s0: Loop, s: Loop)
    requires Sound(env, s0, s) && s.reqIndex < |s.running|
    ensures Sound(env, s0, s.(reqIndex := s.reqIndex + 1))
  {
  }

  lemma RunPasses(env: Env, s: Loop)
    requires s.reqIndex < |s.running| && s.tokenBudget > 0 && s.inputBudget > env.draftSlots && !Asks(env, s)
    ensures Run(env, s) == Run(env, s.(reqIndex := s.reqIndex + 1))
  {
  }

  lemma RunIsRefused(env: Env, s: Loop)
    requires Asks(env, s) && !Allocate(env, s).0
    ensures Run(env, s) == Allocate(env, s).1
  {
  }

  /** One turn, after which the loop goes on, or its end. */
  lemma OneTurn(env: Env, s0: Loop, s: Loop) returns (t: Option<Loop>)
    requires env.Valid() && Sane(s0.running) && Sound(env, s0, s)
    ensures t == None ==> Ends(env, s, Run(env, s))
    ensures t.Some? ==> Turn(env, s, t.value) && Sound(env, s0, t.value) && Run(env, s) == Run(env, t.value)
    ensures t.Some? ==> |t.value.running| - t.value.reqIndex < |s.running| - s.reqIndex
  {
    t := None;
    if s.reqIndex < |s.running| && s.tokenBudget > 0 && s.inputBudget > env.draftSlots {
      if !Asks(env, s) {
        PassingIsATurn(env, s);
        PassingKeeps(env, s0, s);
        RunPasses(env, s);
        t := Some(s.(reqIndex := s.reqIndex + 1));
      } else if Allocate(env, s).0 {
        BookServes(env, s0, s);
        var booked := BookingLosesIff(env, s0, s);
        RunBooks(env, s, Allocate(env, s).1);
        t := Some(booked);
      } else {
        RefusedEnds(env, s0, s);
        RunIsRefused(env, s);
      }
    }
  }

  /** The loop gives every request its turn, one after the other, and ends for no other reason than those above. */
  lemma {:induction false} RunIs(env: Env, s0: Loop, s: Loop) returns (ss: seq<Loop>)
    requires env.Valid() && Sane(s0.running) && Sound(env, s0, s)
    ensures Turns(env, s0, ss) && ss[0] == s && Ends(env, ss[|ss| - 1], Run(env, s))
    decreases |s.running| - s.reqIndex
  {
    var t := OneTurn(env, s0, s);
    if t == None {
      ss := [s];
    } else {
      var rest := RunIs(env, s0, t.value);
      ss := [s] + rest;
      OneTurnMore(env, s0, s, rest);
    }
  }

  lemma OneTurnMore(env: Env, s0: Loop, s: Loop, rest: seq<Loop>)
    requires Turns(env, s0, rest) && Sound(env, s0, s) && Turn(env, s, rest[0])
    ensures Turns(env, s0, [s] + rest)
  {
    var ss := [s] + rest;
    forall k | 0 <= k < |ss| - 1 ensures Turn(env, ss[k], ss[k + 1]) {
      if k > 0 { assert ss[k] == rest[k - 1] && ss[k + 1] == rest[k]; }
    }
  }

  /** So it is for a whole step, under either policy: a request without a grant had its turn and was passed over, was
      preempted, or comes after a request for which no blocks were to be had or after the budget was used up. */
  lemma StepTurnByTurn(env: Env, running: seq<Candidate>, tokens: nat, inputs: nat, encoder: nat)
    returns (ss: seq<Loop>)
    requires env.Valid() && Sane(running)
    ensures var s0 := Loop(running, 0, tokens, inputs, encoder, [], [], 0, 0);
      var f := Run(env, Start(running, tokens, inputs, encoder));
      Turns(env, s0, ss) && ss[0] == s0 && Ends(env, ss[|ss| - 1], f) && EndsForCause(env, f)
  {
    var s0 := Start(running, tokens, inputs, encoder);
    StartIsSound(env, s0);
    ss := RunIs(env, s0, s0);
    EndsEarly(env, ss[|ss| - 1], Run(env, s0));
  }

  /** The queue or a budget is at its end, or the last attempt to get blocks failed. */
  ghost predicate EndsForCause(env: Env, f: Loop) {
    || f.reqIndex == |f.running| || f.tokenBudget <= 0 || f.inputBudget <= env.draftSlots
    || (f.attempts > 0 && !env.gotBlocks(f.attempts - 1))
  }

  lemma StartIsSound(env: Env, s0: Loop)
    requires Sane(s0.running) && s0.tokenBudget >= 0 && s0.inputBudget >= 0 && s0.encoderBudget >= 0
    requires s0.reqIndex == 0 && s0.granted == [] && s0.preempted == [] && s0.lost == 0
    ensures Sound(env, s0, s0)
  {
    WithoutNone(s0.running);
  }

  lemma EndsEarly(env: Env, s: Loop, f: Loop)
    requires Ends(env, s, f)
    ensures EndsForCause(env, f)
  {
  }

  // ---------------------------------------------------------------- when the encoder budget is exact

  /** Attempts go on, with evictions, until one succeeds. */
  predicate GetsBlocks(env: Env, s: Loop)
    requires s.reqIndex < |s.running|
    decreases |s.running|
  {
    if Evicts(env, s) then VictimIndex(env, s) != s.reqIndex && GetsBlocks(env, Evict(env, Attempted(s)))
    else env.gotBlocks(s.attempts)
  }

  /** The next victim was granted encoder inputs in this step, and eviction takes grants back. */
  predicate VictimHoldsEmbeds(env: Env, s: Loop)
    requires s.running != []
  {
    var id := s.running[VictimIndex(env, s)].id;
    env.policy.Priority? && exists i :: 0 <= i < |s.granted| && s.granted[i].id == id && s.granted[i].embeds > 0
  }

  /** On the way to its blocks the request evicts one that was granted encoder inputs in this step. */
  predicate EvictsHolder(env: Env, s: Loop)
    requires s.reqIndex < |s.running|
    decreases |s.running|
  {
    Evicts(env, s)
    && (VictimHoldsEmbeds(env, s)
        || (VictimIndex(env, s) != s.reqIndex && EvictsHolder(env, Evict(env, Attempted(s)))))
  }

  /** Somewhere in the rest of the loop a request with encoder inputs gets its blocks by evicting such a holder. */
  ghost predicate Overwrites(env: Env, s: Loop)
    requires s.reqIndex <= |s.running|
    decreases |s.running| - s.reqIndex
  {
    if s.reqIndex == |s.running| || s.tokenBudget <= 0 || s.inputBudget <= env.draftSlots then false
    else
      var c := s.running[s.reqIndex];
      var n := NumNew(env, s, c);
      if c.skip || n == 0 then Overwrites(env, s.(reqIndex := s.reqIndex + 1))
      else if !GetsBlocks(env, s) then false
      else
        AllocateKeepsRequest(env, s);
        GetsBlocksIs(env, s);
        var e := env.embeds(c, s.encoderBudget);
        (e > 0 && EvictsHolder(env, s)) || Overwrites(env, Book(env, Allocate(env, s).1, c, n, s.encoderBudget, e))
  }

  lemma {:induction false} GetsBlocksIs(env: Env, s: Loop)
    requires s.reqIndex < |s.running|
    ensures GetsBlocks(env, s) == Allocate(env, s).0
    decreases |s.running|
  {
    if Evicts(env, s) && VictimIndex(env, s) != s.reqIndex {
      EvictKeepsRequest(env, Attempted(s));
      GetsBlocksIs(env, Evict(env, Attempted(s)));
    }
  }

  lemma {:induction false} GrantIs(granted: seq<Grant>, id: nat, i: nat)
    requires Unique(granted) && i < |granted| && granted[i].id == id
    ensures GrantOf(granted, id) == [granted[i]]
  {
    if granted[0].id == id {
      assert i == 0;
    } else {
      GrantIs(granted[1..], id, i - 1);
    }
  }

  /** Evicting gives encoder budget back exactly if the victim holds some. */
  lemma EvictGivesBackIff(env: Env, s: Loop)
    requires env.Valid() && s.running != [] && Unique(s.granted) && (forall g :: g in s.granted ==> g.embeds >= 0)
    ensures Evict(env, s).encoderBudget >= s.encoderBudget
    ensures Evict(env, s).encoderBudget > s.encoderBudget <==> VictimHoldsEmbeds(env, s)
  {
    var id := s.running[VictimIndex(env, s)].id;
    if i: nat :| i < |s.granted| && s.granted[i].id == id {
      GrantIs(s.granted, id, i);
    } else {
      RevokeNothing(s.granted, id);
    }
  }

  /** Allocating gives encoder budget back exactly if it evicts a holder. */
  lemma {:induction false} AllocateGivesBackIff(env: Env, s0: Loop, all: seq<Candidate>, s: Loop)
    requires env.Valid() && Sane(all) && Balanced(env, s0, s) && Shape(env, all, s) && s.reqIndex < |s.running|
    ensures Allocate(env, s).1.encoderBudget >= s.encoderBudget
    ensures Allocate(env, s).1.encoderBudget > s.encoderBudget <==> EvictsHolder(env, s)
    decreases |s.running|
  {
    if Evicts(env, s) {
      var s1 := Attempted(s);
      EvictGivesBackIff(env, s1);
      EvictKeepsBalance(env, s0, s1);
      EvictKeepsShape(env, all, s1);
      if VictimIndex(env, s) != s.reqIndex {
        EvictKeepsRequest(env, s1);
        AllocateGivesBackIff(env, s0, all, Evict(env, s1));
      }
    }
  }

  /** The loop goes on to ask for blocks for the request the index points to. */
  ghost predicate Asks(env: Env, s: Loop) {
    && s.reqIndex < |s.running| && s.tokenBudget > 0 && s.inputBudget > env.draftSlots
    && !s.running[s.reqIndex].skip && NumNew(env, s, s.running[s.reqIndex]) != 0
  }

  /** One booking loses encoder budget exactly if it is made after evicting a holder. */
  lemma BookingLosesIff(env: Env, s0: Loop, s: Loop) returns (t: Loop)
    requires env.Valid() && Sane(s0.running) && Balanced(env, s0, s) && Shape(env, s0.running, s)
    requires Asks(env, s) && Allocate(env, s).0
    ensures var c := s.running[s.reqIndex];
      var e := env.embeds(c, s.encoderBudget);
      && t == Book(env, Allocate(env, s).1, c, NumNew(env, s, c), s.encoderBudget, e)
      && t.lost >= s.lost && (t.lost > s.lost <==> e > 0 && EvictsHolder(env, s))
    ensures Balanced(env, s0, t) && Shape(env, s0.running, t)
    ensures t.reqIndex <= |t.running| && |t.running| - t.reqIndex < |s.running| - s.reqIndex
  {
    var c := s.running[s.reqIndex];
    var n, e, s1 := NumNew(env, s, c), env.embeds(c, s.encoderBudget), Allocate(env, s).1;
    t := Book(env, s1, c, n, s.encoderBudget, e);
    AllocateKeepsBalance(env, s0, s);
    AllocateKeepsShape(env, s0.running, s);
    AllocateKeepsRequest(env, s);
    AllocateGivesBackIff(env, s0, s0.running, s);
    BookKeepsBalance(env, s0, s, s1, c);
    BookKeepsShape(env, s0.running, s1, c, n, s.encoderBudget, e);
  }

  /** The rest of the loop loses encoder budget exactly if it overwrites some. */
  lemma {:induction false} RunLosesIff(env: Env, s0: Loop, s: Loop)
    requires env.Valid() && Sane(s0.running) && Balanced(env, s0, s) && Shape(env, s0.running, s)
    ensures Run(env, s).lost >= s.lost
    ensures Run(env, s).lost > s.lost <==> Overwrites(env, s)
    decreases |s.running| - s.reqIndex
  {
    if Asks(env, s) {
      GetsBlocksIs(env, s);
      if Allocate(env, s).0 {
        var t := BookingLosesIff(env, s0, s);
        RunLosesIff(env, s0, t);
      } else {
        AllocateKeepsBalance(env, s0, s);
      }
    } else if s.reqIndex < |s.running| && s.tokenBudget > 0 && s.inputBudget > env.draftSlots {
      RunLosesIff(env, s0, s.(reqIndex := s.reqIndex + 1));
    }
  }

  /** For a whole step: what is left of the encoder budget is exactly what was not granted, if and only if no request
      with encoder inputs gets its blocks by evicting one that was granted encoder inputs before it. */
  lemma EncoderBudgetIsExactIff(env: Env, running: seq<Candidate>, tokens: nat, inputs: nat, encoder: nat)
    requires env.Valid() && Sane(running)
    ensures var s0 := Start(running, tokens, inputs, encoder);
      Run(env, s0).encoderBudget == encoder - SumEmbeds(Run(env, s0).granted) <==> !Overwrites(env, s0)
  {
    var s0 := Start(running, tokens, inputs, encoder);
    WithoutNone(running);
    RunIsConsistent(env, s0, s0);
    RunLosesIff(env, s0, s0);
  }

  lemma {:induction false} FewerGrantsThanRunning(env: Env, running: seq<Candidate>, reqIndex: nat, granted: seq<Grant>)
    requires Sane(running) && Granted(env, running, reqIndex, granted) && reqIndex <= |running|
    ensures |granted| <= reqIndex
  {
    if granted != [] {
      var last := |granted| - 1;
      var g := granted[last];
      assert g in granted;
      var i :| 0 <= i < reqIndex && i < |running| && Backs(env, running[i], g);
      EvictKeepsGrants(env, running, reqIndex, granted, i, Revoke(granted, g.id));
      RevokeTakesOne(granted, g.id);
      FoundGrant(granted, g);
      Revoked(granted, g.id);
      RemoveKeepsSane(running, i);
      FewerGrantsThanRunning(env, RemoveAt(running, i), reqIndex - 1, Revoke(granted, g.id));
    }
  }

  lemma FoundGrant(granted: seq<Grant>, g: Grant)
    requires g in granted
    ensures GrantOf(granted, g.id) != []
  {
  }

  /** What schedule() asserts after the loop, and who was preempted for it, from any queue and any budgets. */
  lemma StepIsConsistent(env: Env, running: seq<Candidate>, tokens: nat, inputs: nat, encoder: nat)
    requires env.Valid() && Sane(running)
    ensures var s := Run(env, Start(running, tokens, inputs, encoder));
      && Shape(env, running, s)
      && 0 <= s.tokenBudget == tokens - SumTokens(s.granted)
      && 0 <= s.inputBudget == inputs - SumTokens(s.granted) - env.draftSlots * |s.granted|
      && 0 <= s.encoderBudget <= encoder - SumEmbeds(s.granted)
      && (env.policy.Fcfs? ==> s.encoderBudget == encoder - SumEmbeds(s.granted))
      && |s.granted| <= |s.running|
      && (forall v, g :: v in s.preempted && g in s.granted ==> v.id != g.id)
  {
    var s0 := Start(running, tokens, inputs, encoder);
    WithoutNone(running);
    RunIsConsistent(env, s0, s0);
    var s := Run(env, s0);
    FewerGrantsThanRunning(env, s.running, s.reqIndex, s.granted);
    WithoutMembers(running, s.preempted);
    forall v, g | v in s.preempted && g in s.granted ensures v.id != g.id {
      var j :| 0 <= j < s.reqIndex && j < |s.running| && Backs(env, s.running[j], g);
      assert s.running[j] in running && v in running;
    }
  }

  /** First come, first served never takes a grant back, so nobody is preempted whom this step has scheduled. */
  lemma {:induction false} FcfsNeverRevokes(env: Env, s: Loop)
    requires env.policy.Fcfs? && s.reqIndex <= |s.running|
    ensures s.granted <= Run(env, s).granted
    decreases |s.running| - s.reqIndex
  {
    if s.reqIndex < |s.running| && s.tokenBudget > 0 && s.inputBudget > env.draftSlots {
      var c := s.running[s.reqIndex];
      var n := NumNew(env, s, c);
      if c.skip || n == 0 {
        FcfsNeverRevokes(env, s.(reqIndex := s.reqIndex + 1));
      } else {
        FcfsAllocateKeepsGrants(env, s);
        AllocateKeepsRequest(env, s);
        var (ok, s1) := Allocate(env, s);
        if ok {
          FcfsNeverRevokes(env, Book(env, s1, c, n, s.encoderBudget, env.embeds(c, s.encoderBudget)));
        }
      }
    }
  }

  lemma {:induction false} FcfsAllocateKeepsGrants(env: Env, s: Loop)
    requires env.policy.Fcfs? && s.reqIndex < |s.running|
    ensures Allocate(env, s).1.granted == s.granted
    decreases |s.running|
  {
    if Evicts(env, s) && VictimIndex(env, s) != s.reqIndex {
      FcfsAllocateKeepsGrants(env, Evict(env, Attempted(s)));
    }
  }

  /** Two requests with encoder inputs; the second attempt to allocate blocks fails. */
  ghost predicate TwoEncoders(env: Env, a: Candidate, b: Candidate) {
    && env.policy.Priority? && env.threshold == 0 && env.draftSlots == 0
    && a == Candidate(1, 9, 0, 4, 4, false, true) && b == Candidate(2, 0, 0, 4, 4, false, true)
    && env.clip(a, 4) == 4 && env.clip(b, 4) == 4 && env.embeds(a, 10) == 5 && env.embeds(b, 5) == 5
    && env.gotBlocks(0) && !env.gotBlocks(1) && env.gotBlocks(2) && !env.freesPending(1)
  }

  lemma FirstIsGranted(env: Env, a: Candidate, b: Candidate)
    requires TwoEncoders(env, a, b)
    ensures Run(env, Start([a, b], 16, 16, 10)) == Run(env, Loop([a, b], 1, 12, 12, 5, [Grant(1, 4, 5)], [], 1, 0))
  {
    var s := Start([a, b], 16, 16, 10);
    assert [] + [Grant(1, 4, 5)] == [Grant(1, 4, 5)];
    RunBooks(env, s, Attempted(s));
  }

  lemma SecondTakesOver(env: Env, a: Candidate, b: Candidate)
    requires TwoEncoders(env, a, b)
    ensures Run(env, Loop([a, b], 1, 12, 12, 5, [Grant(1, 4, 5)], [], 1, 0))
            == Loop([b], 1, 12, 12, 0, [Grant(2, 4, 5)], [a], 3, 5)
  {
    var s := Loop([a, b], 1, 12, 12, 5, [Grant(1, 4, 5)], [], 1, 0);
    var t := Loop([b], 0, 16, 16, 10, [], [a], 2, 0);
    EvictFirst(env, s, a, b);
    EvictFirst(env, Attempted(s), a, b);
    assert [] + [a] == [a] && [] + [Grant(2, 4, 5)] == [Grant(2, 4, 5)];
    assert Evict(env, Attempted(s)) == t;
    assert Allocate(env, t) == (true, Attempted(t));
    RunBooks(env, s, Attempted(t));
  }

  ghost predicate LosesFive(env: Env, running: seq<Candidate>) {
    var s := Run(env, Start(running, 16, 16, 10));
    SumEmbeds(s.granted) == 5 && s.encoderBudget == 0
  }

  /** Under the priority policy encoder budget can go missing: the second request evicts the first, whose 5 come
      back, and is then charged against the 5 that were left before. */
  lemma EncoderBudgetCanBeLost()
    ensures exists env: Env, running :: env.Valid() && Sane(running) && LosesFive(env, running)
  {
    var env := Env(Priority, 0, 0, (c: Candidate, n: int) => n,
      (c: Candidate, budget: int) => if budget < 5 then budget else 5, (n: nat) => n != 1, (n: nat) => false);
    var a, b := Candidate(1, 9, 0, 4, 4, false, true), Candidate(2, 0, 0, 4, 4, false, true);
    FirstIsGranted(env, a, b);
    SecondTakesOver(env, a, b);
    assert SumEmbeds([Grant(2, 4, 5)]) == 5;
    assert env.Valid() && Sane([a, b]) && LosesFive(env, [a, b]);
  }

  lemma EvictFirst(env: Env, s: Loop, a: Candidate, b: Candidate)
    requires env.policy.Priority? && s.running == [a, b] && RanksBehind(a, b) && s.granted == [Grant(a.id, 4, 5)]
    ensures VictimIndex(env, s) == 0
    ensures Evict(env, s) == s.(running := [b], preempted := s.preempted + [a], granted := [],
      reqIndex := if 0 < s.reqIndex then s.reqIndex - 1 else s.reqIndex, tokenBudget := s.tokenBudget + 4,
      inputBudget := s.inputBudget + 4 + env.draftSlots, encoderBudget := s.encoderBudget + 5)
  {
    assert !RanksBehind(s.running[1], s.running[0]);
    assert RemoveAt([a, b], 0) == [b];
    assert GrantOf(s.granted, a.id) == [Grant(a.id, 4, 5)];
    assert Revoke(s.granted, a.id) == [];
  }

  lemma RunBooks(env: Env, s: Loop, t: Loop)
    requires s.reqIndex < |s.running| && s.tokenBudget > 0 && s.inputBudget > env.draftSlots
    requires Allocate(env, s) == (true, t)
    requires var c := s.running[s.reqIndex]; !c.skip && NumNew(env, s, c) != 0
    ensures t.reqIndex < |t.running|
    ensures var c := s.running[s.reqIndex];
      Run(env, s) == Run(env, Book(env, t, c, NumNew(env, s, c), s.encoderBudget, env.embeds(c, s.encoderBudget)))
  {
    AllocateKeepsRequest(env, s);
  }

  // ---------------------------------------------------------------- the loop itself

  /** schedule() at work: its queue of running requests and the variables of the loop. */
  class RunningScheduler {
    var running: seq<Candidate>
    var reqIndex: nat
    var tokenBudget: int
    var inputBudget: int
    var encoderBudget: int
    var granted: seq<Grant>
    var preempted: seq<Candidate>
    var attempts: nat
    ghost var lost: int

    ghost function View(): Loop
      reads this
    {
      Loop(running, reqIndex, tokenBudget, inputBudget, encoderBudget, granted, preempted, attempts, lost)
    }

    constructor (running: seq<Candidate>, tokens: nat, inputs: nat, encoder: nat)
      ensures View() == Start(running, tokens, inputs, encoder)
    {
      this.running, reqIndex, tokenBudget, inputBudget, encoderBudget := running, 0, tokens, inputs, encoder;
      granted, preempted, attempts, lost := [], [], 0, 0;
    }

    /** The position of the request with the greatest (priority, arrival), the first of several. */
    method FindLowest() returns (i: nat)
      requires running != []
      ensures i == Lowest(running)
    {
      i := 0;
      var k := 1;
      while k < |running|
        invariant 1 <= k <= |running| && i == Lowest(running[..k])
      {
        assert running[..k + 1][..k] == running[..k];
        if RanksBehind(running[k], running[i]) { i := k; }
        k := k + 1;
      }
      assert running[..k] == running;
    }

    /** Preempts the request at `i`, the victim; what it was granted in this step goes back into the budgets. */
    method PreemptAt(env: Env, i: nat)
      requires i < |running| && i == VictimIndex(env, View())
      modifies this
      ensures View() == Evict(env, old(View()))
    {
      var victim := running[i];
      running := RemoveAt(running, i);
      preempted := preempted + [victim];
      if env.policy.Priority? {
        if i < reqIndex { reqIndex := reqIndex - 1; }
        var g := GrantOf(granted, victim.id);
        if g != [] {
          granted := Revoke(granted, victim.id);
          tokenBudget := tokenBudget + g[0].tokens;
          inputBudget := inputBudget + g[0].tokens + env.draftSlots;
          encoderBudget := encoderBudget + g[0].embeds;
        }
      }
    }

    method AllocateSlots(env: Env) returns (gotBlocks: bool)
      requires reqIndex < |running|
      modifies this
      ensures (gotBlocks, View()) == Allocate(env, old(View()))
    {
      ghost var entry := View();
      while true
        invariant reqIndex < |running| && Allocate(env, View()) == Allocate(env, entry)
        decreases |running|
      {
        ghost var before := View();
        var attempt := attempts;
        attempts := attempts + 1;
        gotBlocks := env.gotBlocks(attempt);
        if gotBlocks || env.freesPending(attempt) { return; }
        var i: nat;
        if env.policy.Priority? { i := FindLowest(); } else { i := |running| - 1; }
        if !running[i].freeable { return; }
        var own := i == reqIndex;
        if !own { EvictKeepsRequest(env, View()); }
        PreemptAt(env, i);
        if own { return; }
      }
    }

    method BookGrant(env: Env, request: Candidate, n: int, encoderBefore: int, embeds: int)
      modifies this
      ensures View() == Book(env, old(View()), request, n, encoderBefore, embeds)
    {
      granted := granted + [Grant(request.id, n, embeds)];
      tokenBudget := tokenBudget - n;
      inputBudget := inputBudget - (n + env.draftSlots);
      reqIndex := reqIndex + 1;
      if embeds > 0 {
        lost := lost + (encoderBudget - encoderBefore);
        encoderBudget := encoderBefore - embeds;
      }
    }

    method CountNew(env: Env, request: Candidate) returns (n: int)
      ensures n == NumNew(env, View(), request)
    {
      n := request.want;
      if 0 < env.threshold < n { n := env.threshold; }
      n := Min(n, Min(tokenBudget, inputBudget - env.draftSlots));
      n := Min(n, request.room);
      n := Max(env.clip(request, n), 0);
    }

    method Schedule(env: Env)
      requires reqIndex <= |running|
      modifies this
      ensures View() == Run(env, old(View()))
    {
      ghost var s0 := View();
      while reqIndex < |running| && tokenBudget > 0
        invariant reqIndex <= |running| && Run(env, View()) == Run(env, s0)
        decreases |running| - reqIndex
      {
        if inputBudget <= env.draftSlots { break; }
        var request := running[reqIndex];
        var n := CountNew(env, request);
        if request.skip || n == 0 {
          reqIndex := reqIndex + 1;
        } else {
          var encoderBefore := encoderBudget;
          AllocateKeepsRequest(env, View());
          var gotBlocks := AllocateSlots(env);
          if !gotBlocks { break; }
          BookGrant(env, request, n, encoderBefore, env.embeds(request, encoderBefore));
        }
      }
    }
  }
}