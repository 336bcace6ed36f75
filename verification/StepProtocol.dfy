/** The protocol of overlapping steps: steps are issued, then processed in the order of issue; in between,
    requests are preempted, resumed and finished. Three ledgers span the steps: which KV blocks may return
    to the pool, how many tokens of a request are in flight, and how many of those are stale. */
module StepProtocol {

  type Id = nat
  type BlockId = nat

  datatype Status = Waiting | Running | Preempted | Finished

  /** The scheduler's counters of one request, and as history how often it was admitted to run. */
  datatype Request = Request(
    status: Status, inFlight: int, stale: int, dropStale: bool, lastSchedSeq: nat, preemptions: nat, admissions: nat)

  /** Blocks whose return waits until step `fence` has been processed. */
  datatype Deferred = Deferred(fence: nat, blocks: seq<BlockId>)

  /** A non-empty step that has been issued: its number, the tokens it runs for each request and, as history,
      the preemption and admission counts of each request and the blocks it held at that time, and the blocks
      that the copies run by the step need. */
  datatype Step = Step(
    seqNo: nat, tokens: map<Id, nat>, epoch: map<Id, nat>, admitted: map<Id, nat>,
    used: map<Id, seq<BlockId>>, copied: seq<BlockId>)

  datatype State = State(
    deferBlockFree: bool,
    requests: map<Id, Request>,
    schedSeq: nat,
    processedSeq: nat,
    deferred: seq<Deferred>,
    // The cache manager: the blocks of each request, and one reference for every holder of a block.
    held: map<Id, seq<BlockId>>,
    refs: multiset<BlockId>,
    // History: the steps in flight, and blocks needed by copies that no non-empty step has taken up yet.
    inFlight: seq<Step>,
    uncopied: seq<BlockId>)
  {
    function Blocks(id: Id): seq<BlockId> {
      if id in held then held[id] else []
    }

    /** A block is in the pool when nobody refers to it. */
    predicate InPool(b: BlockId) { refs[b] == 0 }

    predicate CanFree(id: Id)
      requires id in requests
    {
      !deferBlockFree || requests[id].lastSchedSeq <= processedSeq
    }
  }

  function Init(deferBlockFree: bool): State {
    State(deferBlockFree, map[], 0, 0, [], map[], multiset{}, [], [])
  }

  // ---------------------------------------------------------------- the transitions

  function AddRequest(s: State, id: Id): State {
    s.(requests := s.requests[id := Request(Waiting, 0, 0, false, 0, 0, 0)])
  }

  /** The cache manager gives a request more blocks, fresh from the pool or shared. */
  function Allocate(s: State, id: Id, blocks: seq<BlockId>): State {
    s.(held := s.held[id := s.Blocks(id) + blocks], refs := s.refs + multiset(blocks))
  }

  function Admit(s: State, id: Id): State
    requires id in s.requests
  {
    s.(requests := s.requests[id := s.requests[id].(status := Running, admissions := s.requests[id].admissions + 1)])
  }

  function FreeRequestBlocks(s: State, id: Id): State
    requires id in s.requests
  {
    var blocks := s.Blocks(id);
    var s' := s.(held := s.held - {id});
    if s.CanFree(id) then s'.(refs := s.refs - multiset(blocks))
    else if blocks == [] then s'
    else s'.(deferred := s.deferred + [Deferred(s.schedSeq, blocks)])
  }

  function FreeCopySources(s: State, blocks: seq<BlockId>, fence: nat): State {
    if !s.deferBlockFree || fence <= s.processedSeq then s.(refs := s.refs - multiset(blocks))
    else s.(deferred := s.deferred + [Deferred(fence, blocks)])
  }

  /** All output in flight becomes stale. An undrained share that was dropped stays dropped. */
  function Stale(r: Request, dropStaleOutput: bool): Request {
    r.(status := Preempted,
       dropStale := dropStaleOutput || (r.dropStale && r.stale > 0),
       stale := r.inFlight,
       preemptions := r.preemptions + 1)
  }

  function Preempt(s: State, id: Id, dropStaleOutput: bool): State
    requires id in s.requests
  {
    var s' := FreeRequestBlocks(s, id);
    s'.(requests := s'.requests[id := Stale(s.requests[id], dropStaleOutput)])
  }

  /** The copies of a schedule() call: their sources were retained during the call and are let go here. */
  function TakeCopies(s: State, copies: bool, copied: seq<BlockId>): State {
    if copies then FreeCopySources(s.(refs := s.refs + multiset(copied)), copied, s.schedSeq + 1) else s
  }

  /** The end of a schedule() call that settled on `tokens` and needs `copies` (with the blocks they read). */
  function Issue(s: State, tokens: map<Id, nat>, copies: bool, copied: seq<BlockId>): State {
    var s1 := TakeCopies(s, copies, copied);
    var waiting := s.uncopied + (if copies then copied else []);
    if tokens == map[] then s1.(uncopied := waiting) else Dispatch(s1, StepOf(s, tokens, waiting))
  }

  /** A non-empty step goes to the workers. */
  function Dispatch(s: State, step: Step): State {
    s.(schedSeq := step.seqNo,
       requests := AdvanceAll(s.requests, step.tokens, s.deferBlockFree, step.seqNo),
       inFlight := s.inFlight + [step],
       uncopied := [])
  }

  function StepOf(s: State, tokens: map<Id, nat>, copied: seq<BlockId>): Step {
    Step(if s.deferBlockFree then s.schedSeq + 1 else s.schedSeq, tokens,
         map id | id in tokens && id in s.requests :: s.requests[id].preemptions,
         map id | id in tokens && id in s.requests :: s.requests[id].admissions,
         map id | id in tokens :: s.Blocks(id), copied)
  }

  function Advance(r: Request, n: nat, fenced: bool, seqNo: nat): Request {
    r.(inFlight := r.inFlight + n, lastSchedSeq := if fenced then seqNo else r.lastSchedSeq)
  }

  function AdvanceAll(rs: map<Id, Request>, tokens: map<Id, nat>, fenced: bool, seqNo: nat): map<Id, Request> {
    map id | id in rs :: if id in tokens then Advance(rs[id], tokens[id], fenced, seqNo) else rs[id]
  }

  /** The entries that stay, from the first pending one on. */
  function Pending(q: seq<Deferred>, processed: nat): seq<Deferred> {
    if q == [] || q[0].fence > processed then q else Pending(q[1..], processed)
  }

  /** The references left after the entries before them have been let go. */
  function DrainedRefs(refs: multiset<BlockId>, q: seq<Deferred>, processed: nat): multiset<BlockId> {
    if q == [] || q[0].fence > processed then refs
    else DrainedRefs(refs - multiset(q[0].blocks), q[1..], processed)
  }

  function BlocksOf(q: seq<Deferred>): multiset<BlockId> {
    if q == [] then multiset{} else multiset(q[0].blocks) + BlocksOf(q[1..])
  }

  function Drain(s: State): State {
    s.(deferred := Pending(s.deferred, s.processedSeq), refs := DrainedRefs(s.refs, s.deferred, s.processedSeq))
  }

  function Settle(r: Request, n: nat): Request {
    r.(inFlight := r.inFlight - n, stale := if r.stale > 0 then r.stale - n else r.stale)
  }

  function SettleAll(rs: map<Id, Request>, tokens: map<Id, nat>): map<Id, Request> {
    map id | id in rs :: if id in tokens then Settle(rs[id], tokens[id]) else rs[id]
  }

  /** The oldest step in flight has been processed. */
  function Retire(s: State): State
    requires s.inFlight != []
  {
    var s1 := s.(inFlight := s.inFlight[1..]);
    var s2 := if s.deferBlockFree then Drain(s1.(processedSeq := s.processedSeq + 1)) else s1;
    s2.(requests := SettleAll(s2.requests, s.inFlight[0].tokens))
  }

  /** A request ends; its blocks stay for now when a connector still sends them. */
  function Finish(s: State, id: Id, delayFree: bool): State
    requires id in s.requests
  {
    var s' := s.(requests := s.requests[id := s.requests[id].(status := Finished)]);
    if delayFree then s' else FreeBlocks(s', id)
  }

  function FreeBlocks(s: State, id: Id): State
    requires id in s.requests
  {
    var s' := FreeRequestBlocks(s, id);
    s'.(requests := s'.requests - {id})
  }

  datatype Event =
    | EvAdd(id: Id)
    | EvAllocate(id: Id, blocks: seq<BlockId>)
    | EvAdmit(id: Id)
    | EvPreempt(id: Id, dropStaleOutput: bool)
    | EvIssue(tokens: map<Id, nat>, copies: bool, copied: seq<BlockId>)
    | EvRetire
    | EvFinish(id: Id, delayFree: bool)
    | EvFreeBlocks(id: Id)

  /** What the scheduler checks before it takes the step. */
  ghost predicate Enabled(s: State, e: Event) {
    match e
    case EvAdd(id) => id !in s.requests
    case EvAllocate(id, _) => id in s.requests && s.requests[id].status != Finished
    case EvAdmit(id) =>
      // Deliverable stale output in flight keeps a request waiting.
      && id in s.requests && (s.requests[id].status == Waiting || s.requests[id].status == Preempted)
      && !(s.requests[id].stale > 0 && !s.requests[id].dropStale)
    case EvPreempt(id, _) => id in s.requests && s.requests[id].status == Running
    case EvIssue(tokens, _, _) =>
      forall id :: id in tokens ==> id in s.requests && s.requests[id].status == Running && tokens[id] > 0
    case EvRetire => s.inFlight != []
    case EvFinish(id, _) => id in s.requests && s.requests[id].status != Finished
    case EvFreeBlocks(id) => id in s.requests && s.requests[id].status == Finished
  }

  function Apply(s: State, e: Event): State
    requires Enabled(s, e)
  {
    match e
    case EvAdd(id) => AddRequest(s, id)
    case EvAllocate(id, blocks) => Allocate(s, id, blocks)
    case EvAdmit(id) => Admit(s, id)
    case EvPreempt(id, dropStaleOutput) => Preempt(s, id, dropStaleOutput)
    case EvIssue(tokens, copies, copied) => Issue(s, tokens, copies, copied)
    case EvRetire => Retire(s)
    case EvFinish(id, delayFree) => Finish(s, id, delayFree)
    case EvFreeBlocks(id) => FreeBlocks(s, id)
  }

  /** A run: every state follows from the one before by an enabled event. */
  ghost predicate IsRun(states: seq<State>, events: seq<Event>) {
    && |states| == |events| + 1
    && forall i :: 0 <= i < |events| ==> Follows(states[i], events[i], states[i + 1])
  }

  ghost predicate Follows(s: State, e: Event, t: State) {
    Enabled(s, e) && t == Apply(s, e)
  }

  // ---------------------------------------------------------------- conservation of references

  /** All references held through requests. */
  ghost function HeldRefs(held: map<Id, seq<BlockId>>): multiset<BlockId>
    decreases |held|
  {
    if held == map[] then multiset{}
    else
      var id :| id in held;
      multiset(held[id]) + HeldRefs(held - {id})
  }

  lemma {:induction false} HeldRefsSplit(held: map<Id, seq<BlockId>>, id: Id)
    requires id in held
    ensures HeldRefs(held) == multiset(held[id]) + HeldRefs(held - {id})
    decreases |held|
  {
    var k :| k in held && HeldRefs(held) == multiset(held[k]) + HeldRefs(held - {k});
    if k != id {
      HeldRefsSplit(held - {k}, id);
      HeldRefsSplit(held - {id}, k);
      assert held - {k} - {id} == held - {id} - {k};
    }
  }

  /** One reference per holder: the requests and the entries waiting for their fence. */
  ghost predicate RefsExact(s: State) {
    s.refs == HeldRefs(s.held) + BlocksOf(s.deferred)
  }

  lemma {:induction false} BlocksOfAppend(p: seq<Deferred>, q: seq<Deferred>)
    ensures BlocksOf(p + q) == BlocksOf(p) + BlocksOf(q)
  {
    if p == [] {
      assert p + q == q;
    } else {
      assert (p + q)[1..] == p[1..] + q;
      BlocksOfAppend(p[1..], q);
    }
  }

  lemma {:induction false} BlocksOfContains(q: seq<Deferred>, i: nat, b: BlockId)
    requires i < |q| && b in q[i].blocks
    ensures b in BlocksOf(q)
  {
    if i > 0 { BlocksOfContains(q[1..], i - 1, b); }
  }

  lemma HeldContains(held: map<Id, seq<BlockId>>, id: Id, b: BlockId)
    requires id in held && b in held[id]
    ensures b in HeldRefs(held)
  {
    HeldRefsSplit(held, id);
  }

  lemma HeldUpdate(held: map<Id, seq<BlockId>>, id: Id, blocks: seq<BlockId>)
    ensures HeldRefs(held[id := blocks]) == HeldRefs(held - {id}) + multiset(blocks)
    ensures HeldRefs(held) == HeldRefs(held - {id}) + multiset(if id in held then held[id] else [])
  {
    HeldRefsSplit(held[id := blocks], id);
    assert held[id := blocks] - {id} == held - {id};
    if id in held { HeldRefsSplit(held, id); } else { assert held - {id} == held; }
  }

  lemma Cancel(a: multiset<BlockId>, b: multiset<BlockId>, c: multiset<BlockId>)
    ensures a + b + c - b == a + c
  {
  }

  lemma FreeKeepsRefs(s: State, id: Id)
    requires id in s.requests && RefsExact(s)
    ensures RefsExact(FreeRequestBlocks(s, id))
  {
    var blocks := s.Blocks(id);
    HeldUpdate(s.held, id, []);
    if s.CanFree(id) {
      Cancel(HeldRefs(s.held - {id}), multiset(blocks), BlocksOf(s.deferred));
    } else if blocks != [] {
      BlocksOfAppend(s.deferred, [Deferred(s.schedSeq, blocks)]);
      BlocksOfOne(Deferred(s.schedSeq, blocks));
    }
  }

  lemma BlocksOfOne(d: Deferred)
    ensures BlocksOf([d]) == multiset(d.blocks)
  {
    assert BlocksOf([d][1..]) == multiset{};
  }

  lemma DrainKeepsRefs(s: State)
    requires RefsExact(s)
    ensures RefsExact(Drain(s))
  {
    DrainExact(HeldRefs(s.held), s.deferred, s.processedSeq);
  }

  lemma {:induction false} DrainExact(others: multiset<BlockId>, q: seq<Deferred>, processed: nat)
    ensures DrainedRefs(others + BlocksOf(q), q, processed) == others + BlocksOf(Pending(q, processed))
  {
    if q != [] && q[0].fence <= processed {
      DrainExact(others, q[1..], processed);
      assert others + BlocksOf(q) - multiset(q[0].blocks) == others + BlocksOf(q[1..]);
    }
  }

  lemma CopySourcesKeepRefs(s: State, blocks: seq<BlockId>, fence: nat)
    requires RefsExact(s)
    ensures RefsExact(FreeCopySources(s.(refs := s.refs + multiset(blocks)), blocks, fence))
  {
    BlocksOfAppend(s.deferred, [Deferred(fence, blocks)]);
    BlocksOfOne(Deferred(fence, blocks));
    Cancel(s.refs, multiset(blocks), multiset{});
  }

  lemma AllocateKeepsRefs(s: State, id: Id, blocks: seq<BlockId>)
    requires RefsExact(s)
    ensures RefsExact(Allocate(s, id, blocks))
  {
    HeldUpdate(s.held, id, s.Blocks(id) + blocks);
  }

  ghost predicate SameBlocks(s: State, t: State) {
    s.refs == t.refs && s.held == t.held && s.deferred == t.deferred
  }

  lemma SameKeepsRefs(s: State, t: State)
    requires RefsExact(s) && SameBlocks(s, t)
    ensures RefsExact(t)
  {
  }

  lemma TakeCopiesKeepsRefs(s: State, copies: bool, copied: seq<BlockId>)
    requires RefsExact(s)
    ensures RefsExact(TakeCopies(s, copies, copied))
  {
    if copies { CopySourcesKeepRefs(s, copied, s.schedSeq + 1); }
  }

  lemma IssueOnlyCopies(s: State, tokens: map<Id, nat>, copies: bool, copied: seq<BlockId>)
    ensures SameBlocks(TakeCopies(s, copies, copied), Issue(s, tokens, copies, copied))
  {
  }

  lemma IssueKeepsRefs(s: State, tokens: map<Id, nat>, copies: bool, copied: seq<BlockId>)
    requires RefsExact(s)
    ensures RefsExact(Issue(s, tokens, copies, copied))
  {
    TakeCopiesKeepsRefs(s, copies, copied);
    IssueOnlyCopies(s, tokens, copies, copied);
    SameKeepsRefs(TakeCopies(s, copies, copied), Issue(s, tokens, copies, copied));
  }

  lemma RetireKeepsRefs(s: State)
    requires RefsExact(s) && s.inFlight != []
    ensures RefsExact(Retire(s))
  {
    var s1 := s.(inFlight := s.inFlight[1..]);
    if s.deferBlockFree {
      var s2 := s1.(processedSeq := s.processedSeq + 1);
      SameKeepsRefs(s, s2);
      DrainKeepsRefs(s2);
      SameKeepsRefs(Drain(s2), Retire(s));
    } else {
      SameKeepsRefs(s, Retire(s));
    }
  }

  lemma FinishKeepsRefs(s: State, id: Id, delayFree: bool)
    requires RefsExact(s) && id in s.requests
    ensures RefsExact(Finish(s, id, delayFree))
  {
    var s' := s.(requests := s.requests[id := s.requests[id].(status := Finished)]);
    SameKeepsRefs(s, s');
    if !delayFree { FreeBlocksKeepsRefs(s', id); }
  }

  lemma FreeBlocksKeepsRefs(s: State, id: Id)
    requires RefsExact(s) && id in s.requests
    ensures RefsExact(FreeBlocks(s, id))
  {
    FreeKeepsRefs(s, id);
    SameKeepsRefs(FreeRequestBlocks(s, id), FreeBlocks(s, id));
  }

  /** References are conserved by every event: a block returns to the pool once for each time it was taken,
      and entries waiting for their fence are neither lost nor released twice. */
  lemma KeepsRefs(s: State, e: Event)
    requires Enabled(s, e) && RefsExact(s)
    ensures RefsExact(Apply(s, e))
  {
    match e
    case EvAllocate(id, blocks) => AllocateKeepsRefs(s, id, blocks);
    case EvPreempt(id, dropStaleOutput) =>
      FreeKeepsRefs(s, id);
      SameKeepsRefs(FreeRequestBlocks(s, id), Preempt(s, id, dropStaleOutput));
    case EvIssue(tokens, copies, copied) => IssueKeepsRefs(s, tokens, copies, copied);
    case EvRetire => RetireKeepsRefs(s);
    case EvFinish(id, delayFree) => FinishKeepsRefs(s, id, delayFree);
    case EvFreeBlocks(id) => FreeBlocksKeepsRefs(s, id);
    case EvAdd(id) => SameKeepsRefs(s, AddRequest(s, id));
    case EvAdmit(id) => SameKeepsRefs(s, Admit(s, id));
  }

  // ---------------------------------------------------------------- the fence

  /** Some entry that waits at least for step `n` holds the block. */
  ghost predicate Guarded(q: seq<Deferred>, n: nat, b: BlockId) {
    exists i :: 0 <= i < |q| && q[i].fence >= n && b in q[i].blocks
  }

  /** The request still holds the block and cannot let it go before step `n` is processed. */
  ghost predicate Kept(s: State, n: nat, id: Id, b: BlockId) {
    id in s.requests && id in s.held && b in s.held[id] && s.requests[id].lastSchedSeq >= n
  }

  /** Steps in flight are numbered consecutively after the processed ones. */
  ghost predicate Numbered(s: State) {
    && s.schedSeq == s.processedSeq + |s.inFlight|
    && (forall k :: 0 <= k < |s.inFlight| ==> s.inFlight[k].seqNo == s.processedSeq + 1 + k)
    && (forall id :: id in s.requests ==> s.requests[id].lastSchedSeq <= s.schedSeq)
    && s.held.Keys <= s.requests.Keys
  }

  /** Fences are at most one out of order, and the first one is still pending. */
  ghost predicate Ordered(q: seq<Deferred>, schedSeq: nat, processedSeq: nat) {
    && (forall i, j :: 0 <= i < j < |q| ==> q[j].fence + 1 >= q[i].fence)
    && (forall i :: 0 <= i < |q| ==> q[i].fence <= schedSeq + 1)
    && (q != [] ==> q[0].fence > processedSeq)
  }

  lemma OrderedAppend(q: seq<Deferred>, d: Deferred, schedSeq: nat, processedSeq: nat)
    requires Ordered(q, schedSeq, processedSeq) && d.fence > processedSeq && schedSeq <= d.fence <= schedSeq + 1
    ensures Ordered(q + [d], schedSeq, processedSeq)
  {
  }

  lemma {:induction false} OrderedDrain(q: seq<Deferred>, schedSeq: nat, processedSeq: nat)
    requires forall i, j :: 0 <= i < j < |q| ==> q[j].fence + 1 >= q[i].fence
    requires forall i :: 0 <= i < |q| ==> q[i].fence <= schedSeq + 1
    ensures Ordered(Pending(q, processedSeq), schedSeq, processedSeq)
  {
    if q != [] && q[0].fence <= processedSeq { OrderedDrain(q[1..], schedSeq, processedSeq); }
  }

  /** Whatever a step in flight uses is still held by its request or waits for that step. */
  ghost predicate UsesProtected(s: State) {
    forall k, id, b :: 0 <= k < |s.inFlight| && id in s.inFlight[k].used && b in s.inFlight[k].used[id] ==>
      Guarded(s.deferred, s.inFlight[k].seqNo, b) || Kept(s, s.inFlight[k].seqNo, id, b)
  }

  ghost predicate CopiesProtected(s: State) {
    && (forall k, b :: 0 <= k < |s.inFlight| && b in s.inFlight[k].copied ==>
        Guarded(s.deferred, s.inFlight[k].seqNo, b))
    && (forall b :: b in s.uncopied ==> Guarded(s.deferred, s.schedSeq + 1, b))
  }

  ghost predicate FenceInv(s: State) {
    s.deferBlockFree ==>
        Numbered(s) && Ordered(s.deferred, s.schedSeq, s.processedSeq) && UsesProtected(s) && CopiesProtected(s)
  }

  lemma GuardAppend(q: seq<Deferred>, d: Deferred, n: nat, b: BlockId)
    requires Guarded(q, n, b) || (d.fence >= n && b in d.blocks)
    ensures Guarded(q + [d], n, b)
  {
    if Guarded(q, n, b) {
      var i :| 0 <= i < |q| && q[i].fence >= n && b in q[i].blocks;
      assert (q + [d])[i] == q[i];
    } else {
      assert (q + [d])[|q|] == d;
    }
  }

  /** Draining up to `processed` keeps every entry that waits for a later step. */
  lemma {:induction false} GuardDrain(q: seq<Deferred>, processed: nat, n: nat, b: BlockId)
    requires n > processed && Guarded(q, n, b)
    ensures Guarded(Pending(q, processed), n, b)
  {
    if q != [] && q[0].fence <= processed {
      var i :| 0 <= i < |q| && q[i].fence >= n && b in q[i].blocks;
      assert q[1..][i - 1] == q[i];
      GuardDrain(q[1..], processed, n, b);
    }
  }

  /** Guards survive the freeing of a request, and what it held is guarded if steps in flight may use it. */
  lemma FreeGuards(s: State, id: Id, n: nat, b: BlockId)
    requires id in s.requests && s.deferBlockFree
    requires Guarded(s.deferred, n, b) || (!s.CanFree(id) && n <= s.schedSeq && b in s.Blocks(id))
    ensures Guarded(FreeRequestBlocks(s, id).deferred, n, b)
  {
    if FreeRequestBlocks(s, id).deferred != s.deferred {
      GuardAppend(s.deferred, Deferred(s.schedSeq, s.Blocks(id)), n, b);
    }
  }

  lemma FreeKeepsNumbers(s: State, id: Id)
    requires id in s.requests && s.deferBlockFree && FenceInv(s)
    ensures var t := FreeRequestBlocks(s, id);
      Numbered(t) && Ordered(t.deferred, t.schedSeq, t.processedSeq)
  {
    if !s.CanFree(id) { OrderedAppend(s.deferred, Deferred(s.schedSeq, s.Blocks(id)), s.schedSeq, s.processedSeq); }
  }

  /** The blocks of a request that steps in flight use go to the deferred queue behind their fence. */
  lemma FreeKeepsFence(s: State, id: Id)
    requires id in s.requests && s.deferBlockFree && FenceInv(s)
    ensures FenceInv(FreeRequestBlocks(s, id))
    ensures var t := FreeRequestBlocks(s, id);
      forall k, b :: 0 <= k < |t.inFlight| && id in t.inFlight[k].used && b in t.inFlight[k].used[id] ==>
        Guarded(t.deferred, t.inFlight[k].seqNo, b)
  {
    var t := FreeRequestBlocks(s, id);
    FreeKeepsNumbers(s, id);
    forall n: nat, b | Guarded(s.deferred, n, b) ensures Guarded(t.deferred, n, b) { FreeGuards(s, id, n, b); }
    forall k, i, b | 0 <= k < |t.inFlight| && i in t.inFlight[k].used && b in t.inFlight[k].used[i]
      ensures Guarded(t.deferred, t.inFlight[k].seqNo, b) || (i != id && Kept(t, t.inFlight[k].seqNo, i, b))
    {
      if !Guarded(s.deferred, s.inFlight[k].seqNo, b) && i == id { FreeGuards(s, id, s.inFlight[k].seqNo, b); }
    }
  }

  /** Same steps and same queue; every request still there keeps its blocks and its last step. */
  ghost predicate OnlyGrows(s: State, t: State) {
    && t.deferBlockFree == s.deferBlockFree && t.schedSeq == s.schedSeq && t.processedSeq == s.processedSeq
    && t.deferred == s.deferred && t.inFlight == s.inFlight && t.uncopied == s.uncopied
    && t.held.Keys <= t.requests.Keys
    && (forall id :: id in t.requests ==> t.requests[id].lastSchedSeq <= s.schedSeq)
    && (forall id, n: nat, b :: Kept(s, n, id, b) ==> Kept(t, n, id, b))
  }

  lemma GrowingKeepsFence(s: State, t: State)
    requires FenceInv(s) && OnlyGrows(s, t)
    ensures FenceInv(t)
  {
  }

  lemma FreeBlocksKeepsFence(s: State, id: Id)
    requires id in s.requests && FenceInv(s)
    ensures FenceInv(FreeBlocks(s, id))
  {
    if s.deferBlockFree {
      FreeKeepsFence(s, id);
      var t, u := FreeRequestBlocks(s, id), FreeBlocks(s, id);
      assert u.requests.Keys == t.requests.Keys - {id};
      forall k, i, b | 0 <= k < |u.inFlight| && i in u.inFlight[k].used && b in u.inFlight[k].used[i]
        ensures Guarded(u.deferred, u.inFlight[k].seqNo, b) || Kept(u, u.inFlight[k].seqNo, i, b)
      {
        assert i != id && Kept(t, t.inFlight[k].seqNo, i, b) ==> Kept(u, u.inFlight[k].seqNo, i, b);
      }
    }
  }

  lemma TakeCopiesKeepsFence(s: State, copies: bool, copied: seq<BlockId>)
    requires FenceInv(s) && s.deferBlockFree
    ensures FenceInv(TakeCopies(s, copies, copied))
    ensures copies ==> forall b :: b in copied ==> Guarded(TakeCopies(s, copies, copied).deferred, s.schedSeq + 1, b)
  {
    if copies {
      var d := Deferred(s.schedSeq + 1, copied);
      OrderedAppend(s.deferred, d, s.schedSeq, s.processedSeq);
      forall n: nat, b | Guarded(s.deferred, n, b) || (n <= s.schedSeq + 1 && b in copied)
        ensures Guarded(s.deferred + [d], n, b)
      {
        GuardAppend(s.deferred, d, n, b);
      }
    }
  }

  /** Taking up a new step: it uses what its requests hold, and the copies guarded for it. */
  lemma DispatchKeepsFence(s: State, step: Step)
    requires FenceInv(s) && s.deferBlockFree && step.seqNo == s.schedSeq + 1
    requires forall id, b :: id in step.used && b in step.used[id] ==>
        id in step.tokens && id in s.requests && id in s.held && b in s.held[id]
    requires forall b :: b in step.copied ==> Guarded(s.deferred, step.seqNo, b)
    ensures FenceInv(Dispatch(s, step))
  {
    var t := Dispatch(s, step);
    assert Numbered(t) && Ordered(t.deferred, t.schedSeq, t.processedSeq);
    forall n: nat, id, b | Kept(s, n, id, b) ensures Kept(t, n, id, b) {
    }
    forall id, b | id in step.used && b in step.used[id] ensures Kept(t, step.seqNo, id, b) {
    }
  }

  lemma IssueKeepsFence(s: State, tokens: map<Id, nat>, copies: bool, copied: seq<BlockId>)
    requires FenceInv(s) && s.deferBlockFree
    requires forall id :: id in tokens ==> id in s.requests
    ensures FenceInv(Issue(s, tokens, copies, copied))
  {
    TakeCopiesKeepsFence(s, copies, copied);
    var s1 := TakeCopies(s, copies, copied);
    var waiting := s.uncopied + (if copies then copied else []);
    forall b | b in waiting ensures Guarded(s1.deferred, s.schedSeq + 1, b) {
      if b in s.uncopied && copies { GuardAppend(s.deferred, Deferred(s.schedSeq + 1, copied), s.schedSeq + 1, b); }
    }
    if tokens != map[] {
      DispatchKeepsFence(s1, StepOf(s, tokens, waiting));
    } else {
      NothingNewKeepsFence(s1, waiting);
    }
  }

  lemma NothingNewKeepsFence(s: State, waiting: seq<BlockId>)
    requires FenceInv(s) && s.deferBlockFree && forall b :: b in waiting ==> Guarded(s.deferred, s.schedSeq + 1, b)
    ensures FenceInv(s.(uncopied := waiting))
  {
    var t := s.(uncopied := waiting);
    forall n: nat, id, b | Kept(s, n, id, b) ensures Kept(t, n, id, b) {
    }
  }

  /** What processing a step does to the fence's part of the state. */
  ghost predicate Retired(s: State, t: State) {
    && s.deferBlockFree && t.deferBlockFree && s.inFlight != [] && t.inFlight == s.inFlight[1..]
    && t.processedSeq == s.processedSeq + 1 && t.schedSeq == s.schedSeq
    && t.deferred == Pending(s.deferred, t.processedSeq) && t.uncopied == s.uncopied && t.held == s.held
    && t.requests.Keys == s.requests.Keys
    && forall id :: id in s.requests ==> t.requests[id].lastSchedSeq == s.requests[id].lastSchedSeq
  }

  lemma RetiredKeepsFence(s: State, t: State)
    requires FenceInv(s) && Retired(s, t)
    ensures FenceInv(t)
  {
    OrderedDrain(s.deferred, s.schedSeq, t.processedSeq);
    assert Numbered(t);
    forall n: nat, b | n > t.processedSeq && Guarded(s.deferred, n, b) ensures Guarded(t.deferred, n, b) {
      GuardDrain(s.deferred, t.processedSeq, n, b);
    }
    assert forall k :: 0 <= k < |t.inFlight| ==>
        t.inFlight[k] == s.inFlight[k + 1] && s.inFlight[k + 1].seqNo > t.processedSeq;
  }

  lemma PreemptKeepsFence(s: State, id: Id, dropStaleOutput: bool)
    requires FenceInv(s) && s.deferBlockFree && id in s.requests
    ensures FenceInv(Preempt(s, id, dropStaleOutput))
  {
    FreeKeepsFence(s, id);
    GrowingKeepsFence(FreeRequestBlocks(s, id), Preempt(s, id, dropStaleOutput));
  }

  lemma FinishKeepsFence(s: State, id: Id, delayFree: bool)
    requires FenceInv(s) && id in s.requests
    ensures FenceInv(Finish(s, id, delayFree))
  {
    var s' := Finish(s, id, true);
    if s.deferBlockFree { GrowingKeepsFence(s, s'); }
    if !delayFree { FreeBlocksKeepsFence(s', id); }
  }

  lemma GrowthKeepsFence(s: State, e: Event)
    requires FenceInv(s) && s.deferBlockFree && Enabled(s, e) && (e.EvAllocate? || e.EvAdd? || e.EvAdmit?)
    ensures FenceInv(Apply(s, e))
  {
    GrowingKeepsFence(s, Apply(s, e));
  }

  lemma KeepsFence(s: State, e: Event)
    requires Enabled(s, e) && FenceInv(s)
    ensures FenceInv(Apply(s, e))
  {
    if s.deferBlockFree {
      match e
      case EvPreempt(id, dropStaleOutput) => PreemptKeepsFence(s, id, dropStaleOutput);
      case EvIssue(tokens, copies, copied) => IssueKeepsFence(s, tokens, copies, copied);
      case EvRetire => RetiredKeepsFence(s, Retire(s));
      case EvFinish(id, delayFree) => FinishKeepsFence(s, id, delayFree);
      case EvFreeBlocks(id) => FreeBlocksKeepsFence(s, id);
      case _ => GrowthKeepsFence(s, e);
    }
  }

  /** Fence safety: a block a step in flight uses, or a copy run by it reads, is not in the pool. */
  lemma NoBlockInUseIsPooled(s: State, k: nat, id: Id, b: BlockId)
    requires FenceInv(s) && RefsExact(s) && s.deferBlockFree && k < |s.inFlight|
    requires (id in s.inFlight[k].used && b in s.inFlight[k].used[id]) || b in s.inFlight[k].copied
    ensures !s.InPool(b)
  {
    var n := s.inFlight[k].seqNo;
    if Guarded(s.deferred, n, b) {
      var i :| 0 <= i < |s.deferred| && s.deferred[i].fence >= n && b in s.deferred[i].blocks;
      BlocksOfContains(s.deferred, i, b);
    } else {
      assert Kept(s, n, id, b);
      HeldContains(s.held, id, b);
    }
  }

  // ---------------------------------------------------------------- tokens in flight and stale tokens

  /** The tokens of a request in the given steps. */
  ghost function TokensIn(steps: seq<Step>, id: Id): nat {
    if steps == [] then 0
    else (if id in steps[0].tokens then steps[0].tokens[id] else 0) + TokensIn(steps[1..], id)
  }

  /** Those of them issued before the request was preempted for the `p`-th time. */
  ghost function StaleIn(steps: seq<Step>, id: Id, p: nat): nat {
    if steps == [] then 0
    else (if IssuedBefore(steps[0], id, p) then steps[0].tokens[id] else 0) + StaleIn(steps[1..], id, p)
  }

  ghost predicate IssuedBefore(step: Step, id: Id, p: nat) {
    id in step.tokens && id in step.epoch && step.epoch[id] < p
  }

  /** A request's part in the steps: positive counts, and preemption counts that never fall. */
  ghost predicate EpochsOrdered(steps: seq<Step>, id: Id, p: nat) {
    && (forall k :: 0 <= k < |steps| && id in steps[k].tokens ==>
          steps[k].tokens[id] > 0 && id in steps[k].epoch && steps[k].epoch[id] <= p)
    && (forall k, l ::
          (0 <= k < l < |steps| && id in steps[k].tokens && id in steps[l].tokens
           && id in steps[k].epoch && id in steps[l].epoch) ==>
          steps[k].epoch[id] <= steps[l].epoch[id])
  }

  ghost predicate LedgerOf(r: Request, steps: seq<Step>, id: Id) {
    && EpochsOrdered(steps, id, r.preemptions)
    && r.inFlight == TokensIn(steps, id)
    && r.stale == StaleIn(steps, id, r.preemptions)
    // With deliverable stale output pending, all output in flight is stale and the request is not running,
    // so no position it resumes at can overlap what is still delivered.
    && (r.stale > 0 && !r.dropStale ==> r.stale == r.inFlight && r.status != Running)
    && (forall k :: 0 <= k < |steps| && id in steps[k].tokens ==> id in steps[k].admitted)
    // Output that is not stale, or is stale but deliverable, was issued since the request last started to run.
    && (forall k :: 0 <= k < |steps| && id in steps[k].tokens && steps[k].epoch[id] == r.preemptions ==>
          (r.status == Running || r.status == Finished) && steps[k].admitted[id] == r.admissions)
    && (r.stale > 0 && !r.dropStale ==>
          forall k :: 0 <= k < |steps| && id in steps[k].tokens ==> steps[k].admitted[id] == r.admissions)
  }

  ghost predicate Ledger(requests: map<Id, Request>, steps: seq<Step>) {
    (forall id :: id in requests ==> LedgerOf(requests[id], steps, id)) && AllPositive(steps)
  }

  ghost predicate AllPositive(steps: seq<Step>) {
    forall k, id :: 0 <= k < |steps| && id in steps[k].tokens ==> steps[k].tokens[id] > 0
  }

  ghost predicate LedgerInv(s: State) {
    Ledger(s.requests, s.inFlight)
  }

  /** A new request does not bear the id of one whose output is still in flight. */
  ghost predicate FreshId(s: State, e: Event) {
    e.EvAdd? ==> forall k :: 0 <= k < |s.inFlight| ==> e.id !in s.inFlight[k].tokens
  }

  lemma {:induction false} SumsAppend(steps: seq<Step>, step: Step, id: Id, p: nat)
    ensures TokensIn(steps + [step], id) == TokensIn(steps, id) + (if id in step.tokens then step.tokens[id] else 0)
    ensures StaleIn(steps + [step], id, p) == StaleIn(steps, id, p)
        + (if IssuedBefore(step, id, p) then step.tokens[id] else 0)
  {
    if steps == [] {
      assert [step][1..] == [] && steps + [step] == [step];
    } else {
      assert (steps + [step])[1..] == steps[1..] + [step];
      SumsAppend(steps[1..], step, id, p);
    }
  }

  /** After a preemption everything in flight is stale. */
  lemma {:induction false} AllStale(steps: seq<Step>, id: Id, p: nat)
    requires forall k :: 0 <= k < |steps| && id in steps[k].tokens ==> IssuedBefore(steps[k], id, p)
    ensures StaleIn(steps, id, p) == TokensIn(steps, id)
  {
    if steps != [] { AllStale(steps[1..], id, p); }
  }

  lemma {:induction false} NoneStale(steps: seq<Step>, id: Id, p: nat)
    requires forall k :: 0 <= k < |steps| ==> !IssuedBefore(steps[k], id, p)
    ensures StaleIn(steps, id, p) == 0
  {
    if steps != [] { NoneStale(steps[1..], id, p); }
  }

  lemma {:induction false} ZeroStale(steps: seq<Step>, id: Id, p: nat)
    requires forall k :: 0 <= k < |steps| && id in steps[k].tokens ==> steps[k].tokens[id] > 0
    requires StaleIn(steps, id, p) == 0
    ensures forall k :: 0 <= k < |steps| ==> !IssuedBefore(steps[k], id, p)
  {
    if steps != [] {
      assert forall k :: 0 < k < |steps| ==> steps[k] == steps[1..][k - 1];
      ZeroStale(steps[1..], id, p);
    }
  }

  lemma {:induction false} NoTokens(steps: seq<Step>, id: Id)
    requires forall k :: 0 <= k < |steps| && id in steps[k].tokens ==> steps[k].tokens[id] > 0
    ensures TokensIn(steps, id) == 0 <==> forall k :: 0 <= k < |steps| ==> id !in steps[k].tokens
  {
    if steps != [] {
      NoTokens(steps[1..], id);
      assert forall k :: 0 <= k < |steps| - 1 ==> steps[1..][k] == steps[k + 1];
      assert forall k :: 0 < k < |steps| ==> steps[k] == steps[1..][k - 1];
    }
  }

  /** When a step is processed, its output for a request is found stale exactly when the request has been
      preempted since the step was issued, and neither counter falls below zero. */
  lemma StaleExactly(s: State, id: Id)
    requires LedgerInv(s) && s.inFlight != [] && id in s.requests && id in s.inFlight[0].tokens
    ensures
      var r, step := s.requests[id], s.inFlight[0];
      && id in step.epoch
      && (r.stale > 0 <==> step.epoch[id] < r.preemptions)
      && Settle(r, step.tokens[id]).stale >= 0 && Settle(r, step.tokens[id]).inFlight >= 0
  {
    var r, steps := s.requests[id], s.inFlight;
    if !IssuedBefore(steps[0], id, r.preemptions) {
      assert forall k :: 0 <= k < |steps| - 1 ==> steps[1..][k] == steps[k + 1];
      NoneStale(steps[1..], id, r.preemptions);
    }
  }

  /** The output of the oldest step that is not dropped belongs to the current stretch of the request: it has not
      been resumed since the step was issued, so none of the positions delivered was computed a second time. */
  lemma DeliveredNotResumed(s: State, id: Id)
    requires LedgerInv(s) && s.inFlight != [] && id in s.requests && id in s.inFlight[0].tokens
    requires var r := s.requests[id]; !(r.stale > 0 && r.dropStale)
    ensures id in s.inFlight[0].admitted && s.inFlight[0].admitted[id] == s.requests[id].admissions
  {
    StaleExactly(s, id);
  }

  lemma RetireKeepsLedger(s: State)
    requires LedgerInv(s) && s.inFlight != []
    ensures LedgerInv(Retire(s))
  {
    var t := Retire(s);
    assert forall k :: 0 <= k < |t.inFlight| ==> t.inFlight[k] == s.inFlight[k + 1];
    forall id | id in t.requests ensures LedgerOf(t.requests[id], t.inFlight, id) {
      if id in s.inFlight[0].tokens { StaleExactly(s, id); }
      SettleKeepsLedger(s.requests[id], s.inFlight, id);
    }
  }

  lemma SettleKeepsLedger(r: Request, steps: seq<Step>, id: Id)
    requires steps != [] && LedgerOf(r, steps, id)
    requires id in steps[0].tokens ==> (r.stale > 0 <==> IssuedBefore(steps[0], id, r.preemptions))
    ensures LedgerOf(if id in steps[0].tokens then Settle(r, steps[0].tokens[id]) else r, steps[1..], id)
  {
    assert forall k :: 0 <= k < |steps| - 1 ==> steps[1..][k] == steps[k + 1];
  }

  lemma StaleKeepsLedger(r: Request, steps: seq<Step>, id: Id, dropStaleOutput: bool)
    requires LedgerOf(r, steps, id) && r.status == Running
    ensures LedgerOf(Stale(r, dropStaleOutput), steps, id)
  {
    AllStale(steps, id, r.preemptions + 1);
    if r.stale == 0 { ZeroStale(steps, id, r.preemptions); }
  }

  ghost predicate Updated(s: State, t: State, id: Id, r: Request) {
    t.inFlight == s.inFlight && t.requests == s.requests[id := r]
  }

  lemma UpdateKeepsLedger(s: State, t: State, id: Id, r: Request)
    requires LedgerInv(s) && Updated(s, t, id, r) && LedgerOf(r, s.inFlight, id)
    ensures LedgerInv(t)
  {
  }

  /** What the step records of a request in it is the request's present state. */
  ghost predicate Records(step: Step, id: Id, r: Request) {
    id in step.tokens ==>
      && step.tokens[id] > 0 && r.status == Running
      && id in step.epoch && step.epoch[id] == r.preemptions
      && id in step.admitted && step.admitted[id] == r.admissions
  }

  lemma AdvanceKeepsLedger(r: Request, steps: seq<Step>, step: Step, id: Id, fenced: bool, seqNo: nat)
    requires LedgerOf(r, steps, id) && Records(step, id, r)
    ensures LedgerOf(if id in step.tokens then Advance(r, step.tokens[id], fenced, seqNo) else r, steps + [step], id)
  {
    SumsAppend(steps, step, id, r.preemptions);
  }

  lemma DispatchKeepsLedger(s: State, step: Step)
    requires LedgerInv(s)
    requires forall id :: id in step.tokens ==> id in s.requests && step.tokens[id] > 0
    requires forall id :: id in s.requests ==> Records(step, id, s.requests[id])
    ensures LedgerInv(Dispatch(s, step))
  {
    var t := Dispatch(s, step);
    forall id | id in s.requests ensures LedgerOf(t.requests[id], t.inFlight, id) {
      assert LedgerOf(s.requests[id], s.inFlight, id) && Records(step, id, s.requests[id]);
      AdvanceKeepsLedger(s.requests[id], s.inFlight, step, id, s.deferBlockFree, step.seqNo);
    }
    PositiveAppend(s.inFlight, step);
  }

  lemma PositiveAppend(steps: seq<Step>, step: Step)
    requires AllPositive(steps) && forall id :: id in step.tokens ==> step.tokens[id] > 0
    ensures AllPositive(steps + [step])
  {
  }

  lemma StepRecords(s: State, tokens: map<Id, nat>, copied: seq<BlockId>)
    requires forall id :: id in tokens ==> id in s.requests && s.requests[id].status == Running && tokens[id] > 0
    ensures forall id :: id in s.requests ==> Records(StepOf(s, tokens, copied), id, s.requests[id])
  {
  }

  lemma IssueKeepsLedger(s: State, tokens: map<Id, nat>, copies: bool, copied: seq<BlockId>)
    requires LedgerInv(s) && Enabled(s, EvIssue(tokens, copies, copied))
    ensures LedgerInv(Issue(s, tokens, copies, copied))
  {
    var s1 := TakeCopies(s, copies, copied);
    assert s1.requests == s.requests && s1.inFlight == s.inFlight;
    if tokens != map[] {
      var waiting := s.uncopied + (if copies then copied else []);
      StepRecords(s, tokens, waiting);
      DispatchKeepsLedger(s1, StepOf(s, tokens, waiting));
    }
  }

  lemma AdmitKeepsLedger(s: State, id: Id)
    requires LedgerInv(s) && Enabled(s, EvAdmit(id))
    ensures LedgerInv(Admit(s, id))
  {
    UpdateKeepsLedger(s, Admit(s, id), id, Admit(s, id).requests[id]);
  }

  lemma PreemptKeepsLedger(s: State, id: Id, dropStaleOutput: bool)
    requires LedgerInv(s) && Enabled(s, EvPreempt(id, dropStaleOutput))
    ensures LedgerInv(Preempt(s, id, dropStaleOutput))
  {
    StaleKeepsLedger(s.requests[id], s.inFlight, id, dropStaleOutput);
    UpdateKeepsLedger(s, Preempt(s, id, dropStaleOutput), id, Stale(s.requests[id], dropStaleOutput));
  }

  lemma RemoveKeepsLedger(s: State, id: Id)
    requires LedgerInv(s) && id in s.requests
    ensures LedgerInv(FreeBlocks(s, id))
  {
    var t := FreeBlocks(s, id);
    assert t.inFlight == s.inFlight && t.requests == s.requests - {id};
  }

  lemma FinishKeepsLedger(s: State, id: Id, delayFree: bool)
    requires LedgerInv(s) && id in s.requests
    ensures LedgerInv(Finish(s, id, delayFree))
  {
    var s' := Finish(s, id, true);
    UpdateKeepsLedger(s, s', id, s'.requests[id]);
    if !delayFree { RemoveKeepsLedger(s', id); }
  }

  lemma KeepsLedger(s: State, e: Event)
    requires Enabled(s, e) && FreshId(s, e) && LedgerInv(s)
    ensures LedgerInv(Apply(s, e))
  {
    match e
    case EvAdd(id) => AddKeepsLedgerIff(s, id);
    case EvAllocate(id, _) =>
    case EvAdmit(id) => AdmitKeepsLedger(s, id);
    case EvPreempt(id, dropStaleOutput) => PreemptKeepsLedger(s, id, dropStaleOutput);
    case EvIssue(tokens, copies, copied) => IssueKeepsLedger(s, tokens, copies, copied);
    case EvRetire => RetireKeepsLedger(s);
    case EvFinish(id, delayFree) => FinishKeepsLedger(s, id, delayFree);
    case EvFreeBlocks(id) => RemoveKeepsLedger(s, id);
  }

  /** Adding a request keeps the ledgers exact if and only if no step in flight still names its id. */
  lemma AddKeepsLedgerIff(s: State, id: Id)
    requires LedgerInv(s) && id !in s.requests
    ensures LedgerInv(AddRequest(s, id)) <==> forall k :: 0 <= k < |s.inFlight| ==> id !in s.inFlight[k].tokens
  {
    NoTokens(s.inFlight, id);
    if forall k :: 0 <= k < |s.inFlight| ==> id !in s.inFlight[k].tokens {
      NoneStale(s.inFlight, id, 0);
    }
    assert AddRequest(s, id).requests[id].inFlight == 0;
  }

  function ReuseEvent(k: nat): Event {
    match k
    case 0 => EvAdd(1)
    case 1 => EvAdmit(1)
    case 2 => EvIssue(map[1 := 5], false, [])
    case 3 => EvFinish(1, false)
    case 4 => EvAdd(1)
    case _ => EvRetire
  }

  function ReuseState(k: nat): State {
    var s := Init(false);
    var r := Request(Waiting, 0, 0, false, 0, 0, 0);
    var step := Step(0, map[1 := 5], map[1 := 0], map[1 := 1], map[1 := []], []);
    match k
    case 0 => s
    case 1 => s.(requests := map[1 := r])
    case 2 => s.(requests := map[1 := r.(status := Running, admissions := 1)])
    case 3 => s.(requests := map[1 := r.(status := Running, admissions := 1, inFlight := 5)], inFlight := [step])
    case 4 => s.(inFlight := [step])
    case 5 => s.(requests := map[1 := r], inFlight := [step])
    case _ => s.(requests := map[1 := r.(inFlight := -5)])
  }

  lemma ReuseIssues()
    ensures Follows(ReuseState(2), ReuseEvent(2), ReuseState(3))
  {
    var s := ReuseState(2);
    var step := StepOf(s, map[1 := 5], []);
    assert step.epoch == map[1 := 0] && step.admitted == map[1 := 1] && step.used == map[1 := []]
        && s.uncopied + [] == [];
    assert Dispatch(s, step) == ReuseState(3) by {
      assert s.inFlight + [step] == ReuseState(3).inFlight;
      assert AdvanceAll(s.requests, map[1 := 5], false, 0) == ReuseState(3).requests;
    }
    var tokens: map<Id, nat> := map[1 := 5];
    assert 1 in tokens;
    assert Issue(s, tokens, false, []) == Dispatch(s, step);
  }

  lemma ReuseFinishes()
    ensures Follows(ReuseState(3), ReuseEvent(3), ReuseState(4))
  {
    var s := ReuseState(3);
    assert s.held - {1} == s.held && s.refs - multiset(s.Blocks(1)) == s.refs;
    assert Finish(s, 1, true).requests - {1} == map[];
  }

  lemma ReuseFollows(k: nat)
    requires k < 6
    ensures Follows(ReuseState(k), ReuseEvent(k), ReuseState(k + 1))
  {
    if k == 2 {
      ReuseIssues();
    } else if k == 3 {
      ReuseFinishes();
    } else if k == 5 {
      assert ReuseState(5).inFlight[1..] == [];
    }
  }

  /** The source does not check that: a request that is aborted while a step runs for it, and whose id is
      used again before the step is processed, ends with a negative count of tokens in flight. */
  lemma ReusedIdGoesNegative() returns (states: seq<State>, events: seq<Event>)
    ensures IsRun(states, events) && |events| == 6 && states[0] == Init(false)
    ensures 1 in states[6].requests && states[6].requests[1].inFlight == -5
  {
    events := seq(6, k requires 0 <= k => ReuseEvent(k));
    states := seq(7, k requires 0 <= k => ReuseState(k));
    forall i | 0 <= i < 6 ensures Follows(states[i], events[i], states[i + 1]) {
      ReuseFollows(i);
    }
    assert states[0] == Init(false) && states[6] == ReuseState(6);
  }

  // ---------------------------------------------------------------- whole runs

  lemma RunKeepsBlocks(states: seq<State>, events: seq<Event>)
    requires IsRun(states, events) && RefsExact(states[0]) && FenceInv(states[0])
    ensures forall i :: 0 <= i < |states| ==> RefsExact(states[i]) && FenceInv(states[i])
  {
    for n := 0 to |events|
      invariant forall i :: 0 <= i <= n ==> RefsExact(states[i]) && FenceInv(states[i])
    {
      assert Follows(states[n], events[n], states[n + 1]);
      KeepsRefs(states[n], events[n]);
      KeepsFence(states[n], events[n]);
    }
  }

  lemma InitOk(deferBlockFree: bool)
    ensures RefsExact(Init(deferBlockFree)) && FenceInv(Init(deferBlockFree)) && LedgerInv(Init(deferBlockFree))
  {
  }

  /** In every state of every run with deferral on, no block is in the pool that a step in flight uses or
      copies from; references are exactly those of requests and waiting entries; and no entry is held more
      than one step beyond its fence. */
  lemma BlocksSafeInEveryRun(states: seq<State>, events: seq<Event>, i: nat)
    requires IsRun(states, events) && states[0] == Init(true) && i < |states|
    ensures
      var s := states[i];
      && RefsExact(s)
      && (forall k, id, b :: 0 <= k < |s.inFlight| && id in s.inFlight[k].used && b in s.inFlight[k].used[id] ==>
          !s.InPool(b))
      && (forall k, b :: 0 <= k < |s.inFlight| && b in s.inFlight[k].copied ==> !s.InPool(b))
      && (forall d :: d in s.deferred ==> d.fence >= s.processedSeq)
      && (s.deferred != [] ==> s.deferred[0].fence > s.processedSeq)
  {
    InitOk(true);
    RunKeepsBlocks(states, events);
    DeferralStays(states, events, i);
    var s := states[i];
    forall k, id, b | 0 <= k < |s.inFlight| && id in s.inFlight[k].used && b in s.inFlight[k].used[id]
        ensures !s.InPool(b) {
      NoBlockInUseIsPooled(s, k, id, b);
    }
    forall k, b | 0 <= k < |s.inFlight| && b in s.inFlight[k].copied ensures !s.InPool(b) {
      NoBlockInUseIsPooled(s, k, 0, b);
    }
  }

  lemma DeferralStays(states: seq<State>, events: seq<Event>, i: nat)
    requires IsRun(states, events) && i < |states|
    ensures states[i].deferBlockFree == states[0].deferBlockFree
  {
    for n := 0 to i
      invariant states[n].deferBlockFree == states[0].deferBlockFree
    {
      assert Follows(states[n], events[n], states[n + 1]);
    }
  }

  /** In every state of every run that never reuses an id in flight, the token ledgers are exact. */
  lemma LedgersExactInEveryRun(states: seq<State>, events: seq<Event>, deferBlockFree: bool)
    requires IsRun(states, events) && states[0] == Init(deferBlockFree)
    requires forall i :: 0 <= i < |events| ==> FreshId(states[i], events[i])
    ensures forall i :: 0 <= i < |states| ==> LedgerInv(states[i])
  {
    InitOk(deferBlockFree);
    for n := 0 to |events|
      invariant forall i :: 0 <= i <= n ==> LedgerInv(states[i])
    {
      assert Follows(states[n], events[n], states[n + 1]);
      assert FreshId(states[n], events[n]);
      KeepsLedger(states[n], events[n]);
    }
  }

  // ---------------------------------------------------------------- what is released

  /** The request lets its blocks go. */
  ghost predicate Frees(e: Event, id: Id) {
    (e.EvPreempt? || e.EvFreeBlocks? || (e.EvFinish? && !e.delayFree)) && e.id == id
  }

  /** The blocks that the events have given to a request since it last let its blocks go. */
  ghost function Grants(events: seq<Event>, id: Id): seq<BlockId> {
    if events == [] then []
    else
      var e := events[|events| - 1];
      var before := Grants(events[..|events| - 1], id);
      if Frees(e, id) then [] else if Gives(e, id) then before + e.blocks else before
  }

  lemma FreeingEmpties(s: State, id: Id, other: Id)
    requires id in s.requests
    ensures FreeRequestBlocks(s, id).Blocks(other) == if other == id then [] else s.Blocks(other)
    ensures FreeBlocks(s, id).Blocks(other) == if other == id then [] else s.Blocks(other)
  {
  }

  lemma FinishEmpties(s: State, id: Id, delayFree: bool, other: Id)
    requires id in s.requests
    ensures Finish(s, id, delayFree).Blocks(other) == if !delayFree && other == id then [] else s.Blocks(other)
  {
    FreeingEmpties(s.(requests := s.requests[id := s.requests[id].(status := Finished)]), id, other);
  }

  ghost predicate Gives(e: Event, id: Id) { e.EvAllocate? && e.id == id }

  lemma OthersKeepBlocks(s: State, e: Event, id: Id)
    requires Enabled(s, e) && !Frees(e, id) && !Gives(e, id)
    ensures Apply(s, e).Blocks(id) == s.Blocks(id)
  {
    match e
    case EvPreempt(i, _) => FreeingEmpties(s, i, id);
    case EvFreeBlocks(i) => FreeingEmpties(s, i, id);
    case EvFinish(i, delayFree) => FinishEmpties(s, i, delayFree, id);
    case EvIssue(tokens, copies, copied) => IssueOnlyCopies(s, tokens, copies, copied);
    case EvAllocate(_, _) =>
    case EvAdd(_) =>
    case EvAdmit(_) =>
    case EvRetire =>
  }

  lemma FreedHoldsNothing(s: State, e: Event, id: Id)
    requires Enabled(s, e) && Frees(e, id)
    ensures Apply(s, e).Blocks(id) == []
  {
    match e
    case EvPreempt(i, _) => FreeingEmpties(s, i, id);
    case EvFreeBlocks(i) => FreeingEmpties(s, i, id);
    case EvFinish(i, delayFree) => FinishEmpties(s, i, delayFree, id);
  }

  /** In every run a request holds exactly what it has been given since it last let its blocks go. */
  lemma {:induction false} HoldsItsGrants(states: seq<State>, events: seq<Event>, n: nat, id: Id)
    requires IsRun(states, events) && states[0].held == map[] && n <= |events|
    ensures states[n].Blocks(id) == Grants(events[..n], id)
  {
    if n > 0 {
      HoldsItsGrants(states, events, n - 1, id);
      assert Follows(states[n - 1], events[n - 1], states[n - 1 + 1]);
      var e := events[n - 1];
      if Frees(e, id) {
        FreedHoldsNothing(states[n - 1], e, id);
      } else if !Gives(e, id) {
        OthersKeepBlocks(states[n - 1], e, id);
      }
      assert events[..n][..n - 1] == events[..n - 1];
    }
  }

  /** A request's number is that of the newest step in flight that names it, or of a processed one if none does. */
  ghost predicate LastOf(number: nat, steps: seq<Step>, processed: nat, id: Id) {
    && (number <= processed
        || exists k :: 0 <= k < |steps| && id in steps[k].tokens && steps[k].seqNo == number)
    && forall k :: 0 <= k < |steps| && id in steps[k].tokens ==> processed < steps[k].seqNo <= number
  }

  ghost predicate LastSteps(s: State) {
    forall id :: id in s.requests ==> LastOf(s.requests[id].lastSchedSeq, s.inFlight, s.processedSeq, id)
  }

  lemma DispatchedLast(number: nat, steps: seq<Step>, step: Step, processed: nat, id: Id)
    requires LastOf(number, steps, processed, id) && number < step.seqNo && processed < step.seqNo
    ensures LastOf(if id in step.tokens then step.seqNo else number, steps + [step], processed, id)
  {
    if id in step.tokens {
      assert (steps + [step])[|steps|] == step;
    } else if number > processed {
      var k :| 0 <= k < |steps| && id in steps[k].tokens && steps[k].seqNo == number;
      assert (steps + [step])[k] == steps[k];
    }
  }

  lemma RetiredLast(number: nat, steps: seq<Step>, processed: nat, id: Id)
    requires LastOf(number, steps, processed, id) && steps != [] && steps[0].seqNo == processed + 1
    requires forall k :: 0 < k < |steps| ==> steps[k].seqNo > processed + 1
    ensures LastOf(number, steps[1..], processed + 1, id)
  {
    assert forall k :: 0 <= k < |steps| - 1 ==> steps[1..][k] == steps[k + 1];
    if number > processed + 1 {
      var k :| 0 <= k < |steps| && id in steps[k].tokens && steps[k].seqNo == number;
      assert steps[1..][k - 1] == steps[k];
    }
  }

  lemma IssueKeepsLast(s: State, tokens: map<Id, nat>, copies: bool, copied: seq<BlockId>)
    requires s.deferBlockFree && Numbered(s) && LastSteps(s)
    ensures LastSteps(Issue(s, tokens, copies, copied))
  {
    var s1 := TakeCopies(s, copies, copied);
    if tokens != map[] {
      var step := StepOf(s, tokens, s.uncopied + (if copies then copied else []));
      var t := Dispatch(s1, step);
      forall id | id in t.requests ensures LastOf(t.requests[id].lastSchedSeq, t.inFlight, t.processedSeq, id) {
        DispatchedLast(s.requests[id].lastSchedSeq, s.inFlight, step, s.processedSeq, id);
      }
    }
  }

  lemma RetireKeepsLast(s: State)
    requires s.deferBlockFree && Numbered(s) && LastSteps(s) && s.inFlight != []
    ensures LastSteps(Retire(s))
  {
    var t := Retire(s);
    forall id | id in t.requests ensures LastOf(t.requests[id].lastSchedSeq, t.inFlight, t.processedSeq, id) {
      RetiredLast(s.requests[id].lastSchedSeq, s.inFlight, s.processedSeq, id);
    }
  }

  ghost predicate SameLast(s: State, t: State) {
    && t.inFlight == s.inFlight && t.processedSeq == s.processedSeq
    && forall id :: id in t.requests ==>
         if id in s.requests then t.requests[id].lastSchedSeq == s.requests[id].lastSchedSeq
         else t.requests[id].lastSchedSeq == 0 && forall k :: 0 <= k < |s.inFlight| ==> id !in s.inFlight[k].tokens
  }

  lemma SameKeepsLast(s: State, t: State)
    requires LastSteps(s) && SameLast(s, t)
    ensures LastSteps(t)
  {
  }

  lemma OthersKeepLast(s: State, e: Event)
    requires Enabled(s, e) && FreshId(s, e) && !e.EvIssue? && !e.EvRetire?
    ensures SameLast(s, Apply(s, e))
  {
    match e
    case EvAdd(_) =>
    case EvAllocate(_, _) =>
    case EvAdmit(_) =>
    case EvPreempt(_, _) =>
    case EvFinish(_, _) =>
    case EvFreeBlocks(_) =>
  }

  lemma KeepsLast(s: State, e: Event)
    requires Enabled(s, e) && FreshId(s, e) && s.deferBlockFree && Numbered(s) && LastSteps(s)
    ensures LastSteps(Apply(s, e))
  {
    match e
    case EvIssue(tokens, copies, copied) => IssueKeepsLast(s, tokens, copies, copied);
    case EvRetire => RetireKeepsLast(s);
    case _ =>
      OthersKeepLast(s, e);
      SameKeepsLast(s, Apply(s, e));
  }

  /** Some step that is not processed yet runs for the request. */
  ghost predicate Runs(s: State, id: Id) { exists k :: 0 <= k < |s.inFlight| && id in s.inFlight[k].tokens }

  lemma CanFreeIff(s: State, id: Id)
    requires s.deferBlockFree ==> LastSteps(s)
    requires id in s.requests
    ensures s.CanFree(id) <==> !s.deferBlockFree || !Runs(s, id)
  {
    if s.deferBlockFree { assert LastOf(s.requests[id].lastSchedSeq, s.inFlight, s.processedSeq, id); }
  }

  /** Letting go: the request holds nothing afterwards. Its blocks return at once if returns are not deferred or no
      step in flight runs for it; otherwise, unless there are none, they wait behind all others for the newest step. */
  ghost predicate LetsGo(s: State, t: State, id: Id) {
    && id !in t.held
    && if !s.deferBlockFree || !Runs(s, id) then t.refs == s.refs - multiset(s.Blocks(id)) && t.deferred == s.deferred
       else
         && t.refs == s.refs
         && t.deferred == s.deferred + if s.Blocks(id) == [] then [] else [Deferred(s.schedSeq, s.Blocks(id))]
  }

  lemma FreeingLetsGo(s: State, e: Event, id: Id)
    requires Enabled(s, e) && Frees(e, id) && (s.deferBlockFree ==> LastSteps(s))
    ensures LetsGo(s, Apply(s, e), id)
  {
    CanFreeIff(s, id);
  }

  lemma {:induction false} RunKeepsLast(states: seq<State>, events: seq<Event>, n: nat)
    requires IsRun(states, events) && states[0] == Init(true) && n <= |events|
    requires forall i :: 0 <= i < n ==> FreshId(states[i], events[i])
    ensures LastSteps(states[n])
  {
    if n > 0 {
      RunKeepsLast(states, events, n - 1);
      InitOk(true);
      RunKeepsBlocks(states, events);
      DeferralStays(states, events, n - 1);
      assert Follows(states[n - 1], events[n - 1], states[n - 1 + 1]);
      KeepsLast(states[n - 1], events[n - 1]);
    }
  }

  /** In every run that reuses no id in flight, whatever frees a request lets go of exactly its blocks. */
  lemma FreedInEveryRun(states: seq<State>, events: seq<Event>, n: nat, id: Id, deferBlockFree: bool)
    requires IsRun(states, events) && states[0] == Init(deferBlockFree) && n < |events| && Frees(events[n], id)
    requires forall i :: 0 <= i < |events| ==> FreshId(states[i], events[i])
    ensures LetsGo(states[n], states[n + 1], id)
  {
    DeferralStays(states, events, n);
    if deferBlockFree { RunKeepsLast(states, events, n); }
    assert Follows(states[n], events[n], states[n + 1]);
    FreeingLetsGo(states[n], events[n], id);
  }

  // ---------------------------------------------------------------- what is left when all is processed

  ghost predicate Issues(e: Event) { e.EvIssue? && e.tokens != map[] }

  /** A schedule() call without tokens has taken copies, and no step has been issued since to run them. */
  ghost predicate CopiesWait(events: seq<Event>) {
    exists i: nat :: WaitsSince(events, i)
  }

  ghost predicate WaitsSince(events: seq<Event>, i: nat) {
    && i < |events| && events[i].EvIssue? && events[i].copies && !Issues(events[i])
    && forall j :: i < j < |events| ==> !Issues(events[j])
  }

  lemma CopiesWaitStep(events: seq<Event>, e: Event)
    ensures CopiesWait(events + [e]) <==> !Issues(e) && (CopiesWait(events) || (e.EvIssue? && e.copies))
  {
    var all := events + [e];
    assert all[|events|] == e && forall j :: 0 <= j < |events| ==> all[j] == events[j];
    forall i: nat | i < |events| ensures WaitsSince(all, i) <==> WaitsSince(events, i) && !Issues(e) {
      if WaitsSince(all, i) { assert !Issues(all[|events|]); }
    }
    assert WaitsSince(all, |events|) <==> e.EvIssue? && e.copies && !Issues(e);
    assert CopiesWait(events) ==> exists i: nat :: i < |events| && WaitsSince(events, i);
  }

  /** Some entry waits for a step that has not been issued. */
  ghost predicate WaitsAhead(q: seq<Deferred>, schedSeq: nat) { exists i :: 0 <= i < |q| && q[i].fence > schedSeq }

  lemma AppendWaits(q: seq<Deferred>, d: Deferred, schedSeq: nat)
    ensures WaitsAhead(q + [d], schedSeq) <==> WaitsAhead(q, schedSeq) || d.fence > schedSeq
  {
    if WaitsAhead(q, schedSeq) {
      var i :| 0 <= i < |q| && q[i].fence > schedSeq;
      assert (q + [d])[i] == q[i];
    }
    assert (q + [d])[|q|] == d;
  }

  lemma {:induction false} DrainWaits(q: seq<Deferred>, processed: nat, schedSeq: nat)
    requires processed <= schedSeq
    ensures WaitsAhead(Pending(q, processed), schedSeq) <==> WaitsAhead(q, schedSeq)
  {
    if q != [] && q[0].fence <= processed {
      DrainWaits(q[1..], processed, schedSeq);
      if WaitsAhead(q, schedSeq) {
        var i :| 0 <= i < |q| && q[i].fence > schedSeq;
        assert q[1..][i - 1] == q[i];
      }
    }
  }

  lemma IssueWaits(s: State, tokens: map<Id, nat>, copies: bool, copied: seq<BlockId>)
    requires s.deferBlockFree && FenceInv(s)
    ensures var t := Issue(s, tokens, copies, copied);
      WaitsAhead(t.deferred, t.schedSeq) <==> tokens == map[] && (WaitsAhead(s.deferred, s.schedSeq) || copies)
  {
    if copies { AppendWaits(s.deferred, Deferred(s.schedSeq + 1, copied), s.schedSeq); }
    var t := Issue(s, tokens, copies, copied);
    assert tokens != map[] ==> t.schedSeq == s.schedSeq + 1;
  }

  lemma WaitsStep(s: State, e: Event)
    requires s.deferBlockFree && FenceInv(s) && Enabled(s, e)
    ensures var t := Apply(s, e);
      WaitsAhead(t.deferred, t.schedSeq)
      <==> !Issues(e) && (WaitsAhead(s.deferred, s.schedSeq) || (e.EvIssue? && e.copies))
  {
    if e.EvIssue? {
      IssueWaits(s, e.tokens, e.copies, e.copied);
    } else if e.EvRetire? {
      DrainWaits(s.deferred, s.processedSeq + 1, s.schedSeq);
    } else if e.EvPreempt? || e.EvFinish? || e.EvFreeBlocks? {
      AppendWaits(s.deferred, Deferred(s.schedSeq, s.Blocks(e.id)), s.schedSeq);
    }
  }

  lemma {:induction false} WaitsInEveryRun(states: seq<State>, events: seq<Event>, n: nat)
    requires IsRun(states, events) && states[0] == Init(true) && n <= |events|
    ensures WaitsAhead(states[n].deferred, states[n].schedSeq) <==> CopiesWait(events[..n])
  {
    if n > 0 {
      WaitsInEveryRun(states, events, n - 1);
      FencedInEveryRun(states, events, n - 1);
      assert Follows(states[n - 1], events[n - 1], states[n - 1 + 1]);
      WaitsStep(states[n - 1], events[n - 1]);
      CopiesWaitStep(events[..n - 1], events[n - 1]);
      assert events[..n] == events[..n - 1] + [events[n - 1]];
    }
  }

  lemma FencedInEveryRun(states: seq<State>, events: seq<Event>, n: nat)
    requires IsRun(states, events) && states[0] == Init(true) && n <= |events|
    ensures states[n].deferBlockFree && FenceInv(states[n]) && RefsExact(states[n])
  {
    InitOk(true);
    RunKeepsBlocks(states, events);
    DeferralStays(states, events, n);
  }

  lemma {:induction false} NeverDefers(states: seq<State>, events: seq<Event>, n: nat)
    requires IsRun(states, events) && states[0] == Init(false) && n <= |events|
    ensures states[n].deferred == []
  {
    if n > 0 {
      NeverDefers(states, events, n - 1);
      DeferralStays(states, events, n - 1);
      assert Follows(states[n - 1], events[n - 1], states[n - 1 + 1]);
    }
  }

  /** Once all steps are processed nothing waits any more, exactly unless copies wait for a step to run them. */
  lemma NothingWaitsIff(states: seq<State>, events: seq<Event>, n: nat, deferBlockFree: bool)
    requires IsRun(states, events) && states[0] == Init(deferBlockFree) && n <= |events| && states[n].inFlight == []
    ensures states[n].deferred == [] <==> !deferBlockFree || !CopiesWait(events[..n])
  {
    if deferBlockFree {
      WaitsInEveryRun(states, events, n);
      InitOk(true);
      RunKeepsBlocks(states, events);
      DeferralStays(states, events, n);
    } else {
      NeverDefers(states, events, n);
    }
  }

  /** And then exactly the blocks are out of the pool that some request has been given since it last let go: a request
      that was preempted, or has ended, keeps none. */
  lemma OnlyHeldBlocksAreOut(states: seq<State>, events: seq<Event>, n: nat, deferBlockFree: bool, b: BlockId)
    requires IsRun(states, events) && states[0] == Init(deferBlockFree) && n <= |events| && states[n].inFlight == []
    requires deferBlockFree ==> !CopiesWait(events[..n])
    ensures states[n].InPool(b) <==> forall id :: b !in Grants(events[..n], id)
  {
    NothingWaitsIff(states, events, n, deferBlockFree);
    InitOk(deferBlockFree);
    RunKeepsBlocks(states, events);
    OutIfHeld(states[n], b);
    if !states[n].InPool(b) {
      var id :| b in states[n].Blocks(id);
      HoldsItsGrants(states, events, n, id);
      assert b in Grants(events[..n], id);
    } else {
      forall id ensures b !in Grants(events[..n], id) {
        HoldsItsGrants(states, events, n, id);
        assert b !in states[n].Blocks(id);
      }
    }
  }

  lemma OutIfHeld(s: State, b: BlockId)
    requires RefsExact(s) && s.deferred == []
    ensures s.InPool(b) <==> forall id :: b !in s.Blocks(id)
  {
    HeldRefsAre(s.held, b);
    assert s.refs == HeldRefs(s.held);
    if !s.InPool(b) {
      assert b in HeldRefs(s.held);
      var id :| id in s.held && b in s.held[id];
      assert b in s.Blocks(id);
    }
  }

  lemma {:induction false} HeldRefsAre(held: map<Id, seq<BlockId>>, b: BlockId)
    ensures b in HeldRefs(held) <==> exists id :: id in held && b in held[id]
    decreases |held|
  {
    if held != map[] {
      var k :| k in held && HeldRefs(held) == multiset(held[k]) + HeldRefs(held - {k});
      HeldRefsAre(held - {k}, b);
      if id :| id in held && b in held[id] { assert id == k || id in held - {k}; }
    }
  }

  /** A copy that waits for a step holds up what is satisfied behind it: with one step in flight, a call without tokens
      takes copies and a request of the step is preempted; when the step is processed its blocks do not return. */
  lemma CopyHoldsUpOthers(s: State, id: Id, copied: seq<BlockId>)
    requires s.deferBlockFree && FenceInv(s) && LastSteps(s) && |s.inFlight| == 1 && s.deferred == []
    requires id in s.requests && s.requests[id].status == Running && Runs(s, id) && s.Blocks(id) != []
    ensures Enabled(s, EvIssue(map[], true, copied))
    ensures var s1 := Apply(s, EvIssue(map[], true, copied));
      Enabled(s1, EvPreempt(id, false)) && Enabled(Apply(s1, EvPreempt(id, false)), EvRetire)
    ensures var t := Apply(Apply(Apply(s, EvIssue(map[], true, copied)), EvPreempt(id, false)), EvRetire);
      t.inFlight == [] && Deferred(s.schedSeq, s.Blocks(id)) in t.deferred && t.processedSeq == s.schedSeq
  {
    var s1 := Apply(s, EvIssue(map[], true, copied));
    CanFreeIff(s, id);
    var s2 := Apply(s1, EvPreempt(id, false));
    assert s2.deferred == [Deferred(s.schedSeq + 1, copied), Deferred(s.schedSeq, s.Blocks(id))];
    assert s2.processedSeq + 1 == s.schedSeq;
  }

  lemma {:induction false} CopiesStay(states: seq<State>, events: seq<Event>, i: nat, n: nat, b: BlockId)
    requires IsRun(states, events) && i < n <= |events|
    requires events[i].EvIssue? && events[i].copies && b in events[i].copied
    requires forall m :: i <= m < n ==> !Issues(events[m])
    ensures b in states[n].uncopied
  {
    if i < n - 1 { CopiesStay(states, events, i, n - 1, b); }
    assert Follows(states[n - 1], events[n - 1], states[n - 1 + 1]);
  }

  /** Copies run with the first step from the call on that took them: in every run, that step reads their sources. */
  lemma CopiesAreRun(states: seq<State>, events: seq<Event>, i: nat, n: nat, b: BlockId)
    requires IsRun(states, events) && i <= n < |events|
    requires events[i].EvIssue? && events[i].copies && b in events[i].copied
    requires Issues(events[n]) && forall m :: i <= m < n ==> !Issues(events[m])
    ensures |states[n + 1].inFlight| == |states[n].inFlight| + 1
    ensures b in states[n + 1].inFlight[|states[n].inFlight|].copied
  {
    if i < n { CopiesStay(states, events, i, n, b); }
    assert Follows(states[n], events[n], states[n + 1]);
  }

  // ---------------------------------------------------------------- what is left alone, and what an event is for

  ghost predicate Concerns(s: State, e: Event, id: Id) {
    match e
    case EvIssue(tokens, _, _) => id in tokens
    case EvRetire => s.inFlight != [] && id in s.inFlight[0].tokens
    case _ => e.id == id
  }

  ghost predicate SameRequest(s: State, t: State, id: Id) {
    (id in t.requests <==> id in s.requests) && (id in s.requests ==> t.requests[id] == s.requests[id])
  }

  lemma IssueLeavesOthers(s: State, tokens: map<Id, nat>, copies: bool, copied: seq<BlockId>, id: Id)
    requires id !in tokens
    ensures SameRequest(s, Issue(s, tokens, copies, copied), id)
  {
  }

  lemma RetireLeavesOthers(s: State, id: Id)
    requires s.inFlight != [] && id !in s.inFlight[0].tokens
    ensures SameRequest(s, Retire(s), id)
  {
  }

  lemma FinishLeavesOthers(s: State, id: Id, delayFree: bool, other: Id)
    requires id in s.requests && id != other
    ensures SameRequest(s, Finish(s, id, delayFree), other)
  {
  }

  /** An event leaves the requests that it does not concern as they are. */
  lemma OthersUntouched(s: State, e: Event, id: Id)
    requires Enabled(s, e) && !Concerns(s, e, id)
    ensures SameRequest(s, Apply(s, e), id)
  {
    match e
    case EvIssue(tokens, copies, copied) => IssueLeavesOthers(s, tokens, copies, copied, id);
    case EvRetire => RetireLeavesOthers(s, id);
    case EvFinish(i, delayFree) => FinishLeavesOthers(s, i, delayFree, id);
    case EvAdd(_) =>
    case EvAllocate(_, _) =>
    case EvAdmit(_) =>
    case EvPreempt(_, _) =>
    case EvFreeBlocks(_) =>
  }

  /** What is added can be admitted, what is admitted can be scheduled or preempted, what is preempted without output
      still to be delivered can be admitted again; what has ended without delay is gone, and with delay can be freed. */
  lemma EventsLeadOn(s: State, e: Event)
    requires Enabled(s, e)
    ensures var t := Apply(s, e);
      && (e.EvAdd? ==> Enabled(t, EvAdmit(e.id)))
      && (e.EvAdmit? ==> Enabled(t, EvIssue(map[e.id := 1], false, [])) && Enabled(t, EvPreempt(e.id, false)))
      && (e.EvPreempt? && (e.dropStaleOutput || s.requests[e.id].inFlight <= 0) ==> Enabled(t, EvAdmit(e.id)))
      && (e.EvFinish? && e.delayFree ==> Enabled(t, EvFreeBlocks(e.id)))
      && ((e.EvFinish? && !e.delayFree) || e.EvFreeBlocks? ==> e.id !in t.requests)
  {
  }

  // ---------------------------------------------------------------- which stale output is dropped

  /** A preemption that drops output, since which the request has had stale output without a break. */
  ghost predicate DroppedSince(states: seq<State>, events: seq<Event>, n: nat, id: Id, i: nat)
    requires n < |states| && |events| + 1 == |states|
  {
    && i < n && events[i] == EvPreempt(id, true)
    && forall m :: i < m <= n ==> id in states[m].requests && states[m].requests[id].stale > 0
  }

  ghost predicate DroppedAtAll(states: seq<State>, events: seq<Event>, n: nat, id: Id)
    requires n < |states| && |events| + 1 == |states|
  {
    exists i: nat :: DroppedSince(states, events, n, id, i)
  }

  lemma DroppedStep(states: seq<State>, events: seq<Event>, n: nat, id: Id)
    requires n + 1 < |states| && |events| + 1 == |states|
    requires id in states[n + 1].requests && states[n + 1].requests[id].stale > 0
    ensures DroppedAtAll(states, events, n + 1, id) <==>
              events[n] == EvPreempt(id, true)
              || (DroppedAtAll(states, events, n, id) && id in states[n].requests && states[n].requests[id].stale > 0)
  {
    if events[n] == EvPreempt(id, true) { assert DroppedSince(states, events, n + 1, id, n); }
    if DroppedAtAll(states, events, n, id) {
      var i: nat :| DroppedSince(states, events, n, id, i);
      assert DroppedSince(states, events, n + 1, id, i);
    }
    if DroppedAtAll(states, events, n + 1, id) {
      var i: nat :| DroppedSince(states, events, n + 1, id, i);
      assert i < n ==> DroppedSince(states, events, n, id, i);
    }
  }

  ghost predicate SameMode(s: State, t: State, id: Id) {
    id in t.requests && t.requests[id].stale > 0 ==>
      id in s.requests && s.requests[id].stale > 0 && t.requests[id].dropStale == s.requests[id].dropStale
  }

  lemma IssueKeepsMode(s: State, tokens: map<Id, nat>, copies: bool, copied: seq<BlockId>, id: Id)
    ensures SameMode(s, Issue(s, tokens, copies, copied), id)
  {
  }

  lemma RetireKeepsMode(s: State, id: Id)
    requires s.inFlight != []
    ensures SameMode(s, Retire(s), id)
  {
  }

  lemma FinishKeepsMode(s: State, id: Id, delayFree: bool, other: Id)
    requires id in s.requests
    ensures SameMode(s, Finish(s, id, delayFree), other)
  {
  }

  lemma PreemptSetsMode(s: State, id: Id, dropStaleOutput: bool)
    requires id in s.requests
    ensures var r, r' := s.requests[id], Preempt(s, id, dropStaleOutput).requests[id];
      r'.dropStale <==> dropStaleOutput || (r.dropStale && r.stale > 0)
  {
  }

  lemma DropModeStep(s: State, e: Event, id: Id)
    requires Enabled(s, e)
    requires var t := Apply(s, e); id in t.requests && t.requests[id].stale > 0
    ensures id in s.requests
    ensures Apply(s, e).requests[id].dropStale
            <==> e == EvPreempt(id, true) || (s.requests[id].dropStale && s.requests[id].stale > 0)
  {
    match e
    case EvPreempt(i, dropStaleOutput) =>
      if i == id { PreemptSetsMode(s, id, dropStaleOutput); } else { OthersUntouched(s, e, id); }
    case EvIssue(tokens, copies, copied) => IssueKeepsMode(s, tokens, copies, copied, id);
    case EvRetire => RetireKeepsMode(s, id);
    case EvFinish(i, delayFree) => FinishKeepsMode(s, i, delayFree, id);
    case EvAdd(i) => if i != id { OthersUntouched(s, e, id); }
    case EvAllocate(_, _) =>
    case EvAdmit(_) =>
    case EvFreeBlocks(i) => if i != id { OthersUntouched(s, e, id); }
  }

  /** In every run, stale output is dropped exactly if the request was preempted with its output to be dropped and has
      had stale output ever since. */
  lemma {:induction false} DroppedInEveryRun(states: seq<State>, events: seq<Event>, n: nat, id: Id)
    requires IsRun(states, events) && states[0].requests == map[] && n <= |events|
    requires id in states[n].requests && states[n].requests[id].stale > 0
    ensures states[n].requests[id].dropStale <==> DroppedAtAll(states, events, n, id)
  {
    var m: nat := n - 1;
    assert Follows(states[m], events[m], states[m + 1]);
    DropModeStep(states[m], events[m], id);
    DroppedStep(states, events, m, id);
    if states[m].requests[id].stale > 0 { DroppedInEveryRun(states, events, m, id); }
  }
}
