/** The scheduler's step-by-step bookkeeping, updated in place; every method takes the transition of
    `StepProtocol` that it stands for. */
module StepScheduler {
  import opened StepProtocol

  /** The share of these requests. */
  ghost function Among(tokens: map<Id, nat>, ids: seq<Id>): map<Id, nat> {
    map id | id in tokens && id in ids :: tokens[id]
  }

  lemma OneMoreAmong(tokens: map<Id, nat>, order: seq<Id>, i: nat)
    requires i < |order| && order[i] in tokens && forall j :: 0 <= j < i ==> order[j] != order[i]
    ensures order[i] !in Among(tokens, order[..i])
    ensures Among(tokens, order[..i + 1]) == Among(tokens, order[..i])[order[i] := tokens[order[i]]]
  {
    assert order[..i + 1] == order[..i] + [order[i]];
  }

  lemma AdvanceOneMore(rs: map<Id, Request>, tokens: map<Id, nat>, order: seq<Id>, i: nat, fenced: bool, seqNo: nat)
    requires i < |order| && order[i] in tokens && forall j :: 0 <= j < i ==> order[j] != order[i]
    requires order[i] in rs
    ensures var id, part := order[i], AdvanceAll(rs, Among(tokens, order[..i]), fenced, seqNo);
      && id in part && part[id] == rs[id]
      && AdvanceAll(rs, Among(tokens, order[..i + 1]), fenced, seqNo)
         == part[id := Advance(rs[id], tokens[id], fenced, seqNo)]
  {
    OneMoreAmong(tokens, order, i);
  }

  lemma SettleOneMore(rs: map<Id, Request>, tokens: map<Id, nat>, order: seq<Id>, i: nat)
    requires i < |order| && order[i] in tokens && forall j :: 0 <= j < i ==> order[j] != order[i]
    ensures var id, part := order[i], SettleAll(rs, Among(tokens, order[..i]));
      && (id in part <==> id in rs)
      && (id in rs ==> part[id] == rs[id])
      && SettleAll(rs, Among(tokens, order[..i + 1]))
         == (if id in rs then part[id := Settle(rs[id], tokens[id])] else part)
  {
    OneMoreAmong(tokens, order, i);
  }

  lemma AllAmong(tokens: map<Id, nat>, order: seq<Id>)
    requires forall id :: id in order <==> id in tokens
    ensures order[..|order|] == order && Among(tokens, order[..|order|]) == tokens
  {
  }

  /** Of these requests, those with stale output in flight. */
  ghost function StaleAmong(rs: map<Id, Request>, ids: seq<Id>): set<Id> {
    set id | id in ids && id in rs && rs[id].stale > 0
  }

  lemma StaleOneMore(rs: map<Id, Request>, order: seq<Id>, i: nat)
    requires i < |order|
    ensures StaleAmong(rs, order[..i + 1])
            == StaleAmong(rs, order[..i]) + if order[i] in rs && rs[order[i]].stale > 0 then {order[i]} else {}
  {
    assert order[..i + 1] == order[..i] + [order[i]];
  }

  class Scheduler {
    const deferBlockFree: bool
    var requests: map<Id, Request>
    var schedSeq: nat
    var processedSeq: nat
    var deferredFrees: seq<Deferred>
    // The cache manager's books.
    var held: map<Id, seq<BlockId>>
    var refs: multiset<BlockId>
    // History.
    ghost var inFlight: seq<Step>
    ghost var uncopied: seq<BlockId>

    ghost function View(): State
      reads this
    {
      State(deferBlockFree, requests, schedSeq, processedSeq, deferredFrees, held, refs, inFlight, uncopied)
    }

    constructor (deferBlockFree: bool)
      ensures View() == Init(deferBlockFree)
    {
      this.deferBlockFree := deferBlockFree;
      requests, schedSeq, processedSeq, deferredFrees := map[], 0, 0, [];
      held, refs := map[], multiset{};
      inFlight, uncopied := [], [];
    }

    method FreeRequestBlocks(id: Id)
      requires id in requests
      modifies this`held, this`refs, this`deferredFrees
      ensures View() == StepProtocol.FreeRequestBlocks(old(View()), id)
    {
      var blocks := if id in held then held[id] else [];
      held := held - {id};
      if !deferBlockFree || requests[id].lastSchedSeq <= processedSeq {
        refs := refs - multiset(blocks);
        return;
      }
      if blocks != [] {
        deferredFrees := deferredFrees + [Deferred(schedSeq, blocks)];
      }
    }

    method FreeCowRetainedBlocks(blocks: seq<BlockId>, fence: nat)
      modifies this`refs, this`deferredFrees
      ensures View() == FreeCopySources(old(View()), blocks, fence)
    {
      if !deferBlockFree || fence <= processedSeq {
        refs := refs - multiset(blocks);
        return;
      }
      deferredFrees := deferredFrees + [Deferred(fence, blocks)];
    }

    method DrainDeferredFrees()
      modifies this`refs, this`deferredFrees
      ensures View() == Drain(old(View()))
    {
      while deferredFrees != []
        invariant Pending(deferredFrees, processedSeq) == Pending(old(deferredFrees), processedSeq)
        invariant DrainedRefs(refs, deferredFrees, processedSeq) ==
            DrainedRefs(old(refs), old(deferredFrees), processedSeq)
        decreases |deferredFrees|
      {
        var fence := deferredFrees[0].fence;
        if fence > processedSeq {
          break;
        }
        var blocks := deferredFrees[0].blocks;
        deferredFrees := deferredFrees[1..];
        refs := refs - multiset(blocks);
      }
    }

    /** Only running requests can be preempted. */
    method PreemptRequest(id: Id, dropStaleOutput: bool)
      requires id in requests && requests[id].status == Running
      modifies this
      ensures View() == Preempt(old(View()), id, dropStaleOutput)
    {
      FreeRequestBlocks(id);
      var r := requests[id];
      r := r.(status := Preempted);
      r := r.(dropStale := dropStaleOutput || (r.dropStale && r.stale > 0));
      r := r.(stale := r.inFlight);
      r := r.(preemptions := r.preemptions + 1);
      requests := requests[id := r];
    }

    /** The counters move after the step has been put together. */
    method UpdateAfterSchedule(order: seq<Id>, tokens: map<Id, nat>)
      requires forall i, j :: 0 <= i < j < |order| ==> order[i] != order[j]
      requires forall id :: id in order <==> id in tokens
      requires forall id :: id in tokens ==> id in requests
      modifies this`requests
      ensures requests == AdvanceAll(old(requests), tokens, deferBlockFree, schedSeq)
    {
      for i := 0 to |order|
        invariant requests == AdvanceAll(old(requests), Among(tokens, order[..i]), deferBlockFree, schedSeq)
      {
        AdvanceOneMore(old(requests), tokens, order, i, deferBlockFree, schedSeq);
        var id := order[i];
        var r := requests[id];
        r := r.(inFlight := r.inFlight + tokens[id]);
        if deferBlockFree {
          r := r.(lastSchedSeq := schedSeq);
        }
        requests := requests[id := r];
      }
      AllAmong(tokens, order);
    }

    /** The copies of this call; their sources were retained while it ran. */
    method TakeBlockCopies(copies: bool, copied: seq<BlockId>)
      modifies this`refs, this`deferredFrees
      ensures View() == TakeCopies(old(View()), copies, copied)
    {
      if copies {
        refs := refs + multiset(copied);
        FreeCowRetainedBlocks(copied, schedSeq + 1);
      }
    }

    method DispatchStep(order: seq<Id>, tokens: map<Id, nat>, ghost step: Step)
      requires forall i, j :: 0 <= i < j < |order| ==> order[i] != order[j]
      requires forall id :: id in order <==> id in tokens
      requires forall id :: id in tokens ==> id in requests
      requires step.tokens == tokens && step.seqNo == if deferBlockFree then schedSeq + 1 else schedSeq
      modifies this
      ensures View() == Dispatch(old(View()), step)
    {
      if deferBlockFree {
        schedSeq := schedSeq + 1;
      }
      UpdateAfterSchedule(order, tokens);
      inFlight, uncopied := inFlight + [step], [];
    }

    /** The end of schedule(), once it has settled on the step. */
    method IssueStep(order: seq<Id>, tokens: map<Id, nat>, copies: bool, copied: seq<BlockId>)
      requires forall i, j :: 0 <= i < j < |order| ==> order[i] != order[j]
      requires forall id :: id in order <==> id in tokens
      requires Enabled(View(), EvIssue(tokens, copies, copied))
      modifies this
      ensures View() == Issue(old(View()), tokens, copies, copied)
    {
      ghost var waiting := uncopied + (if copies then copied else []);
      ghost var step := StepOf(View(), tokens, waiting);
      TakeBlockCopies(copies, copied);
      if tokens == map[] {
        uncopied := waiting;
      } else {
        DispatchStep(order, tokens, step);
      }
    }

    /** Takes a request's output off its ledgers; says whether it was stale. */
    method SettleOne(id: Id, n: nat) returns (stale: bool)
      requires id in requests
      modifies this`requests
      ensures requests == old(requests)[id := Settle(old(requests)[id], n)]
      ensures stale == (old(requests)[id].stale > 0)
    {
      var r := requests[id];
      r := r.(inFlight := r.inFlight - n);
      stale := r.stale > 0;
      if stale { r := r.(stale := r.stale - n); }
      requests := requests[id := r];
    }

    /** The counters of every scheduled request move back; `staleOutput` tells whose output was found stale. */
    method SettleOutput(order: seq<Id>, tokens: map<Id, nat>) returns (staleOutput: set<Id>)
      requires forall i, j :: 0 <= i < j < |order| ==> order[i] != order[j]
      requires forall id :: id in order <==> id in tokens
      modifies this`requests
      ensures requests == SettleAll(old(requests), tokens)
      ensures staleOutput == set id | id in tokens && id in old(requests) && old(requests)[id].stale > 0
    {
      staleOutput := {};
      ghost var was := requests;
      for i := 0 to |order|
        invariant requests == SettleAll(was, Among(tokens, order[..i]))
        invariant staleOutput == StaleAmong(was, order[..i])
      {
        SettleOneMore(was, tokens, order, i);
        StaleOneMore(was, order, i);
        var id := order[i];
        if id in requests {
          var stale := SettleOne(id, tokens[id]);
          if stale { staleOutput := staleOutput + {id}; }
        }
      }
      AllAmong(tokens, order);
    }

    /** Processing the output of the oldest step. */
    method UpdateFromOutput(order: seq<Id>, tokens: map<Id, nat>) returns (staleOutput: set<Id>)
      requires inFlight != [] && tokens == inFlight[0].tokens
      requires forall i, j :: 0 <= i < j < |order| ==> order[i] != order[j]
      requires forall id :: id in order <==> id in tokens
      modifies this
      ensures View() == Retire(old(View()))
      ensures staleOutput == set id | id in tokens && id in old(requests) && old(requests)[id].stale > 0
    {
      inFlight := inFlight[1..];
      if deferBlockFree {
        processedSeq := processedSeq + 1;
        DrainDeferredFrees();
      }
      staleOutput := SettleOutput(order, tokens);
    }

    method FreeBlocks(id: Id)
      requires id in requests && requests[id].status == Finished
      modifies this
      ensures View() == StepProtocol.FreeBlocks(old(View()), id)
    {
      FreeRequestBlocks(id);
      requests := requests - {id};
    }

    method FinishRequest(id: Id, delayFreeBlocks: bool)
      requires id in requests && requests[id].status != Finished
      modifies this
      ensures View() == Finish(old(View()), id, delayFreeBlocks)
    {
      requests := requests[id := requests[id].(status := Finished)];
      if !delayFreeBlocks {
        FreeBlocks(id);
      }
    }
  }
}
