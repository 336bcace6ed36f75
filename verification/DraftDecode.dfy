/** Drafting one token after the other: what each step's forward pass gets to see, and where its token goes. */
module DraftDecode {
  import opened Arithmetic

  /** What the first pass leaves for a request: its first draft token, and the position of its last true token. */
  datatype Request = Request(first: int, position: int, length: int, rejected: int)

  datatype Setup = Setup(requests: seq<Request>, maxLen: int, advance: bool, steps: nat, maxReqs: nat)

  /** The forward pass and the sampling: a token from a request's last token, position, sampling key and length. */
  type Model = (nat, int, int, int, int) -> int

  /** Step `s` sees the position `s` further on, the sampling key of the token it draws, and the sequence that long; at
      the model length positions and lengths stay where they are. */
  function PositionAt(u: Setup, r: nat, s: nat): int
    requires r < |u.requests|
  {
    if u.advance then Min(u.requests[r].position + s, u.maxLen - 1) else u.requests[r].position
  }

  function KeyAt(u: Setup, r: nat, s: nat): int
    requires r < |u.requests|
  {
    u.requests[r].position + 1 + s
  }

  function LengthAt(u: Setup, r: nat, s: nat): int
    requires r < |u.requests|
  {
    var kept := u.requests[r].length - u.requests[r].rejected;
    if u.advance then Min(kept + s, u.maxLen) else kept
  }

  /** The draft of step `s`, from the draft before. */
  function TokenAt(u: Setup, model: Model, r: nat, s: nat): int
    requires r < |u.requests|
  {
    if s == 0 then u.requests[r].first
    else model(r, TokenAt(u, model, r, s - 1), PositionAt(u, r, s), KeyAt(u, r, s), LengthAt(u, r, s))
  }

  /** Clamping step by step is clamping once. */
  lemma StepsOn(u: Setup, r: nat, s: nat)
    requires r < |u.requests|
    ensures KeyAt(u, r, s + 1) == KeyAt(u, r, s) + 1
    ensures u.advance ==> PositionAt(u, r, s + 1) == Min(PositionAt(u, r, s) + 1, u.maxLen - 1)
    ensures u.advance ==> LengthAt(u, r, s + 1) == Min(LengthAt(u, r, s) + 1, u.maxLen)
    ensures !u.advance ==> PositionAt(u, r, s + 1) == PositionAt(u, r, s) && LengthAt(u, r, s + 1) == LengthAt(u, r, s)
  {
  }

  /** The first draft comes from the first pass; each later one from the draft before, seen as far on, and keyed by the
      position it is drawn for. */
  lemma DraftSees(u: Setup, model: Model, r: nat, s: nat)
    requires r < |u.requests|
    ensures var q := u.requests[r];
      var on, kept := if u.advance then s else 0, q.length - q.rejected;
      var position := if u.advance && q.position + on >= u.maxLen then u.maxLen - 1 else q.position + on;
      var length := if u.advance && kept + on > u.maxLen then u.maxLen else kept + on;
      TokenAt(u, model, r, s)
        == if s == 0 then q.first else model(r, TokenAt(u, model, r, s - 1), position, q.position + s + 1, length)
  {
  }

  /** No step sees a position or a length past the model length, and the sequence ends at the position it sees as long
      as both are within. */
  lemma WithinModelLength(u: Setup, r: nat, s: nat)
    requires r < |u.requests| && u.advance
    requires var q := u.requests[r]; q.position == q.length - q.rejected - 1 <= u.maxLen - 1
    ensures PositionAt(u, r, s) <= u.maxLen - 1 && LengthAt(u, r, s) == PositionAt(u, r, s) + 1
  {
  }

  class Buffers {
    const ids: array<int>
    const positions: array<int>
    const keys: array<int>
    const lengths: array<int>
    const starts: array<int>
    const drafts: array2<int>

    constructor (maxReqs: nat, steps: nat)
      ensures Valid() && ids.Length == maxReqs && drafts.Length1 == steps
      ensures fresh(ids) && fresh(positions) && fresh(keys) && fresh(lengths) && fresh(starts) && fresh(drafts)
    {
      ids, positions, keys := new int[maxReqs], new int[maxReqs], new int[maxReqs];
      lengths, starts, drafts := new int[maxReqs], new int[maxReqs + 1], new int[maxReqs, steps];
    }

    ghost predicate Valid() {
      && ids != positions && ids != keys && ids != lengths && ids != starts && positions != keys
      && positions != lengths && positions != starts && keys != lengths && keys != starts && lengths != starts
      && positions.Length == keys.Length == lengths.Length == drafts.Length0 == ids.Length
      && starts.Length == ids.Length + 1
    }

    ghost predicate Fits(u: Setup) {
      Valid() && ids.Length == u.maxReqs && drafts.Length1 == u.steps && |u.requests| <= u.maxReqs && u.steps >= 1
    }

    /** The request's inputs are those of step `s`. */
    ghost predicate Ready(u: Setup, model: Model, r: nat, s: nat)
      requires Fits(u) && r < |u.requests| && s >= 1
      reads ids, positions, keys, lengths
    {
      && ids[r] == TokenAt(u, model, r, s - 1)
      && positions[r] == PositionAt(u, r, s) && keys[r] == KeyAt(u, r, s) && lengths[r] == LengthAt(u, r, s)
    }

    /** The request's row holds the drafts up to step `s`, and behind them what it held before. */
    ghost predicate Drafted(u: Setup, model: Model, r: nat, s: nat, before: seq<int>)
      requires Fits(u) && r < |u.requests|
      reads drafts
    {
      && |before| == u.steps
      && forall c :: 0 <= c < u.steps ==> drafts[r, c] == if c <= s then TokenAt(u, model, r, c) else before[c]
    }

    /** The first pass has left its results for the request. */
    ghost predicate Primed(u: Setup, r: nat)
      requires Fits(u) && r < |u.requests|
      reads positions, keys, drafts
    {
      && positions[r] == u.requests[r].position && keys[r] == u.requests[r].position + 1
      && drafts[r, 0] == u.requests[r].first
    }

    ghost predicate SameRow(r: nat, before: seq<int>)
      requires r < drafts.Length0
      reads drafts
    {
      |before| == drafts.Length1 && forall c :: 0 <= c < drafts.Length1 ==> drafts[r, c] == before[c]
    }

    /** _prepare_decode_inputs_kernel for a request. */
    method Prepare(u: Setup, model: Model, r: nat)
      requires Fits(u) && r < |u.requests| && Primed(u, r)
      modifies ids, positions, keys, lengths
      ensures Ready(u, model, r, 1)
      ensures forall q :: 0 <= q < ids.Length && q != r ==>
        ids[q] == old(ids[q]) && positions[q] == old(positions[q]) && keys[q] == old(keys[q])
            && lengths[q] == old(lengths[q])
    {
      ids[r] := drafts[r, 0];
      keys[r] := keys[r] + 1;
      var length := u.requests[r].length - u.requests[r].rejected;
      if u.advance {
        positions[r] := Min(positions[r] + 1, u.maxLen - 1);
        length := Min(length + 1, u.maxLen);
      }
      lengths[r] := length;
    }

    /** The program behind the last request: one query for each, none for the rest. */
    method PrepareRest(u: Setup, block: nat)
      requires Fits(u) && block > 0
      modifies starts, lengths
      ensures forall i :: 0 <= i <= u.maxReqs ==> starts[i] == Min(i, |u.requests|)
      ensures forall i :: 0 <= i < u.maxReqs ==> lengths[i] == if i < |u.requests| then old(lengths[i]) else 0
    {
      var i := 0;
      while i < u.maxReqs + 1
        invariant 0 <= i && forall j :: 0 <= j <= u.maxReqs && j < i ==> starts[j] == Min(j, |u.requests|)
        invariant forall j :: 0 <= j < u.maxReqs ==> lengths[j] == old(lengths[j])
      {
        forall j | i <= j < i + block && j < u.maxReqs + 1 { starts[j] := Min(j, |u.requests|); }
        i := i + block;
      }
      i := |u.requests|;
      while i < u.maxReqs
        invariant |u.requests| <= i && forall j :: 0 <= j <= u.maxReqs ==> starts[j] == Min(j, |u.requests|)
        invariant forall j :: 0 <= j < u.maxReqs ==> lengths[j] == if |u.requests| <= j < i then 0 else old(lengths[j])
      {
        forall j | i <= j < i + block && j < u.maxReqs { lengths[j] := 0; }
        i := i + block;
      }
    }

    /** The forward pass of a step and _update_draft_inputs_kernel, for a request. */
    method Step(u: Setup, model: Model, r: nat, s: nat, ghost before: seq<int>)
      requires Fits(u) && r < |u.requests| && 1 <= s < u.steps && Ready(u, model, r, s)
      requires Drafted(u, model, r, s - 1, before)
      modifies ids, positions, keys, lengths, drafts
      ensures s + 1 < u.steps ==> Ready(u, model, r, s + 1)
      ensures Drafted(u, model, r, s, before)
      ensures forall q :: 0 <= q < ids.Length && q != r ==>
        ids[q] == old(ids[q]) && positions[q] == old(positions[q]) && keys[q] == old(keys[q])
            && lengths[q] == old(lengths[q])
      ensures forall q, c :: 0 <= q < drafts.Length0 && 0 <= c < drafts.Length1 && q != r ==>
          drafts[q, c] == old(drafts[q, c])
    {
      var token := model(r, ids[r], positions[r], keys[r], lengths[r]);
      drafts[r, s] := token;
      if s >= u.steps - 1 { return; }
      StepsOn(u, r, s);
      keys[r] := keys[r] + 1;
      ids[r] := token;
      if u.advance {
        positions[r] := Min(positions[r] + 1, u.maxLen - 1);
        lengths[r] := Min(lengths[r] + 1, u.maxLen);
      }
    }

    ghost function Row(r: nat): (row: seq<int>)
      requires r < drafts.Length0
      reads drafts
      ensures |row| == drafts.Length1 && forall c :: 0 <= c < |row| ==> row[c] == drafts[r, c]
    {
      seq(drafts.Length1, c requires 0 <= c < drafts.Length1 reads drafts => drafts[r, c])
    }

    /** In the midst of step `s`: the requests before `n` are done with it. */
    ghost predicate Midway(u: Setup, model: Model, s: nat, n: nat, rows: seq<seq<int>>)
      requires Fits(u) && s >= 1
      reads ids, positions, keys, lengths, drafts
    {
      && |rows| == drafts.Length0
      && (forall q :: 0 <= q < |u.requests| && q < n ==> Drafted(u, model, q, s, rows[q]))
      && (forall q :: n <= q < |u.requests| ==> Drafted(u, model, q, s - 1, rows[q]) && Ready(u, model, q, s))
      && var next := s + 1;
         (next < u.steps ==> forall q :: 0 <= q < |u.requests| && q < n ==> Ready(u, model, q, next))
    }

    ghost predicate OthersUntouched(u: Setup, rows: seq<seq<int>>)
      requires Fits(u)
      reads drafts
    {
      |rows| == drafts.Length0 && forall q :: |u.requests| <= q < |rows| ==> SameRow(q, rows[q])
    }

    /** A step for all requests. */
    method StepAll(u: Setup, model: Model, s: nat, ghost rows: seq<seq<int>>)
      requires Fits(u) && 1 <= s < u.steps && Midway(u, model, s, 0, rows) && OthersUntouched(u, rows)
      modifies ids, positions, keys, lengths, drafts
      ensures Midway(u, model, s, |u.requests|, rows) && OthersUntouched(u, rows)
    {
      var r := 0;
      while r < |u.requests|
        invariant 0 <= r <= |u.requests| && Midway(u, model, s, r, rows) && OthersUntouched(u, rows)
      {
        label before: Step(u, model, r, s, rows[r]);
        ghost var next := s + 1;
        forall q | 0 <= q < r ensures Drafted(u, model, q, s, rows[q]) {
          assert old@before(Drafted(u, model, q, s, rows[q]));
        }
        forall q | 0 <= q < r && next < u.steps ensures Ready(u, model, q, next) {
          assert old@before(Ready(u, model, q, next));
        }
        forall q | r < q < |u.requests| ensures Drafted(u, model, q, s - 1, rows[q]) && Ready(u, model, q, s) {
          assert old@before(Drafted(u, model, q, s - 1, rows[q])) && old@before(Ready(u, model, q, s));
        }
        forall q | |u.requests| <= q < |rows| ensures SameRow(q, rows[q]) {
          assert old@before(SameRow(q, rows[q]));
        }
        r := r + 1;
      }
    }

    /** _prepare_decode_inputs_kernel, all programs. */
    method PrepareAll(u: Setup, model: Model, block: nat)
      requires Fits(u) && block > 0 && forall r :: 0 <= r < |u.requests| ==> Primed(u, r)
      modifies ids, positions, keys, lengths, starts
      ensures forall r :: 0 <= r < |u.requests| ==> Ready(u, model, r, 1)
      ensures forall i :: 0 <= i <= u.maxReqs ==> starts[i] == Min(i, |u.requests|)
      ensures forall i :: |u.requests| <= i < u.maxReqs ==> lengths[i] == 0
    {
      var r := 0;
      while r < |u.requests|
        invariant 0 <= r <= |u.requests|
        invariant forall q :: 0 <= q < r ==> Ready(u, model, q, 1)
        invariant forall q :: r <= q < |u.requests| ==> Primed(u, q)
      {
        label before: Prepare(u, model, r);
        forall q | 0 <= q < r ensures Ready(u, model, q, 1) { assert old@before(Ready(u, model, q, 1)); }
        forall q | r < q < |u.requests| ensures Primed(u, q) { assert old@before(Primed(u, q)); }
        r := r + 1;
      }
      label prepared: PrepareRest(u, block);
      forall q | 0 <= q < |u.requests| ensures Ready(u, model, q, 1) { assert old@prepared(Ready(u, model, q, 1)); }
    }

    /** From the first pass's results to `depth` drafts for each request: every column up to the depth holds the
        draft of its step, computed from that step's inputs, and the columns behind are untouched. */
    method Propose(u: Setup, model: Model, depth: nat, block: nat)
      requires Fits(u) && 1 <= depth <= u.steps && block > 0
      requires forall r :: 0 <= r < |u.requests| ==> Primed(u, r)
      modifies ids, positions, keys, lengths, starts, drafts
      ensures forall r :: 0 <= r < |u.requests| ==> Drafted(u, model, r, depth - 1, old(Row(r)))
      ensures forall r :: |u.requests| <= r < drafts.Length0 ==> SameRow(r, old(Row(r)))
    {
      ghost var rows := seq(drafts.Length0, r requires 0 <= r < drafts.Length0 reads drafts => Row(r));
      forall r | 0 <= r < |u.requests| ensures Drafted(u, model, r, 0, rows[r]) && rows[r] == Row(r) {
        assert Primed(u, r);
      }
      if depth == 1 { return; }
      label before: PrepareAll(u, model, block);
      forall r | 0 <= r < |u.requests| ensures Drafted(u, model, r, 0, rows[r]) {
        assert old@before(Drafted(u, model, r, 0, rows[r]));
      }
      var s := 1;
      while s < depth
        invariant 1 <= s <= depth && OthersUntouched(u, rows)
        invariant if s < depth then Midway(u, model, s, 0, rows) else Midway(u, model, s - 1, |u.requests|, rows)
      {
        StepAll(u, model, s, rows);
        s := s + 1;
      }
      forall r | 0 <= r < |rows| ensures rows[r] == old(Row(r)) {
        assert rows[r] == old(Row(r));
      }
      forall r | 0 <= r < |u.requests| ensures Drafted(u, model, r, depth - 1, old(Row(r))) {
        assert Drafted(u, model, r, depth - 1, rows[r]);
      }
      forall r | |u.requests| <= r < drafts.Length0 ensures SameRow(r, old(Row(r))) {
        assert SameRow(r, rows[r]);
      }
    }
  }
}
