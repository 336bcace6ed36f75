/** The intrusive doubly linked list of free KV-cache blocks, with two sentinels.
    It refines a plain sequence: every operation does to `Free()` exactly what its name says. */
module FreeBlockQueue {
  import opened Wrappers

  class Block {
    const id: int
    var prev: Block?
    var next: Block?

    constructor (id: int)
      ensures this.id == id && prev == null && next == null
    {
      this.id := id;
      prev, next := null, null;
    }
  }

  ghost predicate Distinct(s: seq<Block>) {
    forall i, j :: 0 <= i < j < |s| ==> s[i] != s[j]
  }

  /** The blocks at positions lo..hi point to the next in line, or to the one before. */
  ghost predicate Nexts(s: seq<Block>, lo: int, hi: int)
    requires 0 <= lo && hi < |s|
    reads s
  {
    forall i {:trigger s[i].next} :: lo <= i < hi ==> s[i].next == s[i + 1]
  }

  ghost predicate Prevs(s: seq<Block>, lo: int, hi: int)
    requires 0 < lo && hi <= |s|
    reads s
  {
    forall i {:trigger s[i].prev} :: lo <= i < hi ==> s[i].prev == s[i - 1]
  }

  /** A name for the solver to hang facts about one block on. */
  ghost predicate Known(b: Block) { true }

  /** Pool blocks that are not queued have both links null. */
  ghost predicate Loose(pool: set<Block>, queued: set<Block>)
    reads pool
  {
    && (forall b: Block {:trigger Known(b), b.prev} :: Known(b) && b in pool && b !in queued ==> b.prev == null)
    && (forall b: Block {:trigger Known(b), b.next} :: Known(b) && b in pool && b !in queued ==> b.next == null)
  }

  /** `queued` are the blocks between the two sentinels of the chain. */
  ghost predicate Covers(c: seq<Block>, queued: set<Block>) {
    && (forall i :: 0 < i < |c| - 1 ==> c[i] in queued)
    && (forall b {:trigger Known(b)} :: Known(b) && b in queued ==> b in c)
  }

  /** The blocks between the sentinels. */
  ghost function Inner(c: seq<Block>): seq<Block> {
    if |c| < 2 then [] else c[1..|c| - 1]
  }

  lemma InnerCut(c: seq<Block>, d: seq<Block>, k: int, n: nat)
    requires 0 < k && k + n < |c| && d == c[..k] + c[k + n..]
    ensures Inner(d) == Inner(c)[..k - 1] + Inner(c)[k - 1 + n..]
    ensures c[k..k + n] == Inner(c)[k - 1..k - 1 + n]
  {
    var a, r := Inner(d), Inner(c)[..k - 1] + Inner(c)[k - 1 + n..];
    assert |a| == |r|;
    forall i | 0 <= i < |a| ensures a[i] == r[i] {
      assert a[i] == d[i + 1] && r[i] == Inner(c)[if i < k - 1 then i else i + n];
    }
    assert a == r;
    var b := Inner(c)[k - 1..k - 1 + n];
    forall i | 0 <= i < n ensures c[k..k + n][i] == b[i] {
      assert b[i] == Inner(c)[k - 1 + i] == c[k + i];
    }
  }

  lemma Within(c: seq<Block>, k: int, n: nat, i: int)
    requires 0 <= k && k + n <= |c|
    ensures k <= i < k + n ==> c[i] in c[k..k + n]
  {
    if k <= i < k + n { assert c[k..k + n][i - k] == c[i]; }
  }

  lemma CutIsDistinct(c: seq<Block>, d: seq<Block>, k: int, n: nat)
    requires Distinct(c) && 0 < k && k + n < |c| && |d| == |c| - n
    requires forall i {:trigger d[i]} :: 0 <= i < |d| ==> d[i] == if i < k then c[i] else c[i + n]
    ensures Distinct(d)
    ensures forall i {:trigger d[i]} :: 0 <= i < |d| ==> d[i] !in c[k..k + n]
  {
  }

  /** The chain without c[k..k + n], and the blocks still queued. */
  lemma Cut(c: seq<Block>, queued: set<Block>, k: int, n: nat) returns (d: seq<Block>, q: set<Block>)
    requires Distinct(c) && Covers(c, queued) && 0 < k && k + n < |c|
    ensures |d| == |c| - n
    ensures forall i {:trigger d[i]} :: 0 <= i < |d| ==> d[i] == if i < k then c[i] else c[i + n]
    ensures Distinct(d) && Covers(d, q) && q <= queued
    ensures forall b {:trigger Known(b)} :: Known(b) && b in queued && b !in q ==>
        exists i :: k <= i < k + n && c[i] == b
    ensures Inner(d) == Inner(c)[..k - 1] + Inner(c)[k - 1 + n..]
    ensures c[k..k + n] == Inner(c)[k - 1..k - 1 + n]
  {
    d := c[..k] + c[k + n..];
    q := set b | b in queued && b !in c[k..k + n];
    InnerCut(c, d, k, n);
    CutIsDistinct(c, d, k, n);
    forall b {:trigger Known(b)} | Known(b) && b in q ensures b in d {
      var i :| 0 <= i < |c| && c[i] == b;
      Within(c, k, n, i);
      assert d[if i < k then i else i - n] == b;
    }
    forall b {:trigger Known(b)} | Known(b) && b in queued && b !in q ensures exists i :: k <= i < k + n && c[i] == b {
      var j :| 0 <= j < n && c[k..k + n][j] == b;
      assert c[k + j] == b;
    }
  }

  lemma InnerSplice(c: seq<Block>, d: seq<Block>, k: int, blocks: seq<Block>)
    requires 0 < k < |c| && d == c[..k] + blocks + c[k..]
    ensures k == 1 ==> Inner(d) == blocks + Inner(c)
    ensures k == |c| - 1 ==> Inner(d) == Inner(c) + blocks
  {
  }

  /** The chain with `blocks` before position `k`, and the blocks then queued. */
  lemma Splice(c: seq<Block>, queued: set<Block>, k: int, blocks: seq<Block>) returns (d: seq<Block>, q: set<Block>)
    requires Distinct(c) && Covers(c, queued) && 0 < k < |c| && Distinct(blocks)
    requires forall i :: 0 <= i < |blocks| ==> blocks[i] !in c
    ensures |d| == |c| + |blocks|
    ensures forall i {:trigger d[i]} :: 0 <= i < |d| ==>
              d[i] == if i < k then c[i] else if i < k + |blocks| then blocks[i - k] else c[i - |blocks|]
    ensures Distinct(d) && Covers(d, q)
    ensures forall b {:trigger b in q} :: b in q <==> b in queued || b in blocks
    ensures k == 1 ==> Inner(d) == blocks + Inner(c)
    ensures k == |c| - 1 ==> Inner(d) == Inner(c) + blocks
  {
    var n := |blocks|;
    d := c[..k] + blocks + c[k..];
    q := queued + set b | b in blocks;
    InnerSplice(c, d, k, blocks);
    forall i, j | 0 <= i < j < |d| ensures d[i] != d[j] {
      if k <= i < k + n && !(k <= j < k + n) { assert blocks[i - k] == d[i]; }
      if k <= j < k + n && !(k <= i < k + n) { assert blocks[j - k] == d[j]; }
    }
    forall b {:trigger Known(b)} | Known(b) && b in q ensures b in d {
      if b in blocks {
        var i :| 0 <= i < n && blocks[i] == b;
        assert d[i + k] == b;
      } else {
        var i :| 0 <= i < |c| && c[i] == b;
        assert d[if i < k then i else i + n] == b;
      }
    }
  }

  lemma WholeChain(h: Block, t: Block, blocks: seq<Block>) returns (d: seq<Block>, q: set<Block>)
    requires h != t && h !in blocks && t !in blocks && Distinct(blocks)
    ensures |d| == |blocks| + 2 && d[0] == h && d[|d| - 1] == t
    ensures forall i {:trigger d[i]} :: 0 < i < |d| - 1 ==> d[i] == blocks[i - 1]
    ensures q == (set b | b in blocks) && Distinct(d) && Covers(d, q)
    ensures Inner(d) == blocks
  {
    assert Inner([h, t]) == [];
    d, q := Splice([h, t], {}, 1, blocks);
  }

  /** In a linked chain with a gap closed or blocks put in at `k`, all links but those at the seam are right. */
  lemma SeamLinks(c: seq<Block>, d: seq<Block>, k: int, out: nat, added: nat)
    requires 0 < k && k + out < |c| && |d| == |c| - out + added
    requires forall i {:trigger d[i]} :: 0 <= i < k ==> d[i] == c[i]
    requires forall i {:trigger d[i]} :: k + added <= i < |d| ==> d[i] == c[i + out - added]
    requires Nexts(c, 0, k - 1) && Nexts(c, k + out, |c| - 1) && Prevs(c, 1, k) && Prevs(c, k + out + 1, |c|)
    ensures Nexts(d, 0, k - 1) && Prevs(d, 1, k)
    ensures Nexts(d, k + added, |d| - 1) && Prevs(d, k + added + 1, |d|)
  {
    forall i {:trigger d[i].next} | k + added <= i < |d| - 1 ensures d[i].next == d[i + 1] {
      assert c[i + out - added].next == c[i + out - added + 1];
    }
    forall i {:trigger d[i].prev} | k + added < i < |d| ensures d[i].prev == d[i - 1] {
      assert c[i + out - added].prev == c[i + out - added - 1];
    }
  }

  /** Links two blocks of the chain that stand at positions j and j + 1. */
  method LinkOne(left: Block, right: Block, ghost d: seq<Block>, ghost p: int, ghost j: int)
    requires Distinct(d) && 0 <= p <= j < |d| - 1 && d[j] == left && d[j + 1] == right
    requires Nexts(d, p, j) && Prevs(d, p + 1, j + 1)
    modifies left`next, right`prev
    ensures Nexts(d, p, j + 1) && Prevs(d, p + 1, j + 2)
  {
    right.prev := left;
    left.next := right;
  }

  /** Links `blocks`, which stand in the chain `d` from position p + 1 on, one after the other behind `last`,
      and returns the last of them. */
  method LinkAfter(last: Block, blocks: seq<Block>, ghost d: seq<Block>, ghost p: int) returns (end: Block)
    requires Distinct(d) && 0 <= p && p + |blocks| + 1 < |d| && d[p] == last
    requires forall i :: 0 <= i < |blocks| ==> blocks[i] == d[p + 1 + i]
    modifies last`next, blocks
    ensures end == d[p + |blocks|]
    ensures Nexts(d, p, p + |blocks|) && Prevs(d, p + 1, p + |blocks| + 1)
    ensures forall i {:trigger d[i].next} :: 0 <= i < p || p + |blocks| < i < |d| ==> d[i].next == old(d[i].next)
    ensures forall i {:trigger d[i].prev} :: 0 <= i <= p || p + |blocks| < i < |d| ==> d[i].prev == old(d[i].prev)
  {
    end := last;
    for i := 0 to |blocks|
      invariant end == d[p + i] && (end == last || end in blocks)
      invariant Nexts(d, p, p + i) && Prevs(d, p + 1, p + i + 1)
    {
      var block := blocks[i];
      assert block == d[p + 1 + i];
      LinkOne(end, block, d, p, p + i);
      end := block;
    }
    NotIn(d, p + 1, blocks);
  }

  lemma NotIn(d: seq<Block>, lo: int, blocks: seq<Block>)
    requires Distinct(d) && 0 <= lo && lo + |blocks| <= |d|
    requires forall i :: 0 <= i < |blocks| ==> blocks[i] == d[lo + i]
    ensures forall i {:trigger d[i]} :: 0 <= i < lo || lo + |blocks| <= i < |d| ==> d[i] !in blocks
  {
  }

  /** Links each block to its neighbours in the list; the outer links are left alone. */
  method LinkNeighbours(blocks: seq<Block>)
    requires Distinct(blocks)
    modifies blocks
    ensures Nexts(blocks, 0, |blocks| - 1) && Prevs(blocks, 1, |blocks|)
  {
    for i := 0 to |blocks|
      invariant forall k {:trigger blocks[k].prev} :: 1 <= k < i ==> blocks[k].prev == blocks[k - 1]
      invariant forall k {:trigger blocks[k].next} :: 0 <= k < i && k < |blocks| - 1 ==> blocks[k].next == blocks[k + 1]
    {
      if i > 0 { blocks[i].prev := blocks[i - 1]; }
      if i < |blocks| - 1 { blocks[i].next := blocks[i + 1]; }
    }
  }

  /** Connects the sentinels to the first and the last block of a linked list. */
  method ConnectEnds(head: Block, tail: Block, blocks: seq<Block>, ghost d: seq<Block>)
    requires |blocks| > 0 && Distinct(d) && |d| == |blocks| + 2 && d[0] == head && d[|d| - 1] == tail
    requires forall i {:trigger d[i]} :: 0 < i < |d| - 1 ==> d[i] == blocks[i - 1]
    requires Nexts(blocks, 0, |blocks| - 1) && Prevs(blocks, 1, |blocks|)
    modifies head, tail, blocks[0], blocks[|blocks| - 1]
    ensures Nexts(d, 0, |d| - 1) && Prevs(d, 1, |d|)
    ensures head.prev == old(head.prev) && tail.next == old(tail.next)
  {
    var first, last := blocks[0], blocks[|blocks| - 1];
    assert d[1] == first && d[|d| - 2] == last;
    assert Nexts(d, 1, |d| - 2) && Prevs(d, 2, |d| - 1) by {
      forall i {:trigger d[i].next} | 1 <= i < |d| - 2 ensures d[i].next == d[i + 1] {
        assert blocks[i - 1].next == blocks[i];
      }
      forall i {:trigger d[i].prev} | 2 <= i < |d| - 1 ensures d[i].prev == d[i - 1] {
        assert blocks[i - 1].prev == blocks[i - 2];
      }
    }
    head.next := first;
    first.prev := head;
    tail.prev := last;
    last.next := tail;
  }

  /** Connects the sentinels to a linked list, or to each other if it is empty. */
  method Connect(head: Block, tail: Block, blocks: seq<Block>, ghost d: seq<Block>)
    requires Distinct(d) && |d| == |blocks| + 2 && d[0] == head && d[|d| - 1] == tail
    requires forall i {:trigger d[i]} :: 0 < i < |d| - 1 ==> d[i] == blocks[i - 1]
    requires Nexts(blocks, 0, |blocks| - 1) && Prevs(blocks, 1, |blocks|)
    modifies head, tail, blocks
    ensures Nexts(d, 0, |d| - 1) && Prevs(d, 1, |d|)
    ensures head.prev == old(head.prev) && tail.next == old(tail.next)
  {
    if |blocks| > 0 {
      ConnectEnds(head, tail, blocks, d);
    } else {
      head.next := tail;
      tail.prev := head;
    }
  }

  /** Walks over the blocks at positions 1..n of the chain, clearing their links, up to the block after them. */
  method Detach(first: Block?, n: nat, ghost c: seq<Block>) returns (ret: seq<Block>, rest: Block?)
    requires 0 < n < |c| - 1 && first == c[1] && Distinct(c) && Nexts(c, 1, n + 1)
    modifies c[1..n + 1]
    ensures ret == c[1..n + 1] && rest == c[n + 1]
    ensures forall i {:trigger c[i]} :: 0 < i <= n ==> c[i].prev == null && c[i].next == null
    ensures forall i {:trigger c[i].next} :: i == 0 || n < i < |c| ==> c[i].next == old(c[i].next)
    ensures forall i {:trigger c[i].prev} :: i == 0 || n < i < |c| ==> c[i].prev == old(c[i].prev)
  {
    ret, rest := [], first;
    for i := 0 to n
      invariant ret == c[1..i + 1] && rest == c[i + 1]
      invariant Nexts(c, i + 1, n + 1)
      invariant forall j {:trigger c[j]} :: 0 < j <= i ==> c[j].prev == null && c[j].next == null
      invariant forall j {:trigger c[j].next} :: j == 0 || n < j < |c| ==> c[j].next == old(c[j].next)
      invariant forall j {:trigger c[j].prev} :: j == 0 || n < j < |c| ==> c[j].prev == old(c[j].prev)
    {
      assert c[1..n + 1][i] == c[i + 1];
      ret := ret + [rest];
      var last := rest;
      rest := rest.next;
      last.prev, last.next := null, null;
    }
  }

  datatype PopError = NoFreeBlocks
  datatype RemoveError = InvalidBlock

  class Queue {
    const head: Block
    const tail: Block
    var numFree: int
    // Every real block this queue may hold, those it holds, and the chain from sentinel to sentinel.
    ghost const Pool: set<Block>
    ghost var Queued: set<Block>
    ghost var Chain: seq<Block>

    ghost predicate Valid()
      reads this, head, tail, Pool
    {
      && numFree == |Chain| - 2
      && |Chain| >= 2 && Chain[0] == head && Chain[|Chain| - 1] == tail
      && head !in Pool && tail !in Pool && Queued <= Pool
      && Covers(Chain, Queued)
      && Distinct(Chain)
      && Nexts(Chain, 0, |Chain| - 1) && Prevs(Chain, 1, |Chain|)
      && head.prev == null && tail.next == null
      && Loose(Pool, Queued)
    }

    /** The abstract value: the real blocks in eviction order. */
    ghost function Free(): seq<Block>
      reads this
    {
      Inner(Chain)
    }

    constructor (blocks: seq<Block>)
      requires Distinct(blocks)
      modifies blocks
      ensures Valid() && fresh(head) && fresh(tail)
      ensures Free() == blocks && Pool == set b | b in blocks
    {
      var h := new Block(-1);
      var t := new Block(-1);
      ghost var d, q := WholeChain(h, t, blocks);
      LinkNeighbours(blocks);
      Connect(h, t, blocks, d);
      head, tail, numFree := h, t, |blocks|;
      Chain, Queued, Pool := d, q, q;
    }

    /** Everything is in place for the chain `d` except the link between positions p and p + 1. */
    ghost predicate Opened(d: seq<Block>, q: set<Block>, p: int)
      reads this, head, tail, Pool
    {
      && numFree == |d| - 2 && 0 <= p < |d| - 1 && |d| >= 2 && d[0] == head && d[|d| - 1] == tail
      && head !in Pool && tail !in Pool && q <= Pool && Covers(d, q) && Distinct(d)
      && Nexts(d, 0, p) && Nexts(d, p + 1, |d| - 1) && Prevs(d, 1, p + 1) && Prevs(d, p + 2, |d|)
      && head.prev == null && tail.next == null && Loose(Pool, q)
    }

    method Close(left: Block, right: Block, ghost d: seq<Block>, ghost q: set<Block>, ghost p: int)
      requires Opened(d, q, p) && left == d[p] && right == d[p + 1]
      modifies this`Chain, this`Queued, left, right
      ensures Valid() && Chain == d && Queued == q
    {
      left.next := right;
      right.prev := left;
      Chain, Queued := d, q;
    }

    /** The links of a pool block tell whether it is queued: the guard of `Remove` decides membership. */
    lemma LinksDecideMembership(b: Block)
      requires Valid() && b in Pool
      ensures b in Free() <==> b in Queued
      ensures b in Free() <==> b.prev != null && b.next != null
      ensures b !in Free() <==> b.prev == null && b.next == null
    {
      assert Known(b);
      if b in Chain {
        var k :| 0 <= k < |Chain| && Chain[k] == b;
        assert Free()[k - 1] == b;
        assert Chain[k].prev == Chain[k - 1] && Chain[k].next == Chain[k + 1];
      }
    }

    /** The abstract sequence is not a free choice: the links determine it. */
    lemma LinksDetermineFree(s: seq<Block>)
      requires Valid() && tail !in s
      requires Nexts([head] + s + [tail], 0, |s| + 1)
      ensures s == Free()
    {
      var c, d := Chain, [head] + s + [tail];
      var n := 0;
      while n + 1 < |c| && n + 1 < |d|
        invariant n < |c| && n < |d|
        invariant forall i :: 0 <= i <= n ==> c[i] == d[i]
      {
        assert c[n].next == c[n + 1] && d[n].next == d[n + 1];
        n := n + 1;
      }
      assert c[n] == d[n];
      assert s == d[1..|d| - 1];
    }

    method PopLeft() returns (r: Result<Block, PopError>)
      requires Valid()
      modifies this, head, tail, Pool
      ensures Valid()
      ensures r.Err? <==> old(Free()) == []
      ensures r.Err? ==> Free() == old(Free())
      ensures r.Ok? ==> r.value == old(Free())[0] && Free() == old(Free())[1..]
    {
      ghost var c := Chain;
      assert c[0].next == c[1];
      if head.next == tail || head.next == null { return Err(NoFreeBlocks); }
      var first := head.next;
      assert c[1].next == c[2];
      ghost var d, q := Cut(c, Queued, 1, 1);
      SeamLinks(c, d, 1, 1, 0);
      assert forall i {:trigger d[i]} :: 0 <= i < |d| ==> d[i] != first;
      var second := first.next;
      first.prev, first.next := null, null;
      numFree := numFree - 1;
      Close(head, second, d, q, 0);
      return Ok(first);
    }

    /** Takes the first `n` blocks off; only the link from the head to the block after them is then missing. */
    method DetachFront(first: Block?, n: nat, ghost d: seq<Block>, ghost q: set<Block>)
        returns (ret: seq<Block>, rest: Block?)
      requires Valid() && 0 < n < |Chain| - 1 && first == Chain[1] && |d| == |Chain| - n
      requires forall i {:trigger d[i]} :: 0 <= i < |d| ==> d[i] == if i < 1 then Chain[i] else Chain[i + n]
      requires Distinct(d) && Covers(d, q) && q <= Queued
      requires forall b {:trigger Known(b)} :: Known(b) && b in Queued && b !in q ==>
          exists i :: 1 <= i < 1 + n && Chain[i] == b
      modifies this`numFree, Chain[1..n + 1]
      ensures Opened(d, q, 0) && ret == old(Chain)[1..n + 1] && rest == d[1]
    {
      assert forall b :: b in Chain[1..n + 1] ==> b in Queued;
      numFree := numFree - n;
      ret, rest := Detach(first, n, Chain);
      SeamLinks(Chain, d, 1, n, 0);
      forall b: Block {:trigger Known(b)} | Known(b) && b in Pool && b !in q ensures b.prev == null && b.next == null {
        if b in Queued {
          var i :| 1 <= i < 1 + n && Chain[i] == b;
        }
      }
    }

    method PopLeftN(n: nat) returns (r: Result<seq<Block>, PopError>)
      requires Valid()
      modifies this, head, tail, Pool
      ensures Valid()
      ensures r.Err? <==> n > |old(Free())|
      ensures r.Err? ==> Free() == old(Free())
      ensures r.Ok? ==> r.value == old(Free())[..n] && Free() == old(Free())[n..]
    {
      if n == 0 { return Ok([]); }
      if numFree < n { return Err(NoFreeBlocks); }
      ghost var d, q := Cut(Chain, Queued, 1, n);
      assert Chain[0].next == Chain[1];
      var ret, curr := DetachFront(head.next, n, d, q);
      if curr != null {
        Close(head, curr, d, q, 0);
      }
      return Ok(ret);
    }

    /** Raises exactly for a pool block that is not queued. */
    method Remove(block: Block) returns (r: Result<(), RemoveError>)
      requires Valid() && block in Pool
      modifies this, head, tail, Pool
      ensures Valid()
      ensures r.Err? <==> block !in old(Free())
      ensures r.Err? ==> Free() == old(Free())
      ensures r.Ok? ==> exists k :: 0 <= k < |old(Free())| && old(Free())[k] == block
                                    && Free() == old(Free())[..k] + old(Free())[k + 1..]
    {
      LinksDecideMembership(block);
      if block.prev == null || block.next == null { return Err(InvalidBlock); }
      ghost var c := Chain;
      assert Known(block);
      ghost var k :| 0 <= k < |c| && c[k] == block;
      assert c[k].prev == c[k - 1] && c[k].next == c[k + 1];
      ghost var d, q := Cut(c, Queued, k, 1);
      assert Inner(c)[k - 1] == block;
      var left, right := block.prev, block.next;
      Unlink(block, k, d, q);
      Close(left, right, d, q, k - 1);
      return Ok(());
    }

    /** Clears the links of the block at position `k`; only the link between its neighbours is then missing. */
    method Unlink(block: Block, ghost k: int, ghost d: seq<Block>, ghost q: set<Block>)
      requires Valid() && 0 < k < |Chain| - 1 && block == Chain[k] && |d| == |Chain| - 1
      requires forall i {:trigger d[i]} :: 0 <= i < |d| ==> d[i] == if i < k then Chain[i] else Chain[i + 1]
      requires Distinct(d) && Covers(d, q) && q <= Queued
      requires forall b {:trigger Known(b)} :: Known(b) && b in Queued && b !in q ==> b == block
      modifies this`numFree, block
      ensures Opened(d, q, k - 1)
    {
      SeamLinks(Chain, d, k, 1, 0);
      assert forall i {:trigger d[i]} :: 0 <= i < |d| ==> d[i] != block;
      block.prev, block.next := null, null;
      numFree := numFree - 1;
    }

    method Append(block: Block)
      requires Valid() && block in Pool && block !in Free()
      modifies this, head, tail, Pool
      ensures Valid() && Free() == old(Free()) + [block]
    {
      ghost var m := |Chain| - 1;
      assert Chain[m].prev == Chain[m - 1];
      LinksDecideMembership(block);
      assert block in Chain ==> block in Queued;
      ghost var d, q := Splice(Chain, Queued, m, [block]);
      HangOne(tail.prev, block, d, q);
      Close(block, tail, d, q, m);
    }

    /** Hangs a block behind the last one; only the link between it and the tail is then missing. */
    method HangOne(last: Block, block: Block, ghost d: seq<Block>, ghost q: set<Block>)
      requires Valid() && last == Chain[|Chain| - 2] && |d| == |Chain| + 1
      requires forall i {:trigger d[i]} :: 0 <= i < |d| ==>
                 d[i] == if i < |Chain| - 1 then Chain[i] else if i == |Chain| - 1 then block else tail
      requires Distinct(d) && Covers(d, q) && q <= Pool && Queued <= q && block in q
      modifies this`numFree, last`next, block`prev
      ensures Opened(d, q, |Chain| - 1)
    {
      ghost var m := |Chain| - 1;
      SeamLinks(Chain, d, m, 0, 1);
      assert d[m] == block && (m == 1 || last in q);
      assert forall i {:trigger d[i]} :: 0 <= i < m ==> d[i] != block;
      last.next := block;
      block.prev := last;
      forall b: Block {:trigger Known(b)} | Known(b) && b in Pool && b !in q ensures b.prev == null && b.next == null {
        assert b != last && b != block;
      }
      numFree := numFree + 1;
    }

    /** Hangs `blocks` behind the block at position k - 1; only the link after them is then missing. */
    method HangRun(left: Block, blocks: seq<Block>, ghost k: int, ghost d: seq<Block>, ghost q: set<Block>)
        returns (end: Block)
      requires Valid() && 0 < k < |Chain| && left == Chain[k - 1] && |d| == |Chain| + |blocks|
      requires forall i {:trigger d[i]} :: 0 <= i < |d| ==>
                 d[i] == if i < k then Chain[i] else if i < k + |blocks| then blocks[i - k] else Chain[i - |blocks|]
      requires Distinct(d) && Covers(d, q) && q <= Pool && Queued <= q
      requires forall i :: 0 <= i < |blocks| ==> blocks[i] in q
      modifies this`numFree, left`next, blocks
      ensures Opened(d, q, k - 1 + |blocks|) && end == d[k - 1 + |blocks|]
    {
      SeamLinks(Chain, d, k, 0, |blocks|);
      assert k == 1 || left in q;
      NotIn(d, k, blocks);
      end := LinkAfter(left, blocks, d, k - 1);
      forall b: Block {:trigger Known(b)} | Known(b) && b in Pool && b !in q ensures b.prev == null && b.next == null {
        assert b != left && b !in blocks;
      }
      numFree := numFree + |blocks|;
    }

    method AppendN(blocks: seq<Block>)
      requires Valid() && Distinct(blocks)
      requires forall i :: 0 <= i < |blocks| ==> blocks[i] in Pool && blocks[i] !in Free()
      modifies this, head, tail, Pool
      ensures Valid() && Free() == old(Free()) + blocks
    {
      if |blocks| == 0 { return; }
      ghost var m := |Chain| - 1;
      assert Chain[m].prev == Chain[m - 1];
      forall i | 0 <= i < |blocks| ensures blocks[i] !in Chain { LinksDecideMembership(blocks[i]); }
      ghost var d, q := Splice(Chain, Queued, m, blocks);
      var last := HangRun(tail.prev, blocks, m, d, q);
      Close(last, tail, d, q, m - 1 + |blocks|);
    }

    method PrependN(blocks: seq<Block>)
      requires Valid() && Distinct(blocks)
      requires forall i :: 0 <= i < |blocks| ==> blocks[i] in Pool && blocks[i] !in Free()
      modifies this, head, tail, Pool
      ensures Valid() && Free() == blocks + old(Free())
    {
      if |blocks| == 0 { return; }
      assert Chain[0].next == Chain[1];
      forall i | 0 <= i < |blocks| ensures blocks[i] !in Chain { LinksDecideMembership(blocks[i]); }
      ghost var d, q := Splice(Chain, Queued, 1, blocks);
      var first := head.next;
      var prev := HangRun(head, blocks, 1, d, q);
      Close(prev, first, d, q, |blocks|);
    }

    method GetAllFreeBlocks() returns (ret: seq<Block>)
      requires Valid()
      ensures ret == Free()
    {
      ret := BlocksAfter(None);
    }

    /** The blocks in eviction order after the cursor: all of them without one, none after a block
        that is not queued. */
    method BlocksAfter(cursor: Option<Block>) returns (ret: seq<Block>)
      requires Valid() && (cursor.Some? ==> cursor.value in Pool)
      ensures cursor.None? ==> ret == Free()
      ensures forall k :: cursor.Some? && 0 <= k < |Free()| && Free()[k] == cursor.value ==> ret == Free()[k + 1..]
      ensures cursor.Some? && cursor.value !in Free() ==> ret == []
    {
      ret := [];
      ghost var k := 0;
      assert Chain[0].next == Chain[1];
      var curr := head.next;
      if cursor.Some? {
        curr := cursor.value.next;
        LinksDecideMembership(cursor.value);
        if cursor.value in Free() {
          k :| 0 <= k < |Free()| && Free()[k] == cursor.value;
          k := k + 1;
          assert Chain[k].next == Chain[k + 1];
        }
      }
      ghost var queued := cursor.None? || cursor.value in Free();
      while curr != null && curr != tail
        invariant k + |ret| + 1 < |Chain| && ret == Chain[k + 1..k + 1 + |ret|]
        invariant if queued then curr == Chain[k + |ret| + 1] else curr == null
        invariant !queued ==> ret == []
        decreases |Chain| - |ret|
      {
        assert Chain[k + |ret| + 1].next == Chain[k + |ret| + 2];
        ret := ret + [curr];
        curr := curr.next;
      }
    }
  }
}
