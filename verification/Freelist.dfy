/** Storage blocks and the list that recycles them. */
module Blocks {
  import opened Bytes
  import opened Cells

  /** One storage block of a buffer. The storage lies inside the block, behind its header, so
      it is a field of fixed length. `place` is a proof aid: it numbers the blocks of a buffer
      chain upwards and the blocks of a freelist downwards from minus one, so that no block
      can be in two places. */
  class Block {
    var next: Block?
    var offset: nat
    var len: nat
    var buf: seq<Byte>
    ghost var place: int

    constructor Alloc(capacity: nat)
      ensures next == null && offset == 0 && len == 0
      ensures |buf| == capacity
    {
      next, offset, len := null, 0, 0;
      buf := seq(capacity, _ => 0);
    }

    ghost predicate Fits()
      reads this
    {
      offset + len <= |buf|
    }

    ghost function Value(): Cell
      requires Fits()
      reads this
    {
      RawCell(buf, offset, len)
    }

    function SpaceHead(): nat
      reads this
    {
      offset + len
    }

    function SpaceLen(): nat
      requires Fits()
      reads this
    {
      |buf| - offset - len
    }

    /** Commit up to `size` bytes of this block's room; returns what is left to commit. */
    method Commit(size: nat) returns (rest: nat)
      requires Fits()
      modifies this`len
      ensures Fits()
      ensures var t := if size < old(SpaceLen()) then size else old(SpaceLen());
              rest == size - t && len == old(len) + t
    {
      var toCommit := if size < SpaceLen() then size else SpaceLen();
      len := len + toCommit;
      rest := size - toCommit;
    }

    /** Drain up to `size` bytes of this block's data; returns what is left to drain. */
    method Drain(size: nat) returns (rest: nat)
      requires Fits()
      modifies this`offset, this`len
      ensures Fits()
      ensures var t := if old(len) < size then old(len) else size;
              rest == size - t && offset == old(offset) + t && len == old(len) - t
    {
      var toDrain := if len < size then len else size;
      offset, len := offset + toDrain, len - toDrain;
      rest := size - toDrain;
    }
  }

  /** The i-th block of a chain, or null past its end: what a `next` pointer holds. */
  ghost function At(s: seq<Block>, i: nat): Block? {
    if i < |s| then s[i] else null
  }

  /** A null-terminated chain of blocks of `own`, numbered from `first`. */
  ghost predicate Chained(s: seq<Block>, own: set<Block>, first: int)
    reads own
  {
    && (forall i :: 0 <= i < |s| ==> s[i] in own && s[i].place == first + i)
    && (forall i {:trigger s[i].next} :: 0 <= i < |s| ==> s[i].next == At(s, i + 1))
  }

  /** Renumbering a chain changes nothing else about it. */
  ghost method Renumber(s: seq<Block>, own: set<Block>, first: int, first': int)
    requires Chained(s, own, first)
    modifies own
    ensures Chained(s, own, first')
    ensures forall b :: b in own ==> unchanged(b`next, b`offset, b`len, b`buf)
  {
    forall i | 0 <= i < |s| {
      s[i].place := first' + i;
    }
  }

  /** Pointing the last block of one chain at the head of another joins them. */
  lemma Joined(a: seq<Block>, b: seq<Block>, own: set<Block>, first: int)
    requires forall i :: 0 <= i < |a| ==> a[i] in own && a[i].place == first + i
    requires forall i {:trigger a[i].next} :: 0 <= i < |a| - 1 ==> a[i].next == a[i + 1]
    requires a != [] && a[|a| - 1].next == At(b, 0)
    requires Chained(b, own, first + |a|)
    ensures Chained(a + b, own, first)
  {
    var s := a + b;
    forall i | 0 <= i < |s| ensures s[i] in own && s[i].place == first + i && s[i].next == At(s, i + 1) {
      if i < |a| {
        assert s[i] == a[i] && At(s, i + 1) == if i == |a| - 1 then At(b, 0) else a[i + 1];
      } else {
        assert s[i] == b[i - |a|] && At(s, i + 1) == At(b, i - |a| + 1);
      }
    }
  }

  lemma Wider(s: seq<Block>, own: set<Block>, own': set<Block>, first: int)
    requires Chained(s, own, first) && own <= own'
    ensures Chained(s, own', first)
  {
  }

  /** An unbounded list of free blocks, used as a stack. */
  class Freelist {
    const capacity: nat
    var head: Block?
    var size: nat
    ghost var free: seq<Block>  // the blocks on the list, head first
    ghost var pool: set<Block>  // its footprint

    ghost predicate Valid()
      reads this, pool
    {
      && head == At(free, 0)
      && size == |free|
      && Chained(free, pool, -|free|)
      && (forall i :: 0 <= i < |free| ==> |free[i].buf| == capacity)
    }

    constructor (capacity: nat)
      ensures Valid() && free == [] && pool == {} && this.capacity == capacity
    {
      this.capacity := capacity;
      head, size, free, pool := null, 0, [], {};
    }

    /** A blank block: the most recently freed one, or a newly allocated one if none is free. */
    method New() returns (b: Block)
      requires Valid()
      modifies this, pool
      ensures Valid()
      ensures if old(free) == [] then fresh(b) && free == []
              else b == old(free)[0] && free == old(free)[1..]
      ensures pool == old(pool) - {b} && (fresh(b) || b in old(pool))
      ensures b.next == null && b.offset == 0 && b.len == 0 && |b.buf| == capacity
    {
      if head == null {
        b := new Block.Alloc(capacity);
        return;
      }
      b := head;
      head := b.next;
      size := size - 1;
      free, pool := free[1..], pool - {b};
      b.next, b.offset, b.len := null, 0, 0;
    }

    /** Give one block back. */
    method Delete(block: Block)
      requires Valid() && block !in pool && |block.buf| == capacity
      modifies this, block`next, block`place
      ensures Valid() && free == [block] + old(free) && pool == old(pool) + {block}
    {
      block.next := head;
      head := block;
      size := size + 1;
      block.place := -1 - |free|;
      free, pool := [block] + free, pool + {block};
    }

    /** Walk a chain to its last block, counting. */
    static method Last(first: Block, ghost chain: seq<Block>, ghost own: set<Block>, ghost base: int)
      returns (tail: Block, count: nat)
      requires first == At(chain, 0) && Chained(chain, own, base)
      ensures count == |chain| > 0 && tail == chain[count - 1]
    {
      count, tail := 1, first;
      while tail.next != null
        invariant 1 <= count <= |chain| && tail == chain[count - 1]
        decreases |chain| - count
      {
        tail := tail.next;
        count := count + 1;
      }
    }

    /** Give a whole chain back, in order, in front of the blocks already free. */
    method DeleteChain(first: Block?, ghost chain: seq<Block>, ghost own: set<Block>, ghost base: int)
      requires Valid() && first == At(chain, 0) && Chained(chain, own, base)
      requires own !! pool && forall i :: 0 <= i < |chain| ==> |chain[i].buf| == capacity
      modifies this, own
      ensures Valid() && free == chain + old(free) && pool == old(pool) + own
    {
      if first == null {
        Adopt(own);
        assert free == chain + old(free);
        return;
      }
      var tail, count := Last(first, chain, own, base);
      Renumber(chain, own, base, -count - |free|);
      LinkTail(tail, chain, own);
      head := first;
      size := size + count;
      free, pool := chain + free, pool + own;
    }

    ghost method Adopt(own: set<Block>)
      requires Valid()
      modifies this`pool
      ensures Valid() && pool == old(pool) + own
    {
      Wider(free, pool, pool + own, -|free|);
      pool := pool + own;
    }

    method LinkTail(tail: Block, ghost chain: seq<Block>, ghost own: set<Block>)
      requires Valid() && own !! pool && chain != [] && tail == chain[|chain| - 1]
      requires Chained(chain, own, -|chain| - |free|)
      modifies tail`next
      ensures Chained(chain + free, own + pool, -|chain| - |free|)
    {
      tail.next := head;
      Wider(free, pool, own + pool, -|free|);
      Joined(chain, free, own + pool, -|chain| - |free|);
    }

    /** Drop every free block. */
    method Clear()
      requires Valid()
      modifies this, pool
      ensures Valid() && free == []
    {
      while head != null
        invariant Valid() && pool <= old(pool)
        decreases |free|
      {
        var dropped := New();
      }
    }

    /** Put n newly allocated blocks on the list. */
    method FillN(n: nat) returns (ghost added: seq<Block>)
      requires Valid()
      modifies this
      ensures Valid() && free == added + old(free) && |added| == n
      ensures forall b :: b in added ==> fresh(b)
    {
      added := [];
      for i := 0 to n
        invariant Valid() && free == added + old(free) && |added| == i
        invariant fresh(pool - old(pool)) && forall b :: b in added ==> fresh(b)
      {
        var block := new Block.Alloc(capacity);
        Delete(block);
        added := [block] + added;
      }
    }
  }
}
