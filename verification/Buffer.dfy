/** The proxy's scatter-gather buffer: a queue of bytes kept in a chain of blocks. */
module Buffers {
  import opened Bytes
  import opened Cells
  import opened Blocks

  /** A piece of a block handed out for input or output: a pointer and a length. */
  datatype Seg = Seg(block: Block, start: nat, len: nat) {
    ghost predicate Fits()
      reads block
    {
      start + len <= |block.buf|
    }
  }

  /** The bytes now lying in a list of segments, in order. */
  ghost function Gather(segs: seq<Seg>): seq<Byte>
    reads set s | s in segs :: s.block
    requires forall i :: 0 <= i < |segs| ==> segs[i].Fits()
  {
    if segs == [] then []
    else
      assert segs[0].Fits();
      segs[0].block.buf[segs[0].start..segs[0].start + segs[0].len] + Gather(segs[1..])
  }

  function Total(segs: seq<Seg>): nat {
    if segs == [] then 0 else segs[0].len + Total(segs[1..])
  }

  lemma {:induction false} TotalAppend(segs: seq<Seg>, s: Seg)
    ensures Total(segs + [s]) == Total(segs) + s.len
  {
    if segs == [] {
      assert segs + [s] == [s];
    } else {
      assert (segs + [s])[1..] == segs[1..] + [s];
      TotalAppend(segs[1..], s);
    }
  }

  /** The segments are the free space of the chain from its k-th block on; only the last
      one may stop short of its block's end. */
  ghost predicate Covers(segs: seq<Seg>, chain: seq<Block>, cells: seq<Cell>, k: nat) {
    && |chain| == |cells|
    && (segs != [] ==> k + |segs| <= |chain|)
    && forall j :: 0 <= j < |segs| ==>
         && segs[j].block == chain[k + j]
         && segs[j].start == cells[k + j].offset + cells[k + j].len
         && 0 < segs[j].len <= |CellRoom(cells[k + j])|
         && (j < |segs| - 1 ==> segs[j].len == |CellRoom(cells[k + j])|)
  }

  ghost predicate Filled(segs: seq<Seg>, cells: seq<Cell>, k: nat) {
    k + |segs| <= |cells| && forall j :: 0 <= j < |segs| ==> segs[j].len == |CellRoom(cells[k + j])|
  }

  /** The segments are the data of the chain's first blocks; only the last one may miss
      data that was committed after it was handed out. */
  ghost predicate Shows(segs: seq<Seg>, chain: seq<Block>, cells: seq<Cell>) {
    && |segs| <= |chain| == |cells|
    && forall j :: 0 <= j < |segs| ==>
         && segs[j].block == chain[j]
         && segs[j].start == cells[j].offset
         && 0 < segs[j].len <= cells[j].len
         && (j < |segs| - 1 ==> segs[j].len == cells[j].len)
  }

  /** Segments stay right when blocks are added at the tail. */
  lemma CoversLonger(segs: seq<Seg>, k: nat, chain: seq<Block>, cells: seq<Cell>, chain': seq<Block>, cells': seq<Cell>)
    requires Covers(segs, chain, cells, k) && chain <= chain' && cells <= cells' && |chain'| == |cells'|
    ensures Covers(segs, chain', cells', k)
    ensures Filled(segs, cells, k) ==> Filled(segs, cells', k)
  {
  }

  lemma ShowsLonger(segs: seq<Seg>, chain: seq<Block>, cells: seq<Cell>, chain': seq<Block>, cells': seq<Cell>)
    requires Shows(segs, chain, cells) && chain <= chain' && cells <= cells' && |chain'| == |cells'|
    ensures Shows(segs, chain', cells')
  {
  }

  /** One more segment, in the next block. */
  lemma CoversPush(segs: seq<Seg>, s: Seg, k: nat, chain: seq<Block>, cells: seq<Cell>)
    requires Covers(segs, chain, cells, k) && Filled(segs, cells, k) && k + |segs| < |chain|
    requires var c := cells[k + |segs|];
             s.block == chain[k + |segs|] && s.start == c.offset + c.len && 0 < s.len <= |CellRoom(c)|
    ensures Covers(segs + [s], chain, cells, k)
    ensures s.len == |CellRoom(cells[k + |segs|])| ==> Filled(segs + [s], cells, k)
  {
  }

  ghost predicate Mirrors(chain: seq<Block>, cells: seq<Cell>)
    reads chain
  {
    |chain| == |cells| && forall i :: 0 <= i < |chain| ==> chain[i].buf == cells[i].buf
  }

  ghost predicate AllFit(segs: seq<Seg>)
    reads set s | s in segs :: s.block
  {
    forall i :: 0 <= i < |segs| ==> segs[i].Fits()
  }

  lemma ShowsPush(segs: seq<Seg>, s: Seg, chain: seq<Block>, cells: seq<Cell>)
    requires Shows(segs, chain, cells) && Entire(segs, cells) && |segs| < |chain|
    requires var c := cells[|segs|];
             s.block == chain[|segs|] && s.start == c.offset && 0 < s.len == c.len
    ensures Shows(segs + [s], chain, cells) && Entire(segs + [s], cells)
  {
  }

  ghost predicate Entire(segs: seq<Seg>, cells: seq<Cell>) {
    |segs| <= |cells| && forall j :: 0 <= j < |segs| ==> segs[j].len == cells[j].len
  }

  /** What a list of peeked segments reads is a prefix of the data; and all of it when the
      segments show every byte. */
  lemma {:induction false} GatherShows(segs: seq<Seg>, chain: seq<Block>, cells: seq<Cell>)
    requires Shows(segs, chain, cells) && Mirrors(chain, cells)
    ensures AllFit(segs) && Gather(segs) <= Data(cells)
    ensures Entire(segs, cells) && (forall j :: |segs| <= j < |cells| ==> cells[j].len == 0)
            ==> Gather(segs) == Data(cells)
  {
    if segs == [] {
      if forall j :: 0 <= j < |cells| ==> cells[j].len == 0 { NoData(cells); }
    } else {
      GatherShows(segs[1..], chain[1..], cells[1..]);
      FirstShown(segs, chain, cells);
      hide Mirrors, CellData;
      if |segs| == 1 {
        assert Gather(segs[1..]) == [];
      }
    }
  }

  lemma FirstShown(segs: seq<Seg>, chain: seq<Block>, cells: seq<Cell>)
    requires Shows(segs, chain, cells) && Mirrors(chain, cells) && segs != [] && AllFit(segs[1..])
    ensures AllFit(segs) && segs[0].Fits()
    ensures segs[0].block.buf[segs[0].start..segs[0].start + segs[0].len] == CellData(cells[0])[..segs[0].len]
    ensures |segs| > 1 || segs[0].len == cells[0].len ==> segs[0].len == |CellData(cells[0])|
  {
    assert segs[0].block == chain[0];
    forall i | 0 <= i < |segs| ensures segs[i].Fits() {
      if i > 0 { assert segs[1..][i - 1] == segs[i]; }
    }
  }

  lemma RoomPiece(c: Cell, n: nat)
    requires n <= |CellRoom(c)|
    ensures c.buf[c.offset + c.len..c.offset + c.len + n] == CellRoom(c)[..n]
  {
  }

  /** What lies in reserved segments is the first part of the room behind the data. */
  lemma {:induction false} GatherCovers(segs: seq<Seg>, chain: seq<Block>, cells: seq<Cell>, k: nat)
    requires Covers(segs, chain, cells, k) && Mirrors(chain, cells)
    requires forall i :: 0 <= i < k && i < |cells| ==> CellRoom(cells[i]) == []
    ensures AllFit(segs) && Total(segs) <= |Room(cells)| && Gather(segs) == Room(cells)[..Total(segs)]
  {
    if segs != [] && k > 0 {
      GatherCovers(segs, chain[1..], cells[1..], k - 1);
      assert Room(cells) == Room(cells[1..]);
    } else {
      GatherFront(segs, chain, cells);
    }
  }

  lemma {:induction false} GatherFront(segs: seq<Seg>, chain: seq<Block>, cells: seq<Cell>)
    requires Covers(segs, chain, cells, 0) && Mirrors(chain, cells)
    ensures AllFit(segs) && Total(segs) <= |Room(cells)| && Gather(segs) == Room(cells)[..Total(segs)]
  {
    if segs != [] {
      assert segs[0].block == chain[0];
      GatherFront(segs[1..], chain[1..], cells[1..]);
      assert forall i :: 1 <= i < |segs| ==> segs[i] == segs[1..][i - 1];
      assert AllFit(segs);
      RoomPiece(cells[0], segs[0].len);
      if |segs| == 1 { assert Total(segs[1..]) == 0; }
      TakeAcross(CellRoom(cells[0]), Room(cells[1..]), segs[0].len, Total(segs[1..]));
    }
  }

  /** The value of each block of a chain. */
  ghost predicate Valued(chain: seq<Block>, own: set<Block>, cells: seq<Cell>)
    reads own
  {
    && |cells| == |chain|
    && forall i :: 0 <= i < |chain| ==>
         && chain[i] in own
         && chain[i].offset == cells[i].offset
         && chain[i].len == cells[i].len
         && chain[i].buf == cells[i].buf
  }

  /** Taking the first block off leaves a chain. */
  lemma ChainTail(chain: seq<Block>, own: set<Block>, cells: seq<Cell>, first: int)
    requires Chained(chain, own, first) && Valued(chain, own, cells) && chain != []
    ensures Chained(chain[1..], own - {chain[0]}, first + 1)
    ensures Valued(chain[1..], own - {chain[0]}, cells[1..])
    ensures chain[0].next == At(chain[1..], 0) && chain[0] in own
    ensures |chain| > 1 ==> chain[|chain| - 1] == chain[1..][|chain| - 2]
  {
    var s := chain[1..];
    forall i | 0 <= i < |s| ensures s[i].next == At(s, i + 1) && s[i].place == first + 1 + i && s[i] != chain[0] {
      assert s[i] == chain[i + 1] && At(s, i + 1) == At(chain, i + 2);
    }
  }

  /** The segments taken so far, if any, end where a block ends. */
  ghost predicate WholeBlocks(segs: seq<Seg>, cells: seq<Cell>, e: int, capacity: nat) {
    segs != [] ==> Front(cells) + |Data(cells)| + Total(segs) == (SpaceIndex(cells, e) + |segs|) * capacity
  }

  /** How the block store may grow: blocks move from the front of the freelist to the tail of
      the chain, and none is added before the freelist has run out. */
  ghost predicate Grew(chain: seq<Block>, free: seq<Block>, chain': seq<Block>, free': seq<Block>) {
    && chain + free <= chain' + free'
    && |free'| <= |free|
    && (|chain + free| < |chain' + free'| ==> free' == [])
  }

  lemma GrewNot(c: seq<Block>, f: seq<Block>)
    ensures Grew(c, f, c, f)
  {
  }

  lemma GrewChain(c: seq<Block>, f: seq<Block>, c': seq<Block>, f': seq<Block>)
    requires Grew(c, f, c', f')
    ensures |c| <= |c'|
  {
  }

  lemma GrewTwice(c0: seq<Block>, f0: seq<Block>, c1: seq<Block>, f1: seq<Block>, c2: seq<Block>, f2: seq<Block>)
    requires Grew(c0, f0, c1, f1) && Grew(c1, f1, c2, f2)
    ensures Grew(c0, f0, c2, f2)
  {
  }

  class BasicBuffer {
    const capacity: nat
    const freelist: Freelist
    var head: Block?
    var end: Block?
    var tail: Block?
    var blockCnt: nat
    var dataSize: nat
    var reserved: bool
    var peeked: bool

    ghost var chain: seq<Block>     // the linked list from head
    ghost var mine: set<Block>      // its footprint
    ghost var cells: seq<Cell>      // their value
    ghost var e: int                // where `end` is in the chain
    ghost var base: nat             // how many blocks were pruned so far
    ghost var resv: seq<Seg>        // what the outstanding Reserve handed out
    ghost var view: seq<Seg>        // what the outstanding Peek handed out

    ghost function Footprint(): set<object>
      reads `mine, freelist`pool
    {
      {this, freelist} + mine + freelist.pool
    }

    /** All the blocks there are: those in the chain and those on the freelist. */
    ghost function Stock(): multiset<Block>
      reads `chain, freelist`free
    {
      multiset(chain + freelist.free)
    }

    ghost predicate Linked()
      reads `head, `tail, `blockCnt, `mine, `chain, `cells, `base, mine
    {
      && Chained(chain, mine, base)
      && Valued(chain, mine, cells)
      && head == At(chain, 0)
      && (chain != [] ==> tail == chain[|chain| - 1])
      && blockCnt == |chain|
    }

    ghost predicate Heap()
      reads `head, `tail, `blockCnt, `mine, `chain, `cells, `base, freelist, mine, freelist.pool
    {
      && capacity > 0
      && freelist.capacity == capacity
      && mine !! freelist.pool
      && freelist.Valid()
      && Linked()
    }

    /** The chain while an operation is counting bytes through it. */
    ghost predicate Shaped()
      reads `head, `end, `tail, `blockCnt, `mine, `chain, `cells, `e, `base, freelist, mine, freelist.pool
    {
      && Heap()
      && Arranged(cells, e, capacity)
      && end == At(chain, e)
    }

    ghost predicate Core()
      reads `head, `end, `tail, `blockCnt, `dataSize, `mine, `chain, `cells, `e, `base, freelist, mine, freelist.pool
    {
      Shaped() && dataSize == |Data(cells)|
    }

    /** The segments handed out still describe the chain. */
    ghost predicate Outstanding()
      reads this
    {
      && Covers(resv, chain, cells, SpaceIndex(cells, e))
      && Shows(view, chain, cells)
      && (!reserved ==> resv == [])
      && (!peeked ==> view == [])
    }

    ghost predicate Valid()
      reads this, freelist, mine, freelist.pool
    {
      Core() && Outstanding()
    }

    /** The bytes queued. */
    ghost function Contents(): seq<Byte>
      reads `cells
    {
      Data(cells)
    }

    /** The bytes lying in the free space that follows them. */
    ghost function SpaceBytes(): seq<Byte>
      reads `cells
    {
      Room(cells)
    }

    /** Where in the front block the queue begins. */
    ghost function HeadOffset(): nat
      reads `cells
    {
      Front(cells)
    }

    constructor (capacity: nat)
      requires capacity > 0
      ensures Valid() && fresh(freelist) && mine == {} && freelist.pool == {}
      ensures this.capacity == capacity && HeadOffset() == 0
      ensures Contents() == [] && SpaceBytes() == [] && !reserved && !peeked && chain == []
    {
      this.capacity := capacity;
      freelist := new Freelist(capacity);
      head, end, tail := null, null, null;
      blockCnt, dataSize, reserved, peeked := 0, 0, false, false;
      chain, mine, cells, e, base, resv, view := [], {}, [], 0, 0, [], [];
    }

    function DataSize(): nat
      reads this
    {
      dataSize
    }

    /** The arithmetic of space_size() counts exactly the room at the back. */
    function SpaceSize(): (s: nat)
      requires Core()
      reads this, freelist, mine, freelist.pool
      ensures s == |SpaceBytes()|
    {
      SpaceArithmetic();
      if head == null then 0 else blockCnt * capacity - dataSize - head.offset
    }

    lemma SpaceArithmetic()
      requires Core()
      ensures |chain| * capacity == |Data(cells)| + |Room(cells)| + if cells == [] then 0 else cells[0].offset
    {
      Accounting(cells, capacity);
      if cells != [] { NothingConsumed(cells[1..]); }
    }

    /** Add a blank block at the tail: the most recently freed one, or a new one if none is. */
    method AppendNewBlock()
      requires Heap()
      modifies this`head, this`end, this`tail, this`blockCnt, this`mine, this`chain, this`cells
      modifies freelist, mine, freelist.pool
      ensures Heap() && fresh(Footprint() - old(Footprint()))
      ensures |chain| == |old(chain)| + 1 && chain == old(chain) + [chain[|old(chain)|]]
      ensures Grew(old(chain), old(freelist.free), chain, freelist.free)
      ensures cells == old(cells) + [cells[|old(chain)|]] && Blank(cells[|old(chain)|], capacity)
      ensures end == if old(chain) == [] then head else old(end)
    {
      hide Chained;
      var block := freelist.New();
      if head == null {
        StartChain(block);
      } else {
        ExtendChain(block);
      }
      assert chain + freelist.free == old(chain) + [block] + freelist.free;
    }

    method StartChain(block: Block)
      requires Linked() && block !in mine && head == null && block.next == null && block.Fits()
      modifies this`head, this`end, this`tail, this`blockCnt, this`mine, this`chain, this`cells, block
      ensures Linked() && mine == old(mine) + {block} && chain == [block] && end == head
      ensures cells == [old(block.Value())]
    {
      head, tail, end := block, block, block;
      blockCnt := blockCnt + 1;
      block.place := base;
      chain, mine, cells := [block], mine + {block}, [block.Value()];
    }

    method ExtendChain(block: Block)
      requires Linked() && block !in mine && head != null && block.next == null && block.Fits()
      modifies this`tail, this`blockCnt, this`mine, this`chain, this`cells, mine, block
      ensures Linked() && mine == old(mine) + {block} && chain == old(chain) + [block]
      ensures cells == old(cells) + [old(block.Value())]
    {
      tail.next := block;
      tail := block;
      blockCnt := blockCnt + 1;
      block.place := base + |chain|;
      chain, mine, cells := chain + [block], mine + {block}, cells + [block.Value()];
    }

    // SpaceStepper: a walk over the blocks that can still be written.

    method FirstSpace() returns (block: Block?)
      requires Shaped()
      ensures block == At(chain, SpaceIndex(cells, e))
    {
      block := end;
      if block != null && block.SpaceLen() == 0 {
        block := block.next;
      }
    }

    method NextSpace(block: Block?, ghost k: nat) returns (here: Block, next: Block?)
      requires Shaped() && SpaceIndex(cells, e) <= k <= |chain| && block == At(chain, k)
      modifies this`head, this`end, this`tail, this`blockCnt, this`mine, this`chain, this`cells
      modifies freelist, mine, freelist.pool
      ensures Shaped() && fresh(Footprint() - old(Footprint()))
      ensures k < |chain| && here == chain[k] && next == At(chain, k + 1)
      ensures Grew(old(chain), old(freelist.free), chain, freelist.free)
      ensures old(chain) <= chain && old(cells) <= cells && |chain| == |cells|
      ensures k < |old(chain)| ==> chain == old(chain)
      ensures k == |old(chain)| ==> Blank(cells[k], capacity)
      ensures SpaceIndex(cells, e) == old(SpaceIndex(cells, e))
      ensures Data(cells) == Data(old(cells)) && Room(old(cells)) <= Room(cells)
      ensures Front(cells) == Front(old(cells))
    {
      if block == null {
        AppendNewBlock();
        here := tail;
        ghost var blank := cells[k];
        assert cells == old(cells) + [blank];
        Extended(old(cells), blank, e, capacity);
      } else {
        here := block;
      }
      next := here.next;
    }

    // What the proofs below need to know about Core(), block by block.

    lemma BlockAt(k: nat)
      requires Shaped() && k < |cells|
      ensures |chain| == |cells|
      ensures chain[k] in mine && chain[k].Fits() && chain[k].Value() == cells[k]
      ensures chain[k].SpaceLen() == |CellRoom(cells[k])| <= capacity
    {
    }

    lemma Unpack()
      requires Valid()
      ensures Core() && Covers(resv, chain, cells, SpaceIndex(cells, e)) && Shows(view, chain, cells)
      ensures (!reserved ==> resv == []) && (!peeked ==> view == [])
      ensures SpaceIndex(cells, e) <= |chain| == |cells|
    {
    }

    lemma Pack()
      requires Core() && Covers(resv, chain, cells, SpaceIndex(cells, e)) && Shows(view, chain, cells)
      requires (!reserved ==> resv == []) && (!peeked ==> view == [])
      ensures Valid()
    {
    }

    lemma SpaceBlock(k: nat)
      requires Shaped() && SpaceIndex(cells, e) <= k < |chain|
      ensures k < |cells| && 0 < |CellRoom(cells[k])|
    {
    }

    /** The segments so far are the chain's first free space, and `block` comes next. */
    ghost predicate Taking(segs: seq<Seg>, block: Block?)
      reads `head, `end, `tail, `blockCnt, `dataSize, `mine, `chain, `cells, `e, `base, `view
      reads freelist, mine, freelist.pool
    {
      && Core() && Shows(view, chain, cells)
      && Covers(segs, chain, cells, SpaceIndex(cells, e))
      && SpaceIndex(cells, e) + |segs| <= |chain|
      && block == At(chain, SpaceIndex(cells, e) + |segs|)
    }

    lemma BeginTaking(block: Block?)
      requires Core() && Shows(view, chain, cells) && block == At(chain, SpaceIndex(cells, e))
      ensures Taking([], block) && Filled([], cells, SpaceIndex(cells, e)) && capacity > 0
    {
    }

    lemma EndTaking(segs: seq<Seg>, block: Block?)
      requires Taking(segs, block) && resv == segs && reserved && (!peeked ==> view == [])
      ensures Valid() && (segs != [] ==> chain != [])
    {
    }

    /** The segments are now the outstanding reservation. */
    ghost method KeepReservation(segs: seq<Seg>, block: Block?)
      requires Taking(segs, block) && reserved && (!peeked ==> view == [])
      modifies this`resv
      ensures Valid() && resv == segs && (segs != [] ==> chain != [])
    {
      hide Shaped, Covers, Shows, SpaceIndex;
      resv := segs;
      EndTaking(segs, block);
    }

    /** One step of the reservation loops: take at most `limit` bytes of the next free block. */
    method TakeSegment(segs: seq<Seg>, block: Block?, limit: nat)
      returns (segs': seq<Seg>, taken: nat, next: Block?)
      requires Taking(segs, block) && Filled(segs, cells, SpaceIndex(cells, e)) && limit > 0
      modifies this`head, this`end, this`tail, this`blockCnt, this`mine, this`chain, this`cells
      modifies freelist, mine, freelist.pool
      ensures Taking(segs', next) && fresh(Footprint() - old(Footprint()))
      ensures Total(segs') == Total(segs) + taken && 0 < taken <= limit && taken <= capacity
      ensures taken < limit || limit >= capacity ==> Filled(segs', cells, SpaceIndex(cells, e))
      ensures |segs'| == |segs| + 1
      ensures limit >= capacity && WholeBlocks(segs, old(cells), e, capacity) ==> WholeBlocks(segs', cells, e, capacity)
      ensures Data(cells) == Data(old(cells)) && Room(old(cells)) <= Room(cells) && Front(cells) == Front(old(cells))
      ensures Grew(old(chain), old(freelist.free), chain, freelist.free)
    {
      hide Shaped, Covers, Shows, Filled, SpaceIndex, Arranged, At, CellRoom, Data, Room, Grew, Footprint, WholeBlocks, Front;
      ghost var k0 := SpaceIndex(cells, e);
      ghost var k := k0 + |segs|;
      var here;
      here, next := NextSpace(block, k);
      CoversLonger(segs, k0, old(chain), old(cells), chain, cells);
      ShowsLonger(view, old(chain), old(cells), chain, cells);
      BlockAt(k);
      SpaceBlock(k);
      taken := if limit >= here.SpaceLen() then here.SpaceLen() else limit;
      var s := Seg(here, here.SpaceHead(), taken);
      CoversPush(segs, s, k0, chain, cells);
      TotalAppend(segs, s);
      segs' := segs + [s];
      if limit >= capacity && WholeBlocks(segs, old(cells), e, capacity) { NextWhole(segs, old(cells), s); }
    }

    lemma NextWhole(segs: seq<Seg>, was: seq<Cell>, s: Seg)
      requires Shaped() && WholeBlocks(segs, was, e, capacity)
      requires Data(cells) == Data(was) && Front(cells) == Front(was) && SpaceIndex(cells, e) == SpaceIndex(was, e)
      requires var k := SpaceIndex(cells, e) + |segs|; k < |cells| && s.len == |CellRoom(cells[k])|
      ensures WholeBlocks(segs + [s], cells, e, capacity)
    {
      var k := SpaceIndex(cells, e);
      FillPoint(cells, e, capacity);
      TotalAppend(segs, s);
      OneMore(k + |segs|, capacity);
    }

    /** Hand out free space of exactly `size` bytes, in block order. */
    method Reserve(size: nat) returns (segs: seq<Seg>)
      requires Valid() && !reserved
      modifies this, freelist, mine, freelist.pool
      ensures Valid() && reserved && peeked == old(peeked) && fresh(Footprint() - old(Footprint()))
      ensures resv == segs && view == old(view) && Total(segs) == size
      ensures Contents() == old(Contents()) && old(SpaceBytes()) <= SpaceBytes()
      ensures chain != [] <==> size > 0 || old(chain) != []
      ensures Grew(old(chain), old(freelist.free), chain, freelist.free)
    {
      hide Valid, Shaped, Shows, Taking, Filled, SpaceIndex, At, Data, Room, Grew;
      Unpack();
      reserved := true;
      segs := [];
      var block := FirstSpace();
      BeginTaking(block);
      GrewNot(chain, freelist.free);
      var remaining: nat := size;
      while remaining > 0
        invariant Taking(segs, block) && fresh(Footprint() - old(Footprint()))
        invariant reserved && view == old(view) && peeked == old(peeked)
        invariant remaining > 0 ==> Filled(segs, cells, SpaceIndex(cells, e))
        invariant Total(segs) + remaining == size && (size > remaining ==> segs != [])
        invariant size == remaining ==> chain == old(chain)
        invariant Data(cells) == Data(old(cells)) && Room(old(cells)) <= Room(cells)
        invariant Grew(old(chain), old(freelist.free), chain, freelist.free)
      {
        ghost var c1, f1 := chain, freelist.free;
        var taken;
        segs, taken, block := TakeSegment(segs, block, remaining);
        remaining := remaining - taken;
        GrewTwice(old(chain), old(freelist.free), c1, f1, chain, freelist.free);
      }
      KeepReservation(segs, block);
    }

    /** Hand out at least `size` bytes of free space, up to the end of the block that completes
        them and no further. */
    method ReserveAtLeast(size: nat) returns (segs: seq<Seg>, reservedSize: nat)
      requires Valid() && !reserved
      modifies this, freelist, mine, freelist.pool
      ensures Valid() && reserved && peeked == old(peeked) && fresh(Footprint() - old(Footprint()))
      ensures resv == segs && view == old(view) && Total(segs) == reservedSize
      ensures size <= reservedSize && (size == 0 ==> reservedSize == 0)
      ensures size > 0 ==> reservedSize < size + capacity && chain != []
      ensures size > 0 ==> reservedSize == Grant(HeadOffset() + |Contents()|, size, capacity)
      ensures Contents() == old(Contents()) && old(SpaceBytes()) <= SpaceBytes() && HeadOffset() == old(HeadOffset())
      ensures Grew(old(chain), old(freelist.free), chain, freelist.free)
    {
      hide Valid, Shaped, Shows, Taking, Filled, SpaceIndex, At, Data, Room, Grew, WholeBlocks, Grant, Front;
      Unpack();
      reserved := true;
      segs := [];
      var block := FirstSpace();
      BeginTaking(block);
      GrewNot(chain, freelist.free);
      NoneTaken();
      reservedSize := 0;
      while reservedSize < size
        invariant Taking(segs, block) && fresh(Footprint() - old(Footprint()))
        invariant reserved && view == old(view) && peeked == old(peeked)
        invariant Filled(segs, cells, SpaceIndex(cells, e))
        invariant Total(segs) == reservedSize && (reservedSize > 0 ==> segs != [] && reservedSize < size + capacity)
        invariant size == 0 ==> reservedSize == 0
        invariant WholeBlocks(segs, cells, e, capacity)
        invariant Data(cells) == Data(old(cells)) && Room(old(cells)) <= Room(cells) && Front(cells) == Front(old(cells))
        invariant Grew(old(chain), old(freelist.free), chain, freelist.free)
        decreases size - reservedSize
      {
        ghost var c1, f1 := chain, freelist.free;
        var taken;
        segs, taken, block := TakeSegment(segs, block, capacity);
        reservedSize := reservedSize + taken;
        GrewTwice(old(chain), old(freelist.free), c1, f1, chain, freelist.free);
      }
      if size > 0 { WholeGrant(segs, size); }
      KeepReservation(segs, block);
    }

    lemma NoneTaken()
      ensures WholeBlocks([], cells, e, capacity)
    {
    }

    lemma WholeGrant(segs: seq<Seg>, size: nat)
      requires WholeBlocks(segs, cells, e, capacity) && segs != [] && capacity > 0
      requires size <= Total(segs) < size + capacity
      ensures Total(segs) == Grant(Front(cells) + |Data(cells)|, size, capacity)
    {
      GrantIsLeast(Front(cells) + |Data(cells)|, size, capacity, SpaceIndex(cells, e) + |segs|);
    }

    /** Committing into the next block leaves what was peeked as it was. */
    lemma GrowShows(t: nat)
      requires Shaped() && Shows(view, chain, cells) && SpaceIndex(cells, e) < |cells|
      requires t <= |CellRoom(cells[SpaceIndex(cells, e)])|
      ensures var k := SpaceIndex(cells, e); Shows(view, chain, cells[k := Grow(cells[k], t)])
    {
      var k := SpaceIndex(cells, e);
      if view != [] {
        assert 0 < view[|view| - 1].len <= cells[|view| - 1].len;
        assert |view| <= k + 1;
      }
    }

    /** One step of Commit: the next block takes as much as it has room for. */
    method CommitStep(block: Block?, remaining: nat) returns (rest: nat, next: Block?)
      requires Shaped() && Shows(view, chain, cells) && block == At(chain, SpaceIndex(cells, e))
      requires 0 < remaining <= |Room(cells)|
      modifies this`end, this`e, this`cells, mine
      ensures Shaped() && Shows(view, chain, cells) && rest < remaining && Front(cells) == old(Front(cells))
      ensures Data(cells) == old(Data(cells)) + old(Room(cells))[..remaining - rest]
      ensures Room(cells) == old(Room(cells))[remaining - rest..]
      ensures rest > 0 ==> next == At(chain, SpaceIndex(cells, e))
    {
      hide Data, Room, Shows, ArrangedOrDrained, Heap;
      RoomMeansSpace(cells, e, capacity);
      ghost var k := SpaceIndex(cells, e);
      BlockAt(k);
      ghost var t := if remaining < |CellRoom(cells[k])| then remaining else |CellRoom(cells[k])|;
      CommitAt(cells, e, capacity, t);
      GrowShows(t);
      end := block;
      rest, next := CommitBlock(block, k, remaining);
      e := k;
    }

    /** The heap side of that step. */
    method CommitBlock(block: Block, ghost k: nat, size: nat) returns (rest: nat, next: Block?)
      requires Heap() && k < |chain| && block == chain[k]
      modifies this`cells, block`len
      ensures Heap() && next == At(chain, k + 1)
      ensures k < |old(cells)| && old(block.Fits())
      ensures var room := old(block.SpaceLen()); rest == if size < room then 0 else size - room
      ensures size - rest <= |CellRoom(old(cells[k]))| && cells == old(cells)[k := Grow(old(cells[k]), size - rest)]
    {
      next := block.next;
      rest := block.Commit(size);
      cells := cells[k := block.Value()];
    }

    /** Move the first `size` bytes of free space, as they are now, to the end of the data. */
    method Commit(size: nat)
      requires Valid() && reserved && head != null && size <= SpaceSize()
      modifies this, mine
      ensures Valid() && !reserved && resv == [] && peeked == old(peeked) && view == old(view)
      ensures Contents() == old(Contents()) + old(SpaceBytes())[..size]
      ensures SpaceBytes() == old(SpaceBytes())[size..] && HeadOffset() == old(HeadOffset())
      ensures chain == old(chain) && mine == old(mine)
    {
      hide Shaped, Heap, Covers, Shows, SpaceIndex, Valid, At, Data, Room, Front;
      Unpack();
      CommitChain(size);
      EndCommit(size);
    }

    /** The loop of Commit. */
    method CommitChain(size: nat)
      requires Shaped() && Shows(view, chain, cells) && size <= |Room(cells)|
      modifies this`end, this`e, this`cells, mine
      ensures Shaped() && Shows(view, chain, cells) && Front(cells) == old(Front(cells))
      ensures Data(cells) == old(Data(cells)) + old(Room(cells))[..size] && Room(cells) == old(Room(cells))[size..]
    {
      hide Shaped, Heap, Shows, SpaceIndex, At, Data, Room, Front;
      ghost var data0, room0 := Data(cells), Room(cells);
      var block := FirstSpace();
      var remaining: nat := size;
      assert data0 + room0[..0] == data0 && room0[0..] == room0;
      while remaining > 0
        invariant Shaped() && Shows(view, chain, cells) && remaining <= size
        invariant Front(cells) == old(Front(cells))
        invariant remaining > 0 ==> block == At(chain, SpaceIndex(cells, e))
        invariant Data(cells) == data0 + room0[..size - remaining] && Room(cells) == room0[size - remaining..]
      {
        ghost var t := remaining;
        remaining, block := CommitStep(block, remaining);
        NextTaken(room0, data0, size - t, size - remaining);
      }
    }

    /** The bytes are counted, and the reservation is over. */
    method EndCommit(size: nat)
      requires Shaped() && Shows(view, chain, cells) && dataSize + size == |Data(cells)| && (!peeked ==> view == [])
      modifies this`dataSize, this`reserved, this`resv
      ensures Valid() && !reserved && resv == [] && dataSize == old(dataSize) + size
    {
      hide Shaped, Heap, Covers, Shows, SpaceIndex, Valid, Data;
      dataSize := dataSize + size;
      reserved := false;
      resv := [];
      NoSegs(SpaceIndex(cells, e));
      Pack();
    }

    lemma NoSegs(k: nat)
      requires Shaped()
      ensures Covers([], chain, cells, k)
    {
    }

    /** The heap agrees with its value, block by block. */
    lemma Mirrored()
      requires Heap()
      ensures Mirrors(chain, cells)
    {
    }

    lemma LinkAt(k: nat)
      requires Shaped() && k < |chain|
      ensures chain[k].next == At(chain, k + 1) && |cells| == |chain|
      ensures chain[k].offset == cells[k].offset && chain[k].len == cells[k].len
    {
    }

    /** Peek may stop at the first block without data: there is none behind it. */
    lemma NoDataBehind(k: nat)
      requires Core() && k <= |chain| && (k < |chain| ==> chain[k].len == 0)
      requires forall j :: 0 <= j < k ==> cells[j].len > 0
      ensures forall j :: k <= j < |cells| ==> cells[j].len == 0
    {
      if k < |chain| {
        LinkAt(k);
        assert e <= k;
      }
    }

    /** Hand out everything queued, block by block. */
    method Peek() returns (segs: seq<Seg>)
      requires Valid() && !peeked
      modifies this`peeked, this`view
      ensures Valid() && peeked && view == segs
      ensures AllFit(segs) && Gather(segs) == Contents()
    {
      hide Shaped, Covers, Shows, Entire, Valid, Mirrors, AllFit;
      Unpack();
      peeked := true;
      segs := [];
      var b := head;
      FirstBlock();
      while b != null && b.len > 0
        invariant peeked && Core() && |segs| <= |chain| && b == At(chain, |segs|)
        invariant Shows(segs, chain, cells) && Entire(segs, cells)
        decreases |chain| - |segs|
      {
        var s := Seg(b, b.offset, b.len);
        LinkAt(|segs|);
        ShowsPush(segs, s, chain, cells);
        segs := segs + [s];
        b := b.next;
      }
      view := segs;
      Pack();
      ShownWhole(segs);
    }

    lemma FirstBlock()
      requires Shaped()
      ensures head == At(chain, 0) && Shows([], chain, cells) && Entire([], cells)
    {
    }

    lemma ShownWhole(segs: seq<Seg>)
      requires Core() && Shows(segs, chain, cells) && Entire(segs, cells)
      requires var b := At(chain, |segs|); b != null ==> b.len == 0
      ensures AllFit(segs) && Gather(segs) == Contents()
    {
      Mirrored();
      forall j | 0 <= j < |segs| ensures cells[j].len > 0 {
        assert segs[j].len == cells[j].len;
      }
      NoDataBehind(|segs|);
      GatherShows(segs, chain, cells);
    }

    /** What an outstanding Peek handed out still reads the front of the queue. */
    lemma PeekedSegments()
      requires Valid()
      ensures AllFit(view) && Gather(view) <= Contents()
    {
      Mirrored();
      GatherShows(view, chain, cells);
    }

    /** What an outstanding Reserve handed out is the front of the free space, whatever was
        drained since; so Commit appends the first bytes written there. */
    lemma ReservedSegments()
      requires Valid()
      ensures AllFit(resv) && Total(resv) <= |SpaceBytes()| && Gather(resv) == SpaceBytes()[..Total(resv)]
    {
      Mirrored();
      GatherCovers(resv, chain, cells, SpaceIndex(cells, e));
    }

    /** The chain while it is being drained: the end block may already be pruned (e == -1). */
    ghost predicate Draining()
      reads `head, `end, `tail, `blockCnt, `mine, `chain, `cells, `e, `base, `resv, freelist, mine, freelist.pool
    {
      && Heap()
      && ArrangedOrDrained(cells, e, capacity)
      && -1 <= e && (e < |cells| || e == 0)
      && (e >= 0 ==> end == At(chain, e))
      && Covers(resv, chain, cells, SpaceIndex(cells, e))
    }

    /** The pruned block leaves the front of the chain for the front of the freelist. */
    method PruneHead()
      requires Heap() && head != null && |head.buf| == capacity
      modifies this`head, this`blockCnt, this`mine, this`chain, this`cells, this`base, freelist, head
      ensures Heap() && chain == old(chain[1..]) && cells == old(cells[1..])
      ensures freelist.free == [old(head)] + old(freelist.free)
      ensures Footprint() == old(Footprint()) && mine <= old(mine) && base == old(base) + 1
    {
      hide Chained, Valued, At;
      HeadAt();
      ChainTail(chain, mine, cells, base);
      var next := head.next;
      mine := mine - {head};
      freelist.Delete(head);
      blockCnt := blockCnt - 1;
      head := next;
      chain, cells, base := chain[1..], cells[1..], base + 1;
    }

    lemma HeadAt()
      requires Heap()
      ensures head != null <==> chain != []
      ensures |cells| == |chain| && (head != null ==> head == chain[0])
    {
    }

    /** The heap side of draining the front block. */
    method DrainHead(size: nat) returns (rest: nat)
      requires Heap() && head != null
      modifies this`cells, head`offset, head`len
      ensures Heap() && chain == old(chain) && |cells| == |chain|
      ensures old(cells) != [] && var c := old(cells[0]);
              && rest == (if c.len < size then size - c.len else 0)
              && size - rest <= c.len && cells == old(cells)[0 := Shrink(c, size - rest)]
      ensures head.len == cells[0].len && head.offset == cells[0].offset && |head.buf| == |cells[0].buf| && head.Fits()
    {
      assert head == chain[0];
      rest := head.Drain(size);
      cells := cells[0 := head.Value()];
    }

    /** One step of Drain: the front block gives up to `remaining` bytes, and goes if it is used up. */
    method DrainStep(remaining: nat) returns (rest: nat)
      requires Draining() && 0 < remaining <= |Data(cells)|
      modifies this`head, this`blockCnt, this`mine, this`chain, this`cells, this`base, this`e, freelist, mine
      ensures Draining() && rest < remaining && Footprint() == old(Footprint()) && mine <= old(mine)
      ensures Data(cells) == old(Data(cells))[remaining - rest..] && Room(cells) == old(Room(cells))
      ensures base == old(base) || base == old(base) + 1
      ensures Front(cells) + (if base > old(base) then capacity else 0) == old(Front(cells)) + remaining - rest
      ensures Stock() == old(Stock())
    {
      hide Heap, Data, Room, ArrangedOrDrained, Covers, SpaceIndex, Stock, Front;
      FrontHasData(cells, e, capacity);
      HeadOfHeap();
      ghost var k := SpaceIndex(cells, e);
      ghost var c := cells[0];
      ghost var t := if c.len < remaining then c.len else remaining;
      FrontBlock();
      DrainFront(cells, t);
      FrontShrunk(cells, t);
      rest := DrainHead(remaining);
      assert cells == old(cells)[0 := Shrink(c, t)];
      if head.len == 0 && head.SpaceLen() == 0 {
        PruneFront(old(cells), e, capacity);
        PrunedData(old(cells), t);
        ShiftCovers(resv, chain, old(cells), k);
        assert cells[1..] == old(cells)[1..];
        PruneStep();
      } else {
        KeepFront(old(cells), e, capacity, t);
        ShrinkCovers(resv, chain, old(cells), k, t);
      }
    }

    method PruneStep()
      requires Heap() && head != null && |head.buf| == capacity && 0 <= e < |chain| == |cells|
      requires end == At(chain, e) && ArrangedOrDrained(cells[1..], e - 1, capacity)
      requires Covers(resv, chain[1..], cells[1..], SpaceIndex(cells[1..], e - 1))
      modifies this`head, this`blockCnt, this`mine, this`chain, this`cells, this`base, this`e, freelist, head
      ensures Draining() && cells == old(cells[1..]) && Footprint() == old(Footprint()) && mine <= old(mine)
      ensures Stock() == old(Stock()) && base == old(base) + 1
    {
      hide Heap, ArrangedOrDrained, Covers, SpaceIndex, Footprint;
      HeadAt();
      MovedToFree(chain, freelist.free);
      PruneHead();
      e := e - 1;
    }

    lemma HeadOfHeap()
      requires Heap() && cells != []
      ensures head != null && chain != [] && head == chain[0] && |chain| == |cells| && head in mine
    {
    }

    lemma FrontBlock()
      requires Draining() && cells != []
      ensures |cells[0].buf| == capacity && cells[0].offset < capacity && e < |cells|
    {
    }

    lemma BeginDraining()
      requires Valid()
      ensures Draining()
    {
    }

    /** After the loop: the end block is where it was, or the front block of an empty buffer. */
    lemma EndDraining()
      requires Draining()
      ensures Data(cells) != [] ==> Shaped() && Covers(resv, chain, cells, SpaceIndex(cells, e))
      ensures Data(cells) == [] ==> Arranged(cells, 0, capacity) && head == At(chain, 0)
                                    && Covers(resv, chain, cells, SpaceIndex(cells, 0))
      ensures Heap()
    {
      if Data(cells) == [] {
        DrainedDry(cells, e, capacity);
      } else {
        FrontHasData(cells, e, capacity);
      }
    }

    /** The loop of Drain. */
    method DrainChain(size: nat)
      requires Draining() && size <= |Data(cells)|
      modifies this`head, this`blockCnt, this`mine, this`chain, this`cells, this`base, this`e, freelist, mine
      ensures Draining() && Footprint() == old(Footprint()) && mine <= old(mine)
      ensures Data(cells) == old(Data(cells))[size..] && Room(cells) == old(Room(cells))
      ensures Stock() == old(Stock()) && Front(cells) == Advance(old(Front(cells)), size, capacity)
    {
      hide Draining, Data, Room, Footprint, Stock, Front, Advance;
      var remaining: nat := size;
      while remaining > 0
        invariant Draining() && remaining <= size
        invariant Data(cells) == old(Data(cells))[size - remaining..] && Room(cells) == old(Room(cells))
        invariant Footprint() == old(Footprint()) && mine <= old(mine)
        invariant Stock() == old(Stock()) && base >= old(base)
        invariant Front(cells) + (base - old(base)) * capacity == old(Front(cells)) + size - remaining
      {
        OneMore(base - old(base), capacity);
        remaining := DrainStep(remaining);
      }
      FrontInBlock();
      AdvanceIs(old(Front(cells)), size, capacity, base - old(base), Front(cells));
    }

    lemma FrontInBlock()
      requires Draining()
      ensures Front(cells) < capacity
    {
    }

    /** Mark the first `size` queued bytes as consumed. */
    method Drain(size: nat)
      requires Valid() && peeked && size <= dataSize
      modifies this, freelist, mine
      ensures Valid() && !peeked && view == [] && reserved == old(reserved) && resv == old(resv)
      ensures Contents() == old(Contents())[size..]
      ensures reserved || Contents() != [] ==> SpaceBytes() == old(SpaceBytes())
      ensures Contents() == [] && !reserved ==> AllFree(cells)
      ensures HeadOffset() == if Contents() == [] && !reserved then 0 else Advance(old(HeadOffset()), size, capacity)
      ensures Footprint() == old(Footprint()) && mine <= old(mine)
      ensures Stock() == old(Stock())
    {
      hide Heap, Shaped, Draining, Valid, Data, Room, Footprint, Stock, AllFree, Arranged, Covers, Shows, SpaceIndex, At;
      hide Front, Advance;
      Unpack();
      BeginDraining();
      DrainChain(size);
      dataSize := dataSize - size;
      peeked := false;
      view := [];
      SettleEnd();
      ResetIfEmpty();
      NoView();
      Pack();
    }

    /** The end block may have been pruned; an empty buffer ends at its front. */
    method SettleEnd()
      requires Draining() && dataSize == |Data(cells)|
      modifies this`end, this`e
      ensures Shaped() && (dataSize == 0 ==> e == 0)
      ensures Covers(resv, chain, cells, SpaceIndex(cells, e))
    {
      hide Heap, Draining, Data, Arranged, Covers, SpaceIndex, Shaped;
      EndDraining();
      if dataSize == 0 {
        end := head;
        e := 0;
        ShapedNow();
      }
    }

    /** The closing optimisation of Drain: an empty buffer with nothing reserved starts over at
        the beginning of its front block. */
    method ResetIfEmpty()
      requires Shaped() && dataSize == |Data(cells)| && (dataSize == 0 ==> e == 0)
      requires Covers(resv, chain, cells, SpaceIndex(cells, e)) && (!reserved ==> resv == [])
      modifies this`cells, mine
      ensures Shaped() && Data(cells) == old(Data(cells))
      ensures Covers(resv, chain, cells, SpaceIndex(cells, e))
      ensures reserved || Data(cells) != [] ==> cells == old(cells)
      ensures Data(cells) == [] && !reserved ==> AllFree(cells) && Front(cells) == 0
    {
      hide Shaped, Data, AllFree, Covers, SpaceIndex;
      HeadOf();
      if dataSize == 0 && head != null && !reserved {
        ResetHead();
        NoSegs(SpaceIndex(cells, e));
      }
      if Data(cells) == [] && !reserved { AllFreeNow(); }
    }

    lemma HeadOf()
      requires Shaped()
      ensures head == null ==> cells == []
      ensures head != null ==> head in mine
    {
    }

    ghost predicate AllFree(cells: seq<Cell>) {
      forall i :: 0 <= i < |cells| ==> CellRoom(cells[i]) == cells[i].buf
    }

    lemma ShapedNow()
      requires Heap() && Arranged(cells, e, capacity) && end == At(chain, e)
      ensures Shaped()
    {
    }

    lemma NoView()
      requires Shaped()
      ensures Shows([], chain, cells)
    {
    }

    lemma AllFreeNow()
      requires Shaped() && Data(cells) == [] && (cells != [] ==> cells[0].offset == 0)
      ensures AllFree(cells)
    {
      EmptyData(cells);
    }

    method ResetHead()
      requires Shaped() && e == 0 && Data(cells) == [] && head != null
      modifies this`cells, head`offset
      ensures Shaped() && Data(cells) == [] && cells != [] && cells[0].offset == 0
      ensures |cells| == |old(cells)|
    {
      EmptyData(cells);
      head.offset := 0;
      cells := cells[0 := RawCell(cells[0].buf, 0, 0)];
      NoData(cells);
    }

    /** Bytes arrive in the reserved segments, filling them in order: what recv() or memcpy()
        does with the pointers that Reserve handed out. Neither the data nor what was peeked
        is touched, and the rest of the free space keeps its bytes. */
    method Fill(segs: seq<Seg>, bytes: seq<Byte>)
      requires Valid() && segs == resv && |bytes| <= Total(segs)
      modifies this`cells, mine
      ensures Valid() && Contents() == old(Contents()) && |bytes| <= |old(SpaceBytes())|
      ensures SpaceBytes() == bytes + old(SpaceBytes())[|bytes|..] && HeadOffset() == old(HeadOffset())
    {
      hide Heap, Shaped, Covers, Shows, SpaceIndex, Valid, AllFit, Gather, Data, Room, RoomBefore, Overwrite, CellRoom,
           Total, Landed, Front;
      Unpack();
      ReservedSegments();
      ghost var k, room0 := SpaceIndex(cells, e), Room(cells);
      var p := 0;
      NoRoomBefore(k);
      assert segs[0..] == segs;
      LandedEnds(bytes, room0);
      NoneLeft(segs);
      var j := 0;
      while j < |segs|
        invariant j <= |segs| && p <= |bytes|
        invariant Shaped() && Covers(segs, chain, cells, k) && Shows(view, chain, cells)
        invariant SpaceIndex(cells, e) == k <= |cells| && Front(cells) == old(Front(cells))
        invariant p == |bytes| || (k + j <= |cells| && p == RoomBefore(cells, k + j) && |bytes| - p <= Total(segs[j..]))
        invariant Data(cells) == old(Data(cells)) && Room(cells) == Landed(bytes, room0, p)
      {
        var n := if segs[j].len < |bytes| - p then segs[j].len else |bytes| - p;
        SegmentAt(segs, k, j);
        FillStep(segs, k, j, bytes, p, n, room0);
        p, j := p + n, j + 1;
      }
      Pack();
    }

    /** memcpy of bytes[p..p + n] to the start of the j-th segment. */
    method FillStep(segs: seq<Seg>, ghost k: nat, j: nat, bytes: seq<Byte>, p: nat, n: nat, ghost room0: seq<Byte>)
      requires Shaped() && Covers(segs, chain, cells, k) && Shows(view, chain, cells)
      requires SpaceIndex(cells, e) == k && j < |segs| && k + j < |cells|
      requires n <= segs[j].len && p + n <= |bytes| <= |room0|
      requires n > 0 ==> p == RoomBefore(cells, k + j)
      requires Room(cells) == Landed(bytes, room0, p)
      modifies this`cells, mine
      ensures Shaped() && Covers(segs, chain, cells, k) && Shows(view, chain, cells)
      ensures SpaceIndex(cells, e) == k && |cells| == |old(cells)| && Front(cells) == old(Front(cells))
      ensures Data(cells) == old(Data(cells)) && Room(cells) == Landed(bytes, room0, p + n)
      ensures RoomBefore(cells, k + j + 1) == old(RoomBefore(cells, k + j) + |CellRoom(cells[k + j])|)
    {
      hide Heap, Covers, Shows, ArrangedOrDrained, Data, Room, SpaceIndex, CellRoom, Overwrite, RoomBefore;
      SegmentAt(segs, k, j);
      BlockAt(k + j);
      ghost var cs, i := cells, k + j;
      var s := segs[j];
      var piece := bytes[p..p + n];
      OverwriteAt(cs, i, piece);
      OverwriteKeeps(cs, i, piece, e, capacity);
      OverwriteSegments(cs, i, piece, k, segs);
      WriteBlock(s.block, i, s.start, piece);
      RoomBeforeNext(cells, i);
      SameRoomLen(cs[i], piece);
      if n == 0 {
        NothingWritten(cs, i);
      } else {
        Written(bytes, room0, p, n);
      }
    }

    method WriteBlock(block: Block, ghost i: nat, start: nat, piece: seq<Byte>)
      requires Heap() && i < |cells| == |chain| && block == chain[i]
      requires start == cells[i].offset + cells[i].len && |piece| <= |CellRoom(cells[i])|
      modifies this`cells, block`buf
      ensures Heap() && cells == old(cells)[i := Overwrite(old(cells[i]), piece)]
    {
      block.buf := block.buf[..start] + piece + block.buf[start + |piece|..];
      cells := cells[i := Overwrite(cells[i], piece)];
    }

    lemma OverwriteSegments(cs: seq<Cell>, i: nat, piece: seq<Byte>, k: nat, segs: seq<Seg>)
      requires i < |cs| && |piece| <= |CellRoom(cs[i])|
      requires Covers(segs, chain, cs, k) && Shows(view, chain, cs)
      ensures Covers(segs, chain, cs[i := Overwrite(cs[i], piece)], k)
      ensures Shows(view, chain, cs[i := Overwrite(cs[i], piece)])
    {
      OverwriteCell(cs[i], piece);
    }

    lemma SegmentAt(segs: seq<Seg>, k: nat, j: nat)
      requires Covers(segs, chain, cells, k) && j < |segs|
      ensures k + j < |cells| == |chain|
      ensures segs[j].block == chain[k + j] && segs[j].start == cells[k + j].offset + cells[k + j].len
      ensures segs[j].len <= |CellRoom(cells[k + j])|
      ensures j < |segs| - 1 ==> segs[j].len == |CellRoom(cells[k + j])|
      ensures Total(segs[j..]) == segs[j].len + Total(segs[j + 1..])
    {
      assert segs[j..][1..] == segs[j + 1..];
    }

    lemma NoRoomBefore(k: nat)
      requires Shaped() && k == SpaceIndex(cells, e)
      ensures k <= |cells| && RoomBefore(cells, k) == 0
    {
      RoomBeforeFull(cells, k);
    }

    /** Append a chunk of bytes. Copying nothing into a buffer that has no block yet is outside
        the contract: Commit insists on a block. */
    method CopyIn(from: seq<Byte>)
      requires Valid() && !reserved && (from == [] ==> head != null)
      modifies this, freelist, mine, freelist.pool
      ensures Valid() && !reserved && peeked == old(peeked) && view == old(view)
      ensures Contents() == old(Contents()) + from && fresh(Footprint() - old(Footprint()))
      ensures Grew(old(chain), old(freelist.free), chain, freelist.free)
    {
      hide Valid, Shaped, Data, Room, Grew;
      Settled();
      var segs := Reserve(|from|);
      ReservedSegments();
      GrewChain(old(chain), old(freelist.free), chain, freelist.free);
      Fill(segs, from);
      Settled();
      Commit(|from|);
    }

    /** The destructor: the whole chain goes to the freelist. */
    method Destroy()
      requires Valid()
      modifies this, freelist, mine
      ensures freelist.Valid() && freelist.free == old(chain) + old(freelist.free)
    {
      freelist.DeleteChain(head, chain, mine, base);
    }

    /** No block is in two places, and the chain never shares one with the freelist. */
    lemma NoSharing()
      requires Valid()
      ensures forall i, j :: 0 <= i < j < |chain| ==> chain[i] != chain[j]
      ensures forall i, j :: 0 <= i < |chain| && 0 <= j < |freelist.free| ==> chain[i] != freelist.free[j]
      ensures forall i, j :: 0 <= i < j < |freelist.free| ==> freelist.free[i] != freelist.free[j]
      ensures blockCnt == |chain| && freelist.size == |freelist.free| && |Stock()| == blockCnt + freelist.size
    {
      forall i, j | 0 <= i < |chain| && 0 <= j < |freelist.free| ensures chain[i] != freelist.free[j] {
        assert chain[i] in mine && freelist.free[j] in freelist.pool;
      }
    }

    lemma HasBlock()
      requires Valid() && Total(resv) > 0
      ensures chain != []
    {
    }

    lemma Settled()
      requires Valid()
      ensures Core() && SpaceSize() == |SpaceBytes()| && dataSize == |Contents()|
      ensures (head != null <==> chain != []) && HeadOffset() < capacity
    {
    }

    /** Take up to `size` bytes off the front, into `to` or, if that is null, into nothing. */
    method CopyOut(to: array?<Byte>, size: nat) returns (copied: nat)
      requires Valid() && !peeked && (to != null ==> size <= to.Length)
      modifies this, freelist, mine, to
      ensures Valid() && !peeked && reserved == old(reserved) && resv == old(resv)
      ensures copied == if size < |old(Contents())| then size else |old(Contents())|
      ensures Contents() == old(Contents())[copied..]
      ensures to != null ==> to[..] == old(Contents())[..copied] + old(to[..])[copied..]
      ensures Footprint() == old(Footprint()) && mine <= old(mine) && Stock() == old(Stock())
    {
      hide Valid, Shaped, Data, Room, Stock, Footprint;
      var segs := Peek();
      Settled();
      ghost var all := Contents();
      ghost var pieces := GatherPieces(segs);
      copied := CopySegments(segs, pieces, all, to, size);
      Drain(copied);
    }
  }

  ghost function Flat(pieces: seq<seq<Byte>>): seq<Byte> {
    if pieces == [] then [] else pieces[0] + Flat(pieces[1..])
  }

  /** The segments now read these pieces. */
  ghost predicate Reads(segs: seq<Seg>, pieces: seq<seq<Byte>>)
    reads set s | s in segs :: s.block
  {
    && |pieces| == |segs|
    && forall i :: 0 <= i < |segs| ==>
         && segs[i].Fits()
         && segs[i].block.buf[segs[i].start..segs[i].start + segs[i].len] == pieces[i]
  }

  lemma {:induction false} GatherPieces(segs: seq<Seg>) returns (pieces: seq<seq<Byte>>)
    requires AllFit(segs)
    ensures Reads(segs, pieces) && Flat(pieces) == Gather(segs)
  {
    if segs == [] {
      pieces := [];
    } else {
      assert forall i :: 0 <= i < |segs| - 1 ==> segs[1..][i] == segs[i + 1];
      var rest := GatherPieces(segs[1..]);
      assert segs[0].Fits();
      pieces := [segs[0].block.buf[segs[0].start..segs[0].start + segs[0].len]] + rest;
      assert pieces[1..] == rest;
      forall i | 0 <= i < |segs|
        ensures segs[i].Fits() && segs[i].block.buf[segs[i].start..segs[i].start + segs[i].len] == pieces[i]
      {
        if i > 0 { assert segs[i] == segs[1..][i - 1]; }
      }
    }
  }

  lemma FlatNext(pieces: seq<seq<Byte>>, i: nat, all: seq<Byte>, copied: nat, n: nat)
    requires i < |pieces| && copied <= |all| && n <= |pieces[i]|
    requires Flat(pieces[i..]) == all[copied..]
    ensures copied + n <= |all| && pieces[i][..n] == all[copied..copied + n]
    ensures n == |pieces[i]| ==> Flat(pieces[i + 1..]) == all[copied + n..]
  {
    assert pieces[i..][1..] == pieces[i + 1..];
    assert all[copied..] == pieces[i] + Flat(pieces[i + 1..]);
    assert all[copied..][..n] == all[copied..copied + n];
    assert all[copied..][n..] == all[copied + n..];
  }

  /** memcpy of the first n bytes of a segment to to[at..]. */
  method CopySegment(s: Seg, n: nat, to: array<Byte>, at: nat)
    requires s.Fits() && n <= s.len && at + n <= to.Length
    modifies to
    ensures to[..] == old(to[..])[..at] + s.block.buf[s.start..s.start + s.len][..n] + old(to[..])[at + n..]
  {
    forall j | 0 <= j < n {
      to[at + j] := s.block.buf[s.start + j];
    }
  }

  /** The loop of CopyOut. */
  method CopySegments(segs: seq<Seg>, ghost pieces: seq<seq<Byte>>, ghost all: seq<Byte>, to: array?<Byte>, size: nat)
    returns (copied: nat)
    requires Reads(segs, pieces) && Flat(pieces) == all && (to != null ==> size <= to.Length)
    modifies if to == null then {} else {to}
    ensures copied == if size < |all| then size else |all|
    ensures to != null ==> to[..] == all[..copied] + old(to[..])[copied..]
  {
    hide Flat;
    copied := 0;
    var i := 0;
    assert pieces[0..] == pieces;
    while i < |segs| && size > 0
      invariant i <= |segs| && copied <= size && copied <= |all|
      invariant copied < size ==> Flat(pieces[i..]) == all[copied..]
      invariant to != null ==> to[..] == all[..copied] + old(to[..])[copied..]
    {
      var remaining := size - copied;
      var toCopy := if remaining > segs[i].len then segs[i].len else remaining;
      if copied < size { FlatNext(pieces, i, all, copied, toCopy); }
      if to != null {
        CopyStep(segs[i], toCopy, to, all, old(to[..]), copied);
      }
      copied, i := copied + toCopy, i + 1;
    }
    FlatEmpty();
    assert i == |segs| ==> pieces[i..] == [];
  }

  method CopyStep(s: Seg, n: nat, to: array<Byte>, ghost all: seq<Byte>, ghost orig: seq<Byte>, at: nat)
    requires s.Fits() && n <= s.len && at + n <= to.Length && at <= |all|
    requires |orig| == to.Length && to[..] == all[..at] + orig[at..]
    requires n > 0 ==> at + n <= |all| && s.block.buf[s.start..s.start + s.len][..n] == all[at..at + n]
    modifies to
    ensures at + n <= |all| && to[..] == all[..at + n] + orig[at + n..]
  {
    Overlay(all, orig, at, n, s.block.buf[s.start..s.start + s.len][..n]);
    CopySegment(s, n, to, at);
  }

  lemma Overlay(all: seq<Byte>, orig: seq<Byte>, c: nat, n: nat, piece: seq<Byte>)
    requires c <= |all| && c + n <= |orig| && |piece| == n
    requires n > 0 ==> c + n <= |all| && piece == all[c..c + n]
    ensures var now := all[..c] + orig[c..];
            c + n <= |all| && now[..c] + piece + now[c + n..] == all[..c + n] + orig[c + n..]
  {
  }

  lemma FlatEmpty()
    ensures Flat([]) == []
  {
  }

  lemma SameRoomLen(c: Cell, piece: seq<Byte>)
    requires |piece| <= |CellRoom(c)|
    ensures |CellRoom(Overwrite(c, piece))| == |CellRoom(c)|
  {
  }

  lemma NothingWritten(cs: seq<Cell>, i: nat)
    requires i < |cs|
    ensures cs[i := Overwrite(cs[i], [])] == cs
  {
    assert Overwrite(cs[i], []).buf == cs[i].buf;
  }

  /** The free space once the first p bytes have arrived. */
  ghost function Landed(bytes: seq<Byte>, room0: seq<Byte>, p: nat): seq<Byte>
    requires p <= |bytes| && p <= |room0|
  {
    bytes[..p] + room0[p..]
  }

  lemma NextTaken(room: seq<Byte>, data: seq<Byte>, i: nat, j: nat)
    requires i <= j <= |room|
    ensures (data + room[..i]) + room[i..][..j - i] == data + room[..j] && room[i..][j - i..] == room[j..]
  {
    assert room[..i] + room[i..][..j - i] == room[..j];
  }

  lemma LandedEnds(bytes: seq<Byte>, room0: seq<Byte>)
    requires |bytes| <= |room0|
    ensures Landed(bytes, room0, 0) == room0 && Landed(bytes, room0, |bytes|) == bytes + room0[|bytes|..]
  {
  }

  lemma NoneLeft(segs: seq<Seg>)
    ensures Total(segs[|segs|..]) == 0
  {
  }

  lemma Written(bytes: seq<Byte>, room0: seq<Byte>, p: nat, n: nat)
    requires p + n <= |bytes| <= |room0|
    ensures var room := bytes[..p] + room0[p..];
            room[..p] + bytes[p..p + n] + room[p + n..] == bytes[..p + n] + room0[p + n..]
  {
  }

  lemma MovedToFree(chain: seq<Block>, free: seq<Block>)
    requires chain != []
    ensures multiset(chain[1..] + ([chain[0]] + free)) == multiset(chain + free)
  {
    assert chain == [chain[0]] + chain[1..];
  }

  /** Pruning the front block renumbers the blocks and leaves every segment where it was. */
  lemma ShiftCovers(segs: seq<Seg>, chain: seq<Block>, cells: seq<Cell>, k: nat)
    requires Covers(segs, chain, cells, k) && k > 0 && chain != []
    ensures Covers(segs, chain[1..], cells[1..], k - 1)
  {
  }

  lemma ShrinkCovers(segs: seq<Seg>, chain: seq<Block>, cells: seq<Cell>, k: nat, t: nat)
    requires Covers(segs, chain, cells, k) && cells != [] && t <= cells[0].len
    ensures Covers(segs, chain, cells[0 := Shrink(cells[0], t)], k)
  {
  }
}
