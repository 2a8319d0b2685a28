/** Bytes as they travel through the proxy. */
module Bytes {
  type Byte = x: int | 0 <= x < 256
}

/** The value of a block: its storage, and the window of consumable data inside it.
    A chain of blocks is seen as a sequence of cells; everything the buffer promises is
    stated on Data (what a reader will get) and Room (what a writer may still fill). */
module Cells {
  import opened Bytes

  datatype RawCell = RawCell(buf: seq<Byte>, offset: nat, len: nat) {
    predicate Fits() {
      offset + len <= |buf|
    }
  }

  type Cell = c: RawCell | c.Fits() witness RawCell([], 0, 0)

  function CellData(c: Cell): seq<Byte> {
    c.buf[c.offset..c.offset + c.len]
  }

  function CellRoom(c: Cell): seq<Byte> {
    c.buf[c.offset + c.len..]
  }

  /** The consumable bytes of a chain, front to back. */
  function Data(cs: seq<Cell>): seq<Byte> {
    if cs == [] then [] else CellData(cs[0]) + Data(cs[1..])
  }

  /** The free bytes of a chain, front to back. */
  function Room(cs: seq<Cell>): seq<Byte> {
    if cs == [] then [] else CellRoom(cs[0]) + Room(cs[1..])
  }

  lemma {:induction false} DataAppend(a: seq<Cell>, b: seq<Cell>)
    ensures Data(a + b) == Data(a) + Data(b)
  {
    if a == [] {
      assert a + b == b;
    } else {
      assert (a + b)[1..] == a[1..] + b;
      DataAppend(a[1..], b);
    }
  }

  lemma {:induction false} RoomAppend(a: seq<Cell>, b: seq<Cell>)
    ensures Room(a + b) == Room(a) + Room(b)
  {
    if a == [] {
      assert a + b == b;
    } else {
      assert (a + b)[1..] == a[1..] + b;
      RoomAppend(a[1..], b);
    }
  }

  lemma {:induction false} NoData(cs: seq<Cell>)
    requires forall i :: 0 <= i < |cs| ==> cs[i].len == 0
    ensures Data(cs) == []
  {
    if cs != [] { NoData(cs[1..]); }
  }

  lemma {:induction false} NoRoom(cs: seq<Cell>)
    requires forall i :: 0 <= i < |cs| ==> CellRoom(cs[i]) == []
    ensures Room(cs) == []
  {
    if cs != [] { NoRoom(cs[1..]); }
  }

  lemma {:induction false} SameData(a: seq<Cell>, b: seq<Cell>)
    requires |a| == |b|
    requires forall i :: 0 <= i < |a| ==> CellData(a[i]) == CellData(b[i])
    ensures Data(a) == Data(b)
  {
    if a != [] { SameData(a[1..], b[1..]); }
  }

  /** A chain's storage is its data, its room and what was consumed from each cell. */
  function Consumed(cs: seq<Cell>): nat {
    if cs == [] then 0 else cs[0].offset + Consumed(cs[1..])
  }

  lemma {:induction false} Accounting(cs: seq<Cell>, capacity: nat)
    requires forall i :: 0 <= i < |cs| ==> |cs[i].buf| == capacity
    ensures |cs| * capacity == |Data(cs)| + |Room(cs)| + Consumed(cs)
  {
    if cs != [] {
      var tail := cs[1..];
      Accounting(tail, capacity);
      assert |CellData(cs[0])| + |CellRoom(cs[0])| + cs[0].offset == |cs[0].buf|;
      hide CellData, CellRoom;
      OneMore(|tail|, capacity);
    }
  }

  lemma OneMore(n: nat, capacity: nat)
    ensures (n + 1) * capacity == n * capacity + capacity
  {
  }

  lemma {:induction false} NothingConsumed(cs: seq<Cell>)
    requires forall i :: 0 <= i < |cs| ==> cs[i].offset == 0
    ensures Consumed(cs) == 0
  {
    if cs != [] { NothingConsumed(cs[1..]); }
  }

  /** The arrangement every buffer chain keeps: `e` is the end block; blocks before it are
      full, blocks after it are untouched, and only the front block was partly consumed. */
  ghost predicate Arranged(cs: seq<Cell>, e: int, capacity: nat) {
    && (if cs == [] then e == 0 else 0 <= e < |cs|)
    && ArrangedOrDrained(cs, e, capacity)
  }

  /** As Arranged, but the end block itself may just have been pruned (e == -1). */
  ghost predicate ArrangedOrDrained(cs: seq<Cell>, e: int, capacity: nat) {
    && (forall i :: 0 <= i < |cs| ==> |cs[i].buf| == capacity)
    && (forall i :: 0 < i < |cs| ==> cs[i].offset == 0)
    && (forall i :: 0 <= i < e && i < |cs| ==> cs[i].offset + cs[i].len == capacity && cs[i].len > 0)
    && (forall i :: 0 <= i < |cs| && e < i ==> cs[i].len == 0)
    && (cs != [] ==> cs[0].offset < capacity)
    && (0 < e < |cs| ==> cs[e].len > 0)
  }

  /** Where writing continues: the end block, or the one after it once that is full. */
  function SpaceIndex(cs: seq<Cell>, e: int): nat {
    if e < 0 then 0
    else if e >= |cs| then |cs|
    else if cs[e].offset + cs[e].len == |cs[e].buf| then e + 1
    else e
  }

  /** How far into the front block the data begins. */
  function Front(cs: seq<Cell>): nat {
    if cs == [] then 0 else cs[0].offset
  }

  /** Whole blocks from the front of the chain cover the consumed bytes, the data and the room of
      the block where writing continues. */
  lemma FillPoint(cs: seq<Cell>, e: int, capacity: nat)
    requires Arranged(cs, e, capacity) && capacity > 0
    ensures var k := SpaceIndex(cs, e);
            && k <= |cs|
            && Front(cs) + |Data(cs)| == k * capacity + if k < |cs| then cs[k].offset + cs[k].len else 0
  {
    if cs != [] {
      FullBefore(cs, e, capacity);
      hide Front, Data;
      if SpaceIndex(cs, e) != e { OneMore(e, capacity); }
    }
  }

  lemma {:induction false} FullBefore(cs: seq<Cell>, k: nat, capacity: nat)
    requires k < |cs| && (forall i :: 0 < i < |cs| ==> cs[i].offset == 0)
    requires forall i :: 0 <= i < k ==> cs[i].offset + cs[i].len == capacity
    requires forall i :: k < i < |cs| ==> cs[i].len == 0
    ensures Front(cs) + |Data(cs)| == k * capacity + cs[k].offset + cs[k].len
  {
    if k == 0 {
      NoData(cs[1..]);
    } else {
      FullBefore(cs[1..], k - 1, capacity);
      OneMore(k - 1, capacity);
    }
  }

  /** What a reservation of at least `size` bytes comes to when `used` bytes of the chain's blocks
      are consumed or filled: up to the end of the block that completes it. */
  function Grant(used: nat, size: nat, capacity: nat): (r: nat)
    ensures size <= r && (capacity > 0 ==> r < size + capacity)
  {
    if capacity == 0 then size
    else
      var blocks := (used + size + capacity - 1) / capacity;
      RoundUp(used + size, capacity);
      blocks * capacity - used
  }

  lemma RoundUp(x: nat, capacity: nat)
    requires capacity > 0
    ensures var blocks := (x + capacity - 1) / capacity; x <= blocks * capacity < x + capacity
  {
    var y := x + capacity - 1;
    assert y == (y / capacity) * capacity + y % capacity;
  }

  /** The grant ends at a block's end, and at the first that makes it large enough. */
  lemma GrantIsLeast(used: nat, size: nat, capacity: nat, blocks: nat)
    requires capacity > 0 && used + size <= blocks * capacity < used + size + capacity
    ensures Grant(used, size, capacity) == blocks * capacity - used
  {
    RoundUp(used + size, capacity);
    var least := (used + size + capacity - 1) / capacity;
    if least < blocks {
      Spread(least, blocks, capacity);
    } else if blocks < least {
      Spread(blocks, least, capacity);
    }
  }

  lemma Spread(m: nat, n: nat, capacity: nat)
    requires m < n
    ensures m * capacity + capacity <= n * capacity
  {
    assert (n - m - 1) * capacity >= 0;
    assert n * capacity == m * capacity + capacity + (n - m - 1) * capacity;
  }

  /** Where in its block the data begins once n more bytes are consumed. */
  function Advance(offset: nat, n: nat, capacity: nat): (r: nat)
    ensures capacity > 0 ==> r < capacity
  {
    if capacity == 0 then offset + n else (offset + n) % capacity
  }

  lemma AdvanceIs(offset: nat, n: nat, capacity: nat, blocks: nat, r: nat)
    requires r < capacity && offset + n == blocks * capacity + r
    ensures Advance(offset, n, capacity) == r
  {
    var q, m := (offset + n) / capacity, (offset + n) % capacity;
    assert offset + n == q * capacity + m;
    if q < blocks {
      Spread(q, blocks, capacity);
    } else if blocks < q {
      Spread(blocks, q, capacity);
    }
  }

  function Grow(c: Cell, t: nat): Cell
    requires t <= |CellRoom(c)|
  {
    RawCell(c.buf, c.offset, c.len + t)
  }

  /** Committing t bytes into the block where writing continues moves exactly the next t
      bytes of room to the end of the data, and keeps the arrangement. */
  lemma CommitAt(cs: seq<Cell>, e: int, capacity: nat, t: nat)
    requires Arranged(cs, e, capacity) && SpaceIndex(cs, e) < |cs|
    requires 0 < t <= |CellRoom(cs[SpaceIndex(cs, e)])|
    ensures t <= |Room(cs)|
    ensures var k := SpaceIndex(cs, e);
            var cs' := cs[k := Grow(cs[k], t)];
            && Data(cs') == Data(cs) + Room(cs)[..t]
            && Room(cs') == Room(cs)[t..]
            && Arranged(cs', k, capacity)
  {
    var k := SpaceIndex(cs, e);
    CommitArranged(cs, e, capacity, t);
    hide CellRoom, Room, Data, Arranged, SpaceIndex, Grow;
    GrowRoom(cs, k, t);
    GrowData(cs, k, t);
  }

  lemma CommitArranged(cs: seq<Cell>, e: int, capacity: nat, t: nat)
    requires Arranged(cs, e, capacity) && SpaceIndex(cs, e) < |cs|
    requires 0 < t <= |CellRoom(cs[SpaceIndex(cs, e)])|
    ensures var k := SpaceIndex(cs, e);
            && (forall i :: 0 <= i < k ==> CellRoom(cs[i]) == [])
            && (forall i :: k < i < |cs| ==> cs[i].len == 0)
            && Arranged(cs[k := Grow(cs[k], t)], k, capacity)
  {
  }

  lemma {:induction false} GrowRoom(cs: seq<Cell>, k: nat, t: nat)
    requires k < |cs| && t <= |CellRoom(cs[k])|
    requires forall i :: 0 <= i < k ==> CellRoom(cs[i]) == []
    ensures |Room(cs)| >= |CellRoom(cs[k])| && Room(cs)[..t] == CellRoom(cs[k])[..t]
    ensures Room(cs[k := Grow(cs[k], t)]) == Room(cs)[t..]
  {
    var cs' := cs[k := Grow(cs[k], t)];
    if k == 0 {
      assert cs'[1..] == cs[1..];
      GrowCell(cs[k], t);
      TakeDropLeft(CellRoom(cs[k]), Room(cs[1..]), t);
    } else {
      assert cs'[1..] == cs[1..][k - 1 := Grow(cs[k], t)];
      GrowRoom(cs[1..], k - 1, t);
      assert Room(cs) == Room(cs[1..]);
      assert Room(cs') == Room(cs'[1..]);
    }
  }

  lemma {:induction false} GrowData(cs: seq<Cell>, k: nat, t: nat)
    requires k < |cs| && t <= |CellRoom(cs[k])|
    requires forall i :: k < i < |cs| ==> cs[i].len == 0
    ensures Data(cs[k := Grow(cs[k], t)]) == Data(cs) + CellRoom(cs[k])[..t]
  {
    var cs' := cs[k := Grow(cs[k], t)];
    if k == 0 {
      assert cs'[1..] == cs[1..];
      GrowCell(cs[k], t);
      NoData(cs[1..]);
    } else {
      assert cs'[1..] == cs[1..][k - 1 := Grow(cs[k], t)];
      GrowData(cs[1..], k - 1, t);
    }
  }

  lemma TakeDropLeft<T>(x: seq<T>, y: seq<T>, t: nat)
    requires t <= |x|
    ensures (x + y)[..t] == x[..t] && (x + y)[t..] == x[t..] + y
  {
  }

  lemma TakeAcross<T>(x: seq<T>, y: seq<T>, n: nat, t: nat)
    requires n <= |x| && t <= |y| && (n < |x| ==> t == 0)
    ensures (x + y)[..n + t] == x[..n] + y[..t]
  {
  }

  lemma GrowCell(c: Cell, t: nat)
    requires t <= |CellRoom(c)|
    ensures CellData(Grow(c, t)) == CellData(c) + CellRoom(c)[..t]
    ensures CellRoom(Grow(c, t)) == CellRoom(c)[t..]
  {
  }

  /** With nowhere left to write there is no room at all. */
  lemma RoomMeansSpace(cs: seq<Cell>, e: int, capacity: nat)
    requires Arranged(cs, e, capacity)
    ensures SpaceIndex(cs, e) >= |cs| ==> Room(cs) == []
    ensures SpaceIndex(cs, e) < |cs| ==> 0 < |CellRoom(cs[SpaceIndex(cs, e)])|
  {
    if SpaceIndex(cs, e) >= |cs| { NoRoom(cs); }
  }

  ghost predicate Blank(c: Cell, capacity: nat) {
    c.offset == 0 && c.len == 0 && |c.buf| == capacity
  }

  /** A blank block at the tail adds room and nothing else. */
  lemma Extended(cs: seq<Cell>, blank: Cell, e: int, capacity: nat)
    requires Arranged(cs, e, capacity) && Blank(blank, capacity) && capacity > 0
    ensures Arranged(cs + [blank], e, capacity)
    ensures SpaceIndex(cs + [blank], e) == SpaceIndex(cs, e)
    ensures Data(cs + [blank]) == Data(cs) && Room(cs) <= Room(cs + [blank])
  {
    DataAppend(cs, [blank]);
    RoomAppend(cs, [blank]);
  }

  function Shrink(c: Cell, t: nat): Cell
    requires t <= c.len
  {
    RawCell(c.buf, c.offset + t, c.len - t)
  }

  /** While there is data, the front block holds some of it. */
  lemma FrontHasData(cs: seq<Cell>, e: int, capacity: nat)
    requires ArrangedOrDrained(cs, e, capacity) && Data(cs) != []
    ensures cs != [] && cs[0].len > 0 && e >= 0
  {
    if cs == [] || cs[0].len == 0 || e < 0 { NoData(cs); }
  }

  /** Draining t bytes of the front block removes exactly the first t bytes of data. */
  lemma DrainFront(cs: seq<Cell>, t: nat)
    requires cs != [] && t <= cs[0].len
    ensures t <= |Data(cs)|
    ensures Data(cs[0 := Shrink(cs[0], t)]) == Data(cs)[t..]
    ensures Room(cs[0 := Shrink(cs[0], t)]) == Room(cs)
  {
    var cs' := cs[0 := Shrink(cs[0], t)];
    assert cs'[1..] == cs[1..];
    ShrinkCell(cs[0], t);
    TakeDropLeft(CellData(cs[0]), Data(cs[1..]), t);
  }

  lemma FrontShrunk(cs: seq<Cell>, t: nat)
    requires cs != [] && t <= cs[0].len
    ensures Front(cs) == cs[0].offset && Front(cs[0 := Shrink(cs[0], t)]) == cs[0].offset + t
  {
  }

  lemma ShrinkCell(c: Cell, t: nat)
    requires t <= c.len
    ensures CellData(Shrink(c, t)) == CellData(c)[t..] && CellRoom(Shrink(c, t)) == CellRoom(c)
  {
  }

  /** A front block with room or data left stays, and the arrangement with it. */
  lemma KeepFront(cs: seq<Cell>, e: int, capacity: nat, t: nat)
    requires ArrangedOrDrained(cs, e, capacity) && cs != [] && t <= cs[0].len
    requires cs[0].offset + t < capacity
    ensures var cs' := cs[0 := Shrink(cs[0], t)];
            && ArrangedOrDrained(cs', e, capacity)
            && SpaceIndex(cs', e) == SpaceIndex(cs, e)
            && forall i :: 0 <= i < |cs'| ==> CellRoom(cs'[i]) == CellRoom(cs[i])
  {
    ShrinkCell(cs[0], t);
  }

  /** A front block drained to its very end is pruned, and nothing is lost with it. */
  lemma PruneFront(cs: seq<Cell>, e: int, capacity: nat)
    requires ArrangedOrDrained(cs, e, capacity) && cs != [] && capacity > 0 && 0 <= e < |cs|
    requires cs[0].offset + cs[0].len == capacity && cs[0].len > 0
    ensures ArrangedOrDrained(cs[1..], e - 1, capacity)
    ensures SpaceIndex(cs, e) >= 1 && SpaceIndex(cs[1..], e - 1) == SpaceIndex(cs, e) - 1
    ensures Front(cs[1..]) == 0
  {
  }

  lemma PrunedData(cs: seq<Cell>, n: nat)
    requires cs != [] && n == cs[0].len && CellRoom(cs[0]) == []
    ensures n <= |Data(cs)| && Data(cs[1..]) == Data(cs)[n..] && Room(cs[1..]) == Room(cs)
  {
    TakeDropLeft(CellData(cs[0]), Data(cs[1..]), n);
  }

  lemma {:induction false} EmptyData(cs: seq<Cell>)
    requires Data(cs) == []
    ensures forall i :: 0 <= i < |cs| ==> cs[i].len == 0
  {
    if cs != [] { EmptyData(cs[1..]); }
  }

  /** Once all data is gone the end block is the front block again. */
  lemma DrainedDry(cs: seq<Cell>, e: int, capacity: nat)
    requires ArrangedOrDrained(cs, e, capacity) && Data(cs) == []
    requires -1 <= e && (e < |cs| || e == 0)
    ensures Arranged(cs, 0, capacity) && SpaceIndex(cs, 0) == SpaceIndex(cs, e)
  {
    EmptyData(cs);
  }

  /** Writing bytes at the start of a block's free space. */
  function Overwrite(c: Cell, bytes: seq<Byte>): Cell
    requires |bytes| <= |CellRoom(c)|
  {
    var start := c.offset + c.len;
    RawCell(c.buf[..start] + bytes + c.buf[start + |bytes|..], c.offset, c.len)
  }

  lemma OverwriteCell(c: Cell, bytes: seq<Byte>)
    requires |bytes| <= |CellRoom(c)|
    ensures CellData(Overwrite(c, bytes)) == CellData(c)
    ensures CellRoom(Overwrite(c, bytes)) == bytes + CellRoom(c)[|bytes|..]
    ensures |Overwrite(c, bytes).buf| == |c.buf|
  {
  }

  /** How much room lies before the i-th block. */
  function RoomBefore(cs: seq<Cell>, i: nat): nat
    requires i <= |cs|
  {
    if i == 0 then 0 else |CellRoom(cs[0])| + RoomBefore(cs[1..], i - 1)
  }

  lemma {:induction false} RoomBeforeNext(cs: seq<Cell>, i: nat)
    requires i < |cs|
    ensures RoomBefore(cs, i + 1) == RoomBefore(cs, i) + |CellRoom(cs[i])|
  {
    if i > 0 { RoomBeforeNext(cs[1..], i - 1); }
  }

  lemma {:induction false} RoomBeforeFull(cs: seq<Cell>, k: nat)
    requires k <= |cs| && forall i :: 0 <= i < k ==> CellRoom(cs[i]) == []
    ensures RoomBefore(cs, k) == 0
  {
    if k > 0 { RoomBeforeFull(cs[1..], k - 1); }
  }

  lemma Splice<T>(x: seq<T>, y: seq<T>, p: nat, bytes: seq<T>)
    requires p + |bytes| <= |y|
    ensures x + (y[..p] + bytes + y[p + |bytes|..])
         == (x + y)[..|x| + p] + bytes + (x + y)[|x| + p + |bytes|..]
  {
  }

  /** Writing into the i-th block's free space changes the room at that place only. */
  lemma {:induction false} OverwriteAt(cs: seq<Cell>, i: nat, bytes: seq<Byte>)
    requires i < |cs| && |bytes| <= |CellRoom(cs[i])|
    ensures var p := RoomBefore(cs, i);
            && p + |bytes| <= |Room(cs)|
            && Room(cs[i := Overwrite(cs[i], bytes)]) == Room(cs)[..p] + bytes + Room(cs)[p + |bytes|..]
    ensures RoomBefore(cs[i := Overwrite(cs[i], bytes)], i) == RoomBefore(cs, i)
  {
    hide Overwrite, CellRoom;
    var cs' := cs[i := Overwrite(cs[i], bytes)];
    if i == 0 {
      assert cs'[1..] == cs[1..];
      OverwriteCell(cs[0], bytes);
      TakeDropLeft(CellRoom(cs[0]), Room(cs[1..]), |bytes|);
    } else {
      var tail, tail' := cs[1..], cs'[1..];
      assert tail' == tail[i - 1 := Overwrite(tail[i - 1], bytes)] && cs'[0] == cs[0];
      assert Room(cs) == CellRoom(cs[0]) + Room(tail) && Room(cs') == CellRoom(cs[0]) + Room(tail');
      assert RoomBefore(cs, i) == |CellRoom(cs[0])| + RoomBefore(tail, i - 1);
      assert RoomBefore(cs', i) == |CellRoom(cs[0])| + RoomBefore(tail', i - 1);
      OverwriteAt(tail, i - 1, bytes);
      hide Room, RoomBefore;
      Splice(CellRoom(cs[0]), Room(tail), RoomBefore(tail, i - 1), bytes);
    }
  }

  lemma OverwriteKeeps(cs: seq<Cell>, i: nat, bytes: seq<Byte>, e: int, capacity: nat)
    requires i < |cs| && |bytes| <= |CellRoom(cs[i])| && Arranged(cs, e, capacity)
    ensures var cs' := cs[i := Overwrite(cs[i], bytes)];
            && Arranged(cs', e, capacity) && SpaceIndex(cs', e) == SpaceIndex(cs, e)
            && Data(cs') == Data(cs) && Front(cs') == Front(cs)
  {
    OverwriteCell(cs[i], bytes);
    SameData(cs, cs[i := Overwrite(cs[i], bytes)]);
  }
}
