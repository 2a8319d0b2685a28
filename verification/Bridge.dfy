/** The bridge object: two buffers, two sockets, eight flags, and handlers that run one at a
    time. Each handler refines a step of the session model, and none can trip an assertion of
    the buffers. */
module Bridge {
  import opened Bytes
  import opened Protocol
  import opened Handshake
  import opened Rfc1928
  import opened Outcomes
  import opened Buffers
  import opened Socks5
  import opened Pipes
  import opened Sessions
  import opened Cells

  datatype ErrorCode = NoError | EndOfFile | OtherError

  /** A connected socket. The calls made on it are recorded for the proofs; `readInto` is where
      its pending read puts the bytes. */
  class Socket {
    ghost var sends: seq<SendCall>
    ghost var recvs: seq<RecvCall>
    var readInto: seq<Seg>

    constructor ()
      ensures sends == [] && recvs == []
    {
      sends, recvs, readInto := [], [], [];
    }

    method AsyncReadSome(segs: seq<Seg>)
      modifies this`recvs, this`readInto
      ensures recvs == old(recvs) + [ReadSome(Total(segs))] && readInto == segs
    {
      recvs, readInto := recvs + [ReadSome(Total(segs))], segs;
    }

    method AsyncWriteSome(segs: seq<Seg>)
      requires AllFit(segs)
      modifies this`sends
      ensures sends == old(sends) + [WriteSome(Gather(segs))]
    {
      sends := sends + [WriteSome(Gather(segs))];
    }

    method ShutdownSending()
      modifies this`sends
      ensures sends == old(sends) + [ShutdownSend]
    {
      sends := sends + [ShutdownSend];
    }

    method ShutdownReceiving()
      modifies this`recvs
      ensures recvs == old(recvs) + [ShutdownReceive]
    {
      recvs := recvs + [ShutdownReceive];
    }
  }

  /** Reserve space in a buffer and start reading a socket into it. */
  method ScheduleRead(buffer: BasicBuffer, source: Socket, size: nat) returns (room: nat)
    requires buffer.Valid() && !buffer.reserved && size > 0
    modifies buffer, buffer.freelist, buffer.mine, buffer.freelist.pool, source`recvs, source`readInto
    ensures buffer.Valid() && buffer.reserved && buffer.peeked == old(buffer.peeked)
    ensures buffer.Contents() == old(buffer.Contents()) && buffer.HeadOffset() == old(buffer.HeadOffset())
    ensures size <= room < size + buffer.capacity && Total(buffer.resv) == room
    ensures room == Cells.Grant(buffer.HeadOffset() + |buffer.Contents()|, size, buffer.capacity)
    ensures source.readInto == buffer.resv && source.recvs == old(source.recvs) + [ReadSome(room)]
    ensures fresh(buffer.Footprint() - old(buffer.Footprint()))
  {
    hide BasicBuffer.Valid, BasicBuffer.Footprint, Data, Cells.Room, Grew, Total, Front, Grant;
    var segs, total := buffer.ReserveAtLeast(size);
    source.AsyncReadSome(segs);
    room := total;
  }

  /** Start writing everything queued to a socket. */
  method ScheduleWrite(buffer: BasicBuffer, sink: Socket)
    requires buffer.Valid() && !buffer.peeked
    modifies buffer`peeked, buffer`view, sink`sends
    ensures buffer.Valid() && buffer.peeked
    ensures sink.sends == old(sink.sends) + [WriteSome(buffer.Contents())]
  {
    hide BasicBuffer.Valid, Data, Gather;
    var segs := buffer.Peek();
    sink.AsyncWriteSome(segs);
  }

  /** A read completed: its bytes lie in the reserved space, and are committed. */
  method FinishRead(buffer: BasicBuffer, source: Socket, data: seq<Byte>)
    requires buffer.Valid() && buffer.reserved && source.readInto == buffer.resv
    requires 0 < Total(buffer.resv) && |data| <= Total(buffer.resv)
    modifies buffer, buffer.mine
    ensures buffer.Valid() && !buffer.reserved && buffer.peeked == old(buffer.peeked)
    ensures buffer.Contents() == old(buffer.Contents()) + data && buffer.HeadOffset() == old(buffer.HeadOffset())
    ensures buffer.Footprint() == old(buffer.Footprint()) && buffer.mine == old(buffer.mine)
  {
    hide BasicBuffer.Valid, Data, Cells.Room, Total, Front;
    buffer.ReservedSegments();
    buffer.HasBlock();
    buffer.Fill(source.readInto, data);
    buffer.Settled();
    buffer.Commit(|data|);
  }

  /** The proxy's callbacks: all are installed, and connecting always takes a while. */
  ghost predicate ProxyApp(app: App) {
    && app.hasConnect && app.hasDestAddress
    && forall calls, addr: Address :: app.answer(calls, Connect(addr)).status == InProgress
  }

  /** What the event loop can report to a bridge. */
  datatype Completion =
    | ReadClient(ec: ErrorCode, data: seq<Byte>)
    | WroteClient(ec: ErrorCode, n: nat)
    | ReadDest(ec: ErrorCode, data: seq<Byte>)
    | WroteDest(ec: ErrorCode, n: nat)
    | Connected(ec: ErrorCode)
    | Accepted

  /** What it is to a session that forwards. */
  ghost function What(c: Completion): Happening
    requires !c.Connected? && !c.Accepted?
  {
    match c
    case ReadClient(ec, data) => ClientRead(data, ec != NoError)
    case WroteClient(ec, n) => ClientWritten(n, ec != NoError)
    case ReadDest(ec, data) => DestRead(data, ec != NoError)
    case WroteDest(ec, n) => DestWritten(n, ec != NoError)
  }

  ghost predicate AllTraffic(cs: seq<Completion>) {
    forall i :: 0 <= i < |cs| ==> !cs[i].Connected? && !cs[i].Accepted?
  }

  ghost function Happenings(cs: seq<Completion>): seq<Happening>
    requires AllTraffic(cs)
  {
    seq(|cs|, i requires 0 <= i < |cs| => What(cs[i]))
  }

  /** The reads that the handshake's driver took. */
  function Chunks(cs: seq<Completion>): seq<seq<Byte>> {
    if cs == [] then []
    else
      var c := cs[|cs| - 1];
      Chunks(cs[..|cs| - 1]) + if c.ReadClient? && c.ec == NoError then [c.data] else []
  }

  /** The completions of a script that were handled. */
  function Picked(script: seq<Completion>, mask: seq<bool>): seq<Completion>
    requires |mask| == |script|
  {
    if script == [] then []
    else
      var n := |script| - 1;
      Picked(script[..n], mask[..n]) + if mask[n] then [script[n]] else []
  }

  lemma PickOne(script: seq<Completion>, mask: seq<bool>, n: nat, picked: bool)
    requires n < |script| && |mask| == n
    ensures Picked(script[..n + 1], mask + [picked]) == Picked(script[..n], mask) + if picked then [script[n]] else []
  {
    assert script[..n + 1][..n] == script[..n] && (mask + [picked])[..n] == mask;
  }

  ghost predicate Waits(s: Handshake.Session) {
    s.state == WaitConnect || s.state == WaitAccept
  }

  /** After these completions the handshake is where the driver's run over its reads is: same state
      and calls, and the same bytes waiting unless a read has failed. */
  ghost predicate Shook(app: App, shaken: seq<Completion>, w: Handshake.Session, asking: bool) {
    var (d, rest) := Run(app, Started, Chunks(shaken));
    && rest == [] && w.state == d.session.state && w.calls == d.session.calls
    && (asking ==> Driver(w, true) == d)
    && (Waits(w) ==> w == d.session)
  }

  /** After these completions, the handshake's and then those of the traffic, the session is where
      the model's run is, started with what the handshake left. */
  ghost predicate Flowing(app: App, start: Start, shaken: seq<Completion>, flowed: seq<Completion>,
                          state: State, calls: seq<Call>, flow: Flow) {
    var (d, rest) := Run(app, Started, Chunks(shaken));
    && rest == [] && Waits(d.session) && start.left == d.session.buf && start.Fair()
    && (var s := Handshake.ConnectionSucceed(app, d.session).0; state == s.state && calls == s.calls)
    && AllTraffic(flowed) && LegalFlow(StartFlow(start), Happenings(flowed))
    && flow == RunFlow(StartFlow(start), Happenings(flowed))
  }

  lemma ChunksMore(cs: seq<Completion>, c: Completion)
    ensures Chunks(cs + [c]) == Chunks(cs) + if c.ReadClient? && c.ec == NoError then [c.data] else []
  {
    assert (cs + [c])[..|cs|] == cs;
  }

  lemma ShookStart(app: App)
    ensures Shook(app, [], Initial, true)
  {
  }

  lemma ShookRead(app: App, shaken: seq<Completion>, w: Handshake.Session, c: Completion, w': Handshake.Session, asking: bool)
    requires Shook(app, shaken, w, true) && c.ReadClient? && c.ec == NoError && w.Wf()
    requires Driver(w', asking) == Receive(app, Driver(w, true), c.data)
    ensures Shook(app, shaken + [c], w', asking)
  {
    hide Run, Receive;
    ChunksMore(shaken, c);
    RunOneMore(app, Started, Chunks(shaken), c.data);
  }

  lemma ShookFailed(app: App, shaken: seq<Completion>, w: Handshake.Session, c: Completion)
    requires Shook(app, shaken, w, true) && c.ReadClient? && c.ec != NoError && w.Wf()
    ensures Shook(app, shaken + [c], Feed(w, c.data), false)
  {
    hide Run;
    ChunksMore(shaken, c);
    assert Chunks(shaken) + [] == Chunks(shaken);
    AsksWhenShort(app, Started, Chunks(shaken));
  }

  lemma ShookOn(app: App, shaken: seq<Completion>, w: Handshake.Session, asking: bool, c: Completion)
    requires Shook(app, shaken, w, asking) && c.Connected?
    ensures Shook(app, shaken + [c], w, asking)
  {
    hide Run;
    ChunksMore(shaken, c);
    assert Chunks(shaken) + [] == Chunks(shaken);
  }

  lemma FlowingStarts(app: App, start: Start, shaken: seq<Completion>, w: Handshake.Session, asking: bool, c: Completion)
    requires Shook(app, shaken, w, asking) && Waits(w) && (c.Connected? || c.Accepted?)
    requires start.Fair() && start.left == w.buf
    ensures var s := Handshake.ConnectionSucceed(app, w).0;
            Flowing(app, start, shaken + [c], [], s.state, s.calls, StartFlow(start))
  {
    hide Run, StartFlow;
    ChunksMore(shaken, c);
    assert Chunks(shaken) + [] == Chunks(shaken);
    assert Happenings([]) == [];
    NothingMore(StartFlow(start));
  }

  lemma NonePicked(script: seq<Completion>)
    ensures Picked(script[..0], []) == []
  {
  }

  lemma CallsOfJoin(app: App, s: Handshake.Session, c: Call)
    requires Waits(s) && c in Handshake.ConnectionSucceed(app, s).0.calls && (c.Connect? || c.Bind?)
    ensures c in s.calls
  {
  }

  lemma JoinKeepsCalls(app: App, s: Handshake.Session)
    requires Waits(s)
    ensures s.calls <= Handshake.ConnectionSucceed(app, s).0.calls
  {
  }

  lemma FlowsOn(app: App, start: Start, shaken: seq<Completion>, flowed: seq<Completion>,
                state: State, calls: seq<Call>, flow: Flow, c: Completion, flow': Flow)
    requires Flowing(app, start, shaken, flowed, state, calls, flow)
    requires !c.Connected? && !c.Accepted? && Handles(flow, What(c), flow')
    ensures Flowing(app, start, shaken, flowed + [c], state, calls, flow')
  {
    hide Run, StartFlow, LegalFlow, RunFlow, Handles;
    assert Happenings(flowed + [c]) == Happenings(flowed) + [What(c)];
    RunFlowAppend(StartFlow(start), Happenings(flowed), What(c), flow');
  }

  class ProxyBridge {
    const upstream: BasicBuffer
    const downstream: BasicBuffer
    const client: Socket
    var dest: Socket
    const socks: Socks5State
    var readingClient: bool
    var writingClient: bool
    var clientReadable: bool
    var clientWritable: bool
    var readingDest: bool
    var writingDest: bool
    var destReadable: bool
    var destWritable: bool

    // What the event loop knows of the pending operations.
    var asking: bool      // a read of the client is pending for the handshake
    var forwarding: bool  // the handshake is over
    var upRoom: nat       // the space the pending read of the client was given
    var upInflight: nat   // the bytes the pending write to the destination was given
    var downRoom: nat
    var downInflight: nat

    // The history of the two directions.
    ghost var upGot: seq<Byte>
    ghost var upSent: seq<Byte>
    ghost var upFailed: bool
    ghost var downGot: seq<Byte>
    ghost var downSent: seq<Byte>
    ghost var downFailed: bool

    constructor (capacity: nat, app: App)
      requires capacity > 0 && ProxyApp(app)
      ensures Valid() && Shaking() && !asking && Waiting() == Initial
      ensures socks.app == app && client.recvs == [] && upstream.capacity == capacity
    {
      hide BasicBuffer.Valid, ProxyApp, Data, Cells.Room;
      upstream := new BasicBuffer(capacity);
      downstream := new BasicBuffer(capacity);
      client := new Socket();
      dest := new Socket();
      socks := new Socks5State(app);
      readingClient, writingClient, clientReadable, clientWritable := false, false, true, true;
      readingDest, writingDest, destReadable, destWritable := false, false, true, true;
      asking, forwarding := false, false;
      upSent, upInflight, upFailed := [], 0, false;
      downGot, downSent, downRoom, downInflight, downFailed := [], [], 0, 0, false;
    }

    /** The upstream direction as a value. */
    ghost function Up(): Pipe
      reads this, upstream, client, dest
    {
      Pipe(upstream.Contents(), upstream.HeadOffset(), upstream.capacity, readingClient, writingDest, clientReadable, destWritable, upRoom, upInflight,
           upFailed, upGot, upSent, dest.sends, client.recvs)
    }

    ghost function Down(): Pipe
      reads this, downstream, client, dest
    {
      Pipe(downstream.Contents(), downstream.HeadOffset(), downstream.capacity, readingDest, writingClient, destReadable, clientWritable, downRoom, downInflight,
           downFailed, downGot, downSent, client.sends, dest.recvs)
    }

    /** Every object the two buffers are made of. */
    ghost function Reach(): set<object>
      reads upstream`mine, downstream`mine, upstream.freelist`pool, downstream.freelist`pool
    {
      upstream.Footprint() + downstream.Footprint()
    }

    ghost predicate Apart()
      reads `dest, upstream`mine, downstream`mine, upstream.freelist`pool, downstream.freelist`pool
    {
      && client != dest
      && upstream != downstream && upstream.freelist != downstream.freelist
      && upstream.mine !! downstream.mine && upstream.mine !! downstream.freelist.pool
      && upstream.freelist.pool !! downstream.mine && upstream.freelist.pool !! downstream.freelist.pool
      && upstream.capacity == downstream.capacity
    }

    /** The pending operations own what they use: at most one reservation and one view of each
        buffer, held exactly while a read or a write is pending. */
    ghost predicate Pending()
      reads this, upstream, downstream, client, dest
    {
      && (upstream.reserved <==> readingClient || asking)
      && (upstream.reserved ==> client.readInto == upstream.resv && Total(upstream.resv) == upRoom > 0)
      && (upstream.peeked <==> writingDest)
      && (downstream.reserved <==> readingDest)
      && (downstream.reserved ==> dest.readInto == downstream.resv && Total(downstream.resv) == downRoom > 0)
      && (downstream.peeked <==> writingClient)
    }

    ghost predicate Valid()
      reads this, client, dest
      reads upstream, upstream.freelist, upstream.mine, upstream.freelist.pool
      reads downstream, downstream.freelist, downstream.mine, downstream.freelist.pool
    {
      Apart() && upstream.Valid() && downstream.Valid() && Pending()
    }

    /** Nothing has been read from the destination or written to either side. */
    ghost predicate Untouched()
      reads `forwarding, `readingClient, `writingDest, `readingDest, `writingClient
      reads `clientReadable, `clientWritable, `destReadable, `destWritable
      reads `upSent, `downGot, `downSent, `upInflight, `downRoom, `downInflight, `upFailed, `downFailed
      reads `dest, client`sends, dest`sends, dest`recvs
    {
      && !forwarding && !readingClient && !writingDest && !readingDest && !writingClient
      && clientReadable && clientWritable && destReadable && destWritable
      && upSent == downGot == downSent == [] && upInflight == downRoom == downInflight == 0 && !upFailed && !downFailed
      && client.sends == [] && dest.sends == [] && dest.recvs == []
    }

    lemma NotForwarding()
      requires Untouched()
      ensures !forwarding && !readingClient && !readingDest && !writingClient && !writingDest
    {
    }

    /** Before forwarding: nothing but the handshake's own reads has happened. */
    ghost predicate Shaking()
      reads this, upstream, downstream, client, dest, socks
    {
      && Untouched()
      && downstream.Contents() == [] && downstream.HeadOffset() == 0 && ShutdownReceive !in client.recvs
      && ProxyApp(socks.app) && Waiting().Wf()
      && |upstream.Contents()| <= 255 + upstream.capacity
      && (asking ==> |upstream.Contents()| < 256 && upRoom <= upstream.capacity)
    }

    /** The handshake, on the bytes waiting in the upstream buffer. */
    ghost function Waiting(): Handshake.Session
      reads socks, upstream
    {
      socks.Session(upstream.Contents())
    }

    ghost predicate Open()
      reads this, upstream, downstream, client, dest
    {
      forwarding && !asking && FlowInv(Flow(Up(), Down()))
    }

    // ForwardTraffic, one condition at a time.

    method ReadClientIfDue()
      requires Valid() && !asking
      modifies upstream, upstream.freelist, upstream.mine, upstream.freelist.pool
      modifies client`recvs, client`readInto, this`readingClient, this`upRoom
      ensures Valid() && Up() == StartRead(old(Up())) && Down() == old(Down())
      ensures fresh(Reach() - old(Reach()))
    {
      hide BasicBuffer.Valid, BasicBuffer.Contents, BasicBuffer.HeadOffset, Total, Apart, Reach;
      Unpacked();
      Sized();
      if !readingClient && clientReadable && destWritable && upstream.DataSize() < MAX_BUFFER_SIZE {
        BeginClientRead(READ_SIZE);
        readingClient := true;
      }
    }

    /** Reserve upstream space and read the client into it. */
    method BeginClientRead(size: nat)
      requires Apart() && upstream.Valid() && downstream.Valid() && !upstream.reserved && size > 0
      modifies upstream, upstream.freelist, upstream.mine, upstream.freelist.pool
      modifies client`recvs, client`readInto, this`upRoom
      ensures Apart() && upstream.Valid() && downstream.Valid() && upstream.reserved
      ensures upstream.peeked == old(upstream.peeked) && upstream.Contents() == old(upstream.Contents())
      ensures client.readInto == upstream.resv && Total(upstream.resv) == upRoom && client.recvs == old(client.recvs) + [ReadSome(upRoom)]
      ensures size <= upRoom < size + upstream.capacity && upstream.HeadOffset() == old(upstream.HeadOffset())
      ensures upRoom == Cells.Grant(upstream.HeadOffset() + |upstream.Contents()|, size, upstream.capacity)
      ensures fresh(Reach() - old(Reach()))
    {
      hide BasicBuffer.Valid, BasicBuffer.Contents, BasicBuffer.HeadOffset, Total;
      upRoom := ScheduleRead(upstream, client, size);
    }

    method WriteClientIfDue()
      requires Valid() && !asking
      modifies downstream`peeked, downstream`view, client`sends, this`writingClient, this`downInflight
      ensures Valid() && Down() == StartWrite(old(Down())) && Up() == old(Up())
    {
      hide BasicBuffer.Valid, BasicBuffer.Contents, BasicBuffer.HeadOffset, Total;
      Sized();
      if !writingClient && clientWritable && downstream.DataSize() > 0 {
        ScheduleWrite(downstream, client);
        writingClient, downInflight := true, downstream.DataSize();
      }
    }

    method ReadDestIfDue()
      requires Valid() && !asking
      modifies downstream, downstream.freelist, downstream.mine, downstream.freelist.pool
      modifies dest`recvs, dest`readInto, this`readingDest, this`downRoom
      ensures Valid() && Down() == StartRead(old(Down())) && Up() == old(Up())
      ensures fresh(Reach() - old(Reach()))
    {
      hide BasicBuffer.Valid, BasicBuffer.Contents, BasicBuffer.HeadOffset, Total, Apart, Reach;
      Unpacked();
      Sized();
      if !readingDest && destReadable && clientWritable && downstream.DataSize() < MAX_BUFFER_SIZE {
        BeginDestRead(READ_SIZE);
        readingDest := true;
      }
    }

    /** Reserve downstream space and read the destination into it. */
    method BeginDestRead(size: nat)
      requires Apart() && upstream.Valid() && downstream.Valid() && !downstream.reserved && size > 0
      modifies downstream, downstream.freelist, downstream.mine, downstream.freelist.pool
      modifies dest`recvs, dest`readInto, this`downRoom
      ensures Apart() && upstream.Valid() && downstream.Valid() && downstream.reserved
      ensures downstream.peeked == old(downstream.peeked) && downstream.Contents() == old(downstream.Contents())
      ensures dest.readInto == downstream.resv && Total(downstream.resv) == downRoom && dest.recvs == old(dest.recvs) + [ReadSome(downRoom)]
      ensures size <= downRoom < size + downstream.capacity && downstream.HeadOffset() == old(downstream.HeadOffset())
      ensures downRoom == Cells.Grant(downstream.HeadOffset() + |downstream.Contents()|, size, downstream.capacity)
      ensures fresh(Reach() - old(Reach()))
    {
      hide BasicBuffer.Valid, BasicBuffer.Contents, BasicBuffer.HeadOffset, Total;
      downRoom := ScheduleRead(downstream, dest, size);
    }

    method WriteDestIfDue()
      requires Valid() && !asking
      modifies upstream`peeked, upstream`view, dest`sends, this`writingDest, this`upInflight
      ensures Valid() && Up() == StartWrite(old(Up())) && Down() == old(Down())
    {
      hide BasicBuffer.Valid, BasicBuffer.Contents, BasicBuffer.HeadOffset, Total;
      Sized();
      if !writingDest && destWritable && upstream.DataSize() > 0 {
        ScheduleWrite(upstream, dest);
        writingDest, upInflight := true, upstream.DataSize();
      }
    }

    /** Schedule whatever is due. */
    method ForwardTraffic()
      requires Valid() && !asking
      modifies this, client, dest
      modifies upstream, upstream.freelist, upstream.mine, upstream.freelist.pool
      modifies downstream, downstream.freelist, downstream.mine, downstream.freelist.pool
      ensures Valid() && fresh(Reach() - old(Reach())) && unchanged(`dest, `asking, `forwarding)
      ensures Up() == Forward(old(Up())) && Down() == Forward(old(Down()))
    {
      hide Valid, Up, Down, StartRead, StartWrite, Forward;
      Separate();
      UseClient();
      UseDest();
      StartsCommute(old(Down()));
      StartsForward(old(Up()));
    }

    method UseClient()
      requires Valid() && !asking
      modifies upstream, upstream.freelist, upstream.mine, upstream.freelist.pool
      modifies downstream`peeked, downstream`view
      modifies client, this`readingClient, this`upRoom, this`writingClient, this`downInflight
      ensures Valid() && fresh(Reach() - old(Reach()))
      ensures Up() == StartRead(old(Up())) && Down() == StartWrite(old(Down()))
    {
      hide Valid, Up, Down, StartRead, StartWrite;
      Separate();
      ReadClientIfDue();
      WriteClientIfDue();
    }

    method UseDest()
      requires Valid() && !asking
      modifies downstream, downstream.freelist, downstream.mine, downstream.freelist.pool
      modifies upstream`peeked, upstream`view
      modifies dest, this`readingDest, this`downRoom, this`writingDest, this`upInflight
      ensures Valid() && fresh(Reach() - old(Reach()))
      ensures Up() == StartWrite(old(Up())) && Down() == StartRead(old(Down()))
    {
      hide Valid, Up, Down, StartRead, StartWrite;
      Separate();
      ReadDestIfDue();
      WriteDestIfDue();
    }

    lemma Separate()
      requires Valid()
      ensures client != dest && upstream != downstream && upstream.freelist != downstream.freelist
    {
    }

    lemma Unpacked()
      requires Apart()
      ensures client != dest && upstream != downstream && upstream.capacity == downstream.capacity
    {
    }

    lemma Sized()
      requires Valid()
      ensures upstream.DataSize() == |upstream.Contents()| && downstream.DataSize() == |downstream.Contents()|
      ensures upstream.capacity > 0 && upstream.HeadOffset() < upstream.capacity
    {
      upstream.Settled();
      downstream.Settled();
    }

    // The four completion handlers.

    lemma Flags()
      ensures Up().reading == readingClient && Up().writing == writingDest && Up().room == upRoom
      ensures Up().inflight == upInflight && Up().buf == upstream.Contents()
      ensures Down().reading == readingDest && Down().writing == writingClient && Down().room == downRoom
      ensures Down().inflight == downInflight && Down().buf == downstream.Contents()
    {
    }

    lemma InflightFits(p: Pipe)
      requires Inv(p)
      ensures p.writing ==> p.inflight <= |p.buf|
    {
    }

    method CompleteClientRead(ec: ErrorCode, data: seq<Byte>)
      requires Valid() && !asking && readingClient && |data| <= upRoom
      modifies upstream, upstream.mine, this`readingClient, this`clientReadable, this`upGot, dest`sends
      ensures Valid() && Up() == ReadDone(old(Up()), data, ec != NoError) && Down() == old(Down())
      ensures Reach() == old(Reach())
    {
      hide Valid, Reach;
      CommitClientRead(data);
      if ec != NoError {
        ClientEnded();
      }
    }

    method CommitClientRead(data: seq<Byte>)
      requires Valid() && !asking && readingClient && |data| <= upRoom
      modifies upstream, upstream.mine, this`readingClient, this`upGot
      ensures Valid() && Reach() == old(Reach())
      ensures var p := old(Up()); Up() == p.(reading := false, buf := p.buf + data, got := p.got + data)
      ensures Down() == old(Down())
    {
      hide BasicBuffer.Valid, BasicBuffer.Contents, BasicBuffer.HeadOffset, Total;
      readingClient := false;
      FinishRead(upstream, client, data);
      upGot := upGot + data;
    }

    method ClientEnded()
      requires Valid()
      modifies this`clientReadable, dest`sends
      ensures Valid() && Down() == old(Down())
      ensures var p := old(Up());
              Up() == p.(readable := false, sends := if p.buf == [] then p.sends + [ShutdownSend] else p.sends)
    {
      hide BasicBuffer.Valid, BasicBuffer.Contents, BasicBuffer.HeadOffset, Total;
      Sized();
      clientReadable := false;
      if upstream.DataSize() == 0 {
        dest.ShutdownSending();
      }
    }

    /** A read of the client completed. */
    method ClientReadHandler(ec: ErrorCode, data: seq<Byte>)
      requires Valid() && Open() && readingClient && |data| <= upRoom
      modifies this, client, dest
      modifies upstream, upstream.freelist, upstream.mine, upstream.freelist.pool
      modifies downstream, downstream.freelist, downstream.mine, downstream.freelist.pool
      ensures Valid() && Open() && fresh(Reach() - old(Reach())) && dest == old(dest)
      ensures Handles(old(Flow(Up(), Down())), ClientRead(data, ec != NoError), Flow(Up(), Down()))
    {
      hide Valid, Up, Down, Inv, Forward, ReadDone, Handles, Forwarded;
      Separate();
      ghost var flow := Flow(Up(), Down());
      Flags();
      CompleteClientRead(ec, data);
      ForwardTraffic();
      ClientReadHandles(flow, ClientRead(data, ec != NoError), Flow(Up(), Down()));
    }

    method CompleteDestRead(ec: ErrorCode, data: seq<Byte>)
      requires Valid() && !asking && readingDest && |data| <= downRoom
      modifies downstream, downstream.mine, this`readingDest, this`destReadable, this`downGot, client`sends
      ensures Valid() && Down() == ReadDone(old(Down()), data, ec != NoError) && Up() == old(Up())
      ensures Reach() == old(Reach())
    {
      hide Valid, Reach;
      CommitDestRead(data);
      if ec != NoError {
        DestEnded();
      }
    }

    method CommitDestRead(data: seq<Byte>)
      requires Valid() && !asking && readingDest && |data| <= downRoom
      modifies downstream, downstream.mine, this`readingDest, this`downGot
      ensures Valid() && Reach() == old(Reach())
      ensures var p := old(Down()); Down() == p.(reading := false, buf := p.buf + data, got := p.got + data)
      ensures Up() == old(Up())
    {
      hide BasicBuffer.Valid, BasicBuffer.Contents, BasicBuffer.HeadOffset, Total;
      readingDest := false;
      FinishRead(downstream, dest, data);
      downGot := downGot + data;
    }

    method DestEnded()
      requires Valid()
      modifies this`destReadable, client`sends
      ensures Valid() && Up() == old(Up())
      ensures var p := old(Down());
              Down() == p.(readable := false, sends := if p.buf == [] then p.sends + [ShutdownSend] else p.sends)
    {
      hide BasicBuffer.Valid, BasicBuffer.Contents, BasicBuffer.HeadOffset, Total;
      Sized();
      destReadable := false;
      if downstream.DataSize() == 0 {
        client.ShutdownSending();
      }
    }

    /** A read of the destination completed. */
    method DestReadHandler(ec: ErrorCode, data: seq<Byte>)
      requires Valid() && Open() && readingDest && |data| <= downRoom
      modifies this, client, dest
      modifies upstream, upstream.freelist, upstream.mine, upstream.freelist.pool
      modifies downstream, downstream.freelist, downstream.mine, downstream.freelist.pool
      ensures Valid() && Open() && fresh(Reach() - old(Reach())) && dest == old(dest)
      ensures Handles(old(Flow(Up(), Down())), DestRead(data, ec != NoError), Flow(Up(), Down()))
    {
      hide Valid, Up, Down, Inv, Forward, ReadDone, Handles, Forwarded;
      Separate();
      ghost var flow := Flow(Up(), Down());
      Flags();
      CompleteDestRead(ec, data);
      ForwardTraffic();
      DestReadHandles(flow, DestRead(data, ec != NoError), Flow(Up(), Down()));
    }

    method CompleteClientWrite(ec: ErrorCode, n: nat)
      requires Valid() && !asking && writingClient && n <= |downstream.Contents()|
      modifies downstream, downstream.freelist, downstream.mine
      modifies this`writingClient, this`clientWritable, this`downSent, this`downFailed, client`sends, dest`recvs
      ensures Valid() && Down() == WriteDone(old(Down()), n, ec != NoError) && Up() == old(Up())
      ensures Reach() == old(Reach()) && downstream.mine <= old(downstream.mine)
    {
      hide Valid, Reach;
      DrainClientWrite(n);
      if ec != NoError {
        ClientFailed();
      }
      ClientDrained();
    }

    method DrainClientWrite(n: nat)
      requires Valid() && !asking && writingClient && n <= |downstream.Contents()|
      modifies downstream, downstream.freelist, downstream.mine, this`writingClient, this`downSent
      ensures Valid() && Reach() == old(Reach()) && downstream.mine <= old(downstream.mine)
      ensures var p := old(Down()); Down() == Drained(p, n).(writing := false, sent := p.sent + p.buf[..n])
      ensures Up() == old(Up())
    {
      hide BasicBuffer.Valid, BasicBuffer.Contents, BasicBuffer.HeadOffset, BasicBuffer.Stock, Total;
      Sized();
      writingClient := false;
      downSent := downSent + downstream.Contents()[..n];
      downstream.Drain(n);
    }

    method ClientFailed()
      requires Valid()
      modifies this`clientWritable, this`downFailed, dest`recvs
      ensures Valid() && Up() == old(Up())
      ensures var p := old(Down());
              Down() == p.(writable := false, failed := true, recvs := p.recvs + [ShutdownReceive])
    {
      hide BasicBuffer.Valid, BasicBuffer.Contents, BasicBuffer.HeadOffset, Total;
      Separate();
      clientWritable, downFailed := false, true;
      dest.ShutdownReceiving();
    }

    method ClientDrained()
      requires Valid()
      modifies this`clientWritable, client`sends
      ensures Valid() && Up() == old(Up())
      ensures var p := old(Down());
              Down() == if !p.readable && p.buf == [] then p.(writable := false, sends := p.sends + [ShutdownSend]) else p
    {
      hide BasicBuffer.Valid, BasicBuffer.Contents, BasicBuffer.HeadOffset, Total;
      Sized();
      if !destReadable && downstream.DataSize() == 0 {
        clientWritable := false;
        client.ShutdownSending();
      }
    }

    /** A write to the client completed. */
    method ClientWriteHandler(ec: ErrorCode, n: nat)
      requires Valid() && Open() && writingClient && n <= downInflight
      modifies this, client, dest
      modifies upstream, upstream.freelist, upstream.mine, upstream.freelist.pool
      modifies downstream, downstream.freelist, downstream.mine, downstream.freelist.pool
      ensures Valid() && Open() && fresh(Reach() - old(Reach())) && dest == old(dest)
      ensures Handles(old(Flow(Up(), Down())), ClientWritten(n, ec != NoError), Flow(Up(), Down()))
    {
      hide Valid, Up, Down, Inv, Forward, WriteDone, Handles, Forwarded;
      Separate();
      ghost var flow := Flow(Up(), Down());
      Flags();
      InflightFits(flow.down);
      CompleteClientWrite(ec, n);
      ForwardTraffic();
      ClientWrittenHandles(flow, ClientWritten(n, ec != NoError), Flow(Up(), Down()));
    }

    method CompleteDestWrite(ec: ErrorCode, n: nat)
      requires Valid() && !asking && writingDest && n <= |upstream.Contents()|
      modifies upstream, upstream.freelist, upstream.mine
      modifies this`writingDest, this`destWritable, this`upSent, this`upFailed, dest`sends, client`recvs
      ensures Valid() && Up() == WriteDone(old(Up()), n, ec != NoError) && Down() == old(Down())
      ensures Reach() == old(Reach()) && upstream.mine <= old(upstream.mine)
    {
      hide Valid, Reach;
      DrainDestWrite(n);
      if ec != NoError {
        DestFailed();
      }
      DestDrained();
    }

    method DrainDestWrite(n: nat)
      requires Valid() && !asking && writingDest && n <= |upstream.Contents()|
      modifies upstream, upstream.freelist, upstream.mine, this`writingDest, this`upSent
      ensures Valid() && Reach() == old(Reach()) && upstream.mine <= old(upstream.mine)
      ensures var p := old(Up()); Up() == Drained(p, n).(writing := false, sent := p.sent + p.buf[..n])
      ensures Down() == old(Down())
    {
      hide BasicBuffer.Valid, BasicBuffer.Contents, BasicBuffer.HeadOffset, BasicBuffer.Stock, Total;
      Sized();
      writingDest := false;
      upSent := upSent + upstream.Contents()[..n];
      upstream.Drain(n);
    }

    method DestFailed()
      requires Valid()
      modifies this`destWritable, this`upFailed, client`recvs
      ensures Valid() && Down() == old(Down())
      ensures var p := old(Up());
              Up() == p.(writable := false, failed := true, recvs := p.recvs + [ShutdownReceive])
    {
      hide BasicBuffer.Valid, BasicBuffer.Contents, BasicBuffer.HeadOffset, Total;
      Separate();
      destWritable, upFailed := false, true;
      client.ShutdownReceiving();
    }

    method DestDrained()
      requires Valid()
      modifies this`destWritable, dest`sends
      ensures Valid() && Down() == old(Down())
      ensures var p := old(Up());
              Up() == if !p.readable && p.buf == [] then p.(writable := false, sends := p.sends + [ShutdownSend]) else p
    {
      hide BasicBuffer.Valid, BasicBuffer.Contents, BasicBuffer.HeadOffset, Total;
      Sized();
      if !clientReadable && upstream.DataSize() == 0 {
        destWritable := false;
        dest.ShutdownSending();
      }
    }

    /** A write to the destination completed. */
    method DestWriteHandler(ec: ErrorCode, n: nat)
      requires Valid() && Open() && writingDest && n <= upInflight
      modifies this, client, dest
      modifies upstream, upstream.freelist, upstream.mine, upstream.freelist.pool
      modifies downstream, downstream.freelist, downstream.mine, downstream.freelist.pool
      ensures Valid() && Open() && fresh(Reach() - old(Reach())) && dest == old(dest)
      ensures Handles(old(Flow(Up(), Down())), DestWritten(n, ec != NoError), Flow(Up(), Down()))
    {
      hide Valid, Up, Down, Inv, Forward, WriteDone, Handles, Forwarded;
      Separate();
      ghost var flow := Flow(Up(), Down());
      Flags();
      InflightFits(flow.up);
      CompleteDestWrite(ec, n);
      ForwardTraffic();
      DestWrittenHandles(flow, DestWritten(n, ec != NoError), Flow(Up(), Down()));
    }

    // The handshake.

    /** Start the handshake by reading the client. */
    method PerformSocks5Handshake()
      requires Valid() && Shaking() && !asking && Waiting() == Initial
      modifies this`asking, this`upRoom, client`recvs, client`readInto
      modifies upstream, upstream.freelist, upstream.mine, upstream.freelist.pool
      ensures Valid() && Shaking() && fresh(Reach() - old(Reach()))
      ensures Driver(Waiting(), asking) == Started
    {
      hide BasicBuffer.Valid, BasicBuffer.Contents, BasicBuffer.HeadOffset, Total, ProxyApp, Reach, Apart;
      Unpacked();
      BeginClientRead(1);
      asking := true;
    }

    /** The driver's loop over the transitions of the handshake. */
    method RunHandshake()
      requires Valid() && !asking && !readingClient && !writingDest && Waiting().Wf()
      modifies socks, upstream, upstream.freelist, upstream.mine
      ensures Valid() && Waiting() == Exhaust(socks.app, old(Waiting()))
      ensures upstream.Footprint() == old(upstream.Footprint()) && upstream.mine <= old(upstream.mine)
      ensures Reach() == old(Reach())
    {
      hide BasicBuffer.Valid, BasicBuffer.Contents, BasicBuffer.HeadOffset, Handshake.Proceed;
      ghost var goal := Exhaust(socks.app, Waiting());
      var again := true;
      while socks.state != Success && again
        invariant Apart() && upstream.Valid() && downstream.Valid() && Pending()
        invariant Waiting().Wf() && goal == if again then Exhaust(socks.app, Waiting()) else Waiting()
        invariant upstream.Footprint() == old(upstream.Footprint()) && upstream.mine <= old(upstream.mine)
        decreases if again then 6 - Rank(socks.state) else 0
      {
        AgainRises(socks.app, Waiting());
        again := socks.Proceed(upstream);
      }
    }

    /** A read for the handshake completed. */
    method Socks5HandshakeHandler(ec: ErrorCode, data: seq<Byte>)
      requires Valid() && Shaking() && asking && |data| <= upRoom
      modifies this`asking, this`upRoom, client`recvs, client`readInto, socks
      modifies upstream, upstream.freelist, upstream.mine, upstream.freelist.pool
      ensures Valid() && Shaking() && fresh(Reach() - old(Reach()))
      ensures if ec != NoError then !asking && Waiting() == Feed(old(Waiting()), data)
              else Driver(Waiting(), asking) == Receive(socks.app, Driver(old(Waiting()), true), data)
    {
      hide Valid, Exhaust, ProxyApp, Untouched;
      NotForwarding();
      Separate();
      CommitHandshakeRead(data);
      if ec == NoError {
        ContinueHandshake();
      }
    }

    method ContinueHandshake()
      requires Valid() && Shaking() && !asking
      modifies this`asking, this`upRoom, client`recvs, client`readInto, socks
      modifies upstream, upstream.freelist, upstream.mine, upstream.freelist.pool
      ensures Valid() && Shaking() && fresh(Reach() - old(Reach()))
      ensures Waiting() == Exhaust(socks.app, old(Waiting())) && (asking <==> Waiting().Insufficient())
    {
      hide Valid, Exhaust, ProxyApp, Untouched, BasicBuffer.Contents;
      NotForwarding();
      Separate();
      ExhaustShrinks(socks.app, Waiting());
      RunHandshake();
      Sized();
      if socks.InsufficientBuffer(upstream.DataSize()) {
        SmallNeed(Waiting());
        AskAgain();
      }
    }

    lemma SmallNeed(s: Handshake.Session)
      requires s.Wf()
      ensures s.required < 256
    {
    }

    method CommitHandshakeRead(data: seq<Byte>)
      requires Valid() && asking && |data| <= upRoom && !readingClient
      modifies this`asking, upstream, upstream.mine
      ensures Valid() && !asking && Waiting() == Feed(old(Waiting()), data)
      ensures upstream.Footprint() == old(upstream.Footprint()) && upstream.mine == old(upstream.mine)
    {
      hide BasicBuffer.Valid, BasicBuffer.Contents, BasicBuffer.HeadOffset, Total;
      asking := false;
      FinishRead(upstream, client, data);
    }

    method AskAgain()
      requires Valid() && !asking && !readingClient && !readingDest
      modifies this`asking, this`upRoom, client`recvs, client`readInto
      modifies upstream, upstream.freelist, upstream.mine, upstream.freelist.pool
      ensures Valid() && asking && Waiting() == old(Waiting()) && upRoom <= upstream.capacity
      ensures client.recvs == old(client.recvs) + [ReadSome(upRoom)] && fresh(Reach() - old(Reach()))
    {
      hide BasicBuffer.Valid, BasicBuffer.Contents, BasicBuffer.HeadOffset, Total, Apart, Reach;
      Unpacked();
      BeginClientRead(1);
      asking := true;
    }

    /** The connection to the destination completed, or failed. */
    method ConnectHandler(ec: ErrorCode)
      requires Valid() && Shaking() && !asking
      modifies this, client, dest, socks
      modifies upstream, upstream.freelist, upstream.mine, upstream.freelist.pool
      modifies downstream, downstream.freelist, downstream.mine, downstream.freelist.pool
      ensures Valid() && fresh(Reach() - old(Reach()))
      ensures dest == old(dest) && (ec != NoError ==> !forwarding && !asking && Shaking() && Waiting() == old(Waiting()))
      ensures ec == NoError ==> Joined(old(Waiting()), old(Begin()))
    {
      hide Valid, Reach;
      if ec == NoError {
        Join();
      }
    }

    /** A connection came in on the bound port; it becomes the destination. */
    method AcceptInboundConnection(sock: Socket)
      requires Valid() && Shaking() && !asking
      requires sock != client && sock.sends == [] && sock.recvs == []
      modifies this, client, sock, socks
      modifies upstream, upstream.freelist, upstream.mine, upstream.freelist.pool
      modifies downstream, downstream.freelist, downstream.mine, downstream.freelist.pool
      ensures Valid() && fresh(Reach() - old(Reach())) && dest == sock
      ensures Joined(old(Waiting()), old(Begin()))
    {
      hide Valid, Shaking, Joined;
      ReplaceDest(sock);
      Join();
    }

    method ReplaceDest(sock: Socket)
      requires Valid() && Shaking() && sock != client && sock.sends == [] && sock.recvs == []
      modifies this`dest
      ensures Valid() && Shaking() && dest == sock && Waiting() == old(Waiting())
    {
      hide BasicBuffer.Valid, BasicBuffer.Contents, BasicBuffer.HeadOffset, Total, ProxyApp;
      dest := sock;
    }

    /** How forwarding would start now. */
    ghost function Begin(): Start
      reads upstream, client
    {
      Start(upstream.Contents(), upstream.HeadOffset(), upstream.capacity, client.recvs)
    }

    /** The session went on to forwarding if and only if the handshake was waiting for this
        connection; forwarding starts with the bytes the handshake left. */
    ghost predicate Joined(was: Handshake.Session, start: Start)
      reads this, upstream, downstream, client, dest, socks
    {
      && (forwarding <==> was.state == WaitConnect || was.state == WaitAccept)
      && (forwarding ==>
            && Open() && Forwarded(Up()) && Forwarded(Down())
            && start.Fair() && Flow(Up(), Down()) == StartFlow(start))
      && (!forwarding ==> Shaking() && !asking && Waiting() == was.(state := Fail))
      && (socks.state, socks.calls) == (ConnectionSucceed(socks.app, was).0.state, ConnectionSucceed(socks.app, was).0.calls)
    }

    method Join()
      requires Valid() && Shaking() && !asking
      modifies this, client, dest, socks
      modifies upstream, upstream.freelist, upstream.mine, upstream.freelist.pool
      modifies downstream, downstream.freelist, downstream.mine, downstream.freelist.pool
      ensures Valid() && fresh(Reach() - old(Reach())) && dest == old(dest)
      ensures Joined(old(Waiting()), old(Begin()))
    {
      hide Valid, Open, Forwarded, Forward;
      var ok := Succeed();
      if ok {
        BeginForwarding();
      }
    }

    method Succeed() returns (ok: bool)
      requires Valid() && Shaking() && !asking
      modifies socks
      ensures Valid() && Shaking() && (Waiting(), ok) == ConnectionSucceed(socks.app, old(Waiting()))
    {
      hide BasicBuffer.Valid, BasicBuffer.Contents, BasicBuffer.HeadOffset, Total, ProxyApp, Apart, Pending;
      ok := socks.ConnectionSucceed();
      assert (Waiting(), ok) == Handshake.ConnectionSucceed(socks.app, old(Waiting()));
    }

    method BeginForwarding()
      requires Valid() && Shaking() && !asking
      modifies this, client, dest
      modifies upstream, upstream.freelist, upstream.mine, upstream.freelist.pool
      modifies downstream, downstream.freelist, downstream.mine, downstream.freelist.pool
      ensures Valid() && Open() && Forwarded(Up()) && Forwarded(Down()) && dest == old(dest) && forwarding
      ensures old(Begin()).Fair() && Flow(Up(), Down()) == StartFlow(old(Begin()))
      ensures fresh(Reach() - old(Reach()))
    {
      hide Valid, Up, Down, Forward, Forwarded, Inv, StartFlow;
      StartHistories();
      ghost var start := Begin();
      ForwardTraffic();
      StartIsForward(start);
    }

    method StartHistories()
      requires Valid() && Shaking() && !asking
      modifies this`forwarding, this`upGot, this`upRoom
      ensures Valid() && forwarding && Begin().Fair() && Begin() == old(Begin())
      ensures Up() == Fresh(upstream.Contents(), upstream.HeadOffset(), upstream.capacity, client.recvs)
      ensures Down() == Fresh([], 0, upstream.capacity, [])
    {
      hide BasicBuffer.Valid, BasicBuffer.Contents, BasicBuffer.HeadOffset, Total, ProxyApp;
      Sized();
      forwarding, upGot, upRoom := true, upstream.Contents(), 0;
    }

    // Whole runs.

    /** Where a session can be between two handlers. */
    ghost predicate Resting()
      reads this, client, dest, socks
      reads upstream, upstream.freelist, upstream.mine, upstream.freelist.pool
      reads downstream, downstream.freelist, downstream.mine, downstream.freelist.pool
    {
      Valid() && if forwarding then Open() && Forwarded(Up()) && Forwarded(Down()) else Shaking()
    }

    /** A completion belongs to a pending operation and fits it. A connection is pending while the
        handshake waits for one. */
    ghost predicate Fits(c: Completion)
      reads this, socks
    {
      match c
      case ReadClient(_, data) => (if forwarding then readingClient else asking) && |data| <= upRoom
      case WroteClient(_, n) => forwarding && writingClient && n <= downInflight
      case ReadDest(_, data) => forwarding && readingDest && |data| <= downRoom
      case WroteDest(_, n) => forwarding && writingDest && n <= upInflight
      case Connected(_) => !forwarding && !asking && socks.state == WaitConnect
      case Accepted => !forwarding && !asking && socks.state == WaitAccept
    }

    /** While it forwards, what is handled is what may happen in the session model, and nothing else. */
    lemma FitsIsLegal(c: Completion)
      requires forwarding
      ensures Fits(c) <==> !c.Connected? && !c.Accepted? && LegalStep(Flow(Up(), Down()), What(c))
    {
    }

    /** Where the completions handled so far have brought the session: first those of the handshake,
        then those of the traffic. */
    ghost predicate History(start: Start, shaken: seq<Completion>, flowed: seq<Completion>)
      reads this, client, dest, socks, upstream, downstream
    {
      && ProxyApp(socks.app)
      && if forwarding then Flowing(socks.app, start, shaken, flowed, socks.state, socks.calls, Flow(Up(), Down()))
         else flowed == [] && Shook(socks.app, shaken, Waiting(), asking)
    }

    /** A completion arrives: the handler of the operation it belongs to runs, if there is one. */
    method Dispatch(c: Completion, ghost start: Start, ghost shaken: seq<Completion>, ghost flowed: seq<Completion>)
      returns (handled: bool, ghost start': Start, ghost shaken': seq<Completion>, ghost flowed': seq<Completion>)
      requires Resting() && History(start, shaken, flowed)
      modifies this, client, dest, socks
      modifies upstream, upstream.freelist, upstream.mine, upstream.freelist.pool
      modifies downstream, downstream.freelist, downstream.mine, downstream.freelist.pool
      ensures Resting() && fresh(Reach() - old(Reach())) && (dest == old(dest) || fresh(dest))
      ensures History(start', shaken', flowed') && handled == old(Fits(c))
      ensures shaken' + flowed' == shaken + flowed + if handled then [c] else []
    {
      hide Valid, Shaking, Open, Reach, Forwarded, Up, Down, Inv, Resting, Flowing, Shook, ProxyApp;
      start', shaken', flowed' := start, shaken, flowed;
      if forwarding {
        handled := DispatchOpen(c, start, shaken, flowed);
        if handled { flowed' := flowed + [c]; }
      } else {
        handled, start' := DispatchShaking(c, shaken);
        if handled { shaken' := shaken + [c]; }
      }
      assert shaken + (flowed + [c]) == shaken + flowed + [c];
      assert flowed == [] ==> shaken + [c] + flowed == shaken + flowed + [c];
    }

    method DispatchShaking(c: Completion, ghost shaken: seq<Completion>) returns (handled: bool, ghost start: Start)
      requires Resting() && !forwarding && ProxyApp(socks.app) && Shook(socks.app, shaken, Waiting(), asking)
      modifies this, client, dest, socks
      modifies upstream, upstream.freelist, upstream.mine, upstream.freelist.pool
      modifies downstream, downstream.freelist, downstream.mine, downstream.freelist.pool
      ensures Resting() && fresh(Reach() - old(Reach())) && (dest == old(dest) || fresh(dest))
      ensures handled == old(Fits(c))
      ensures History(start, if handled then shaken + [c] else shaken, [])
    {
      hide Valid, Shaking, Resting, Joined, Shook, Flowing, ProxyApp, Up, Down;
      RestIsShaking();
      start := Begin();
      handled := false;
      match c
      case ReadClient(ec, data) =>
        if asking && |data| <= upRoom {
          handled := true;
          HandshakeRead(c, shaken);
        }
      case Connected(ec) =>
        if !asking && socks.state == WaitConnect {
          handled := true;
          ghost var was := Waiting();
          ConnectHandler(ec);
          if ec != NoError {
            ShakingRests();
            ShookOn(socks.app, shaken, was, false, c);
          } else {
            JoinedRests(was, start, shaken, c);
          }
        }
      case Accepted =>
        if !asking && socks.state == WaitAccept {
          handled := true;
          AcceptNew(shaken);
        }
      case _ =>
    }

    method HandshakeRead(c: Completion, ghost shaken: seq<Completion>)
      requires Valid() && Shaking() && asking && c.ReadClient? && |c.data| <= upRoom
      requires Shook(socks.app, shaken, Waiting(), true)
      modifies this, socks, client
      modifies upstream, upstream.freelist, upstream.mine, upstream.freelist.pool
      ensures Resting() && fresh(Reach() - old(Reach())) && dest == old(dest)
      ensures !forwarding && Shook(socks.app, shaken + [c], Waiting(), asking)
    {
      hide Valid, Shaking, Resting, Shook, Receive;
      ShakingFacts();
      ghost var was := Waiting();
      Socks5HandshakeHandler(c.ec, c.data);
      ShakingFacts();
      ShakingRests();
      if c.ec != NoError {
        ShookFailed(socks.app, shaken, was, c);
      } else {
        ShookRead(socks.app, shaken, was, c, Waiting(), asking);
      }
    }

    lemma ShakingFacts()
      requires Shaking()
      ensures Waiting().Wf() && !forwarding && ProxyApp(socks.app)
    {
    }

    method AcceptNew(ghost shaken: seq<Completion>)
      requires Valid() && Shaking() && !asking && socks.state == WaitAccept
      requires ProxyApp(socks.app) && Shook(socks.app, shaken, Waiting(), false)
      modifies this, client, socks
      modifies upstream, upstream.freelist, upstream.mine, upstream.freelist.pool
      modifies downstream, downstream.freelist, downstream.mine, downstream.freelist.pool
      ensures Resting() && fresh(Reach() - old(Reach())) && fresh(dest)
      ensures History(old(Begin()), shaken + [Accepted], [])
    {
      hide Valid, Shaking, Resting, Joined, Shook, Flowing, ProxyApp, Up, Down;
      ghost var was, start := Waiting(), Begin();
      var sock := new Socket();
      AcceptInboundConnection(sock);
      JoinedRests(was, start, shaken, Accepted);
    }

    lemma RestIsShaking()
      requires Resting() && !forwarding
      ensures Valid() && Shaking()
    {
    }

    lemma JoinedRests(was: Handshake.Session, start: Start, shaken: seq<Completion>, c: Completion)
      requires Valid() && Joined(was, start) && Waits(was) && start.left == was.buf && (c.Connected? || c.Accepted?)
      requires ProxyApp(socks.app) && Shook(socks.app, shaken, was, false)
      ensures Resting() && History(start, shaken + [c], [])
    {
      hide Shook, Flowing, ProxyApp, Inv, StartFlow;
      FlowingStarts(socks.app, start, shaken, was, false, c);
    }

    method DispatchOpen(c: Completion, ghost start: Start, ghost shaken: seq<Completion>, ghost flowed: seq<Completion>)
      returns (handled: bool)
      requires Resting() && forwarding && ProxyApp(socks.app)
      requires Flowing(socks.app, start, shaken, flowed, socks.state, socks.calls, Flow(Up(), Down()))
      modifies this, client, dest
      modifies upstream, upstream.freelist, upstream.mine, upstream.freelist.pool
      modifies downstream, downstream.freelist, downstream.mine, downstream.freelist.pool
      ensures Resting() && fresh(Reach() - old(Reach())) && dest == old(dest)
      ensures handled == old(Fits(c))
      ensures History(start, shaken, if handled then flowed + [c] else flowed)
    {
      hide Valid, Shaking, Forwarded, Inv, Up, Down, Reach, Handles, Flowing, ProxyApp, Resting;
      RestIsOpen();
      ghost var flow := Flow(Up(), Down());
      handled := false;
      match c
      case ReadClient(ec, data) =>
        if readingClient && |data| <= upRoom {
          handled := true;
          ClientReadHandler(ec, data);
          OpenRests(start, shaken, flowed, flow, c);
        }
      case WroteClient(ec, n) =>
        if writingClient && n <= downInflight {
          handled := true;
          ClientWriteHandler(ec, n);
          OpenRests(start, shaken, flowed, flow, c);
        }
      case ReadDest(ec, data) =>
        if readingDest && |data| <= downRoom {
          handled := true;
          DestReadHandler(ec, data);
          OpenRests(start, shaken, flowed, flow, c);
        }
      case WroteDest(ec, n) =>
        if writingDest && n <= upInflight {
          handled := true;
          DestWriteHandler(ec, n);
          OpenRests(start, shaken, flowed, flow, c);
        }
      case _ =>
    }

    lemma RestIsOpen()
      requires Resting() && forwarding
      ensures Valid() && Open()
    {
    }

    lemma OpenRests(start: Start, shaken: seq<Completion>, flowed: seq<Completion>, flow: Flow, c: Completion)
      requires Valid() && Open() && ProxyApp(socks.app) && !c.Connected? && !c.Accepted?
      requires Handles(flow, What(c), Flow(Up(), Down()))
      requires Flowing(socks.app, start, shaken, flowed, socks.state, socks.calls, flow)
      ensures Resting() && History(start, shaken, flowed + [c])
    {
      hide Inv, Valid, StepFlow, Flowing;
      FlowsOn(socks.app, start, shaken, flowed, socks.state, socks.calls, flow, c, Flow(Up(), Down()));
    }

    /** Every run, from the first read of the handshake on, whatever completes in whatever order
        and with whatever errors: the assertions of both buffers hold throughout; the object is
        where the driver and then the session model are after the completions that were handled;
        and a session that forwards and has nothing pending any more is finished in both
        directions. */
    method Serve(script: seq<Completion>)
      returns (ghost mask: seq<bool>, ghost start: Start, ghost shaken: seq<Completion>, ghost flowed: seq<Completion>)
      requires Valid() && Shaking() && !asking && Waiting() == Initial
      modifies this, client, dest, socks
      modifies upstream, upstream.freelist, upstream.mine, upstream.freelist.pool
      modifies downstream, downstream.freelist, downstream.mine, downstream.freelist.pool
      ensures Resting() && History(start, shaken, flowed)
      ensures |mask| == |script| && Picked(script, mask) == shaken + flowed
      ensures forwarding && !readingClient && !writingClient && !readingDest && !writingDest
              ==> Finished(Up()) && Finished(Down())
    {
      hide Valid, Shaking, Open, Forwarded, Up, Down, Inv, Resting, History, Picked;
      Separate();
      ghost var objects := Reach();
      start := BeginServing();
      mask, shaken, flowed := [], [], [];
      NonePicked(script);
      for i := 0 to |script|
        invariant Resting() && (dest == old(dest) || fresh(dest))
        invariant fresh(Reach() - objects)
        invariant |mask| == i && Picked(script[..i], mask) == shaken + flowed && History(start, shaken, flowed)
      {
        var handled;
        handled, start, shaken, flowed := Dispatch(script[i], start, shaken, flowed);
        PickOne(script, mask, i, handled);
        mask := mask + [handled];
      }
      assert script[..|script|] == script;
      RestIsFinished();
    }

    method BeginServing() returns (ghost start: Start)
      requires Valid() && Shaking() && !asking && Waiting() == Initial
      modifies this`asking, this`upRoom, client`recvs, client`readInto
      modifies upstream, upstream.freelist, upstream.mine, upstream.freelist.pool
      ensures Resting() && History(start, [], []) && fresh(Reach() - old(Reach()))
    {
      hide Valid, Shaking, Resting, History;
      PerformSocks5Handshake();
      start := Begin();
      Beginning();
    }

    lemma Beginning()
      requires Valid() && Shaking() && Driver(Waiting(), asking) == Started
      ensures Resting() && History(Begin(), [], [])
    {
      ShookStart(socks.app);
    }

    /** What that means for the bytes: the client's are a CONNECT request for the address connected
        to and a payload, of which the destination has taken a prefix; and what the destination sent
        goes to the client in the same way. */
    lemma Delivers(start: Start, shaken: seq<Completion>, flowed: seq<Completion>, addr: Address)
      returns (request: seq<Byte>)
      requires History(start, shaken, flowed) && forwarding && addr != OtherFamily && Connect(addr) in socks.calls
      ensures AllTraffic(flowed) && IsConnect(request, addr)
      ensures var all := Flatten(Chunks(shaken)) + ClientBytes(Happenings(flowed));
              && request + upSent <= all
              && (Flow(Up(), Down()).Quiet() && !upFailed ==> request + upSent == all)
      ensures var answer := DestBytes(Happenings(flowed));
              && downSent <= answer
              && (Flow(Up(), Down()).Quiet() && !downFailed ==> downSent == answer)
      ensures TookAsReported(Up(), DestCounts(Happenings(flowed)))
      ensures TookAsReported(Down(), ClientCounts(Happenings(flowed)))
    {
      hide TookAsReported, Run, StartFlow, RunFlow, LegalFlow, ClientBytes, DestBytes, IsConnect;
      var d := Run(socks.app, Started, Chunks(shaken)).0;
      CallsOfJoin(socks.app, d.session, Connect(addr));
      var evs := Happenings(flowed);
      request := EndToEnd(socks.app, Chunks(shaken), addr, start, evs);
      AnswerArrives(start, evs);
    }

    /** The same once a peer has connected to a port that the client asked for. */
    lemma DeliversInbound(start: Start, shaken: seq<Completion>, flowed: seq<Completion>, port: Port)
      returns (request: seq<Byte>)
      requires History(start, shaken, flowed) && forwarding && Bind(port) in socks.calls
      ensures AllTraffic(flowed) && IsBind(request, port)
      ensures var all := Flatten(Chunks(shaken)) + ClientBytes(Happenings(flowed));
              && request + upSent <= all
              && (Flow(Up(), Down()).Quiet() && !upFailed ==> request + upSent == all)
      ensures var answer := DestBytes(Happenings(flowed));
              && downSent <= answer
              && (Flow(Up(), Down()).Quiet() && !downFailed ==> downSent == answer)
      ensures TookAsReported(Up(), DestCounts(Happenings(flowed)))
      ensures TookAsReported(Down(), ClientCounts(Happenings(flowed)))
    {
      hide TookAsReported, Run, StartFlow, RunFlow, LegalFlow, ClientBytes, DestBytes, IsBind;
      var d := Run(socks.app, Started, Chunks(shaken)).0;
      CallsOfJoin(socks.app, d.session, Bind(port));
      var evs := Happenings(flowed);
      request := InboundEndToEnd(socks.app, Chunks(shaken), port, start, evs);
      AnswerArrives(start, evs);
    }

    /** Forwarding never starts unasked: the client's bytes were not rejected, no call made before was
        refused, and either a connection was asked for and under way, or a port was obtained. */
    lemma ForwardsAsAsked(start: Start, shaken: seq<Completion>, flowed: seq<Completion>)
      requires History(start, shaken, flowed) && forwarding
      ensures !Rejected(Flatten(Chunks(shaken)))
      ensures (exists a: Address :: a != OtherFamily && Connect(a) in socks.calls
                && socks.app.answer(GREETED, Connect(a)).status == InProgress)
           || (exists p: Port :: Bind(p) in socks.calls && socks.app.answer(GREETED, Bind(p)).status != Failed)
    {
      hide Run, Flatten, StartFlow, RunFlow, LegalFlow, Rejected, Refused;
      var d := Run(socks.app, Started, Chunks(shaken)).0;
      FailsExactly(socks.app, Chunks(shaken));
      RestsAsAsked(socks.app, Chunks(shaken));
      JoinKeepsCalls(socks.app, d.session);
      assert GREETED[0] == Respond([5, 0]);
    }

    lemma ShakingRests()
      requires Valid() && Shaking()
      ensures Resting()
    {
    }

    lemma RestIsFinished()
      requires Resting()
      ensures forwarding && !readingClient && !writingClient && !readingDest && !writingDest
              ==> Finished(Up()) && Finished(Down())
    {
      if forwarding {
        QuietIsFinished(Up());
        QuietIsFinished(Down());
      }
    }
  }
}
