/** A whole proxied session: the handshake, then both directions at once. */
module Sessions {
  import opened Bytes
  import opened Protocol
  import opened Handshake
  import opened Rfc1928
  import opened Pipes
  import Cells

  /** Upstream carries the client's bytes to the destination, downstream the other way. */
  datatype Flow = Flow(up: Pipe, down: Pipe) {
    /** No read and no write of either socket is pending. */
    predicate Quiet() {
      !up.reading && !up.writing && !down.reading && !down.writing
    }
  }

  /** A completion of one of the four operations. */
  datatype Happening =
    | ClientRead(data: seq<Byte>, error: bool)
    | ClientWritten(n: nat, error: bool)
    | DestRead(data: seq<Byte>, error: bool)
    | DestWritten(n: nat, error: bool)
  {
    /** What it is to the upstream direction, and to the downstream one. */
    function Up(): Event {
      match this
      case ClientRead(data, error) => Read(data, error)
      case DestWritten(n, error) => Written(n, error)
      case _ => Tick
    }

    function Down(): Event {
      match this
      case DestRead(data, error) => Read(data, error)
      case ClientWritten(n, error) => Written(n, error)
      case _ => Tick
    }
  }

  ghost predicate FlowInv(f: Flow) {
    Inv(f.up) && Inv(f.down)
  }

  function UpEvents(evs: seq<Happening>): (r: seq<Event>)
    ensures |r| == |evs|
  {
    if evs == [] then [] else [evs[0].Up()] + UpEvents(evs[1..])
  }

  function DownEvents(evs: seq<Happening>): (r: seq<Event>)
    ensures |r| == |evs|
  {
    if evs == [] then [] else [evs[0].Down()] + DownEvents(evs[1..])
  }

  /** Every handler steps both directions: its own, and the other through ForwardTraffic. */
  function StepFlow(f: Flow, ev: Happening): Flow
    requires ev.Up().Written? ==> ev.Up().n <= |f.up.buf|
    requires ev.Down().Written? ==> ev.Down().n <= |f.down.buf|
  {
    Flow(Step(f.up, ev.Up()), Step(f.down, ev.Down()))
  }

  ghost predicate LegalFlow(f: Flow, evs: seq<Happening>)
    requires FlowInv(f)
  {
    LegalRun(f.up, UpEvents(evs)) && LegalRun(f.down, DownEvents(evs))
  }

  ghost function RunFlow(f: Flow, evs: seq<Happening>): Flow
    requires FlowInv(f) && LegalFlow(f, evs)
  {
    Flow(RunPipe(f.up, UpEvents(evs)), RunPipe(f.down, DownEvents(evs)))
  }

  /** Running is stepping, handler by handler. */
  lemma RunFlowSteps(f: Flow, evs: seq<Happening>)
    requires FlowInv(f) && LegalFlow(f, evs) && evs != []
    ensures LegalStep(f, evs[0])
    ensures var f1 := StepFlow(f, evs[0]); FlowInv(f1) && LegalFlow(f1, evs[1..]) && RunFlow(f, evs) == RunFlow(f1, evs[1..])
  {
    assert UpEvents(evs)[0] == evs[0].Up() && UpEvents(evs)[1..] == UpEvents(evs[1..]);
    assert DownEvents(evs)[0] == evs[0].Down() && DownEvents(evs)[1..] == DownEvents(evs[1..]);
    StepKeeps(f.up, evs[0].Up());
    StepKeeps(f.down, evs[0].Down());
  }

  /** The completion belongs to a pending operation and fits it. */
  ghost predicate LegalStep(f: Flow, ev: Happening) {
    Legal(f.up, ev.Up()) && Legal(f.down, ev.Down())
  }

  /** From f, a handler that answers ev leaves g, by a legal step after which nothing that is due
      is left unscheduled. */
  ghost predicate Handles(f: Flow, ev: Happening, g: Flow) {
    && LegalStep(f, ev)
    && (ev.Up().Written? ==> ev.Up().n <= |f.up.buf|)
    && (ev.Down().Written? ==> ev.Down().n <= |f.down.buf|)
    && g == StepFlow(f, ev)
    && Forwarded(g.up) && Forwarded(g.down)
  }

  lemma ClientReadHandles(f: Flow, ev: Happening, g: Flow)
    requires FlowInv(f) && ev.ClientRead? && f.up.reading && |ev.data| <= f.up.room
    requires g == Flow(Forward(ReadDone(f.up, ev.data, ev.error)), Forward(f.down))
    ensures Handles(f, ev, g) && FlowInv(g)
  {
    hide Inv, Forward, ReadDone, Forwarded;
    StepKeeps(f.up, ev.Up());
    StepKeeps(f.down, ev.Down());
  }

  lemma DestReadHandles(f: Flow, ev: Happening, g: Flow)
    requires FlowInv(f) && ev.DestRead? && f.down.reading && |ev.data| <= f.down.room
    requires g == Flow(Forward(f.up), Forward(ReadDone(f.down, ev.data, ev.error)))
    ensures Handles(f, ev, g) && FlowInv(g)
  {
    hide Inv, Forward, ReadDone, Forwarded;
    StepKeeps(f.up, ev.Up());
    StepKeeps(f.down, ev.Down());
  }

  lemma ClientWrittenHandles(f: Flow, ev: Happening, g: Flow)
    requires FlowInv(f) && ev.ClientWritten? && f.down.writing && ev.n <= f.down.inflight && ev.n <= |f.down.buf|
    requires g == Flow(Forward(f.up), Forward(WriteDone(f.down, ev.n, ev.error)))
    ensures Handles(f, ev, g) && FlowInv(g)
  {
    hide Inv, Forward, WriteDone, Forwarded;
    StepKeeps(f.up, ev.Up());
    StepKeeps(f.down, ev.Down());
  }

  lemma DestWrittenHandles(f: Flow, ev: Happening, g: Flow)
    requires FlowInv(f) && ev.DestWritten? && f.up.writing && ev.n <= f.up.inflight && ev.n <= |f.up.buf|
    requires g == Flow(Forward(WriteDone(f.up, ev.n, ev.error)), Forward(f.down))
    ensures Handles(f, ev, g) && FlowInv(g)
  {
    hide Inv, Forward, WriteDone, Forwarded;
    StepKeeps(f.up, ev.Up());
    StepKeeps(f.down, ev.Down());
  }

  /** A run of the session and one handler more. */
  lemma RunFlowAppend(f: Flow, evs: seq<Happening>, ev: Happening, g: Flow)
    requires FlowInv(f) && LegalFlow(f, evs) && Handles(RunFlow(f, evs), ev, g)
    ensures LegalFlow(f, evs + [ev]) && RunFlow(f, evs + [ev]) == g
  {
    hide Inv, Step, Legal, LegalRun, RunPipe, Forwarded;
    EventsAppend(evs, ev);
    RunAppend(f.up, UpEvents(evs), ev.Up());
    RunAppend(f.down, DownEvents(evs), ev.Down());
  }

  lemma {:induction false} EventsAppend(evs: seq<Happening>, ev: Happening)
    ensures UpEvents(evs + [ev]) == UpEvents(evs) + [ev.Up()]
    ensures DownEvents(evs + [ev]) == DownEvents(evs) + [ev.Down()]
  {
    var all := evs + [ev];
    if evs == [] {
      assert all[1..] == [];
    } else {
      EventsAppend(evs[1..], ev);
      assert all[0] == evs[0] && all[1..] == evs[1..] + [ev];
      EventsHead(all);
      EventsHead(evs);
      hide UpEvents, DownEvents;
    }
  }

  lemma EventsHead(evs: seq<Happening>)
    requires evs != []
    ensures UpEvents(evs) == [evs[0].Up()] + UpEvents(evs[1..])
    ensures DownEvents(evs) == [evs[0].Down()] + DownEvents(evs[1..])
  {
  }

  /** How forwarding starts: what the handshake left of the client's bytes, where in its block that
      begins, and the reads of the client so far. */
  datatype Start = Start(left: seq<Byte>, offset: nat, capacity: nat, taken: seq<RecvCall>) {
    ghost predicate Fair() {
      |left| <= Bound(capacity) && offset < capacity && ShutdownReceive !in taken
    }
  }

  function StartFlow(s: Start): (f: Flow)
    requires s.Fair()
    ensures FlowInv(f) && Forwarded(f.up) && Forwarded(f.down)
    ensures f.up.capacity == f.down.capacity == s.capacity
  {
    var up, down := Fresh(s.left, s.offset, s.capacity, s.taken), Fresh([], 0, s.capacity, []);
    FreshInv(s.left, s.offset, s.capacity, s.taken);
    FreshInv([], 0, s.capacity, []);
    ForwardKeeps(up);
    ForwardKeeps(down);
    Flow(Forward(up), Forward(down))
  }

  lemma StartIsForward(s: Start)
    requires s.Fair()
    ensures StartFlow(s) == Flow(Forward(Fresh(s.left, s.offset, s.capacity, s.taken)), Forward(Fresh([], 0, s.capacity, [])))
  {
  }

  lemma FreshInv(left: seq<Byte>, offset: nat, capacity: nat, taken: seq<RecvCall>)
    requires Start(left, offset, capacity, taken).Fair()
    ensures Inv(Fresh(left, offset, capacity, taken))
  {
    assert [] + left == left;
  }

  /** How many bytes each completed write to the destination reports, in order, and to the client. */
  function DestCounts(evs: seq<Happening>): seq<nat> {
    if evs == [] then [] else (if evs[0].DestWritten? then [evs[0].n] else []) + DestCounts(evs[1..])
  }

  function ClientCounts(evs: seq<Happening>): seq<nat> {
    if evs == [] then [] else (if evs[0].ClientWritten? then [evs[0].n] else []) + ClientCounts(evs[1..])
  }

  /** What the sink took: of each write it was asked for and that completed, the bytes the completion
      reports, and no others. At most the last write is still pending. */
  ghost predicate TookAsReported(p: Pipe, ns: seq<nat>) {
    var ws := Writes(p.sends);
    && |ws| == |ns| + (if p.writing then 1 else 0) && Fit(ws, ns)
    && p.sent == Taken(ws, ns) && |p.sent| == Sum(ns)
  }

  lemma {:induction false} CountsOfFlow(evs: seq<Happening>)
    ensures Counts(UpEvents(evs)) == DestCounts(evs) && Counts(DownEvents(evs)) == ClientCounts(evs)
  {
    if evs != [] {
      EventsHead(evs);
      CountsOfFlow(evs[1..]);
      CountsHead(evs[0].Up(), UpEvents(evs[1..]));
      CountsHead(evs[0].Down(), DownEvents(evs[1..]));
      hide UpEvents, DownEvents, Counts;
    }
  }

  lemma CountsHead(ev: Event, rest: seq<Event>)
    ensures Counts([ev] + rest) == (if ev.Written? then [ev.n] else []) + Counts(rest)
  {
    assert ([ev] + rest)[1..] == rest;
  }

  /** From the start of forwarding, over any run. */
  lemma RunTook(left: seq<Byte>, offset: nat, capacity: nat, taken: seq<RecvCall>, evs: seq<Event>)
    requires Start(left, offset, capacity, taken).Fair()
    requires var p := Forward(Fresh(left, offset, capacity, taken)); Inv(p) && LegalRun(p, evs)
    ensures TookAsReported(RunPipe(Forward(Fresh(left, offset, capacity, taken)), evs), Counts(evs))
  {
    var p := Forward(Fresh(left, offset, capacity, taken));
    FreshUnderway(left, offset, capacity, taken);
    hide Forward, Fresh, LegalRun, RunPipe;
    var q := RunPipe(p, evs);
    RunSends(p, evs);
    TookAll(p, q, Counts(evs));
  }

  lemma StartsTaking(s: Start, evs: seq<Happening>)
    requires s.Fair() && LegalFlow(StartFlow(s), evs)
    ensures var f := RunFlow(StartFlow(s), evs);
            TookAsReported(f.up, DestCounts(evs)) && TookAsReported(f.down, ClientCounts(evs))
  {
    hide Inv, Forward, LegalRun, RunPipe, TookAsReported;
    CountsOfFlow(evs);
    RunTook(s.left, s.offset, s.capacity, s.taken, UpEvents(evs));
    RunTook([], 0, s.capacity, [], DownEvents(evs));
  }

  lemma FreshUnderway(left: seq<Byte>, offset: nat, capacity: nat, taken: seq<RecvCall>)
    requires capacity > 0
    ensures var p := Forward(Fresh(left, offset, capacity, taken));
            && p.sent == [] && p.inflight <= |p.buf| && Writes(p.sends) == Underway(p)
  {
    hide Cells.Grant;
    assert left[..|left|] == left;
    OneWrite(left);
    assert [] + [WriteSome(left)] == [WriteSome(left)];
  }

  lemma TookAll(p: Pipe, q: Pipe, ns: seq<nat>)
    requires p.sent == [] && (p.writing ==> p.inflight <= |p.buf|) && Writes(p.sends) == Underway(p)
    requires (q.writing ==> q.inflight <= |q.buf|) && Sends(p, ns, q)
    ensures TookAsReported(q, ns)
  {
    hide Writes, Taken, Fit;
    WritesAppend(p.sends, q.sends[|p.sends|..]);
    assert p.sends + q.sends[|p.sends|..] == q.sends;
    assert [] + Taken(Writes(q.sends), ns) == Taken(Writes(q.sends), ns);
  }

  /** A direction is finished: its sink failed, or its source ended, the sink took all of it in
      order, and was then shut down. */
  ghost predicate Finished(p: Pipe) {
    p.failed || (!p.readable && p.sent == p.got && Closed(p))
  }

  /** Session completeness: when nothing is pending after a handler, both directions are
      finished. No handler can forget to schedule what is due. */
  lemma SessionComplete(s: Start, evs: seq<Happening>)
    requires s.Fair() && LegalFlow(StartFlow(s), evs)
    ensures var f := RunFlow(StartFlow(s), evs);
            && (f.Quiet() ==> Finished(f.up) && Finished(f.down))
            && f.up.sent <= f.up.got && f.down.sent <= f.down.got
            && |f.up.buf| <= Bound(s.capacity) && |f.down.buf| <= Bound(s.capacity)
            && ClosesOnce(f.up.sends) && ClosesOnce(f.down.sends)
            && TookAsReported(f.up, DestCounts(evs)) && TookAsReported(f.down, ClientCounts(evs))
  {
    hide StartFlow, TookAsReported;
    var f0 := StartFlow(s);
    StartsTaking(s, evs);
    RunForwarded(f0.up, UpEvents(evs));
    RunForwarded(f0.down, DownEvents(evs));
    var f := RunFlow(f0, evs);
    QuietIsFinished(f.up);
    QuietIsFinished(f.down);
  }

  lemma QuietIsFinished(p: Pipe)
    requires Inv(p) && Forwarded(p)
    ensures !p.reading && !p.writing ==> Finished(p)
    ensures p.sent <= p.got
  {
    if !p.reading && !p.writing && !p.failed {
      assert p.buf == [];
      assert p.got == p.sent;
    }
  }

  lemma {:induction false} EachCompletesOnce(evs: seq<Happening>)
    ensures Completions(UpEvents(evs)) + Completions(DownEvents(evs)) == |evs|
  {
    if evs != [] {
      EventsHead(evs);
      EachCompletesOnce(evs[1..]);
      var up, down := UpEvents(evs), DownEvents(evs);
      assert up[0] == evs[0].Up() && up[1..] == UpEvents(evs[1..]);
      assert down[0] == evs[0].Down() && down[1..] == DownEvents(evs[1..]);
      hide UpEvents, DownEvents;
    }
  }

  /** No session can go on for ever on finite streams: there are at most two completions for each byte
      that entered a buffer, and four more. */
  lemma FiniteSession(f: Flow, evs: seq<Happening>)
    requires FlowInv(f) && LegalFlow(f, evs)
    requires forall i :: 0 <= i < |evs| ==> Productive(evs[i].Up()) && Productive(evs[i].Down())
    ensures var g := RunFlow(f, evs); |evs| <= 2 * (|g.up.got| + |g.down.got|) + 4
  {
    hide Inv, LegalRun, RunPipe;
    EachCompletesOnce(evs);
    EventsAt(evs);
    FiniteRun(f.up, UpEvents(evs));
    FiniteRun(f.down, DownEvents(evs));
  }

  lemma {:induction false} EventsAt(evs: seq<Happening>)
    ensures forall i :: 0 <= i < |evs| ==> UpEvents(evs)[i] == evs[i].Up() && DownEvents(evs)[i] == evs[i].Down()
  {
    if evs != [] {
      EventsAt(evs[1..]);
      forall i | 0 <= i < |evs| ensures UpEvents(evs)[i] == evs[i].Up() && DownEvents(evs)[i] == evs[i].Down() {
        if i > 0 { assert evs[i] == evs[1..][i - 1]; }
      }
    }
  }

  /** What a block of the proxy's buffers holds: 4096 bytes less a header of 24. */
  const CAPACITY: nat := 4096 - 24

  /** Neither buffer of the proxy ever holds more than 45030 bytes. */
  lemma ProxyBound(s: Start, evs: seq<Happening>)
    requires s.Fair() && s.capacity == CAPACITY && LegalFlow(StartFlow(s), evs)
    ensures var f := RunFlow(StartFlow(s), evs); |f.up.buf| <= 45030 && |f.down.buf| <= 45030
  {
    SessionComplete(s, evs);
  }

  const EDGE: nat := 3834

  /** And wherever in its block the buffer starts, there is a run in which one does: a partial write
      leaves the queue so that, one byte short of the limit, 47 bytes are left of its last block; the
      next read is then given these and three blocks more, and fills them. */
  lemma ProxyBoundIsReached(s: Start) returns (evs: seq<Happening>)
    requires s.Fair() && s.capacity == CAPACITY && s.left == []
    ensures LegalFlow(StartFlow(s), evs) && |RunFlow(StartFlow(s), evs).up.buf| == 45030
  {
    hide Inv, Step, LegalRun, RunPipe, LegalFlow, RunFlow, UpEvents, DownEvents, Room;
    var n := if s.offset <= EDGE then EDGE - s.offset else EDGE + CAPACITY - s.offset;
    Cells.AdvanceIs(s.offset, n, CAPACITY, if s.offset <= EDGE then 0 else 1, EDGE);
    var last := MAX_BUFFER_SIZE - 1 - (READ_SIZE - n) - 3 * (READ_SIZE - 1);
    var e7 := [Filling(12263)] + [];
    var e6 := [Filling(last)] + e7;
    var e5 := [Filling(READ_SIZE - 1)] + e6;
    var e4 := [Filling(READ_SIZE - 1)] + e5;
    var e3 := [Filling(READ_SIZE - 1)] + e4;
    var e2 := [DestWritten(n, false)] + e3;
    evs := [Filling(READ_SIZE)] + e2;
    hide Filling;
    StartsFlooded(s);
    hide StartFlow;
    var f1 := FillMore(StartFlow(s), READ_SIZE, e2);
    var f2 := WritePartly(f1, n, e3);
    var f3 := FillMore(f2, READ_SIZE - 1, e4);
    var f4 := FillMore(f3, READ_SIZE - 1, e5);
    var f5 := FillMore(f4, READ_SIZE - 1, e6);
    var f6 := FillMore(f5, last, e7);
    LastGrant(f6.up);
    var f7 := FillMore(f6, 12263, []);
    NothingMore(f7);
  }

  function Filling(n: nat): Happening {
    ClientRead(seq(n, _ => 0), false)
  }

  lemma LastGrant(p: Pipe)
    requires p.offset == EDGE && |p.buf| == MAX_BUFFER_SIZE - 1 && p.capacity == CAPACITY
    ensures Room(p) == 12263
  {
    Cells.GrantIsLeast(EDGE + MAX_BUFFER_SIZE - 1, READ_SIZE, CAPACITY, 12);
  }

  lemma NothingMore(f: Flow)
    requires FlowInv(f)
    ensures LegalFlow(f, []) && RunFlow(f, []) == f
  {
  }

  /** The client is being read, into the space that the state of the buffer grants. */
  ghost predicate Flooded(f: Flow) {
    && FlowInv(f) && f.up.capacity == CAPACITY && f.up.readable && f.up.writable
    && f.up.reading && f.up.room >= READ_SIZE
  }

  lemma StartsFlooded(s: Start)
    requires s.Fair() && s.capacity == CAPACITY && s.left == []
    ensures var f := StartFlow(s); Flooded(f) && f.up.buf == [] && f.up.offset == s.offset && !f.up.writing
  {
  }

  /** One more read, of n bytes. */
  lemma FillMore(f: Flow, n: nat, rest: seq<Happening>) returns (g: Flow)
    requires Flooded(f) && n <= f.up.room
    ensures FlowInv(g) && |g.up.buf| == |f.up.buf| + n && g.up.offset == f.up.offset && g.up.capacity == CAPACITY
    ensures |g.up.buf| < MAX_BUFFER_SIZE ==> Flooded(g) && g.up.room == Room(g.up)
    ensures !f.up.writing && |g.up.buf| > 0 ==> g.up.writing && g.up.inflight == |g.up.buf|
    ensures LegalFlow(g, rest) ==>
      var evs := [Filling(n)] + rest;
      LegalFlow(f, evs) && RunFlow(f, evs) == RunFlow(g, rest)
  {
    hide Cells.Grant;
    var ev := Filling(n);
    StepKeeps(f.up, ev.Up());
    StepKeeps(f.down, ev.Down());
    g := StepFlow(f, ev);
    if LegalFlow(g, rest) { OneHandlerMore(f, ev, rest); }
  }

  /** A write to the destination completes with n bytes, not all that were queued. */
  lemma WritePartly(f: Flow, n: nat, rest: seq<Happening>) returns (g: Flow)
    requires Flooded(f) && f.up.writing && n <= f.up.inflight && n < |f.up.buf|
    ensures Flooded(g) && |g.up.buf| == |f.up.buf| - n && g.up.offset == Cells.Advance(f.up.offset, n, CAPACITY)
    ensures LegalFlow(g, rest) ==>
      var evs := [DestWritten(n, false)] + rest;
      LegalFlow(f, evs) && RunFlow(f, evs) == RunFlow(g, rest)
  {
    hide Cells.Grant;
    var ev := DestWritten(n, false);
    StepKeeps(f.up, ev.Up());
    StepKeeps(f.down, ev.Down());
    g := StepFlow(f, ev);
    if LegalFlow(g, rest) { OneHandlerMore(f, ev, rest); }
  }

  lemma OneHandlerMore(f: Flow, ev: Happening, rest: seq<Happening>)
    requires FlowInv(f) && LegalStep(f, ev)
    requires ev.Up().Written? ==> ev.Up().n <= |f.up.buf|
    requires ev.Down().Written? ==> ev.Down().n <= |f.down.buf|
    requires var g := StepFlow(f, ev); FlowInv(g) && LegalFlow(g, rest)
    ensures LegalFlow(f, [ev] + rest) && RunFlow(f, [ev] + rest) == RunFlow(StepFlow(f, ev), rest)
  {
    hide Inv, Step, Legal;
    var evs := [ev] + rest;
    assert evs[0] == ev && evs[1..] == rest;
    assert UpEvents(evs)[0] == ev.Up() && UpEvents(evs)[1..] == UpEvents(rest);
    assert DownEvents(evs)[0] == ev.Down() && DownEvents(evs)[1..] == DownEvents(rest);
  }

  /** What the client sent after the handshake, as far as it was read. */
  function ClientBytes(evs: seq<Happening>): seq<Byte> {
    if evs == [] then []
    else (if evs[0].ClientRead? then evs[0].data else []) + ClientBytes(evs[1..])
  }

  /** What the destination sent, as far as it was read. */
  function DestBytes(evs: seq<Happening>): seq<Byte> {
    if evs == [] then []
    else (if evs[0].DestRead? then evs[0].data else []) + DestBytes(evs[1..])
  }

  lemma StepGot(p: Pipe, ev: Event)
    requires ev.Written? ==> ev.n <= |p.buf|
    ensures Step(p, ev).got == p.got + if ev.Read? then ev.data else []
  {
    hide Forward;
    match ev
    case Read(data, failed) => ForwardGot(ReadDone(p, data, failed));
    case Written(n, failed) => ForwardGot(WriteDone(p, n, failed));
    case Tick => ForwardGot(p);
  }

  lemma ForwardGot(p: Pipe)
    ensures Forward(p).got == p.got
  {
  }

  lemma {:induction false} UpstreamGot(p: Pipe, evs: seq<Happening>)
    requires Inv(p) && LegalRun(p, UpEvents(evs))
    ensures RunPipe(p, UpEvents(evs)).got == p.got + ClientBytes(evs)
    decreases |evs|
  {
    hide Step, Inv, Legal;
    if evs == [] {
      assert p.got + [] == p.got;
    } else {
      var es := UpEvents(evs);
      assert es[0] == evs[0].Up() && es[1..] == UpEvents(evs[1..]);
      StepKeeps(p, es[0]);
      var p1 := Step(p, es[0]);
      UpstreamGot(p1, evs[1..]);
      var now := if evs[0].ClientRead? then evs[0].data else [];
      StepGot(p, es[0]);
      assert p.got + now + ClientBytes(evs[1..]) == p.got + (now + ClientBytes(evs[1..]));
    }
  }

  lemma {:induction false} DownstreamGot(p: Pipe, evs: seq<Happening>)
    requires Inv(p) && LegalRun(p, DownEvents(evs))
    ensures RunPipe(p, DownEvents(evs)).got == p.got + DestBytes(evs)
    decreases |evs|
  {
    hide Step, Inv, Legal;
    if evs == [] {
      assert p.got + [] == p.got;
    } else {
      var es := DownEvents(evs);
      assert es[0] == evs[0].Down() && es[1..] == DownEvents(evs[1..]);
      StepKeeps(p, es[0]);
      var p1 := Step(p, es[0]);
      DownstreamGot(p1, evs[1..]);
      var now := if evs[0].DestRead? then evs[0].data else [];
      StepGot(p, es[0]);
      assert p.got + now + DestBytes(evs[1..]) == p.got + (now + DestBytes(evs[1..]));
    }
  }

  /** A socket's stream ends, and a sink fails, only because a completion said so: a failed read of it, a
      failed write to it. */
  lemma EndsByErrors(s: Start, evs: seq<Happening>)
    requires s.Fair() && LegalFlow(StartFlow(s), evs)
    ensures var f := RunFlow(StartFlow(s), evs);
            && (f.up.readable <==> forall i :: 0 <= i < |evs| && evs[i].ClientRead? ==> !evs[i].error)
            && (f.up.failed <==> exists i :: 0 <= i < |evs| && evs[i].DestWritten? && evs[i].error)
            && (f.down.readable <==> forall i :: 0 <= i < |evs| && evs[i].DestRead? ==> !evs[i].error)
            && (f.down.failed <==> exists i :: 0 <= i < |evs| && evs[i].ClientWritten? && evs[i].error)
  {
    StartsOpen(s);
    hide Inv, StartFlow, LegalRun, RunPipe;
    var f0 := StartFlow(s);
    EventsAt(evs);
    RunEnds(f0.up, UpEvents(evs));
    RunEnds(f0.down, DownEvents(evs));
    forall i | 0 <= i < |evs|
      ensures (UpEvents(evs)[i].Read? && UpEvents(evs)[i].error) == (evs[i].ClientRead? && evs[i].error)
      ensures (UpEvents(evs)[i].Written? && UpEvents(evs)[i].error) == (evs[i].DestWritten? && evs[i].error)
      ensures (DownEvents(evs)[i].Read? && DownEvents(evs)[i].error) == (evs[i].DestRead? && evs[i].error)
      ensures (DownEvents(evs)[i].Written? && DownEvents(evs)[i].error) == (evs[i].ClientWritten? && evs[i].error)
    {
    }
  }

  lemma StartsOpen(s: Start)
    requires s.Fair()
    ensures var f := StartFlow(s); f.up.readable && !f.up.failed && f.down.readable && !f.down.failed
  {
  }

  /** The destination's answer reaches the client in order, and all of it when the session ends with
      no write to the client having failed. */
  lemma AnswerArrives(s: Start, evs: seq<Happening>)
    requires s.Fair() && LegalFlow(StartFlow(s), evs)
    ensures var f := RunFlow(StartFlow(s), evs);
            && f.down.sent <= DestBytes(evs)
            && (f.Quiet() && !f.down.failed ==> f.down.sent == DestBytes(evs))
            && TookAsReported(f.down, ClientCounts(evs))
  {
    hide Run, Exhaust, Proceed, Inv, Forward, LegalRun, RunPipe, DestBytes, TookAsReported;
    var f0 := StartFlow(s);
    SessionComplete(s, evs);
    DownstreamGot(f0.down, evs);
    ForwardGot(Fresh([], 0, s.capacity, []));
    assert RunFlow(f0, evs).down.got == [] + DestBytes(evs);
  }

  /** The client's payload reaches the destination in order, whatever the handshake left of it. */
  lemma PayloadArrives(s: Start, evs: seq<Happening>)
    requires s.Fair() && LegalFlow(StartFlow(s), evs)
    ensures var f := RunFlow(StartFlow(s), evs);
            && f.up.got == s.left + ClientBytes(evs) && f.up.sent <= f.up.got
            && (f.Quiet() && !f.up.failed ==> f.up.sent == f.up.got)
            && TookAsReported(f.up, DestCounts(evs))
  {
    hide Run, Exhaust, Proceed, Inv, Forward, LegalRun, RunPipe, ClientBytes, TookAsReported;
    var f0 := StartFlow(s);
    SessionComplete(s, evs);
    UpstreamGot(f0.up, evs);
    ForwardGot(Fresh(s.left, s.offset, s.capacity, s.taken));
  }

  lemma NothingLeft(left: seq<Byte>)
    ensures left + Flatten([]) == left
  {
  }

  /** End to end: once the server has connected to an address and the connection was made, the
      bytes the client sent are a request for that very address followed by a payload, and what
      the destination received is a prefix of that payload - all of it when the session ends
      with no write to the destination having failed. */
  lemma EndToEnd(app: App, chunks: seq<seq<Byte>>, addr: Address, s: Start, evs: seq<Happening>) returns (request: seq<Byte>)
    requires app.hasConnect && addr != OtherFamily
    requires var (d, rest) := Run(app, Started, chunks);
             rest == [] && Connect(addr) in d.session.calls && s.left == d.session.buf
    requires s.Fair() && LegalFlow(StartFlow(s), evs)
    ensures IsConnect(request, addr)
    ensures var f := RunFlow(StartFlow(s), evs);
            var all := Flatten(chunks) + ClientBytes(evs);
            && request + f.up.sent <= all
            && (f.Quiet() && !f.up.failed ==> request + f.up.sent == all)
            && TookAsReported(f.up, DestCounts(evs))
  {
    hide Run, Exhaust, Proceed, Inv, Forward, LegalRun, RunPipe, IsConnect, Flatten, ClientBytes, StartFlow, LegalFlow, RunFlow, TookAsReported;
    var all := Flatten(chunks);
    ConnectsExactly(app, chunks, addr);
    NothingLeft(s.left);
    request := all[..|all| - |s.left|];
    assert all == request + s.left;
    PayloadArrives(s, evs);
    var f := RunFlow(StartFlow(s), evs);
    assert request + f.up.got == all + ClientBytes(evs);
  }

  /** The same of a BIND session: the client's bytes are a request for the port and a payload for the
      peer that connected. */
  lemma InboundEndToEnd(app: App, chunks: seq<seq<Byte>>, port: Port, s: Start, evs: seq<Happening>)
    returns (request: seq<Byte>)
    requires var (d, rest) := Run(app, Started, chunks);
             rest == [] && Bind(port) in d.session.calls && s.left == d.session.buf
    requires s.Fair() && LegalFlow(StartFlow(s), evs)
    ensures IsBind(request, port)
    ensures var f := RunFlow(StartFlow(s), evs);
            var all := Flatten(chunks) + ClientBytes(evs);
            && request + f.up.sent <= all
            && (f.Quiet() && !f.up.failed ==> request + f.up.sent == all)
            && TookAsReported(f.up, DestCounts(evs))
  {
    hide Run, Exhaust, Proceed, Inv, Forward, LegalRun, RunPipe, IsBind, Flatten, ClientBytes, StartFlow, LegalFlow, RunFlow, TookAsReported;
    var all := Flatten(chunks);
    BindsExactly(app, chunks, port);
    NothingLeft(s.left);
    request := all[..|all| - |s.left|];
    assert all == request + s.left;
    PayloadArrives(s, evs);
    var f := RunFlow(StartFlow(s), evs);
    assert request + f.up.got == all + ClientBytes(evs);
  }
}
