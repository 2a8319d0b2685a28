/** One direction of a proxied session: bytes read from a source socket wait in a buffer and are
    written to a sink socket. The bridge runs two of these. */
module Pipes {
  import opened Bytes
  import Cells

  const MAX_BUFFER_SIZE: nat := 32 * 1024
  const READ_SIZE: nat := 8 * 1024

  /** Calls made on the send side of the sink and on the receive side of the source. */
  datatype SendCall = WriteSome(bytes: seq<Byte>) | ShutdownSend
  datatype RecvCall = ReadSome(room: nat) | ShutdownReceive

  datatype Pipe = Pipe(
    buf: seq<Byte>,         // read and not yet written
    offset: nat,            // where in the buffer's front block that begins
    capacity: nat,          // what a block of the buffer holds
    reading: bool,          // a read of the source is pending, into `room` bytes
    writing: bool,          // a write of the first `inflight` bytes is pending
    readable: bool,         // the source has not ended
    writable: bool,         // the sink still takes data
    room: nat,
    inflight: nat,
    failed: bool,           // a write to the sink has failed
    got: seq<Byte>,         // everything that ever entered the buffer
    sent: seq<Byte>,        // everything the sink took
    sends: seq<SendCall>,
    recvs: seq<RecvCall>)

  /** A direction as forwarding starts, with what the handshake left in its buffer and the reads
      of the source it took. */
  function Fresh(left: seq<Byte>, offset: nat, capacity: nat, taken: seq<RecvCall>): Pipe {
    Pipe(left, offset, capacity, false, false, true, true, 0, 0, false, left, [], [], taken)
  }

  /** The space a read is given: at least READ_SIZE, up to the end of a block. */
  function Room(p: Pipe): (r: nat)
    ensures READ_SIZE <= r && (p.capacity > 0 ==> r < READ_SIZE + p.capacity)
  {
    Cells.Grant(p.offset + |p.buf|, READ_SIZE, p.capacity)
  }

  /** Schedule a read if one is due. */
  function StartRead(p: Pipe): Pipe {
    if !p.reading && p.readable && p.writable && |p.buf| < MAX_BUFFER_SIZE then
      p.(reading := true, room := Room(p), recvs := p.recvs + [ReadSome(Room(p))])
    else p
  }

  /** Schedule a write if one is due. */
  function StartWrite(p: Pipe): Pipe {
    if !p.writing && p.writable && |p.buf| > 0 then
      p.(writing := true, inflight := |p.buf|, sends := p.sends + [WriteSome(p.buf)])
    else p
  }

  /** ForwardTraffic, as far as it concerns this direction. */
  function Forward(p: Pipe): Pipe {
    StartWrite(StartRead(p))
  }

  lemma StartsForward(p: Pipe)
    ensures StartWrite(StartRead(p)) == Forward(p)
  {
  }

  /** The order in which the two are considered does not matter. */
  lemma StartsCommute(p: Pipe)
    ensures StartRead(StartWrite(p)) == Forward(p)
  {
  }

  /** The read handler. */
  function ReadDone(p: Pipe, data: seq<Byte>, failed: bool): Pipe {
    var p1 := p.(reading := false, buf := p.buf + data, got := p.got + data);
    if failed then
      p1.(readable := false, sends := if p1.buf == [] then p1.sends + [ShutdownSend] else p1.sends)
    else p1
  }

  /** n bytes leave the front. An empty buffer with no read pending starts over at the beginning of
      a block. */
  function Drained(p: Pipe, n: nat): Pipe
    requires n <= |p.buf|
  {
    var rest := p.buf[n..];
    p.(buf := rest, offset := if rest == [] && !p.reading then 0 else Cells.Advance(p.offset, n, p.capacity))
  }

  /** The write handler. */
  function WriteDone(p: Pipe, n: nat, failed: bool): Pipe
    requires n <= |p.buf|
  {
    var p1 := Drained(p, n).(writing := false, sent := p.sent + p.buf[..n]);
    var p2 := if failed then p1.(writable := false, failed := true, recvs := p1.recvs + [ShutdownReceive]) else p1;
    if !p2.readable && p2.buf == [] then p2.(writable := false, sends := p2.sends + [ShutdownSend]) else p2
  }

  /** What can happen to a direction between two handlers of the bridge. Every handler ends with
      ForwardTraffic. Tick is a handler of the other direction. */
  datatype Event = Read(data: seq<Byte>, error: bool) | Written(n: nat, error: bool) | Tick

  /** The environment's side: completions belong to pending operations and fit them. */
  predicate Legal(p: Pipe, ev: Event) {
    match ev
    case Read(data, _) => p.reading && |data| <= p.room
    case Written(n, _) => p.writing && n <= p.inflight
    case Tick => true
  }

  function Step(p: Pipe, ev: Event): Pipe
    requires ev.Written? ==> ev.n <= |p.buf|
  {
    match ev
    case Read(data, failed) => Forward(ReadDone(p, data, failed))
    case Written(n, failed) => Forward(WriteDone(p, n, failed))
    case Tick => Forward(p)
  }

  /** The most a buffer can hold: one byte short of the limit, a full read more, and the slack of
      ReserveAtLeast. */
  function Bound(capacity: nat): nat {
    (MAX_BUFFER_SIZE - 1) + (READ_SIZE - 1) + capacity
  }

  ghost predicate Closed(p: Pipe) {
    ShutdownSend in p.sends
  }

  /** At most one shutdown, and nothing after it. */
  ghost predicate ClosesOnce(sends: seq<SendCall>) {
    forall i :: 0 <= i < |sends| - 1 ==> sends[i] != ShutdownSend
  }

  /** What every handler keeps. */
  ghost predicate Inv(p: Pipe) {
    && p.got == p.sent + p.buf
    && p.offset < p.capacity
    && (p.writing ==> p.writable && 0 < p.inflight <= |p.buf|
                      && p.sends != [] && p.sends[|p.sends| - 1] == WriteSome(p.buf[..p.inflight]))
    && (p.reading ==> p.readable)
    && (!p.writable ==> p.failed || (!p.readable && p.buf == []))
    && (p.failed ==> !p.writable)
    && |p.buf| <= Bound(p.capacity)
    && (p.reading ==> |p.buf| + p.room <= Bound(p.capacity))
    && ClosesOnce(p.sends)
    && (Closed(p) <==> !p.readable && p.buf == [])
    && (ShutdownReceive in p.recvs <==> p.failed)
    && forall i :: 0 <= i < |p.recvs| - 1 ==> p.recvs[i] != ShutdownReceive
  }

  /** No operation is due that is not pending: what ForwardTraffic leaves behind. */
  ghost predicate Forwarded(p: Pipe) {
    && (!p.reading && p.readable && p.writable ==> |p.buf| >= MAX_BUFFER_SIZE)
    && (!p.writing && p.writable ==> p.buf == [])
  }

  lemma ForwardKeeps(p: Pipe)
    requires Inv(p)
    ensures Inv(Forward(p)) && Forwarded(Forward(p)) && Forward(p).capacity == p.capacity
  {
  }

  lemma ReadKeeps(p: Pipe, data: seq<Byte>, failed: bool)
    requires Inv(p) && p.reading && |data| <= p.room
    ensures Inv(ReadDone(p, data, failed))
  {
    assert p.got + data == p.sent + (p.buf + data);
  }

  lemma WriteKeeps(p: Pipe, n: nat, failed: bool)
    requires Inv(p) && p.writing && n <= p.inflight
    ensures Inv(WriteDone(p, n, failed))
  {
    assert p.got == (p.sent + p.buf[..n]) + p.buf[n..];
  }

  lemma StepKeeps(p: Pipe, ev: Event)
    requires Inv(p) && Legal(p, ev)
    ensures ev.Written? ==> ev.n <= |p.buf|
    ensures Inv(Step(p, ev)) && Forwarded(Step(p, ev)) && Step(p, ev).capacity == p.capacity
  {
    match ev
    case Read(data, failed) =>
      ReadKeeps(p, data, failed);
      ForwardKeeps(ReadDone(p, data, failed));
    case Written(n, failed) =>
      WriteKeeps(p, n, failed);
      ForwardKeeps(WriteDone(p, n, failed));
    case Tick =>
      ForwardKeeps(p);
  }

  /** What the pending write was given. */
  function Offered(p: Pipe): seq<Byte>
    requires p.writing && p.inflight <= |p.buf|
  {
    p.buf[..p.inflight]
  }

  /** What a handler does, told by its bytes and calls: a read brings its bytes, a write takes exactly
      the bytes it reports off the front of what it was offered; a source ends, and a sink fails, only
      by an error; the sink is shut down once the source has ended and nothing is left, the source once
      the sink has failed; a write offers all there is as soon as none is pending, and a read is asked
      for as long as there is room. */
  ghost predicate Means(p: Pipe, ev: Event, q: Pipe)
    requires ev.Written? ==> p.writing && p.inflight <= |p.buf| && ev.n <= p.inflight
  {
    && q.got == p.got + (if ev.Read? then ev.data else [])
    && q.sent == p.sent + (if ev.Written? then Offered(p)[..ev.n] else [])
    && (q.readable <==> p.readable && !(ev.Read? && ev.error))
    && (q.failed <==> p.failed || (ev.Written? && ev.error))
    && (q.writing <==> (p.writing && !ev.Written?) || (q.buf != [] && !q.failed))
    && (q.reading <==> (p.reading && !ev.Read?) || (q.readable && !q.failed && |q.buf| < MAX_BUFFER_SIZE))
    && q.sends == p.sends
         + (if !q.readable && q.buf == [] && ShutdownSend !in p.sends then [ShutdownSend] else [])
         + (if q.writing && (!p.writing || ev.Written?) then [WriteSome(q.buf)] else [])
    && q.recvs == p.recvs
         + (if q.failed && !p.failed then [ShutdownReceive] else [])
         + (if q.reading && (!p.reading || ev.Read?) then [ReadSome(q.room)] else [])
  }

  lemma StepMeans(p: Pipe, ev: Event)
    requires Inv(p) && Legal(p, ev)
    ensures ev.Written? ==> ev.n <= |p.buf|
    ensures Means(p, ev, Step(p, ev))
  {
    hide Means, Step, Inv;
    match ev
    case Read(_, _) => ReadMeans(p, ev);
    case Written(_, _) => WriteMeans(p, ev);
    case Tick => TickMeans(p);
  }

  lemma ReadMeans(p: Pipe, ev: Event)
    requires Inv(p) && Legal(p, ev) && ev.Read?
    ensures Means(p, ev, Step(p, ev))
  {
    hide Cells.Grant, Cells.Advance, Bound;
    ReadKeeps(p, ev.data, ev.error);
  }

  lemma WriteMeans(p: Pipe, ev: Event)
    requires Inv(p) && Legal(p, ev) && ev.Written?
    ensures ev.n <= |p.buf| && Means(p, ev, Step(p, ev))
  {
    hide Cells.Grant, Cells.Advance, Bound;
    WriteKeeps(p, ev.n, ev.error);
    assert p.buf[..p.inflight][..ev.n] == p.buf[..ev.n];
  }

  lemma TickMeans(p: Pipe)
    requires Inv(p)
    ensures Means(p, Tick, Step(p, Tick))
  {
    hide Cells.Grant, Cells.Advance, Bound;
  }

  // What was sent, told by the calls on the sink and what their completions report.

  /** The bytes offered by each write, in order. */
  function Writes(sends: seq<SendCall>): seq<seq<Byte>> {
    if sends == [] then [] else (if sends[0].WriteSome? then [sends[0].bytes] else []) + Writes(sends[1..])
  }

  /** How many bytes each completed write reports, in order. */
  function Counts(evs: seq<Event>): seq<nat> {
    if evs == [] then [] else (if evs[0].Written? then [evs[0].n] else []) + Counts(evs[1..])
  }

  function Sum(ns: seq<nat>): nat {
    if ns == [] then 0 else ns[0] + Sum(ns[1..])
  }

  /** The k-th count belongs to the k-th write, and does not exceed what it offered. */
  ghost predicate Fit(ws: seq<seq<Byte>>, ns: seq<nat>) {
    |ns| <= |ws| && forall k :: 0 <= k < |ns| ==> ns[k] <= |ws[k]|
  }

  /** Of each write that completed, the first so many bytes. */
  ghost function Taken(ws: seq<seq<Byte>>, ns: seq<nat>): (r: seq<Byte>)
    requires Fit(ws, ns)
    ensures |r| == Sum(ns)
  {
    if ns == [] then [] else ws[0][..ns[0]] + Taken(ws[1..], ns[1..])
  }

  /** The write that is pending, if any. */
  function Underway(p: Pipe): seq<seq<Byte>>
    requires p.writing ==> p.inflight <= |p.buf|
  {
    if p.writing then [Offered(p)] else []
  }

  lemma {:induction false} WritesAppend(a: seq<SendCall>, b: seq<SendCall>)
    ensures Writes(a + b) == Writes(a) + Writes(b)
  {
    if a == [] {
      assert a + b == b;
    } else {
      WritesAppend(a[1..], b);
      assert (a + b)[1..] == a[1..] + b;
    }
  }

  /** One handler: the write it completes comes off the front of those underway, the one it starts is
      added behind. */
  lemma StepUnderway(p: Pipe, ev: Event)
    requires Inv(p) && Legal(p, ev)
    ensures ev.Written? ==> ev.n <= |p.buf|
    ensures Inv(Step(p, ev)) && p.sends <= Step(p, ev).sends
    ensures var q := Step(p, ev);
            Underway(p) + Writes(q.sends[|p.sends|..]) == (if ev.Written? then [Offered(p)] else []) + Underway(q)
  {
    StepKeeps(p, ev);
    var x, y := StepSends(p, ev);
    OfferStays(p, ev);
    var q := Step(p, ev);
    hide Step, Inv, Offered, Writes;
    assert q.sends[|p.sends|..] == x + y;
    WritesAppend(x, y);
    OneWrite(q.buf);
    NoWrites();
  }

  lemma OneWrite(bytes: seq<Byte>)
    ensures Writes([WriteSome(bytes)]) == [bytes]
  {
    assert [WriteSome(bytes)][1..] == [];
  }

  lemma NoWrites()
    ensures Writes([]) == []
  {
  }

  /** What it adds to the calls on the sink. */
  lemma StepSends(p: Pipe, ev: Event) returns (x: seq<SendCall>, y: seq<SendCall>)
    requires Inv(p) && Legal(p, ev)
    ensures ev.Written? ==> ev.n <= |p.buf|
    ensures var q := Step(p, ev);
            && q.sends == p.sends + (x + y) && Writes(x) == []
            && y == (if q.writing && (!p.writing || ev.Written?) then [WriteSome(q.buf)] else [])
            && (p.writing && !ev.Written? ==> q.writing)
            && q.sent == p.sent + (if ev.Written? then Offered(p)[..ev.n] else [])
  {
    StepMeans(p, ev);
    hide Step, Inv;
    var q := Step(p, ev);
    x := if !q.readable && q.buf == [] && ShutdownSend !in p.sends then [ShutdownSend] else [];
    y := if q.writing && (!p.writing || ev.Written?) then [WriteSome(q.buf)] else [];
    assert p.sends + x + y == p.sends + (x + y);
  }

  /** A pending write keeps its bytes, and a new one is given all of them. */
  lemma OfferStays(p: Pipe, ev: Event)
    requires Inv(p) && Legal(p, ev)
    ensures ev.Written? ==> ev.n <= |p.buf|
    ensures var q := Step(p, ev);
            q.writing ==> q.inflight <= |q.buf| && Offered(q) == if p.writing && !ev.Written? then Offered(p) else q.buf
  {
    StepKeeps(p, ev);
    hide Cells.Grant, Cells.Advance, Bound, Inv;
    match ev
    case Read(data, failed) =>
      if p.writing { assert (p.buf + data)[..p.inflight] == p.buf[..p.inflight]; }
      assert (p.buf + data)[..|p.buf + data|] == p.buf + data;
    case Written(n, _) => assert p.buf[n..][..|p.buf| - n] == p.buf[n..];
    case Tick => assert p.buf[..|p.buf|] == p.buf;
  }

  // Whole runs of one direction.

  ghost predicate LegalRun(p: Pipe, evs: seq<Event>)
    requires Inv(p)
    decreases |evs|
  {
    evs == [] ||
    (&& Legal(p, evs[0])
     && (StepKeeps(p, evs[0]); LegalRun(Step(p, evs[0]), evs[1..])))
  }

  ghost function RunPipe(p: Pipe, evs: seq<Event>): (q: Pipe)
    requires Inv(p) && LegalRun(p, evs)
    ensures Inv(q) && q.capacity == p.capacity
    decreases |evs|
  {
    if evs == [] then p
    else
      StepKeeps(p, evs[0]);
      RunPipe(Step(p, evs[0]), evs[1..])
  }

  /** A run and one event more. */
  lemma {:induction false} RunAppend(p: Pipe, evs: seq<Event>, ev: Event)
    requires Inv(p) && LegalRun(p, evs) && Legal(RunPipe(p, evs), ev)
    ensures LegalRun(p, evs + [ev]) && (ev.Written? ==> ev.n <= |RunPipe(p, evs).buf|)
    ensures RunPipe(p, evs + [ev]) == Step(RunPipe(p, evs), ev)
    decreases |evs|
  {
    StepKeeps(RunPipe(p, evs), ev);
    if evs == [] {
      assert (evs + [ev])[1..] == [];
    } else {
      StepKeeps(p, evs[0]);
      RunAppend(Step(p, evs[0]), evs[1..], ev);
      assert (evs + [ev])[1..] == evs[1..] + [ev];
    }
  }

  lemma {:induction false} RunForwarded(p: Pipe, evs: seq<Event>)
    requires Inv(p) && LegalRun(p, evs) && Forwarded(p)
    ensures Forwarded(RunPipe(p, evs))
    decreases |evs|
  {
    if evs != [] {
      StepKeeps(p, evs[0]);
      RunForwarded(Step(p, evs[0]), evs[1..]);
    }
  }

  /** The writes underway in p and those issued since are completed one by one, with these counts; and
      what was sent since is, of each of them that completed, the first so many bytes. */
  ghost predicate Sends(p: Pipe, ns: seq<nat>, q: Pipe)
    requires p.writing ==> p.inflight <= |p.buf|
    requires q.writing ==> q.inflight <= |q.buf|
  {
    && p.sends <= q.sends
    && var ws := Underway(p) + Writes(q.sends[|p.sends|..]);
       Fit(ws, ns) && |ws| == |ns| + |Underway(q)| && q.sent == p.sent + Taken(ws, ns)
  }

  lemma NothingSent(p: Pipe)
    requires Inv(p)
    ensures Sends(p, [], p)
  {
    assert p.sends[|p.sends|..] == [] && p.sent + [] == p.sent;
  }

  lemma SendsStep(p: Pipe, ev: Event, ns: seq<nat>, q: Pipe)
    requires Inv(p) && Legal(p, ev) && Inv(q)
    requires ev.Written? ==> ev.n <= |p.buf|
    requires Inv(Step(p, ev)) && Sends(Step(p, ev), ns, q)
    ensures Sends(p, (if ev.Written? then [ev.n] else []) + ns, q)
  {
    StepUnderway(p, ev);
    var x, y := StepSends(p, ev);
    var p1 := Step(p, ev);
    var done, n := (if ev.Written? then [Offered(p)] else []), (if ev.Written? then [ev.n] else []);
    Compose(p.sends, p1.sends, q.sends, Underway(p), Underway(p1), done, n, ns, p.sent, p1.sent, q.sent, |Underway(q)|);
  }

  /** The same on values: the calls before and after a step and at the end, what is underway, what the
      step completed and by how many bytes, and what was sent. */
  lemma Compose(s0: seq<SendCall>, s1: seq<SendCall>, s2: seq<SendCall>, u0: seq<seq<Byte>>, u1: seq<seq<Byte>>,
                done: seq<seq<Byte>>, n: seq<nat>, ns: seq<nat>,
                sent0: seq<Byte>, sent1: seq<Byte>, sent2: seq<Byte>, left: nat)
    requires s0 <= s1 <= s2 && u0 + Writes(s1[|s0|..]) == done + u1
    requires var ws := u1 + Writes(s2[|s1|..]); Fit(ws, ns) && |ws| == |ns| + left && sent2 == sent1 + Taken(ws, ns)
    requires |done| == |n| <= 1 && (n != [] ==> n[0] <= |done[0]|)
    requires sent1 == sent0 + if n == [] then [] else done[0][..n[0]]
    ensures s0 <= s2
    ensures var ws := u0 + Writes(s2[|s0|..]);
            Fit(ws, n + ns) && |ws| == |n + ns| + left && sent2 == sent0 + Taken(ws, n + ns)
  {
    var a, b := Writes(s1[|s0|..]), Writes(s2[|s1|..]);
    Suffixes(s0, s1, s2);
    WritesAppend(s1[|s0|..], s2[|s1|..]);
    hide Writes;
    Rotate(u0, a, done, u1, b);
    TakenMore(done, n, u1 + b, ns);
    hide Taken, Fit;
    Associate(sent0, if n == [] then [] else done[0][..n[0]], Taken(u1 + b, ns));
  }

  lemma Associate<T>(a: seq<T>, b: seq<T>, c: seq<T>)
    ensures (a + b) + c == a + (b + c)
  {
  }

  lemma TakenMore(done: seq<seq<Byte>>, n: seq<nat>, ws: seq<seq<Byte>>, ns: seq<nat>)
    requires Fit(ws, ns) && |done| == |n| <= 1 && (n != [] ==> n[0] <= |done[0]|)
    ensures Fit(done + ws, n + ns)
    ensures Taken(done + ws, n + ns) == (if n == [] then [] else done[0][..n[0]]) + Taken(ws, ns)
  {
    if n == [] {
      assert done + ws == ws && n + ns == ns;
    } else {
      assert (done + ws)[1..] == ws && (n + ns)[1..] == ns;
    }
  }

  lemma Suffixes<T>(s: seq<T>, s1: seq<T>, s2: seq<T>)
    requires s <= s1 <= s2
    ensures s <= s2 && s2[|s|..] == s1[|s|..] + s2[|s1|..]
  {
  }

  /** So over any run, with what its completions report. */
  lemma {:induction false} RunSends(p: Pipe, evs: seq<Event>)
    requires Inv(p) && LegalRun(p, evs)
    ensures Sends(p, Counts(evs), RunPipe(p, evs))
    decreases |evs|
  {
    if evs == [] {
      NothingSent(p);
    } else {
      StepKeeps(p, evs[0]);
      RunSends(Step(p, evs[0]), evs[1..]);
      hide Sends, Inv, Step;
      SendsStep(p, evs[0], Counts(evs[1..]), RunPipe(p, evs));
    }
  }

  lemma Rotate<T>(u: seq<T>, a: seq<T>, done: seq<T>, u1: seq<T>, b: seq<T>)
    requires u + a == done + u1
    ensures u + (a + b) == done + (u1 + b)
  {
    assert u + (a + b) == (u + a) + b;
  }

  /** A source has ended if and only if a read reported an error, a sink has failed if and only if a
      write did. */
  lemma {:induction false} RunEnds(p: Pipe, evs: seq<Event>)
    requires Inv(p) && LegalRun(p, evs)
    ensures var q := RunPipe(p, evs);
            && (q.readable <==> p.readable && forall i :: 0 <= i < |evs| && evs[i].Read? ==> !evs[i].error)
            && (q.failed <==> p.failed || exists i :: 0 <= i < |evs| && evs[i].Written? && evs[i].error)
    decreases |evs|
  {
    if evs != [] {
      StepKeeps(p, evs[0]);
      StepMeans(p, evs[0]);
      RunEnds(Step(p, evs[0]), evs[1..]);
      hide Step, Legal, Inv;
      assert forall i :: 1 <= i < |evs| ==> evs[i] == evs[1..][i - 1];
    }
  }

  /** Once the sink's send side was shut down it is never written to, or shut down, again. */
  lemma {:induction false} ClosedForGood(p: Pipe, evs: seq<Event>)
    requires Inv(p) && LegalRun(p, evs) && Closed(p)
    ensures RunPipe(p, evs).sends == p.sends
    decreases |evs|
  {
    if evs != [] {
      assert !p.reading && !p.writing;
      StepKeeps(p, evs[0]);
      ClosedForGood(Step(p, evs[0]), evs[1..]);
    }
  }

  /** The shutdown comes when the source has ended, everything it sent was handed to the sink,
      and no write is pending; and it does come then. */
  lemma ClosesWhenDone(p: Pipe, ev: Event)
    requires Inv(p) && Legal(p, ev)
    ensures var q := Step(p, ev);
            && (Closed(q) <==> !q.readable && q.sent == q.got)
            && (Closed(q) ==> !q.writing && !q.reading)
  {
    StepKeeps(p, ev);
    var q := Step(p, ev);
    assert q.got == q.sent + q.buf;
    assert q.sent == q.got <==> q.buf == [];
  }

  function Completions(evs: seq<Event>): nat {
    if evs == [] then 0 else (if evs[0].Tick? then 0 else 1) + Completions(evs[1..])
  }

  /** A completed operation moved at least a byte, or failed. */
  predicate Productive(ev: Event) {
    match ev
    case Read(data, error) => data != [] || error
    case Written(n, error) => n > 0 || error
    case Tick => true
  }

  function Progress(p: Pipe): nat {
    |p.got| + |p.sent| + (if p.readable then 0 else 1) + (if p.failed then 1 else 0)
  }

  /** No direction can go on for ever on a finite stream: there are at most two completions for
      each byte that entered the buffer, and two more. */
  lemma {:induction false} FiniteRun(p: Pipe, evs: seq<Event>)
    requires Inv(p) && LegalRun(p, evs)
    requires forall i :: 0 <= i < |evs| ==> Productive(evs[i])
    ensures var q := RunPipe(p, evs);
            && Progress(p) + Completions(evs) <= Progress(q) <= 2 * |q.got| + 2
    decreases |evs|
  {
    if evs != [] {
      StepKeeps(p, evs[0]);
      var p1 := Step(p, evs[0]);
      assert Productive(evs[0]);
      StepProgress(p, evs[0]);
      FiniteRun(p1, evs[1..]);
    }
  }

  lemma StepProgress(p: Pipe, ev: Event)
    requires Inv(p) && Legal(p, ev) && Productive(ev)
    ensures Progress(Step(p, ev)) >= Progress(p) + if ev.Tick? then 0 else 1
  {
  }
}
