/** The pool of connections that wait at the proxy for inbound traffic: each slot connects, asks
    for a port, waits for a peer and hands its descriptor to the application. */
module SessionPools {
  import opened Bytes
  import opened Options
  import opened Protocol
  import opened Handshake
  import opened Rfc1928
  import Client

  // What the pool and the server say to each other.

  const BIND_REPLY_SIZE := 12  // the method selection and the first reply
  const SECOND_REPLY_SIZE := 22  // the second reply, with an IPv6 address
  const MICRO_BUFFER_SIZE := 24
  const MAX_CONNECTIONS := 128

  /** Greeting and BIND request in one: 13 bytes, any IPv4 address, a port. */
  function PoolRequest(port: seq<Byte>): (r: seq<Byte>)
    requires |port| == 2
    ensures |r| == 13 && r[11..] == port
  {
    [5, 1, 0, 5, 2, 0, 1, 0, 0, 0, 0] + port
  }

  /** However the pool's request is cut into reads, it makes the server ask for that port; the
      server answers with exactly the twelve bytes the pool waits for, whose fourth is zero and
      whose last two are the port obtained. */
  lemma BindAgreement(app: App, chunks: seq<seq<Byte>>, port: Port)
    requires Flatten(chunks) == PoolRequest(PortBytes(port))
    requires app.answer([], Respond(GREETING_REPLY)).status == OK
    requires app.answer([Respond(GREETING_REPLY)], Bind(port)).status != Failed
    requires var bound := app.answer([Respond(GREETING_REPLY)], Bind(port)).port;
             app.answer([Respond(GREETING_REPLY), Bind(port)], Respond(BindReply(bound))).status != Failed
    ensures var (d, rest) := Run(app, Started, chunks);
            var bound := app.answer([Respond(GREETING_REPLY)], Bind(port)).port;
            var replies := Client.Replies(d.session.calls);
            && d.session.state == WaitAccept
            && d.session.calls == [Respond(GREETING_REPLY), Bind(port), Respond(BindReply(bound))]
            && d.session.buf + Flatten(rest) == []
            && replies == [5, 0] + ([5, 0, 0] + EncodeAddr(V4([0, 0, 0, 0], PortBytes(bound))))
            && BoundReply(replies) && replies[10..] == PortBytes(bound) && PortOf(replies[10..]) == bound
  {
    hide Run, PoolRequest, EncodeAddr, BoundReply, PortOf, PortBytes;
    var bound := app.answer([Respond(GREETING_REPLY)], Bind(port)).port;
    PoolBinds(app, chunks, port);
    FirstReplies(port, bound);
  }

  lemma PoolBinds(app: App, chunks: seq<seq<Byte>>, port: Port)
    requires Flatten(chunks) == PoolRequest(PortBytes(port))
    requires app.answer([], Respond(GREETING_REPLY)).status == OK
    requires app.answer([Respond(GREETING_REPLY)], Bind(port)).status != Failed
    requires var bound := app.answer([Respond(GREETING_REPLY)], Bind(port)).port;
             app.answer([Respond(GREETING_REPLY), Bind(port)], Respond(BindReply(bound))).status != Failed
    ensures var (d, rest) := Run(app, Started, chunks);
            var bound := app.answer([Respond(GREETING_REPLY)], Bind(port)).port;
            && d.session.state == WaitAccept
            && d.session.calls == [Respond(GREETING_REPLY), Bind(port), Respond(BindReply(bound))]
            && d.session.buf + Flatten(rest) == []
  {
    hide Exhaust, Run, Greeting, EncodeAddr;
    StartedRests(app);
    RunIsExhaust(app, Started, chunks);
    var addr: Address := V4([0, 0, 0, 0], PortBytes(port));
    BindAccepted(app, [0], addr, []);
    RequestIsBind(port, addr);
    PortRoundTrip(port, [0, 0]);
    var bound := app.answer([Respond(GREETING_REPLY)], Bind(port)).port;
    BindReplyReads(bound);
    var asked := [Respond(GREETING_REPLY), Bind(port)];
    assert [Respond(GREETING_REPLY)] + [Bind(port)] == asked;
    assert asked + [Respond(BindReply(bound))] == [Respond(GREETING_REPLY), Bind(port), Respond(BindReply(bound))];
  }

  lemma RequestIsBind(port: Port, addr: Address)
    requires addr == V4([0, 0, 0, 0], PortBytes(port))
    ensures Greeting([0]) + BindRequest(addr) + [] == PoolRequest(PortBytes(port))
  {
  }

  lemma FirstReplies(port: Port, bound: Port)
    ensures var replies := Client.Replies([Respond(GREETING_REPLY), Bind(port), Respond(BindReply(bound))]);
            && replies == [5, 0] + ([5, 0, 0] + EncodeAddr(V4([0, 0, 0, 0], PortBytes(bound))))
            && BoundReply(replies) && replies[10..] == PortBytes(bound) && PortOf(replies[10..]) == bound
  {
    PortRoundTrip(bound, [0, 0]);
    var c2: seq<Call> := [Respond(BindReply(bound))];
    var c1 := [Bind(port)] + c2;
    var c0 := [Respond(GREETING_REPLY)] + c1;
    assert c2[1..] == [] && c1[1..] == c2 && c0[1..] == c1;
    assert Client.Replies(c2) == BindReply(bound);
    BindReplyReads(bound);
    assert c0 == [Respond(GREETING_REPLY), Bind(port), Respond(BindReply(bound))];
  }

  /** What the pool makes of the twelve bytes of the first reply, and of 22 bytes of the second. */
  predicate BoundReply(b: seq<Byte>) {
    |b| == BIND_REPLY_SIZE && b[3] == 0
  }

  predicate PeerReply(b: seq<Byte>) {
    |b| == SECOND_REPLY_SIZE && b[1] == 0
  }

  function PeerAddr(b: seq<Byte>): seq<Byte>
    requires PeerReply(b)
  {
    b[4..20]
  }

  function PeerPort(b: seq<Byte>): seq<Byte>
    requires PeerReply(b)
  {
    b[20..22]
  }

  /** Reading 22 bytes off the stream takes the reply and nothing of what follows. */
  ghost predicate TakenWhole(resp: seq<Byte>) {
    forall payload: seq<Byte> :: |resp + payload| >= SECOND_REPLY_SIZE ==> (resp + payload)[SECOND_REPLY_SIZE..] == payload
  }

  lemma TakenBySize(resp: seq<Byte>)
    ensures TakenWhole(resp) <==> |resp| == SECOND_REPLY_SIZE
  {
    if |resp| == SECOND_REPLY_SIZE {
      forall payload: seq<Byte> ensures (resp + payload)[SECOND_REPLY_SIZE..] == payload {}
    } else {
      var payload: seq<Byte> := seq(SECOND_REPLY_SIZE, _ => 0);
      assert |(resp + payload)[SECOND_REPLY_SIZE..]| != |payload|;
    }
  }

  /** The 22 bytes the pool takes off the stream are the server's whole second reply, whatever the
      peer sends after it, if and only if the server knew the peer's address and it is IPv6; then
      the pool accepts them and extracts that very address and port. */
  lemma SecondReplyAgreement(app: App, s: Session)
    requires s.state == WaitAccept
    ensures var resp := CreateResp(app, s.calls, true).0;
            var a := app.answer(s.calls, DestAddress(true));
            var known := app.hasDestAddress && a.status == OK && a.addr.V6?;
            var calls := ConnectionSucceed(app, s).0.calls;
            && |calls| > 0 && calls[|calls| - 1] == Respond(resp)
            && (TakenWhole(resp) <==> known)
            && (known ==> PeerReply(resp) && PeerAddr(resp) == a.addr.addr && PeerPort(resp) == a.addr.port)
  {
    var resp := CreateResp(app, s.calls, true).0;
    TakenBySize(resp);
    if app.hasDestAddress && app.answer(s.calls, DestAddress(true)).status == OK {
      var addr := app.answer(s.calls, DestAddress(true)).addr;
      if addr.V6? { assert resp == [5, 0, 0, ATYP_V6] + addr.addr + addr.port; }
    }
  }

  /** What goes wrong: if the accepted socket cannot tell its peer, the server sends the ten-byte error
      reply. The pool takes more than that off the stream, and rejects whatever it gets - the slot
      starts over and the connection is lost. */
  lemma ErrorReplyRejected(app: App, s: Session)
    requires s.state == WaitAccept
    requires !(app.hasDestAddress && app.answer(s.calls, DestAddress(true)).status == OK)
    ensures var resp := CreateResp(app, s.calls, true).0;
            && resp == ERROR_REPLY && !TakenWhole(resp)
            && forall payload: seq<Byte> :: |resp + payload| >= SECOND_REPLY_SIZE ==> !PeerReply((resp + payload)[..SECOND_REPLY_SIZE])
  {
    var resp := CreateResp(app, s.calls, true).0;
    TakenBySize(resp);
    forall payload: seq<Byte> | |resp + payload| >= SECOND_REPLY_SIZE
      ensures !PeerReply((resp + payload)[..SECOND_REPLY_SIZE])
    {
      assert (resp + payload)[1] == 1;
    }
  }

  // One slot of the pool.

  /** What a slot is waiting for. Before it waits to send, it has learnt the peer. */
  datatype Phase = Connecting | AwaitFirst | AwaitSecond | AwaitSend(addr: seq<Byte>, port: seq<Byte>)

  datatype Slot = Slot(sock: nat, phase: Phase)

  datatype Handoff = Handoff(sock: nat, addr: seq<Byte>, port: seq<Byte>)

  /** The pool: how large it may get, its slots, how many sockets have been made, how many attempts
      have failed, and the descriptors handed over. */
  datatype Pool = Pool(limit: nat, slots: seq<Slot>, made: nat, errors: nat, stopped: bool, handed: seq<Handoff>)

  /** The completion of a slot's operation: whether it succeeded and what it brought. `written`
      tells whether the request could be written, `sent` whether the application took the message. */
  datatype Event =
    | Connected(index: nat, ok: bool, written: bool)
    | First(index: nat, ok: bool, bytes: seq<Byte>)
    | Second(index: nat, ok: bool, bytes: seq<Byte>)
    | Writable(index: nat, ok: bool, sent: bool)
    | ClientError
  {
    predicate Good() {
      match this
      case Connected(_, ok, written) => ok && written
      case First(_, ok, bytes) => ok && BoundReply(bytes)
      case Second(_, ok, bytes) => ok && PeerReply(bytes)
      case Writable(_, ok, sent) => ok && sent
      case ClientError => false
    }

    predicate Fits(phase: Phase) {
      match this
      case Connected(_, _, _) => phase == Connecting
      case First(_, ok, bytes) => phase == AwaitFirst && if ok then |bytes| == BIND_REPLY_SIZE else |bytes| <= BIND_REPLY_SIZE
      case Second(_, _, bytes) => phase == AwaitSecond && |bytes| <= SECOND_REPLY_SIZE
      case Writable(_, _, _) => phase.AwaitSend?
      case ClientError => false
    }
  }

  /** The event completes the operation its slot is waiting for. */
  predicate Enabled(p: Pool, e: Event) {
    e.ClientError? || (e.index < |p.slots| && e.Fits(p.slots[e.index].phase))
  }

  function Reset(p: Pool, i: nat): Pool
    requires i < |p.slots|
  {
    p.(slots := p.slots[i := Slot(p.made, Connecting)], made := p.made + 1)
  }

  function SetPhase(p: Pool, i: nat, phase: Phase): Pool
    requires i < |p.slots|
  {
    p.(slots := p.slots[i := p.slots[i].(phase := phase)])
  }

  function Hydrate(p: Pool, i: nat): Pool {
    if i == |p.slots| - 1 && |p.slots| < p.limit then
      p.(slots := p.slots + [Slot(p.made, Connecting)], made := p.made + 1)
    else p
  }

  /** A stopped pool ignores completions. */
  function Step(p: Pool, e: Event): Pool {
    if p.stopped || !Enabled(p, e) then p
    else if e.ClientError? || (e.Writable? && e.ok && !e.sent) then p.(stopped := true)
    else if !e.Good() then Reset(p.(errors := p.errors + 1), e.index)
    else
      match e
      case Connected(i, _, _) => SetPhase(p, i, AwaitFirst)
      case First(i, _, _) => Hydrate(SetPhase(p, i, AwaitSecond), i)
      case Second(i, _, bytes) => SetPhase(p, i, AwaitSend(PeerAddr(bytes), PeerPort(bytes)))
      case Writable(i, _, _) =>
        var slot := p.slots[i];
        Reset(p.(handed := p.handed + [Handoff(slot.sock, slot.phase.addr, slot.phase.port)]), i)
  }

  /** After Start: the first socket has asked for its port already, the second is connecting. */
  function Begun(limit: nat): Pool {
    Pool(limit, [Slot(0, AwaitSecond), Slot(1, Connecting)], 2, 0, false, [])
  }

  // Whole runs.

  function RunPool(p: Pool, es: seq<Event>): Pool {
    if es == [] then p else Step(RunPool(p, es[..|es| - 1]), es[|es| - 1])
  }

  /** Every event completes an operation that was outstanding, as long as the pool runs. */
  ghost predicate Legal(p: Pool, es: seq<Event>) {
    forall k :: 0 <= k < |es| ==> var q := RunPool(p, es[..k]); q.stopped || Enabled(q, es[k])
  }

  function Max(a: nat, b: nat): nat {
    if a < b then b else a
  }

  /** Sockets in the pool or handed over: never shared, never handed over twice. */
  ghost predicate Owned(p: Pool) {
    && (forall i :: 0 <= i < |p.slots| ==> p.slots[i].sock < p.made)
    && (forall i, j :: 0 <= i < j < |p.slots| ==> p.slots[i].sock != p.slots[j].sock)
    && (forall k :: 0 <= k < |p.handed| ==> p.handed[k].sock < p.made)
    && (forall k, l :: 0 <= k < l < |p.handed| ==> p.handed[k].sock != p.handed[l].sock)
    && (forall k, i :: 0 <= k < |p.handed| && 0 <= i < |p.slots| ==> p.handed[k].sock != p.slots[i].sock)
  }

  /** What every run keeps. As long as the pool is not full, its last slot is one whose first reply
      will make it grow. */
  ghost predicate Inv(p: Pool) {
    && Owned(p)
    && 2 <= |p.slots| <= Max(p.limit, 2)
    && (|p.slots| < p.limit ==> var last := p.slots[|p.slots| - 1]; last.phase == Connecting || last.phase == AwaitFirst)
  }

  lemma ResetOwned(p: Pool, i: nat)
    requires Owned(p) && i < |p.slots|
    ensures Owned(Reset(p, i))
  {
  }

  lemma HandedOwned(p: Pool, i: nat, h: Handoff)
    requires Owned(p) && i < |p.slots| && h.sock == p.slots[i].sock
    ensures Owned(Reset(p.(handed := p.handed + [h]), i))
  {
    var q := Reset(p.(handed := p.handed + [h]), i);
    forall k, j | 0 <= k < |q.handed| && 0 <= j < |q.slots| ensures q.handed[k].sock != q.slots[j].sock {
      if k == |p.handed| {
        assert q.handed[k] == h;
      } else {
        assert q.handed[k] == p.handed[k];
      }
    }
  }

  lemma PhaseOwned(p: Pool, i: nat, phase: Phase)
    requires Owned(p) && i < |p.slots|
    ensures Owned(SetPhase(p, i, phase))
  {
    var q := SetPhase(p, i, phase);
    assert forall j :: 0 <= j < |q.slots| ==> q.slots[j].sock == p.slots[j].sock;
  }

  lemma HydrateOwned(p: Pool, i: nat)
    requires Owned(p)
    ensures Owned(Hydrate(p, i))
  {
  }

  lemma StepKeeps(p: Pool, e: Event)
    requires Inv(p)
    ensures Inv(Step(p, e)) && Step(p, e).limit == p.limit
    ensures |p.slots| <= |Step(p, e).slots| <= |p.slots| + 1
  {
    hide Owned;
    if !p.stopped && Enabled(p, e) && !e.ClientError? {
      var i := e.index;
      var slot := p.slots[i];
      ResetOwned(p.(errors := p.errors + 1), i) by { SameOwned(p, p.(errors := p.errors + 1)); }
      if e.Writable? { HandedOwned(p, i, Handoff(slot.sock, slot.phase.addr, slot.phase.port)); }
      PhaseOwned(p, i, Step(p, e).slots[i].phase);
      HydrateOwned(SetPhase(p, i, AwaitSecond), i) by { PhaseOwned(p, i, AwaitSecond); }
    }
    SameOwned(p, p.(stopped := true));
  }

  lemma SameOwned(p: Pool, q: Pool)
    requires Owned(p) && q.slots == p.slots && q.handed == p.handed && q.made == p.made
    ensures Owned(q)
  {
  }

  lemma {:induction false} RunKeeps(limit: nat, es: seq<Event>)
    ensures var p := RunPool(Begun(limit), es); Inv(p) && p.limit == limit
  {
    hide Inv, Step;
    if es == [] {
      BegunInv(limit);
    } else {
      RunKeeps(limit, es[..|es| - 1]);
      StepKeeps(RunPool(Begun(limit), es[..|es| - 1]), es[|es| - 1]);
    }
  }

  lemma BegunInv(limit: nat)
    ensures Inv(Begun(limit))
  {
  }

  /** The pool grows exactly when its last slot gets its first reply and there is room: a slot that
      is not the last never makes it grow, and the last one never fails to. */
  lemma GrowsFromTheLast(limit: nat, es: seq<Event>, e: Event)
    requires var p := RunPool(Begun(limit), es); !p.stopped && Enabled(p, e)
    ensures var p := RunPool(Begun(limit), es);
            |RunPool(Begun(limit), es + [e]).slots| > |p.slots|
            <==> e.First? && e.Good() && e.index == |p.slots| - 1 && |p.slots| < limit
  {
    RunKeeps(limit, es);
    assert (es + [e])[..|es|] == es;
  }

  /** What ends the pool: the application's socket fails, or the application does not take a message
      that it could be sent. */
  predicate EndsPool(e: Event) {
    e.ClientError? || (e.Writable? && e.ok && !e.sent)
  }

  /** What ends an attempt: an operation fails, the request cannot be written, or the server's reply is
      short or has an error code - the fourth byte of the first twelve, the second of the next 22. */
  predicate EndsAttempt(e: Event) {
    match e
    case Connected(_, ok, written) => !(ok && written)
    case First(_, ok, bytes) => !(ok && |bytes| == 12 && bytes[3] == 0)
    case Second(_, ok, bytes) => !(ok && |bytes| == 22 && bytes[1] == 0)
    case Writable(_, ok, _) => !ok
    case ClientError => false
  }

  function Attempts(es: seq<Event>): nat {
    if es == [] then 0 else Attempts(es[..|es| - 1]) + if EndsAttempt(es[|es| - 1]) then 1 else 0
  }

  /** The pool stops if and only if something ends it: no failed connection, no rejected reply does. */
  lemma {:induction false} StopsExactly(limit: nat, es: seq<Event>)
    requires Legal(Begun(limit), es)
    ensures RunPool(Begun(limit), es).stopped <==> exists k :: 0 <= k < |es| && EndsPool(es[k])
    ensures !RunPool(Begun(limit), es).stopped ==> RunPool(Begun(limit), es).errors == Attempts(es)
  {
    if es != [] {
      var before, e := es[..|es| - 1], es[|es| - 1];
      hide Step, Enabled, EndsPool, EndsAttempt;
      LegalBefore(Begun(limit), es);
      hide Legal;
      StopsExactly(limit, before);
      StopsNow(RunPool(Begun(limit), before), e);
      EndsOrEnded(es);
    }
  }

  lemma EndsOrEnded(es: seq<Event>)
    requires es != []
    ensures var before, e := es[..|es| - 1], es[|es| - 1];
            (exists k :: 0 <= k < |es| && EndsPool(es[k])) <==> (exists k :: 0 <= k < |before| && EndsPool(before[k])) || EndsPool(e)
  {
    hide EndsPool;
    var before := es[..|es| - 1];
    if exists k :: 0 <= k < |before| && EndsPool(before[k]) {
      var k :| 0 <= k < |before| && EndsPool(before[k]);
      assert EndsPool(es[k]);
    }
    if exists k :: 0 <= k < |es| && EndsPool(es[k]) {
      var k :| 0 <= k < |es| && EndsPool(es[k]);
      assert k < |before| ==> EndsPool(before[k]);
    }
  }

  lemma StopsNow(p: Pool, e: Event)
    requires p.stopped || Enabled(p, e)
    ensures Step(p, e).stopped <==> p.stopped || EndsPool(e)
    ensures !Step(p, e).stopped ==> Step(p, e).errors == p.errors + if EndsAttempt(e) then 1 else 0
  {
    if !p.stopped { StepAnswers(p, e); }
  }

  /** What a completion does to a pool that runs. If it ends an attempt, its slot starts over with a new
      socket and one more error is counted; if it hands a descriptor over, its slot starts over as well;
      otherwise its slot moves on, with the same socket. Every other slot stays as it is. */
  ghost predicate Answers(p: Pool, e: Event, q: Pool)
    requires e.ClientError? || e.index < |p.slots|
    requires e.Writable? ==> p.slots[e.index].phase.AwaitSend?
  {
    if EndsPool(e) then q == p.(stopped := true)
    else
      var i, n := e.index, |p.slots|;
      var anew := Slot(p.made, Connecting);
      var grows := e.First? && !EndsAttempt(e) && i == n - 1 && n < p.limit;
      && !q.stopped && q.limit == p.limit
      && q.errors == p.errors + (if EndsAttempt(e) then 1 else 0)
      && |q.slots| == n + (if grows then 1 else 0) && (grows ==> q.slots[n] == anew)
      && (forall j :: 0 <= j < n && j != i ==> q.slots[j] == p.slots[j])
      && q.made == p.made + (if EndsAttempt(e) || e.Writable? || grows then 1 else 0)
      && q.handed == p.handed + (if !EndsAttempt(e) && e.Writable? then
                                   [Handoff(p.slots[i].sock, p.slots[i].phase.addr, p.slots[i].phase.port)] else [])
      && if EndsAttempt(e) then q.slots[i] == anew
         else match e
              case Connected(_, _, _) => q.slots[i] == Slot(p.slots[i].sock, AwaitFirst)
              case First(_, _, _) => q.slots[i] == Slot(p.slots[i].sock, AwaitSecond)
              case Second(_, _, bytes) => q.slots[i] == Slot(p.slots[i].sock, AwaitSend(bytes[4..20], bytes[20..22]))
              case Writable(_, _, _) => q.slots[i] == anew
  }

  lemma StepAnswers(p: Pool, e: Event)
    requires !p.stopped && Enabled(p, e)
    ensures Answers(p, e, Step(p, e))
  {
  }

  /** So it is at every point of every run. */
  lemma EachCompletion(limit: nat, es: seq<Event>, e: Event)
    requires Legal(Begun(limit), es + [e]) && !RunPool(Begun(limit), es).stopped
    ensures Enabled(RunPool(Begun(limit), es), e)
    ensures Answers(RunPool(Begun(limit), es), e, RunPool(Begun(limit), es + [e]))
  {
    hide Step, Enabled, Answers, Legal;
    var all := es + [e];
    assert all[..|es|] == es;
    LegalBefore(Begun(limit), all);
    StepAnswers(RunPool(Begun(limit), es), e);
  }

  // Buffers.

  /** The micro buffer an event's handler touches: its slot's, once there is something to read. */
  predicate Touches(e: Event, i: nat) {
    match e
    case Connected(j, ok, written) => i == j && ok && written
    case First(j, _, _) => i == j
    case Second(j, _, _) => i == j
    case Writable(j, _, _) => i == j
    case ClientError => false
  }

  /** Start reads into buffer 0; there are as many buffers as the pool may have slots. */
  ghost predicate InRange(limit: nat) {
    && 0 < limit
    && forall es, e, i: nat :: Legal(Begun(limit), es) && Enabled(RunPool(Begun(limit), es), e) && Touches(e, i) ==> i < limit
  }

  /** min(backlog, 128), for a backlog that is not negative. */
  function PoolSize(backlog: nat): nat {
    if backlog > MAX_CONNECTIONS then MAX_CONNECTIONS else backlog
  }

  /** No run indexes past the buffers if and only if the application asked for a backlog of at
      least two. */
  lemma BuffersInRange(backlog: nat)
    ensures InRange(PoolSize(backlog)) <==> backlog >= 2
  {
    var limit := PoolSize(backlog);
    if backlog >= 2 {
      forall es, e, i: nat | Legal(Begun(limit), es) && Enabled(RunPool(Begun(limit), es), e) && Touches(e, i) ensures i < limit {
        RunKeeps(limit, es);
      }
    } else if backlog == 1 {
      var e := Connected(1, true, true);
      assert Legal(Begun(limit), []);
      assert Enabled(RunPool(Begun(limit), []), e) && Touches(e, 1);
    }
  }

  // Cycles.

  /** The events of one slot. */
  function Of(es: seq<Event>, i: nat): seq<Event> {
    if es == [] then []
    else
      var e := es[|es| - 1];
      Of(es[..|es| - 1], i) + if !e.ClientError? && e.index == i then [e] else []
  }

  /** A slot's events end with what it takes to get from a fresh socket to a phase. The first
      socket of slot 0 was brought to its second reply by Start. */
  predicate Reached(m: seq<Event>, i: nat, phase: Phase) {
    match phase
    case Connecting => true
    case AwaitFirst => m != [] && Last(m).Connected? && Last(m).Good()
    case AwaitSecond => (i == 0 && m == []) || (|m| > 1 && Last(m).First? && Last(m).Good() && Reached(Front(m), i, AwaitFirst))
    case AwaitSend(addr, port) =>
      && m != [] && Last(m).Second? && Last(m).Good()
      && PeerAddr(Last(m).bytes) == addr && PeerPort(Last(m).bytes) == port
      && Reached(Front(m), i, AwaitSecond)
  }

  function Last(m: seq<Event>): Event
    requires m != []
  {
    m[|m| - 1]
  }

  function Front(m: seq<Event>): seq<Event>
    requires m != []
  {
    m[..|m| - 1]
  }

  function After(e: Event): Phase
    requires e.Good() && !e.Writable?
  {
    match e
    case Connected(_, _, _) => AwaitFirst
    case First(_, _, _) => AwaitSecond
    case Second(_, _, bytes) => AwaitSend(PeerAddr(bytes), PeerPort(bytes))
  }

  lemma ReachedNext(m: seq<Event>, i: nat, phase: Phase, e: Event)
    requires Reached(m, i, phase) && e.Fits(phase) && e.Good()
    ensures !e.Writable? ==> Reached(m + [e], i, After(e))
  {
    if !e.Writable? {
      assert Last(m + [e]) == e && Front(m + [e]) == m;
    }
  }

  lemma StepReached(p: Pool, e: Event, m: seq<Event>, i: nat)
    requires !p.stopped && Enabled(p, e) && !Step(p, e).stopped && i < |Step(p, e).slots|
    requires i < |p.slots| ==> Reached(m, i, p.slots[i].phase)
    ensures Reached(m + if e.index == i then [e] else [], i, Step(p, e).slots[i].phase)
  {
    if e.index == i {
      if e.Good() { ReachedNext(m, i, p.slots[i].phase, e); }
    } else {
      assert m + [] == m;
    }
  }

  lemma LegalBefore(p: Pool, es: seq<Event>)
    requires Legal(p, es) && es != []
    ensures Legal(p, es[..|es| - 1])
    ensures var q := RunPool(p, es[..|es| - 1]); q.stopped || Enabled(q, es[|es| - 1])
  {
    hide RunPool, Enabled;
    var before := es[..|es| - 1];
    forall k | 0 <= k < |before| ensures var q := RunPool(p, before[..k]); q.stopped || Enabled(q, before[k]) {
      assert before[..k] == es[..k];
    }
  }

  lemma {:induction false} RunReached(limit: nat, es: seq<Event>, i: nat)
    requires Legal(Begun(limit), es) && !RunPool(Begun(limit), es).stopped
    requires i < |RunPool(Begun(limit), es).slots|
    ensures Reached(Of(es, i), i, RunPool(Begun(limit), es).slots[i].phase)
  {
    if es == [] {
    } else {
      hide Reached, Legal;
      LegalBefore(Begun(limit), es);
      var before, e := es[..|es| - 1], es[|es| - 1];
      var p := RunPool(Begun(limit), before);
      assert !p.stopped && !e.ClientError?;
      hide Step, Enabled;
      if i < |p.slots| { RunReached(limit, before, i); }
      StepReached(p, e, Of(before, i), i);
    }
  }

  /** A slot's events end with a connection over which the request was written, a good first reply
      and a whole second reply, with nothing in between. The one exception is the very first socket
      of slot 0, which Start has connected: it only needs the second reply. */
  predicate FullCycle(m: seq<Event>, i: nat) {
    && |m| > 0 && m[|m| - 1].Second? && m[|m| - 1].Good()
    && ((i == 0 && |m| == 1)
        || (|m| > 2 && m[|m| - 2].First? && m[|m| - 2].Good() && m[|m| - 3].Connected? && m[|m| - 3].Good()))
  }

  lemma ReachedFullCycle(m: seq<Event>, i: nat, addr: seq<Byte>, port: seq<Byte>)
    requires Reached(m, i, AwaitSend(addr, port))
    ensures FullCycle(m, i) && addr == PeerAddr(m[|m| - 1].bytes) && port == PeerPort(m[|m| - 1].bytes)
  {
    assert Reached(Front(m), i, AwaitSecond);
    if Front(m) != [] {
      assert Reached(Front(Front(m)), i, AwaitFirst);
    }
  }

  /** Every hand-over follows a full cycle on its slot, and what is handed over with the slot's
      descriptor is the address and port of the last second reply there. */
  lemma HandoffFollowsCycle(limit: nat, es: seq<Event>, e: Event)
    requires Legal(Begun(limit), es + [e])
    requires var p := RunPool(Begun(limit), es); |RunPool(Begun(limit), es + [e]).handed| > |p.handed|
    ensures var p := RunPool(Begun(limit), es);
            && e.Writable? && e.Good() && e.index < |p.slots|
            && var m := Of(es, e.index);
               FullCycle(m, e.index)
               && RunPool(Begun(limit), es + [e]).handed
                  == p.handed + [Handoff(p.slots[e.index].sock, PeerAddr(m[|m| - 1].bytes), PeerPort(m[|m| - 1].bytes))]
  {
    var all := es + [e];
    assert all[..|es|] == es;
    LegalBefore(Begun(limit), all);
    hide Legal, Reached, FullCycle;
    var p := RunPool(Begun(limit), es);
    assert RunPool(Begun(limit), all) == Step(p, e);
    assert !p.stopped && Enabled(p, e);
    assert e.Writable? && e.Good();
    RunReached(limit, es, e.index);
    var phase := p.slots[e.index].phase;
    ReachedFullCycle(Of(es, e.index), e.index, phase.addr, phase.port);
  }

  // The object.

  /** Operations under way: at most one per slot, and the watch on the application's socket. */
  datatype Op = ConnectOp(index: nat) | FirstOp(index: nat) | SecondOp(index: nat) | SendOp(index: nat) | ClientWait

  function OpOf(i: nat, phase: Phase): Op {
    match phase
    case Connecting => ConnectOp(i)
    case AwaitFirst => FirstOp(i)
    case AwaitSecond => SecondOp(i)
    case AwaitSend(_, _) => SendOp(i)
  }

  /** The message sent with a descriptor: its type, the peer's address and port, two bytes of
      padding. */
  const NEW_CONNECTION: seq<Byte> := [4, 0, 0, 0]

  predicate Announces(message: seq<Byte>, addr: seq<Byte>, port: seq<Byte>) {
    |message| == MICRO_BUFFER_SIZE && message[..SECOND_REPLY_SIZE] == NEW_CONNECTION + addr + port
  }

  /** How the blocking calls of Start turn out: the port the application asks to bind, whether the
      proxy can be reached and written to, its twelve bytes, whether the application can be
      answered, and the backlog it asks for. None: the read failed or brought the wrong message. */
  datatype Opening = Opening(bindPort: Option<Port>, connected: bool, written: bool, reply: Option<seq<Byte>>,
                             answered: bool, backlog: Option<int>, listening: bool)
  {
    predicate Bound() {
      && bindPort.Some? && connected && written
      && reply.Some? && BoundReply(reply.value)
    }

    predicate Listens() {
      Bound() && answered && backlog.Some? && listening && backlog.value >= 0
    }
  }

  /** How many operations of a kind are due: while the pool runs, each slot but the one in `hole`
      has exactly the one that its phase calls for. */
  function Due(p: Pool, hole: int, op: Op): nat {
    if op.ClientWait? then 1
    else if op.index < |p.slots| && op.index != hole && op == OpOf(op.index, p.slots[op.index].phase) then 1
    else 0
  }

  /** Once the pool has stopped, nothing is started any more. */
  ghost predicate Outstanding(pending: multiset<Op>, p: Pool, hole: int) {
    forall op: Op :: if p.stopped then pending[op] <= Due(p, -1, op) else pending[op] == Due(p, hole, op)
  }

  ghost predicate SameSlots(pool: seq<nat>, p: Pool) {
    && |pool| == |p.slots| <= p.limit
    && (forall i :: 0 <= i < |pool| ==> pool[i] == p.slots[i].sock < p.made)
    && (forall i, j :: 0 <= i < j < |pool| ==> pool[i] != pool[j])
  }

  /** There is a buffer for every slot, and it holds the message that the slot waits to send. */
  ghost predicate Buffered(buffers: seq<seq<Byte>>, p: Pool) {
    && |p.slots| <= |buffers| == p.limit
    && (forall i :: 0 <= i < |buffers| ==> |buffers[i]| == MICRO_BUFFER_SIZE)
    && forall i :: 0 <= i < |p.slots| && p.slots[i].phase.AwaitSend? ==>
         Announces(buffers[i], p.slots[i].phase.addr, p.slots[i].phase.port)
  }

  /** Every socket that has got past connecting was asked for the pool's port - but for the very
      first, over which Start obtained it. */
  ghost predicate Asked(requests: map<nat, seq<Byte>>, request: seq<Byte>, p: Pool) {
    forall i :: 0 <= i < |p.slots| && p.slots[i].phase != Connecting && p.slots[i].sock != 0 ==>
      p.slots[i].sock in requests && requests[p.slots[i].sock] == request
  }

  ghost predicate Told(sent: seq<(nat, seq<Byte>)>, handed: seq<Handoff>) {
    && |sent| == |handed|
    && forall k :: 0 <= k < |sent| ==> sent[k].0 == handed[k].sock && Announces(sent[k].1, handed[k].addr, handed[k].port)
  }

  /** No descriptor leaks: while the pool runs, the open sockets are those of its slots; once it
      has stopped, none is open. */
  ghost predicate NoLeak(closed: set<nat>, pool: seq<nat>, made: nat, stop: bool) {
    && (forall s :: s in closed ==> s < made)
    && forall s: nat :: s < made ==> (s in closed <==> (stop || s !in pool))
  }

  lemma OpEnds(pending: multiset<Op>, p: Pool, op: Op)
    requires Outstanding(pending, p, -1) && op in pending && !op.ClientWait?
    ensures Outstanding(pending - multiset{op}, p, op.index)
    ensures op.index < |p.slots| && op == OpOf(op.index, p.slots[op.index].phase)
  {
    assert pending[op] > 0;
    forall o: Op ensures var m := pending - multiset{op}; if p.stopped then m[o] <= Due(p, -1, o) else m[o] == Due(p, op.index, o) {
      assert (pending - multiset{op})[o] == if o == op then pending[o] - 1 else pending[o];
    }
  }

  lemma OpBegins(pending: multiset<Op>, p: Pool, i: nat, q: Pool)
    requires Outstanding(pending, p, i) && !p.stopped && !q.stopped && i < |p.slots|
    requires i < |q.slots| && q.slots == p.slots[i := q.slots[i]]
    ensures Outstanding(pending + multiset{OpOf(i, q.slots[i].phase)}, q, -1)
  {
    var op := OpOf(i, q.slots[i].phase);
    forall o: Op ensures (pending + multiset{op})[o] == Due(q, -1, o) {
      assert (pending + multiset{op})[o] == if o == op then pending[o] + 1 else pending[o];
      assert pending[o] == Due(p, i, o);
    }
  }

  lemma OpAdded(pending: multiset<Op>, p: Pool, q: Pool)
    requires Outstanding(pending, p, -1) && !p.stopped && !q.stopped
    requires |q.slots| == |p.slots| + 1 && q.slots[..|p.slots|] == p.slots
    ensures Outstanding(pending + multiset{OpOf(|p.slots|, q.slots[|p.slots|].phase)}, q, -1)
  {
    var op := OpOf(|p.slots|, q.slots[|p.slots|].phase);
    forall o: Op ensures (pending + multiset{op})[o] == Due(q, -1, o) {
      assert (pending + multiset{op})[o] == if o == op then pending[o] + 1 else pending[o];
      assert pending[o] == Due(p, -1, o);
      if !o.ClientWait? && o.index < |p.slots| { assert q.slots[o.index] == q.slots[..|p.slots|][o.index]; }
    }
  }

  lemma SocketReplaced(closed: set<nat>, pool: seq<nat>, p: Pool, i: nat)
    requires SameSlots(pool, p) && NoLeak(closed, pool, p.made, false) && i < |pool|
    ensures SameSlots(pool[i := p.made], Reset(p, i))
    ensures NoLeak(closed + {pool[i]}, pool[i := p.made], p.made + 1, false)
  {
    var next := pool[i := p.made];
    forall s: nat | s < p.made + 1 ensures s in closed + {pool[i]} <==> s !in next {
      if s in next {
        var j :| 0 <= j < |next| && next[j] == s;
        if j != i { assert pool[j] == s; }
      } else if s in pool {
        var j :| 0 <= j < |pool| && pool[j] == s;
        assert next[j] == pool[j] || j == i;
      } else {
        assert next[i] == p.made;
      }
    }
  }

  lemma SocketAdded(closed: set<nat>, pool: seq<nat>, p: Pool)
    requires SameSlots(pool, p) && NoLeak(closed, pool, p.made, false) && 0 < |pool| < p.limit
    ensures SameSlots(pool + [p.made], Hydrate(p, |pool| - 1))
    ensures NoLeak(closed, pool + [p.made], p.made + 1, false)
  {
  }

  function MicroBuffers(n: nat): (b: seq<seq<Byte>>)
    ensures |b| == n && forall i :: 0 <= i < n ==> |b[i]| == MICRO_BUFFER_SIZE
  {
    seq(n, _ => seq(MICRO_BUFFER_SIZE, _ => 0))
  }

  class ClientSessionPool {
    var pool: seq<nat>  // sockets, numbered as they are made
    var buffers: seq<seq<Byte>>
    var proxyBindRequest: seq<Byte>
    var numberOfErrors: nat
    var poolSize: nat
    var port: Port
    var stop: bool

    // What the world has seen of it.
    var made: nat
    var closed: set<nat>
    var clientClosed: bool  // the application's own socket
    var requests: map<nat, seq<Byte>>  // what was written to each connected socket
    var pending: multiset<Op>
    var sent: seq<(nat, seq<Byte>)>  // descriptors handed over, with their messages

    ghost var model: Pool

    constructor ()
      ensures pool == [] && buffers == [] && made == 0 && closed == {} && pending == multiset{} && sent == []
      ensures !stop && !clientClosed && numberOfErrors == 0
    {
      pool, buffers, proxyBindRequest, numberOfErrors, poolSize, port, stop := [], [], [], 0, 0, 0, false;
      made, closed, clientClosed, requests, pending, sent := 0, {}, false, map[], multiset{}, [];
      model := Begun(0);
    }

    ghost predicate Rest(hole: int)
      reads this
    {
      && made == model.made && numberOfErrors == model.errors && stop == clientClosed == model.stopped && poolSize == model.limit
      && proxyBindRequest == PoolRequest(PortBytes(port))
      && SameSlots(pool, model)
      && Outstanding(pending, model, hole)
      && Buffered(buffers, model)
      && Asked(requests, proxyBindRequest, model)
      && Told(sent, model.handed)
      && NoLeak(closed, pool, made, stop)
    }

    ghost predicate Valid()
      reads this
    {
      Inv(model) && 2 <= poolSize && Rest(-1)
    }

    /** The pool before Start. */
    ghost predicate Idle()
      reads this
    {
      && pool == [] && made == 0 && closed == {} && pending == multiset{} && sent == []
      && !stop && !clientClosed && numberOfErrors == 0
    }

    /** Fails at the first call that goes wrong. The application is told the port that the proxy
        obtained, and the pool asks for that port from then on. */
    method Start(io: Opening) returns (ok: bool, told: Option<Port>)
      requires Idle()
      modifies this
      ensures ok <==> io.Listens()
      ensures told == if io.Bound() then Some(PortOf(io.reply.value[10..])) else None
      ensures ok ==>
        && Some(port) == told && poolSize == PoolSize(io.backlog.value)
        && poolSize == (if io.backlog.value > 128 then 128 else io.backlog.value)
        && 0 in requests && requests[0] == PoolRequest(PortBytes(io.bindPort.value))
        && model == Begun(poolSize) && |pool| == 2 && |buffers| == poolSize
        && (Valid() <==> io.backlog.value >= 2)
    {
      hide Valid, Begun, PoolRequest, BoundReply, PortBytes, PoolSize;
      told := OpenFirst(io);
      ok := false;
      if told == None || !io.answered {
        return;
      }
      pool := pool + [0];
      if io.backlog == None || !io.listening || io.backlog.value < 0 {
        return;
      }
      StartHydrating(PoolSize(io.backlog.value));
      SizeOfPool(io.backlog.value);
      ok := true;
    }

    /** The first socket awaits its second reply, a second one connects, and the application's
        socket is watched. */
    method StartHydrating(size: nat)
      requires pool == [0] && made == 1 && closed == {} && pending == multiset{} && sent == []
      requires !stop && !clientClosed && numberOfErrors == 0 && proxyBindRequest == PoolRequest(PortBytes(port))
      modifies this`poolSize, this`buffers, this`pending, this`pool, this`made, this`model
      ensures poolSize == size && |pool| == 2 && |buffers| == size && model == Begun(size)
      ensures Valid() <==> size >= 2
    {
      hide Valid, Begun, PoolRequest, PortBytes, MicroBuffers;
      poolSize, buffers, model := size, MicroBuffers(size), Begun(size);
      pool, made := pool + [made], made + 1;
      pending := pending + multiset{ClientWait, SecondOp(0), ConnectOp(1)};
      assert pool == [0, 1];
      BegunValid();
    }

    /** The first connection, which tells whether the port can be bound. */
    method OpenFirst(io: Opening) returns (told: Option<Port>)
      requires Idle()
      modifies this
      ensures told == if io.Bound() then Some(PortOf(io.reply.value[10..])) else None
      ensures pool == [] && closed == {} && pending == multiset{} && sent == [] && !stop && !clientClosed && numberOfErrors == 0
      ensures told.Some? ==>
        && made == 1 && port == told.value && proxyBindRequest == PoolRequest(PortBytes(port))
        && 0 in requests && requests[0] == PoolRequest(PortBytes(io.bindPort.value))
    {
      told := None;
      if io.bindPort == None {
        return;
      }
      var firstSocket := made;
      made := made + 1;
      if !io.connected {
        return;
      }
      proxyBindRequest := PoolRequest(PortBytes(io.bindPort.value));
      if !io.written {
        return;
      }
      requests := requests[firstSocket := proxyBindRequest];
      if io.reply == None || |io.reply.value| != BIND_REPLY_SIZE || io.reply.value[3] != 0 {
        return;
      }
      var bound := io.reply.value[BIND_REPLY_SIZE - 2..];
      RequestRefilled(io.bindPort.value, bound);
      proxyBindRequest := proxyBindRequest[..11] + bound;
      port := PortOf(bound);
      told := Some(port);
    }

    lemma BegunValid()
      requires pool == [0, 1] && made == 2 && closed == {} && sent == [] && !stop && !clientClosed && numberOfErrors == 0
      requires pending == multiset{ClientWait, SecondOp(0), ConnectOp(1)}
      requires model == Begun(poolSize) && |buffers| == poolSize
      requires forall i :: 0 <= i < |buffers| ==> |buffers[i]| == MICRO_BUFFER_SIZE
      requires proxyBindRequest == PoolRequest(PortBytes(port))
      ensures Valid() <==> poolSize >= 2
    {
      BegunInv(poolSize);
    }

    // How the operations of one slot are ended and started.

    /** An operation ends; what it read is in its slot's buffer. */
    method Complete(op: Op, bytes: seq<Byte>)
      requires Valid() && op in pending && !op.ClientWait?
      requires bytes != [] ==> (op.FirstOp? || op.SecondOp?) && |bytes| <= MICRO_BUFFER_SIZE
      modifies this`pending, this`buffers
      ensures op.index < |model.slots| && op.index < |pool| && op.index < |buffers| && bytes <= buffers[op.index]
      ensures Rest(op.index) && op == OpOf(op.index, model.slots[op.index].phase)
    {
      hide Outstanding, Asked, Told, NoLeak, Inv, OpOf, Announces, PoolRequest;
      OpEnds(pending, model, op);
      pending := pending - multiset{op};
      if bytes != [] {
        ReadingSlot(op, model);
        buffers := buffers[op.index := bytes + buffers[op.index][|bytes|..]];
      }
    }

    method CountError(ghost hole: nat)
      requires Rest(hole) && !stop
      modifies this`numberOfErrors, this`model
      ensures Rest(hole) && model == old(model).(errors := old(model).errors + 1)
    {
      hide Announces, PoolRequest;
      numberOfErrors := numberOfErrors + 1;
      model := model.(errors := model.errors + 1);
    }

    /** Close a slot's socket, put a new one in its place and start connecting it. */
    method InitiateSocket(index: nat)
      requires Rest(index) && !stop && index < |pool|
      modifies this`pool, this`closed, this`made, this`pending, this`model
      ensures Rest(-1) && model == Reset(old(model), index)
    {
      hide Outstanding, Told, NoLeak, SameSlots, Announces, PoolRequest;
      assert |pool| == |model.slots| by { InSlots(); }
      OpBegins(pending, model, index, Reset(model, index));
      SocketReplaced(closed, pool, model, index);
      closed := closed + {pool[index]};
      pool := pool[index := made];
      made := made + 1;
      pending := pending + multiset{ConnectOp(index)};
      model := Reset(model, index);
    }

    lemma Phases(index: nat)
      requires Rest(index) && index < |model.slots|
      ensures |buffers| == poolSize && 0 < |pool| == |model.slots| <= poolSize == model.limit && stop == model.stopped
      ensures |buffers[index]| == MICRO_BUFFER_SIZE && pool[index] == model.slots[index].sock
      ensures model.slots[index].phase != Connecting && pool[index] != 0 ==>
        pool[index] in requests && requests[pool[index]] == proxyBindRequest
    {
    }

    lemma Stopped(hole: int)
      requires Rest(hole)
      ensures stop == model.stopped && (stop ==> Rest(-1))
    {
    }

    lemma InSlots()
      requires SameSlots(pool, model)
      ensures |pool| == |model.slots|
    {
    }

    /** Start the operation that moves a slot on to its next phase. */
    method Await(index: nat, ghost phase: Phase, op: Op)
      requires Rest(index) && !stop && index < |pool| && op == OpOf(index, phase)
      requires phase.AwaitSend? ==> index < |buffers| && Announces(buffers[index], phase.addr, phase.port)
      requires phase != Connecting && pool[index] != 0 ==>
        pool[index] in requests && requests[pool[index]] == proxyBindRequest
      modifies this`pending, this`model
      ensures Rest(-1) && model == SetPhase(old(model), index, phase)
    {
      hide Outstanding, Told, NoLeak, Announces, PoolRequest;
      OpBegins(pending, model, index, SetPhase(model, index, phase));
      pending := pending + multiset{op};
      model := SetPhase(model, index, phase);
    }

    // The handlers.

    /** The socket is connected, or could not be: ask the proxy for the port, or start over. */
    method HandleConnect(index: nat, ok: bool, written: bool)
      requires Valid() && ConnectOp(index) in pending
      modifies this
      ensures Valid() && model == Step(old(model), Connected(index, ok, written))
    {
      hide Rest, Inv, Reset, SetPhase;
      ghost var e, before := Connected(index, ok, written), model;
      StepKeeps(model, e);
      Complete(ConnectOp(index), []);
      Phases(index);
      if stop {
        Stopped(index);
        return;
      }
      if !ok {
        CountError(index);
        InitiateSocket(index);
        return;
      }
      if !written {
        CountError(index);
        InitiateSocket(index);
        return;
      }
      WriteRequest(index);
      Await(index, AwaitFirst, FirstOp(index));
    }

    method WriteRequest(index: nat)
      requires Rest(index) && !stop && index < |pool| && model.slots[index].phase == Connecting
      modifies this`requests
      ensures Rest(index) && pool[index] in requests && requests[pool[index]] == proxyBindRequest
    {
      requests := requests[pool[index] := proxyBindRequest];
    }

    /** The proxy's first reply: wait for a peer; and if this is the last slot of a pool that is not
        full, add one. */
    method Handle1stResp(index: nat, ok: bool, bytes: seq<Byte>)
      requires Valid() && FirstOp(index) in pending
      requires if ok then |bytes| == BIND_REPLY_SIZE else |bytes| <= BIND_REPLY_SIZE
      modifies this
      ensures Valid() && model == Step(old(model), First(index, ok, bytes))
    {
      hide Rest, Inv, Reset;
      ghost var e, before := First(index, ok, bytes), model;
      StepKeeps(model, e);
      Complete(FirstOp(index), bytes);
      Phases(index);
      if stop {
        Stopped(index);
        return;
      }
      var buf := buffers[index];
      if !ok {
        CountError(index);
        InitiateSocket(index);
        return;
      }
      if buf[3] != 0 {
        CountError(index);
        InitiateSocket(index);
        return;
      }
      Await(index, AwaitSecond, SecondOp(index));
      if index == |pool| - 1 && |pool| < poolSize {
        AddSocket();
      }
    }

    /** The pool gets one more slot, which starts connecting. */
    method AddSocket()
      requires Rest(-1) && !stop && 0 < |pool| < poolSize
      modifies this`pool, this`made, this`pending, this`model
      ensures Rest(-1) && model == Hydrate(old(model), |old(pool)| - 1)
    {
      hide Outstanding, Told, NoLeak, Announces, PoolRequest;
      ghost var next := Hydrate(model, |pool| - 1);
      assert next.slots[..|pool|] == model.slots;
      OpAdded(pending, model, next);
      SocketAdded(closed, pool, model);
      pending := pending + multiset{ConnectOp(|pool|)};
      pool := pool + [made];
      made := made + 1;
      model := next;
    }

    /** A peer has come: its address and port go into the message for the application. */
    method Handle2ndResp(index: nat, ok: bool, bytes: seq<Byte>)
      requires Valid() && SecondOp(index) in pending && |bytes| <= SECOND_REPLY_SIZE
      modifies this
      ensures Valid() && model == Step(old(model), Second(index, ok, bytes))
    {
      hide Rest, Inv, Reset, SetPhase;
      ghost var e, before := Second(index, ok, bytes), model;
      StepKeeps(model, e);
      Complete(SecondOp(index), bytes);
      Phases(index);
      if stop {
        Stopped(index);
        return;
      }
      var buf := buffers[index];
      if !ok || |bytes| < SECOND_REPLY_SIZE || buf[1] != 0 {
        CountError(index);
        InitiateSocket(index);
        return;
      }
      assert buf[4..20] == PeerAddr(bytes) && buf[20..22] == PeerPort(bytes);
      WriteMessage(index, buf[4..20], buf[20..22]);
      Await(index, AwaitSend(PeerAddr(bytes), PeerPort(bytes)), SendOp(index));
    }

    /** The padding of the message is whatever was there. */
    method WriteMessage(index: nat, addr: seq<Byte>, port: seq<Byte>)
      requires Rest(index) && index < |pool| && index < |buffers| && |addr| == 16 && |port| == 2
      requires !model.slots[index].phase.AwaitSend?
      modifies this`buffers
      ensures Rest(index) && |buffers| == |old(buffers)| && Announces(buffers[index], addr, port)
    {
      var padding: seq<Byte> := *;
      if |padding| != 2 { padding := [0, 0]; }
      buffers := buffers[index := NEW_CONNECTION + addr + port + padding];
    }

    /** The application can be written to: hand over the descriptor and start over. If it does not
        take the message the whole pool stops. */
    method HandleSendFd(index: nat, ok: bool, delivered: bool)
      requires Valid() && SendOp(index) in pending
      modifies this
      ensures Valid() && model == Step(old(model), Writable(index, ok, delivered))
    {
      hide Rest, Inv, Reset, SetPhase;
      ghost var e, before := Writable(index, ok, delivered), model;
      StepKeeps(model, e);
      Complete(SendOp(index), []);
      Phases(index);
      if stop {
        Stopped(index);
        return;
      }
      if !ok {
        CountError(index);
        InitiateSocket(index);
        return;
      }
      if !delivered {
        Stop(index);
        return;
      }
      SendDescriptor(index);
      InitiateSocket(index);
    }

    method SendDescriptor(index: nat)
      requires Rest(index) && index < |pool| && model.slots[index].phase.AwaitSend?
      modifies this`sent, this`model
      ensures Rest(index)
      ensures var slot := old(model).slots[index];
              model == old(model).(handed := old(model).handed + [Handoff(slot.sock, slot.phase.addr, slot.phase.port)])
    {
      hide Announces, NoLeak, PoolRequest;
      ghost var slot := model.slots[index];
      sent := sent + [(pool[index], buffers[index])];
      model := model.(handed := model.handed + [Handoff(slot.sock, slot.phase.addr, slot.phase.port)]);
    }

    method HandleClientError()
      requires Valid() && ClientWait in pending
      modifies this
      ensures Valid() && model == Step(old(model), ClientError)
    {
      hide Rest, Inv;
      StepKeeps(model, ClientError);
      Stopped(-1);
      if !stop {
        Stop(-1);
      }
      EndWatch();
    }

    method EndWatch()
      requires Rest(-1) && stop
      modifies this`pending
      ensures Rest(-1)
    {
      hide SameSlots, Buffered, Asked, Told, NoLeak, PoolRequest;
      pending := pending - multiset{ClientWait};
    }

    method Dispatch(e: Event)
      requires Valid() && !stop && Enabled(model, e)
      modifies this
      ensures Valid() && model == Step(old(model), e)
    {
      hide Inv, Step, Buffered, Asked, Told, NoLeak, PoolRequest;
      IsPending(e);
      match e
      case Connected(i, ok, written) => HandleConnect(i, ok, written);
      case First(i, ok, bytes) => Handle1stResp(i, ok, bytes);
      case Second(i, ok, bytes) => Handle2ndResp(i, ok, bytes);
      case Writable(i, ok, delivered) => HandleSendFd(i, ok, delivered);
      case ClientError => HandleClientError();
    }

    lemma IsPending(e: Event)
      requires Rest(-1) && !stop && Enabled(model, e)
      ensures (match e
               case Connected(i, _, _) => ConnectOp(i)
               case First(i, _, _) => FirstOp(i)
               case Second(i, _, _) => SecondOp(i)
               case Writable(i, _, _) => SendOp(i)
               case ClientError => ClientWait) in pending
    {
      var op := match e
                case Connected(i, _, _) => ConnectOp(i)
                case First(i, _, _) => FirstOp(i)
                case Second(i, _, _) => SecondOp(i)
                case Writable(i, _, _) => SendOp(i)
                case ClientError => ClientWait;
      assert pending[op] == Due(model, -1, op);
    }

    /** A whole run: whatever completes, in whatever order, until the pool stops. */
    method Serve(es: seq<Event>)
      requires Valid() && Legal(model, es)
      modifies this
      ensures Valid() && model == RunPool(old(model), es)
    {
      hide Valid, Legal, Step, Enabled;
      ghost var start := model;
      var i := 0;
      while i < |es|
        invariant i <= |es| && Valid() && model == RunPool(start, es[..i])
      {
        assert es[..i + 1][..i] == es[..i];
        LegalAt(start, es, i);
        Flags();
        if !stop {
          Dispatch(es[i]);
        } else {
          StoppedStays(model, es[i]);
        }
        i := i + 1;
      }
      assert es[..|es|] == es;
    }

    lemma Flags()
      requires Valid()
      ensures stop == model.stopped
    {
    }

    /** Close everything; operations under way will find the pool stopped. */
    method Stop(ghost hole: int)
      requires Rest(hole) && !stop
      modifies this`stop, this`closed, this`clientClosed, this`model
      ensures stop && clientClosed && (forall i :: 0 <= i < |pool| ==> pool[i] in closed) && Rest(-1) && model == old(model).(stopped := true)
    {
      hide Announces, PoolRequest;
      stop := true;
      closed := closed + set s | s in pool;
      clientClosed := true;
      model := model.(stopped := true);
    }
  }

  lemma LegalAt(p: Pool, es: seq<Event>, i: nat)
    requires Legal(p, es) && i < |es|
    ensures var q := RunPool(p, es[..i]); q.stopped || Enabled(q, es[i])
  {
  }

  lemma StoppedStays(p: Pool, e: Event)
    requires p.stopped
    ensures Step(p, e) == p
  {
  }

  lemma SizeOfPool(backlog: nat)
    ensures PoolSize(backlog) == (if backlog > 128 then 128 else backlog)
    ensures PoolSize(backlog) >= 2 <==> backlog >= 2
  {
  }

  lemma ReadingSlot(op: Op, p: Pool)
    requires op.FirstOp? || op.SecondOp?
    requires op.index < |p.slots| && op == OpOf(op.index, p.slots[op.index].phase)
    ensures !p.slots[op.index].phase.AwaitSend?
  {
  }

  lemma RequestRefilled(asked: Port, bound: seq<Byte>)
    requires |bound| == 2
    ensures PoolRequest(PortBytes(asked))[..11] + bound == PoolRequest(bound) == PoolRequest(PortBytes(PortOf(bound)))
  {
    PortRoundTrip(asked, bound);
  }
}
