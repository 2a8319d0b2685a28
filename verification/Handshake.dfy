/** The server half of the SOCKS5 handshake as a function: one transition, the driver loop
    around it, and what both promise about the bytes of RFC 1928. */
module Handshake {
  import opened Bytes
  import opened Protocol

  datatype State =
    | GreetingHeader
    | GreetingMethods
    | RequestHeader
    | RequestAddrV4
    | RequestAddrV6
    | RequestBind
    | WaitConnect
    | WaitAccept
    | Response
    | Success
    | Fail

  datatype Status = OK | InProgress | Failed

  /** The calls the handshake makes into the application. */
  datatype Call =
    | Respond(bytes: seq<Byte>)
    | Connect(addr: Address)
    | DestAddress(remote: bool)
    | Bind(port: Port)

  datatype Answer = Answer(status: Status, addr: Address, port: Port)

  /** The application: how it answers each call, given all the calls made before. The connect
      and destination-address callbacks may be absent. */
  datatype App = App(answer: (seq<Call>, Call) -> Answer, hasConnect: bool, hasDestAddress: bool)

  /** A handshake in flight: its state, how many bytes that state needs, the bytes received
      and not consumed, and the calls made so far. */
  datatype Session = Session(state: State, required: nat, buf: seq<Byte>, calls: seq<Call>) {
    predicate Insufficient() {
      |buf| < required
    }

    /** What each state needs before it may run. */
    ghost predicate Wf() {
      match state
      case GreetingHeader => required == 2
      case GreetingMethods => 0 < required < 256
      case RequestHeader => required == 4
      case RequestAddrV4 => required == 6
      case RequestAddrV6 => required == 18
      case RequestBind => required == 6 || required == 18
      case WaitConnect | WaitAccept | Response => required == 0
      case Success => required <= 1
      case Fail => required < 256
    }
  }

  const GREETING_REPLY: seq<Byte> := [5, 0]
  const ERROR_REPLY: seq<Byte> := [5, 1, 0, 1, 0, 0, 0, 0, 0, 0]

  const Initial := Session(GreetingHeader, 2, [], [])

  /** The final reply: the destination socket's address, or an error if that is not known. */
  function CreateResp(app: App, calls: seq<Call>, isBind: bool): (seq<Byte>, seq<Call>) {
    if app.hasDestAddress then
      var a := app.answer(calls, DestAddress(isBind));
      (if a.status == OK then [5, 0, 0] + EncodeAddr(a.addr) else ERROR_REPLY, calls + [DestAddress(isBind)])
    else
      (ERROR_REPLY, calls)
  }

  function BindReply(port: Port): seq<Byte> {
    [5, 0, 0, 1, 0, 0, 0, 0] + PortBytes(port)
  }

  /** One transition: the next session, and whether the driver should go on. */
  function Proceed(app: App, s: Session): (r: (Session, bool))
    requires s.Wf()
    ensures r.0.Wf()
  {
    if s.Insufficient() then (s, false)
    else
      match s.state
      case GreetingHeader =>
        var g, buf := s.buf[..2], s.buf[2..];
        if g[0] != 5 || g[1] == 0 then (s.(state := Fail, buf := buf), false)
        else (s.(state := GreetingMethods, required := g[1], buf := buf), true)
      case GreetingMethods =>
        var methods, buf := s.buf[..s.required], s.buf[s.required..];
        if 0 !in methods then (s.(state := Fail, buf := buf), false)
        else
          var calls := s.calls + [Respond(GREETING_REPLY)];
          if app.answer(s.calls, Respond(GREETING_REPLY)).status != OK then
            (s.(state := Fail, buf := buf, calls := calls), false)
          else (Session(RequestHeader, 4, buf, calls), true)
      case RequestHeader =>
        var h, buf := s.buf[..4], s.buf[4..];
        if h[0] != 5 || h[2] != 0 || (h[1] != 1 && h[1] != 2) || (h[3] != ATYP_V4 && h[3] != ATYP_V6) then
          (s.(state := Fail, buf := buf), false)
        else
          var required := if h[3] == ATYP_V4 then 6 else 18;
          var state := if h[1] == 2 then RequestBind else if h[3] == ATYP_V4 then RequestAddrV4 else RequestAddrV6;
          (s.(state := state, required := required, buf := buf), true)
      case RequestAddrV4 =>
        ConnectTo(app, s.(required := 0, buf := s.buf[6..]), V4(s.buf[..4], s.buf[4..6]))
      case RequestAddrV6 =>
        ConnectTo(app, s.(required := 0, buf := s.buf[18..]), V6(s.buf[..16], s.buf[16..18]))
      case RequestBind =>
        var port := PortOf(s.buf[s.required - 2..s.required]);
        var a := app.answer(s.calls, Bind(port));
        var s1 := s.(required := 0, buf := s.buf[s.required..], calls := s.calls + [Bind(port)]);
        if a.status == Failed then (s1.(state := Fail), false)
        else
          var reply := Respond(BindReply(a.port));
          var s2 := s1.(calls := s1.calls + [reply]);
          if app.answer(s1.calls, reply).status == Failed then (s2.(state := Fail), false)
          else (s2.(state := WaitAccept), false)
      case WaitConnect => (s, false)
      case WaitAccept => (s, false)
      case Response =>
        var (resp, calls) := CreateResp(app, s.calls, false);
        var s1 := s.(calls := calls + [Respond(resp)]);
        if app.answer(calls, Respond(resp)).status != OK then (s1.(state := Fail), false)
        else (s1.(state := Success, required := 1), true)
      case Success => (s, false)
      case Fail => (s.(required := 0), false)
  }

  /** The request is complete: ask for the connection. */
  function ConnectTo(app: App, s: Session, addr: Address): (r: (Session, bool))
    requires s.required == 0
    ensures r.0.Wf()
  {
    if !app.hasConnect then (s.(state := WaitConnect), true)
    else
      var s1 := s.(calls := s.calls + [Connect(addr)]);
      match app.answer(s.calls, Connect(addr)).status
      case OK => (s1.(state := Response), true)
      case InProgress => (s1.(state := WaitConnect), false)
      case Failed => (s1.(state := Fail), false)
  }

  /** The application reports that the pending connection was made. The reply's own outcome is
      overwritten: the session counts as successful whether or not the reply was sent. */
  function ConnectionSucceed(app: App, s: Session): (r: (Session, bool)) {
    if s.state != WaitConnect && s.state != WaitAccept then (s.(state := Fail), false)
    else
      var (resp, calls) := CreateResp(app, s.calls, s.state == WaitAccept);
      (s.(state := Success, calls := calls + [Respond(resp)]), true)
  }

  /** The application took the final reply of ConnectionSucceed. */
  predicate ReplyTaken(app: App, s: Session) {
    var (resp, calls) := CreateResp(app, s.calls, s.state == WaitAccept);
    app.answer(calls, Respond(resp)).status == OK
  }

  /** Two applications that answer alike, except perhaps to what they are asked to send once these
      calls have been made. */
  ghost predicate AlikeBut(app: App, other: App, made: seq<Call>) {
    && other.hasConnect == app.hasConnect && other.hasDestAddress == app.hasDestAddress
    && forall calls, c: Call :: !(c.Respond? && made <= calls) ==> other.answer(calls, c) == app.answer(calls, c)
  }

  /** An application that fails to send anything once these calls have been made. */
  function Refusing(app: App, made: seq<Call>): App {
    app.(answer := (calls: seq<Call>, c: Call) =>
           if c.Respond? && made <= calls then Answer(Failed, OtherFamily, 0) else app.answer(calls, c))
  }

  /** When success means that the reply was taken, whatever comes of sending it: exactly if no
      connection was pending - and then there is no success. A pending connection succeeds, with the
      same outcome, either way; from the Response state on the other hand success does mean that. */
  lemma SuccessMeansReplied(app: App, s: Session)
    ensures ConnectionSucceed(app, s).1 <==> s.state == WaitConnect || s.state == WaitAccept
    ensures (forall other :: AlikeBut(app, other, s.calls) && ConnectionSucceed(other, s).1 ==> ReplyTaken(other, s))
            <==> s.state != WaitConnect && s.state != WaitAccept
    ensures forall other :: AlikeBut(app, other, s.calls) ==> ConnectionSucceed(other, s) == ConnectionSucceed(app, s)
    ensures s.state == Response && s.Wf() ==> (Proceed(app, s).0.state == Success <==> ReplyTaken(app, s))
  {
    RefusesReply(app, s);
  }

  lemma RefusesReply(app: App, s: Session)
    ensures AlikeBut(app, Refusing(app, s.calls), s.calls) && !ReplyTaken(Refusing(app, s.calls), s)
  {
    var other := Refusing(app, s.calls);
    assert s.calls <= CreateResp(other, s.calls, s.state == WaitAccept).1;
  }

  function Rank(state: State): nat {
    match state
    case GreetingHeader => 0
    case GreetingMethods => 1
    case RequestHeader => 2
    case RequestAddrV4 | RequestAddrV6 | RequestBind => 3
    case WaitConnect | WaitAccept | Response => 4
    case Success | Fail => 5
  }

  lemma AgainRises(app: App, s: Session)
    requires s.Wf()
    ensures Proceed(app, s).1 ==> Rank(Proceed(app, s).0.state) > Rank(s.state)
  {
    hide CreateResp, BindReply, PortOf, EncodeAddr;
  }

  /** The driver's inner loop: transitions until one stops or the handshake has succeeded. */
  function Exhaust(app: App, s: Session): (r: Session)
    requires s.Wf()
    ensures r.Wf()
    decreases 5 - Rank(s.state)
  {
    if s.state == Success then s
    else
      AgainRises(app, s);
      hide Proceed;
      var (s1, again) := Proceed(app, s);
      if again then Exhaust(app, s1) else s1
  }

  lemma Shrinks(app: App, s: Session)
    requires s.Wf()
    ensures |Proceed(app, s).0.buf| <= |s.buf|
  {
    hide CreateResp, BindReply, PortOf, EncodeAddr;
  }

  lemma {:induction false} ExhaustShrinks(app: App, s: Session)
    requires s.Wf()
    ensures |Exhaust(app, s).buf| <= |s.buf|
    decreases 5 - Rank(s.state)
  {
    Shrinks(app, s);
    StopsOrRises(app, s);
    hide Proceed;
    if s.state != Success {
      var (s1, again) := Proceed(app, s);
      if again { ExhaustShrinks(app, s1); }
    }
  }

  function Feed(s: Session, more: seq<Byte>): Session {
    s.(buf := s.buf + more)
  }

  /** The driver: a session, and whether a read of the client socket is pending. */
  datatype Driver = Driver(session: Session, asking: bool)

  /** The read handler: take the bytes, run, and read again if the state wants more. */
  function Receive(app: App, d: Driver, chunk: seq<Byte>): Driver
    requires d.session.Wf()
  {
    var s := Exhaust(app, Feed(d.session, chunk));
    Driver(s, s.Insufficient())
  }

  const Started := Driver(Initial, true)

  /** Feed reads to the driver for as long as it asks; the second result is what it left unread. */
  function Run(app: App, d: Driver, chunks: seq<seq<Byte>>): (r: (Driver, seq<seq<Byte>>))
    requires d.session.Wf()
    ensures r.0.session.Wf()
    decreases |chunks|
  {
    if !d.asking || chunks == [] then (d, chunks)
    else Run(app, Receive(app, d, chunks[0]), chunks[1..])
  }

  /** A driver that has taken all its reads and asks for more takes one more. */
  lemma {:induction false} RunOneMore(app: App, d: Driver, chunks: seq<seq<Byte>>, chunk: seq<Byte>)
    requires d.session.Wf() && Run(app, d, chunks).1 == [] && Run(app, d, chunks).0.asking
    ensures Run(app, d, chunks + [chunk]) == (Receive(app, Run(app, d, chunks).0, chunk), [])
    decreases |chunks|
  {
    if chunks == [] {
      assert ([] + [chunk])[1..] == [];
    } else {
      assert (chunks + [chunk])[1..] == chunks[1..] + [chunk];
      RunOneMore(app, Receive(app, d, chunks[0]), chunks[1..], chunk);
    }
  }

  /** A driver asks only when it has too few bytes. */
  lemma {:induction false} AsksWhenShort(app: App, d: Driver, chunks: seq<seq<Byte>>)
    requires d.session.Wf() && (d.asking ==> d.session.Insufficient())
    ensures var r := Run(app, d, chunks).0; r.asking ==> r.session.Insufficient()
    decreases |chunks|
  {
    if d.asking && chunks != [] {
      AsksWhenShort(app, Receive(app, d, chunks[0]), chunks[1..]);
    }
  }

  // A reply refused.

  lemma CallsGrow(app: App, s: Session)
    requires s.Wf()
    ensures |s.calls| <= |Proceed(app, s).0.calls|
  {
    hide BindReply, PortOf, EncodeAddr;
  }

  lemma AskedAlike(app: App, other: App, made: seq<Call>, calls: seq<Call>, c: Call)
    requires AlikeBut(app, other, made)
    ensures |calls| < |made| ==> other.answer(calls, c) == app.answer(calls, c)
  {
  }

  lemma RespAlike(app: App, other: App, made: seq<Call>, calls: seq<Call>)
    requires AlikeBut(app, other, made) && |CreateResp(app, calls, false).1| < |made|
    ensures CreateResp(other, calls, false) == CreateResp(app, calls, false)
  {
    AskedAlike(app, other, made, calls, DestAddress(false));
  }

  lemma ProceedAlike(app: App, other: App, made: seq<Call>, s: Session)
    requires s.Wf() && AlikeBut(app, other, made) && |Proceed(app, s).0.calls| <= |made|
    ensures Proceed(other, s) == Proceed(app, s)
  {
    assert other.hasConnect == app.hasConnect && other.hasDestAddress == app.hasDestAddress;
    hide AlikeBut, BindReply, PortOf, EncodeAddr, CreateResp;
    if !s.Insufficient() {
      match s.state
      case GreetingMethods =>
        AskedAlike(app, other, made, s.calls, Respond(GREETING_REPLY));
      case RequestAddrV4 =>
        AskedAlike(app, other, made, s.calls, Connect(V4(s.buf[..4], s.buf[4..6])));
      case RequestAddrV6 =>
        AskedAlike(app, other, made, s.calls, Connect(V6(s.buf[..16], s.buf[16..18])));
      case RequestBind =>
        var bind := Bind(PortOf(s.buf[s.required - 2..s.required]));
        AskedAlike(app, other, made, s.calls, bind);
        AskedAlike(app, other, made, s.calls + [bind], Respond(BindReply(app.answer(s.calls, bind).port)));
      case Response =>
        var (resp, calls) := CreateResp(app, s.calls, false);
        RespAlike(app, other, made, s.calls);
        AskedAlike(app, other, made, calls, Respond(resp));
      case _ =>
    }
  }

  lemma {:induction false} ExhaustAlike(app: App, other: App, made: seq<Call>, s: Session)
    requires s.Wf() && AlikeBut(app, other, made)
    ensures |s.calls| <= |Exhaust(app, s).calls|
    ensures |Exhaust(app, s).calls| <= |made| ==> Exhaust(other, s) == Exhaust(app, s)
    decreases 5 - Rank(s.state)
  {
    AgainRises(app, s);
    CallsGrow(app, s);
    hide Proceed, AlikeBut;
    if s.state != Success {
      var (t, again) := Proceed(app, s);
      if again { ExhaustAlike(app, other, made, t); }
      if |Exhaust(app, s).calls| <= |made| { ProceedAlike(app, other, made, s); }
    }
  }

  /** A run asks nothing of the application beyond the calls it makes. */
  lemma {:induction false} RunAlike(app: App, other: App, made: seq<Call>, d: Driver, chunks: seq<seq<Byte>>)
    requires d.session.Wf() && AlikeBut(app, other, made)
    ensures |d.session.calls| <= |Run(app, d, chunks).0.session.calls|
    ensures |Run(app, d, chunks).0.session.calls| <= |made| ==> Run(other, d, chunks) == Run(app, d, chunks)
    decreases |chunks|
  {
    hide AlikeBut, Exhaust;
    if d.asking && chunks != [] {
      ExhaustAlike(app, other, made, Feed(d.session, chunks[0]));
      RunAlike(app, other, made, Receive(app, d, chunks[0]), chunks[1..]);
    }
  }

  /** Every pending connection can succeed without its reply: whatever run led to it, with another
      application - one that differs only in refusing what it is asked to send from then on - the
      very same run leads to it, and it succeeds though the reply is refused. */
  lemma SuccessWithoutReply(app: App, chunks: seq<seq<Byte>>) returns (other: App)
    requires var s := Run(app, Started, chunks).0.session; s.state == WaitConnect || s.state == WaitAccept
    ensures var s := Run(app, Started, chunks).0.session;
            && AlikeBut(app, other, s.calls) && Run(other, Started, chunks) == Run(app, Started, chunks)
            && !ReplyTaken(other, s) && ConnectionSucceed(other, s).1 && ConnectionSucceed(other, s).0.state == Success
  {
    hide Run, AlikeBut, Refusing;
    var s := Run(app, Started, chunks).0.session;
    other := Refusing(app, s.calls);
    RefusesReply(app, s);
    RunAlike(app, other, s.calls, Started, chunks);
  }

  function Flatten(chunks: seq<seq<Byte>>): seq<Byte> {
    if chunks == [] then [] else chunks[0] + Flatten(chunks[1..])
  }

  /** Equal but for `required`, which a failed session keeps until its next transition. */
  ghost predicate Alike(s: Session, t: Session) {
    && s.state == t.state && s.buf == t.buf && s.calls == t.calls
    && (s.state != Fail ==> s.required == t.required)
  }

  /** A transition that had enough bytes does the same with more, and leaves the rest alone. */
  lemma ProceedMore(app: App, s: Session, more: seq<Byte>)
    requires s.Wf() && !s.Insufficient()
    ensures Proceed(app, Feed(s, more)) == (Feed(Proceed(app, s).0, more), Proceed(app, s).1)
  {
    var n := s.required;
    if n <= |s.buf| {
      assert (s.buf + more)[..n] == s.buf[..n];
      assert (s.buf + more)[n..] == s.buf[n..] + more;
    }
    match s.state
    case RequestAddrV4 => assert (s.buf + more)[..4] == s.buf[..4] && (s.buf + more)[4..6] == s.buf[4..6];
    case RequestAddrV6 => assert (s.buf + more)[..16] == s.buf[..16] && (s.buf + more)[16..18] == s.buf[16..18];
    case RequestBind => assert (s.buf + more)[n - 2..n] == s.buf[n - 2..n];
    case _ =>
  }

  ghost predicate Terminal(state: State) {
    state == WaitConnect || state == WaitAccept || state == Success || state == Fail
  }

  lemma StopsOrRises(app: App, s: Session)
    requires s.Wf()
    ensures var (t, again) := Proceed(app, s);
            if again then Rank(t.state) > Rank(s.state) else t.Insufficient() || Terminal(t.state)
  {
    hide CreateResp, BindReply, PortOf, EncodeAddr;
  }

  /** The loop stops for want of bytes or in a state that needs none. */
  lemma {:induction false} ExhaustStops(app: App, s: Session)
    requires s.Wf()
    ensures var r := Exhaust(app, s); r.Insufficient() || Terminal(r.state)
    decreases 5 - Rank(s.state)
  {
    StopsOrRises(app, s);
    hide Proceed;
    if s.state != Success {
      var (s1, again) := Proceed(app, s);
      if again { ExhaustStops(app, s1); }
    }
  }

  /** A terminal state ignores further bytes. */
  lemma TerminalStays(app: App, s: Session, more: seq<Byte>)
    requires s.Wf() && Terminal(s.state)
    ensures Alike(Exhaust(app, Feed(s, more)), Feed(s, more))
  {
  }

  /** Running on part of the bytes first, then on the rest, comes to the same. */
  lemma {:induction false} ExhaustMore(app: App, s: Session, more: seq<Byte>)
    requires s.Wf()
    ensures Alike(Exhaust(app, Feed(s, more)), Exhaust(app, Feed(Exhaust(app, s), more)))
    decreases 5 - Rank(s.state)
  {
    if s.state != Success && !s.Insufficient() {
      var (s1, again) := Proceed(app, s);
      ProceedMore(app, s, more);
      if again {
        ExhaustMore(app, s1, more);
      } else {
        TerminalStays(app, s1, more);
      }
    }
  }

  lemma FeedTwice(s: Session, x: seq<Byte>, y: seq<Byte>)
    ensures Feed(Feed(s, x), y) == Feed(s, x + y)
  {
    assert s.buf + x + y == s.buf + (x + y);
  }

  /** Between reads the driver has run as far as its bytes go. */
  ghost predicate Rested(app: App, d: Driver) {
    && d.session.Wf()
    && Alike(Exhaust(app, d.session), d.session)
    && (d.asking || Terminal(d.session.state))
  }

  lemma RestAfter(app: App, d: Driver, chunk: seq<Byte>)
    requires d.session.Wf()
    ensures Rested(app, Receive(app, d, chunk))
  {
    var s := Feed(d.session, chunk);
    var r := Exhaust(app, s);
    ExhaustStops(app, s);
    assert Feed(r, []) == r by { assert r.buf + [] == r.buf; }
    if Terminal(r.state) { TerminalStays(app, r, []); }
  }

  /** Whatever the reads were, the driver is where one run over all the bytes would be. */
  lemma {:induction false} RunIsExhaust(app: App, d: Driver, chunks: seq<seq<Byte>>)
    requires Rested(app, d)
    ensures var (r, rest) := Run(app, d, chunks);
            Alike(Exhaust(app, Feed(d.session, Flatten(chunks))), Feed(r.session, Flatten(rest)))
    decreases |chunks|
  {
    var s, all := d.session, Flatten(chunks);
    if chunks == [] {
      assert Feed(s, all) == s by { assert s.buf + [] == s.buf; }
    } else if !d.asking {
      TerminalStays(app, s, all);
    } else {
      var d1 := Receive(app, d, chunks[0]);
      RestAfter(app, d, chunks[0]);
      RunIsExhaust(app, d1, chunks[1..]);
      FeedTwice(s, chunks[0], Flatten(chunks[1..]));
      ExhaustMore(app, Feed(s, chunks[0]), Flatten(chunks[1..]));
    }
  }

  /** However the client's bytes are cut into reads, the handshake reaches the same state, makes
      the same calls with the same arguments and leaves the same bytes unconsumed. */
  lemma ChunkingIndependence(app: App, chunks: seq<seq<Byte>>, chunks': seq<seq<Byte>>)
    requires Flatten(chunks) == Flatten(chunks')
    ensures var (d, rest) := Run(app, Started, chunks);
            var (d', rest') := Run(app, Started, chunks');
            && d.session.state == d'.session.state
            && d.session.calls == d'.session.calls
            && d.session.buf + Flatten(rest) == d'.session.buf + Flatten(rest')
            && (d.session.state != Fail ==> d.session.required == d'.session.required)
  {
    RunIsExhaust(app, Started, chunks);
    RunIsExhaust(app, Started, chunks');
  }
}
