/** The handshake against the grammar of RFC 1928: which byte strings make the server connect
    or bind, to what, and how many bytes that takes. */
module Rfc1928 {
  import opened Bytes
  import opened Protocol
  import opened Handshake

  /** Section 3: version, number of methods, methods. */
  function Greeting(methods: seq<Byte>): seq<Byte>
    requires |methods| < 256
  {
    [5, |methods|] + methods
  }

  /** "No authentication required" is among the methods offered. */
  predicate Acceptable(methods: seq<Byte>) {
    |methods| < 256 && 0 in methods
  }

  /** Section 4: version, command, reserved, address type, address, port. */
  function ConnectRequest(addr: Address): seq<Byte> {
    [5, 1, 0] + EncodeAddr(addr)
  }

  function BindRequest(addr: Address): seq<Byte> {
    [5, 2, 0] + EncodeAddr(addr)
  }

  /** Byte by byte: version 5, command 1 or 2, a reserved zero, and address type 1 for IPv4, 4 for IPv6. */
  lemma OnTheWire(addr: Address)
    requires addr != OtherFamily
    ensures ConnectRequest(addr) == [5, 1, 0, if addr.V4? then 1 else 4] + addr.addr + addr.port
    ensures BindRequest(addr) == [5, 2, 0, if addr.V4? then 1 else 4] + addr.addr + addr.port
    ensures |ConnectRequest(addr)| == |BindRequest(addr)| == if addr.V4? then 10 else 22
  {
    var atyp := if addr.V4? then 1 else 4;
    assert [5, 1, 0] + ([atyp] + addr.addr + addr.port) == [5, 1, 0, atyp] + addr.addr + addr.port;
    assert [5, 2, 0] + ([atyp] + addr.addr + addr.port) == [5, 2, 0, atyp] + addr.addr + addr.port;
  }

  ghost predicate IsConnect(s: seq<Byte>, addr: Address) {
    exists methods :: Acceptable(methods) && s == Greeting(methods) + ConnectRequest(addr)
  }

  ghost predicate IsBind(s: seq<Byte>, port: Port) {
    exists methods, addr: Address ::
      Acceptable(methods) && addr != OtherFamily && PortOf(addr.port) == port && s == Greeting(methods) + BindRequest(addr)
  }

  /** What has been consumed when the handshake is in a state. */
  ghost predicate Consumed(s: Session, eaten: seq<Byte>) {
    && (forall a: Address :: Connect(a) in s.calls ==> a != OtherFamily && IsConnect(eaten, a))
    && (forall p: Port :: Bind(p) in s.calls ==> IsBind(eaten, p))
    && match s.state
       case GreetingHeader => eaten == [] && s.calls == []
       case GreetingMethods => s.required < 256 && eaten == [5, s.required] && s.calls == []
       case RequestHeader => Greeted(s, eaten, [])
       case RequestAddrV4 => Greeted(s, eaten, [5, 1, 0, ATYP_V4])
       case RequestAddrV6 => Greeted(s, eaten, [5, 1, 0, ATYP_V6])
       case RequestBind => Greeted(s, eaten, [5, 2, 0, if s.required == 6 then ATYP_V4 else ATYP_V6])
       case WaitConnect | Response | Success => exists a: Address :: a != OtherFamily && IsConnect(eaten, a)
       case WaitAccept => exists p: Port :: IsBind(eaten, p)
       case Fail => true
  }

  ghost predicate Greeted(s: Session, eaten: seq<Byte>, header: seq<Byte>) {
    && s.calls == [Respond(GREETING_REPLY)]
    && exists methods :: Acceptable(methods) && eaten == Greeting(methods) + header
  }

  lemma AddressEaten(s: Session, eaten: seq<Byte>, cmd: Byte, addr: Address)
    requires addr != OtherFamily
    requires var n := if addr.V4? then 6 else 18; n <= |s.buf| && s.buf[..n] == addr.addr + addr.port
    requires Greeted(s, eaten, [5, cmd, 0, if addr.V4? then ATYP_V4 else ATYP_V6])
    ensures var n := if addr.V4? then 6 else 18;
            exists methods :: Acceptable(methods)
              && eaten + s.buf[..n] == Greeting(methods) + ([5, cmd, 0] + EncodeAddr(addr))
  {
    var n := if addr.V4? then 6 else 18;
    var atyp := if addr.V4? then ATYP_V4 else ATYP_V6;
    var methods :| Acceptable(methods) && eaten == Greeting(methods) + [5, cmd, 0, atyp];
    RequestWhole(Greeting(methods), cmd, atyp, addr);
  }

  lemma RequestWhole(greeting: seq<Byte>, cmd: Byte, atyp: Byte, addr: Address)
    requires addr != OtherFamily && atyp == if addr.V4? then ATYP_V4 else ATYP_V6
    ensures greeting + [5, cmd, 0, atyp] + (addr.addr + addr.port) == greeting + ([5, cmd, 0] + EncodeAddr(addr))
  {
    var x := addr.addr + addr.port;
    assert [5, cmd, 0] + EncodeAddr(addr) == [5, cmd, 0, atyp] + x;
    Associate(greeting, [5, cmd, 0, atyp], x);
  }

  /** How many bytes a transition takes. */
  function Bite(s: Session): nat {
    if s.Insufficient() || s.state == Fail || s.state == Success then 0 else s.required
  }

  lemma ProceedBuf(app: App, s: Session)
    requires s.Wf()
    ensures Bite(s) <= |s.buf| && Proceed(app, s).0.buf == s.buf[Bite(s)..]
  {
  }

  lemma GreetingConsumes(app: App, s: Session, eaten: seq<Byte>)
    requires s.Wf() && Consumed(s, eaten) && !s.Insufficient()
    requires s.state == GreetingHeader || s.state == GreetingMethods
    ensures Consumed(Proceed(app, s).0, eaten + s.buf[..s.required])
  {
    if s.state == GreetingHeader {
      assert s.buf[..2] == [s.buf[0], s.buf[1]];
    } else {
      assert eaten + s.buf[..s.required] == Greeting(s.buf[..s.required]) + [];
    }
  }

  lemma HeaderConsumes(app: App, s: Session, eaten: seq<Byte>)
    requires s.Wf() && Consumed(s, eaten) && !s.Insufficient() && s.state == RequestHeader
    ensures Consumed(Proceed(app, s).0, eaten + s.buf[..4])
  {
    var h := s.buf[..4];
    assert h == [h[0], h[1], h[2], h[3]];
    var methods :| Acceptable(methods) && eaten == Greeting(methods) + [];
    assert eaten + h == Greeting(methods) + h;
  }

  lemma ConnectConsumes(app: App, s: Session, eaten: seq<Byte>)
    requires s.Wf() && Consumed(s, eaten) && !s.Insufficient()
    requires s.state == RequestAddrV4 || s.state == RequestAddrV6
    ensures Consumed(Proceed(app, s).0, eaten + s.buf[..s.required])
  {
    var k := if s.state == RequestAddrV4 then 4 else 16;
    var addr: Address := if s.state == RequestAddrV4 then V4(s.buf[..4], s.buf[4..6]) else V6(s.buf[..16], s.buf[16..18]);
    assert s.buf[..k + 2] == s.buf[..k] + s.buf[k..k + 2];
    AddressEaten(s, eaten, 1, addr);
    assert IsConnect(eaten + s.buf[..s.required], addr);
  }

  lemma BindConsumes(app: App, s: Session, eaten: seq<Byte>)
    requires s.Wf() && Consumed(s, eaten) && !s.Insufficient() && s.state == RequestBind
    ensures Consumed(Proceed(app, s).0, eaten + s.buf[..s.required])
  {
    var k := s.required - 2;
    var addr: Address := if k == 4 then V4(s.buf[..4], s.buf[4..6]) else V6(s.buf[..16], s.buf[16..18]);
    assert s.buf[..k + 2] == s.buf[..k] + s.buf[k..k + 2];
    AddressEaten(s, eaten, 2, addr);
    assert IsBind(eaten + s.buf[..s.required], PortOf(addr.port));
    hide IsBind, IsConnect, BindReply, EncodeAddr;
  }

  lemma ReplyConsumes(app: App, s: Session, eaten: seq<Byte>)
    requires s.Wf() && Consumed(s, eaten) && Bite(s) == 0
    ensures Consumed(Proceed(app, s).0, eaten)
  {
  }

  lemma ProceedConsumes(app: App, s: Session, eaten: seq<Byte>)
    requires s.Wf() && Consumed(s, eaten)
    ensures Bite(s) <= |s.buf| && Consumed(Proceed(app, s).0, eaten + s.buf[..Bite(s)])
  {
    hide Consumed, Proceed;
    ProceedBuf(app, s);
    if Bite(s) == 0 {
      ReplyConsumes(app, s, eaten);
      assert eaten + s.buf[..0] == eaten;
    } else {
      match s.state
      case GreetingHeader | GreetingMethods => GreetingConsumes(app, s, eaten);
      case RequestHeader => HeaderConsumes(app, s, eaten);
      case RequestAddrV4 | RequestAddrV6 => ConnectConsumes(app, s, eaten);
      case RequestBind => BindConsumes(app, s, eaten);
    }
  }

  /** The whole run: what is not left over has been consumed. */
  lemma {:induction false} ExhaustConsumes(app: App, s: Session, eaten: seq<Byte>)
    requires s.Wf() && Consumed(s, eaten)
    ensures var r := Exhaust(app, s);
            && |r.buf| <= |s.buf| && r.buf == s.buf[|s.buf| - |r.buf|..]
            && Consumed(r, eaten + s.buf[..|s.buf| - |r.buf|])
    decreases 5 - Rank(s.state)
  {
    hide Consumed, Proceed;
    if s.state == Success {
      assert eaten + s.buf[..0] == eaten;
    } else {
      var (t, again) := Proceed(app, s);
      var n := Bite(s);
      ProceedBuf(app, s);
      ProceedConsumes(app, s, eaten);
      if again {
        AgainRises(app, s);
        ExhaustConsumes(app, t, eaten + s.buf[..n]);
        var r := Exhaust(app, t);
        var m := |t.buf| - |r.buf|;
        assert eaten + s.buf[..n] + t.buf[..m] == eaten + s.buf[..n + m];
      }
    }
  }

  /** An acceptable greeting is consumed and answered, whatever follows it. */
  lemma GreetingAccepted(app: App, methods: seq<Byte>, more: seq<Byte>)
    requires Acceptable(methods) && app.answer([], Respond(GREETING_REPLY)).status == OK
    ensures Exhaust(app, Feed(Initial, Greeting(methods) + more))
         == Exhaust(app, Session(RequestHeader, 4, more, [Respond(GREETING_REPLY)]))
  {
    var s := Feed(Initial, Greeting(methods) + more);
    assert s.buf[..2] == [5, |methods|] && s.buf[2..] == methods + more;
    var s1 := Session(GreetingMethods, |methods|, methods + more, []);
    assert Proceed(app, s) == (s1, true);
    assert s1.buf[..|methods|] == methods && s1.buf[|methods|..] == more;
    assert s1.calls + [Respond(GREETING_REPLY)] == [Respond(GREETING_REPLY)];
    assert Proceed(app, s1) == (Session(RequestHeader, 4, more, [Respond(GREETING_REPLY)]), true);
  }

  lemma HeaderAccepted(app: App, cmd: Byte, atyp: Byte, more: seq<Byte>, calls: seq<Call>)
    requires (cmd == 1 || cmd == 2) && (atyp == ATYP_V4 || atyp == ATYP_V6)
    ensures Exhaust(app, Session(RequestHeader, 4, [5, cmd, 0, atyp] + more, calls))
         == Exhaust(app, Session(if cmd == 2 then RequestBind else if atyp == ATYP_V4 then RequestAddrV4 else RequestAddrV6,
                                 if atyp == ATYP_V4 then 6 else 18, more, calls))
  {
    var s := Session(RequestHeader, 4, [5, cmd, 0, atyp] + more, calls);
    assert s.buf[..4] == [5, cmd, 0, atyp] && s.buf[4..] == more;
  }

  /** The final reply: the socket's own address, or its peer's, if the application knows it, or else an
      error. */
  ghost predicate Reported(app: App, asked: seq<Call>, remote: bool, calls: seq<Call>) {
    var known := app.hasDestAddress && app.answer(asked, DestAddress(remote)).status == OK;
    var before := if app.hasDestAddress then asked + [DestAddress(remote)] else asked;
    var reply := if known then [5, 0, 0] + EncodeAddr(app.answer(asked, DestAddress(remote)).addr)
                 else [5, 1, 0, 1, 0, 0, 0, 0, 0, 0];
    calls == before + [Respond(reply)]
  }

  /** The last of these calls was the reply, and it was taken. */
  ghost predicate LastTaken(app: App, calls: seq<Call>) {
    calls != [] && app.answer(calls[..|calls| - 1], calls[|calls| - 1]).status == OK
  }

  /** A connection made at once is a success if and only if its reply could be sent. */
  ghost predicate Replied(app: App, asked: seq<Call>, r: Session) {
    Reported(app, asked, false, r.calls) && r.state == if LastTaken(app, r.calls) then Success else Fail
  }

  /** A pending connection is replied to and succeeds, whatever becomes of the reply: with the socket's
      own address after a CONNECT, its peer's after a BIND. Nothing else can succeed in this way. */
  lemma PendingSucceeds(app: App, s: Session)
    ensures var (r, ok) := ConnectionSucceed(app, s);
            if s.state == WaitConnect || s.state == WaitAccept then
              ok && r == s.(state := Success, calls := r.calls) && Reported(app, s.calls, s.state == WaitAccept, r.calls)
            else !ok && r == s.(state := Fail)
  {
    hide EncodeAddr;
  }

  /** How the request for a connection ends, by the application's answer. */
  ghost predicate Connecting(app: App, calls: seq<Call>, addr: Address, payload: seq<Byte>, r: Session) {
    var asked := calls + [Connect(addr)];
    match app.answer(calls, Connect(addr)).status
    case InProgress => r == Session(WaitConnect, 0, payload, asked)
    case Failed => r == Session(Fail, 0, payload, asked)
    case OK => r.buf == payload && Replied(app, asked, r)
  }

  /** A CONNECT request after an acceptable greeting is passed on with its very address. */
  lemma ConnectAccepted(app: App, methods: seq<Byte>, addr: Address, payload: seq<Byte>)
    requires Acceptable(methods) && addr != OtherFamily && app.hasConnect
    requires app.answer([], Respond(GREETING_REPLY)).status == OK
    ensures var r := Exhaust(app, Feed(Initial, Greeting(methods) + ConnectRequest(addr) + payload));
            && r.buf == payload
            && [Respond(GREETING_REPLY), Connect(addr)] <= r.calls
            && Connecting(app, [Respond(GREETING_REPLY)], addr, payload, r)
  {
    hide Exhaust, Proceed, Greeting, ConnectTo, Feed, Connecting;
    var calls := [Respond(GREETING_REPLY)];
    var atyp := if addr.V4? then ATYP_V4 else ATYP_V6;
    var more := addr.addr + addr.port + payload;
    RequestShape(Greeting(methods), 1, addr, payload);
    GreetingAccepted(app, methods, [5, 1, 0, atyp] + more);
    HeaderAccepted(app, 1, atyp, more, calls);
    AddressAccepted(app, addr, payload, calls);
  }

  /** And that happens: a client that asks for any address, an application that takes the greeting's
      reply and starts connecting, but then cannot send the final reply - and a success. */
  lemma RefusedConnection(addr: Address) returns (app: App, chunks: seq<seq<Byte>>)
    requires addr != OtherFamily
    ensures Flatten(chunks) == Greeting([0]) + ConnectRequest(addr)
    ensures app.answer([], Respond(GREETING_REPLY)).status == OK
    ensures var s := Run(app, Started, chunks).0.session;
            && s == Session(WaitConnect, 0, [], [Respond(GREETING_REPLY), Connect(addr)])
            && !ReplyTaken(app, s) && ConnectionSucceed(app, s).1
  {
    var all := Greeting([0]) + ConnectRequest(addr);
    chunks := [all];
    var willing := App((calls: seq<Call>, c: Call) => Answer(if c.Connect? then InProgress else OK, addr, 0), true, true);
    assert Flatten(chunks) == all by { assert chunks[1..] == [] && all + [] == all; }
    ConnectAccepted(willing, [0], addr, []);
    assert all + [] == all && chunks[1..] == [];
    hide Exhaust, Greeting, ConnectRequest;
    assert Run(willing, Started, chunks).0 == Receive(willing, Started, all);
    app := SuccessWithoutReply(willing, chunks);
  }

  lemma RequestShape(greeting: seq<Byte>, cmd: Byte, addr: Address, payload: seq<Byte>)
    requires addr != OtherFamily
    ensures greeting + ([5, cmd, 0] + EncodeAddr(addr)) + payload
         == greeting + ([5, cmd, 0, if addr.V4? then ATYP_V4 else ATYP_V6] + (addr.addr + addr.port + payload))
  {
    var atyp := if addr.V4? then ATYP_V4 else ATYP_V6;
    var x, h := addr.addr + addr.port, [5, cmd, 0, atyp];
    assert [5, cmd, 0] + EncodeAddr(addr) == h + x;
    Associate(h, x, payload);
    Associate(greeting, h + x, payload);
  }

  lemma Associate(x: seq<Byte>, y: seq<Byte>, z: seq<Byte>)
    ensures x + y + z == x + (y + z)
  {
  }

  lemma AddressAccepted(app: App, addr: Address, payload: seq<Byte>, calls: seq<Call>)
    requires addr != OtherFamily && app.hasConnect
    ensures var s := Session(if addr.V4? then RequestAddrV4 else RequestAddrV6, if addr.V4? then 6 else 18,
                             addr.addr + addr.port + payload, calls);
            var r := Exhaust(app, s);
            r.buf == payload && calls + [Connect(addr)] <= r.calls && Connecting(app, calls, addr, payload, r)
  {
    hide Connecting;
    var n := if addr.V4? then 6 else 18;
    var more := addr.addr + addr.port + payload;
    var s := Session(if addr.V4? then RequestAddrV4 else RequestAddrV6, n, more, calls);
    assert more[..n - 2] == addr.addr && more[n - 2..n] == addr.port && more[n..] == payload;
    assert Proceed(app, s) == ConnectTo(app, Session(s.state, 0, payload, calls), addr);
    AfterConnect(app, Session(s.state, 0, payload, calls), addr);
  }

  lemma AfterConnect(app: App, s: Session, addr: Address)
    requires s.required == 0 && app.hasConnect
    ensures var (t, again) := ConnectTo(app, s, addr);
            var r := if again then Exhaust(app, t) else t;
            r.buf == s.buf && s.calls + [Connect(addr)] <= r.calls && Connecting(app, s.calls, addr, s.buf, r)
  {
    hide EncodeAddr;
  }

  ghost predicate BeginsWithConnect(s: seq<Byte>, addr: Address) {
    exists n :: 0 <= n <= |s| && IsConnect(s[..n], addr)
  }

  /** What a run has taken off the client's bytes, and what it has asked for on their account. */
  lemma RunConsumes(app: App, chunks: seq<seq<Byte>>)
    ensures var (d, rest) := Run(app, Started, chunks);
            var all := Flatten(chunks);
            var unread := d.session.buf + Flatten(rest);
            && d.session.calls == Exhaust(app, Feed(Initial, all)).calls
            && |unread| <= |all| && unread == all[|all| - |unread|..]
            && Entitled(d.session.calls, all[..|all| - |unread|])
  {
    hide Proceed, Exhaust, Run, IsConnect, IsBind, Flatten, Greeted;
    var (d, rest) := Run(app, Started, chunks);
    var all := Flatten(chunks);
    StartedRests(app);
    RunIsExhaust(app, Started, chunks);
    var unread := d.session.buf + Flatten(rest);
    assert Feed(Initial, all).buf == all;
    ExhaustConsumes(app, Feed(Initial, all), []);
    var used := |all| - |unread|;
    assert [] + all[..used] == all[..used];
  }

  ghost predicate Entitled(calls: seq<Call>, used: seq<Byte>) {
    && (forall a: Address :: Connect(a) in calls ==> IsConnect(used, a))
    && (forall p: Port :: Bind(p) in calls ==> IsBind(used, p))
  }

  /** The server connects to an address if and only if it accepted the greeting and the client's
      bytes begin with a greeting offering "no authentication" and a CONNECT request for that
      address; and then exactly those bytes have been consumed, however they arrived. */
  lemma ConnectsExactly(app: App, chunks: seq<seq<Byte>>, addr: Address)
    requires app.hasConnect && addr != OtherFamily
    ensures var (d, rest) := Run(app, Started, chunks);
            var all := Flatten(chunks);
            var unread := d.session.buf + Flatten(rest);
            && (Connect(addr) in d.session.calls <==>
                && app.answer([], Respond(GREETING_REPLY)).status == OK
                && BeginsWithConnect(all, addr))
            && (Connect(addr) in d.session.calls ==>
                && |unread| <= |all| && unread == all[|all| - |unread|..]
                && IsConnect(all[..|all| - |unread|], addr))
  {
    hide Run, Exhaust, Flatten, IsConnect;
    RunConsumes(app, chunks);
    var all := Flatten(chunks);
    var calls := Exhaust(app, Feed(Initial, all)).calls;
    if Connect(addr) in calls {
      GreetedFirst(app, all, Connect(addr));
    }
    if app.answer([], Respond(GREETING_REPLY)).status == OK && BeginsWithConnect(all, addr) {
      var n :| 0 <= n <= |all| && IsConnect(all[..n], addr);
      ConnectsOnPrefix(app, all, n, addr);
    }
  }

  lemma ConnectsOnPrefix(app: App, all: seq<Byte>, n: nat, addr: Address)
    requires app.hasConnect && addr != OtherFamily && app.answer([], Respond(GREETING_REPLY)).status == OK
    requires n <= |all| && IsConnect(all[..n], addr)
    ensures Connect(addr) in Exhaust(app, Feed(Initial, all)).calls
  {
    hide Exhaust, Proceed;
    var methods :| Acceptable(methods) && all[..n] == Greeting(methods) + ConnectRequest(addr);
    ConnectAccepted(app, methods, addr, all[n..]);
    assert Greeting(methods) + ConnectRequest(addr) + all[n..] == all;
    var calls := Exhaust(app, Feed(Initial, all)).calls;
    assert calls[1] == [Respond(GREETING_REPLY), Connect(addr)][1];
  }

  lemma StartedRests(app: App)
    ensures Rested(app, Started)
  {
  }

  /** Nothing is asked of the application before the greeting was answered. */
  lemma GreetedFirst(app: App, all: seq<Byte>, call: Call)
    requires call in Exhaust(app, Feed(Initial, all)).calls && !call.Respond?
    ensures app.answer([], Respond(GREETING_REPLY)).status == OK
  {
    if app.answer([], Respond(GREETING_REPLY)).status != OK {
      NotGreeted(app, Feed(Initial, all));
    }
  }

  lemma {:induction false} NotGreeted(app: App, s: Session)
    requires s.Wf() && app.answer([], Respond(GREETING_REPLY)).status != OK
    requires (s.state == GreetingHeader || s.state == GreetingMethods) && s.calls == []
    ensures Exhaust(app, s).calls <= [Respond(GREETING_REPLY)]
    decreases 5 - Rank(s.state)
  {
    var (t, again) := Proceed(app, s);
    if again { NotGreeted(app, t); }
  }

  ghost predicate BeginsWithBind(s: seq<Byte>, port: Port) {
    exists n :: 0 <= n <= |s| && IsBind(s[..n], port)
  }

  /** How the request for a port ends: refused, or the port obtained is reported as an IPv4 address of
      zeros and that port, and if that could be sent the peer is waited for. */
  ghost predicate Binding(app: App, calls: seq<Call>, port: Port, payload: seq<Byte>, r: Session) {
    var bound := app.answer(calls, Bind(port));
    var asked := calls + [Bind(port)];
    var reply := Respond([5, 0, 0] + EncodeAddr(V4([0, 0, 0, 0], [bound.port / 256, bound.port % 256])));
    if bound.status == Failed then r == Session(Fail, 0, payload, asked)
    else r == Session(if app.answer(asked, reply).status == Failed then Fail else WaitAccept, 0, payload, asked + [reply])
  }

  /** A BIND request after an acceptable greeting: its address is dropped, its port asked for,
      and the port obtained is reported back in a ten-byte reply. */
  lemma BindAccepted(app: App, methods: seq<Byte>, addr: Address, payload: seq<Byte>)
    requires Acceptable(methods) && addr != OtherFamily
    requires app.answer([], Respond(GREETING_REPLY)).status == OK
    ensures var r := Exhaust(app, Feed(Initial, Greeting(methods) + BindRequest(addr) + payload));
            && r.buf == payload && [Respond(GREETING_REPLY), Bind(PortOf(addr.port))] <= r.calls
            && Binding(app, [Respond(GREETING_REPLY)], PortOf(addr.port), payload, r)
  {
    hide Exhaust, Proceed, Greeting, Feed, Binding;
    var calls := [Respond(GREETING_REPLY)];
    var atyp := if addr.V4? then ATYP_V4 else ATYP_V6;
    var more := addr.addr + addr.port + payload;
    RequestShape(Greeting(methods), 2, addr, payload);
    GreetingAccepted(app, methods, [5, 2, 0, atyp] + more);
    HeaderAccepted(app, 2, atyp, more, calls);
    BindAddressAccepted(app, addr, payload, calls);
    assert calls + [Bind(PortOf(addr.port))] == [Respond(GREETING_REPLY), Bind(PortOf(addr.port))];
  }

  lemma BindAddressAccepted(app: App, addr: Address, payload: seq<Byte>, calls: seq<Call>)
    requires addr != OtherFamily
    ensures var s := Session(RequestBind, if addr.V4? then 6 else 18, addr.addr + addr.port + payload, calls);
            var r := Exhaust(app, s);
            && r.buf == payload && calls + [Bind(PortOf(addr.port))] <= r.calls
            && Binding(app, calls, PortOf(addr.port), payload, r)
  {
    var n := if addr.V4? then 6 else 18;
    var more := addr.addr + addr.port + payload;
    assert more[n - 2..n] == addr.port && more[n..] == payload;
    BindReplyReads(app.answer(calls, Bind(PortOf(addr.port))).port);
  }

  lemma BindReplyReads(port: Port)
    ensures BindReply(port) == [5, 0, 0] + EncodeAddr(V4([0, 0, 0, 0], [port / 256, port % 256]))
  {
  }

  /** The server asks for a port if and only if it accepted the greeting and the client's bytes
      begin with a greeting offering "no authentication" and a BIND request for that port. */
  lemma BindsExactly(app: App, chunks: seq<seq<Byte>>, port: Port)
    ensures var (d, rest) := Run(app, Started, chunks);
            var all := Flatten(chunks);
            var unread := d.session.buf + Flatten(rest);
            && (Bind(port) in d.session.calls <==>
                && app.answer([], Respond(GREETING_REPLY)).status == OK
                && BeginsWithBind(all, port))
            && (Bind(port) in d.session.calls ==>
                && |unread| <= |all| && unread == all[|all| - |unread|..]
                && IsBind(all[..|all| - |unread|], port))
  {
    hide Run, Exhaust, Flatten, IsBind;
    RunConsumes(app, chunks);
    var all := Flatten(chunks);
    var calls := Exhaust(app, Feed(Initial, all)).calls;
    if Bind(port) in calls {
      GreetedFirst(app, all, Bind(port));
    }
    if app.answer([], Respond(GREETING_REPLY)).status == OK && BeginsWithBind(all, port) {
      var n :| 0 <= n <= |all| && IsBind(all[..n], port);
      BindsOnPrefix(app, all, n, port);
    }
  }

  lemma BindsOnPrefix(app: App, all: seq<Byte>, n: nat, port: Port)
    requires app.answer([], Respond(GREETING_REPLY)).status == OK
    requires n <= |all| && IsBind(all[..n], port)
    ensures Bind(port) in Exhaust(app, Feed(Initial, all)).calls
  {
    hide Exhaust, Proceed;
    var methods, addr: Address :|
      Acceptable(methods) && addr != OtherFamily && PortOf(addr.port) == port && all[..n] == Greeting(methods) + BindRequest(addr);
    BindAccepted(app, methods, addr, all[n..]);
    assert Greeting(methods) + BindRequest(addr) + all[n..] == all;
    var calls := Exhaust(app, Feed(Initial, all)).calls;
    assert calls[1] == [Respond(GREETING_REPLY), Bind(port)][1];
  }
}
