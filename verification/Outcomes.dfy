/** How the server's half of the handshake can end, told by the client's bytes and the application's
    answers alone: when it fails, and what the states that wait for a connection stand for. */
module Outcomes {
  import opened Bytes
  import opened Protocol
  import opened Handshake
  import opened Rfc1928

  /** The two messages of a client that the server goes along with. */
  ghost predicate IsRequest(s: seq<Byte>) {
    exists methods, cmd: Byte, addr: Address ::
      && Acceptable(methods) && (cmd == 1 || cmd == 2) && addr != OtherFamily
      && s == Greeting(methods) + ([5, cmd, 0] + EncodeAddr(addr))
  }

  /** Something the client could still send makes them of it. */
  ghost predicate Continuable(s: seq<Byte>) {
    exists r :: IsRequest(r) && s <= r
  }

  /** The number of methods that a greeting announces. */
  function Announced(s: seq<Byte>): nat
    requires |s| >= 2
  {
    s[1]
  }

  /** The lengths at which the server looks: two bytes, with the number of methods; those methods; and
      four bytes of the request. */
  predicate Looks(s: seq<Byte>, k: nat) {
    |s| >= 2 && k <= |s| && (k == 2 || k == 2 + Announced(s) || k == 6 + Announced(s))
  }

  /** At one of these lengths, the client's bytes are the beginning of nothing the server goes along with. */
  ghost predicate Rejected(s: seq<Byte>) {
    exists k: nat :: Looks(s, k) && !Continuable(s[..k])
  }

  /** The application refused a call: a connection or a port, or it could not send a reply. What reports
      a port may be pending, the other replies not. */
  ghost predicate Denied(app: App, before: seq<Call>, c: Call) {
    var status := app.answer(before, c).status;
    match c
    case Connect(_) => status == Failed
    case Bind(_) => status == Failed
    case DestAddress(_) => false
    case Respond(_) => if before != [] && before[|before| - 1].Bind? then status == Failed else status != OK
  }

  ghost predicate Refused(app: App, calls: seq<Call>) {
    exists i :: 0 <= i < |calls| && Denied(app, calls[..i], calls[i])
  }

  lemma NoneRefused(app: App)
    ensures !Refused(app, [])
  {
  }

  lemma OneMoreCall(app: App, calls: seq<Call>, c: Call)
    ensures Refused(app, calls + [c]) <==> Refused(app, calls) || Denied(app, calls, c)
  {
    var more := calls + [c];
    assert forall i :: 0 <= i < |calls| ==> more[..i] == calls[..i] && more[i] == calls[i];
    assert more[..|calls|] == calls && more[|calls|] == c;
    if Refused(app, calls) {
      var i :| 0 <= i < |calls| && Denied(app, calls[..i], calls[i]);
      assert Denied(app, more[..i], more[i]);
    }
    if Denied(app, calls, c) { assert Denied(app, more[..|calls|], more[|calls|]); }
  }

  // What can be continued.

  const NOWHERE: Address := V4([0, 0, 0, 0], [0, 0])

  lemma HeaderContinuable(m: Byte)
    requires 0 < m
    ensures Continuable([5, m])
  {
    var methods := seq(m, _ => 0);
    assert methods[0] == 0;
    GreetingContinuable(methods);
    var r :| IsRequest(r) && Greeting(methods) <= r;
    assert [5, m] <= Greeting(methods);
    assert [5, m] <= r;
  }

  lemma GreetingContinuable(methods: seq<Byte>)
    requires Acceptable(methods)
    ensures Continuable(Greeting(methods))
  {
    RequestContinuable(methods, 1, ATYP_V4);
    var r :| IsRequest(r) && Greeting(methods) + [5, 1, 0, ATYP_V4] <= r;
    assert Greeting(methods) <= Greeting(methods) + [5, 1, 0, ATYP_V4];
    assert Greeting(methods) <= r;
  }

  lemma RequestContinuable(methods: seq<Byte>, cmd: Byte, atyp: Byte)
    requires Acceptable(methods) && (cmd == 1 || cmd == 2) && (atyp == ATYP_V4 || atyp == ATYP_V6)
    ensures Continuable(Greeting(methods) + [5, cmd, 0, atyp])
  {
    var addr: Address := if atyp == ATYP_V4 then NOWHERE else V6(seq(16, _ => 0), [0, 0]);
    var r := Greeting(methods) + ([5, cmd, 0] + EncodeAddr(addr));
    assert IsRequest(r);
    RequestWhole(Greeting(methods), cmd, atyp, addr);
    hide Greeting;
    assert Greeting(methods) + [5, cmd, 0, atyp] <= r;
  }

  predicate GoodHeader(h: seq<Byte>)
    requires |h| == 4
  {
    h[0] == 5 && (h[1] == 1 || h[1] == 2) && h[2] == 0 && (h[3] == 1 || h[3] == 4)
  }

  /** A request has these bytes in these places. */
  lemma RequestBytes(r: seq<Byte>)
    requires IsRequest(r)
    ensures |r| >= 2 && r[0] == 5 && Announced(r) > 0 && |r| >= 6 + Announced(r)
    ensures 0 in r[2..2 + Announced(r)] && GoodHeader(r[2 + Announced(r)..6 + Announced(r)])
  {
    var methods, cmd: Byte, addr: Address :|
      && Acceptable(methods) && (cmd == 1 || cmd == 2) && addr != OtherFamily
      && r == Greeting(methods) + ([5, cmd, 0] + EncodeAddr(addr));
    hide Greeting;
    var atyp: Byte := if addr.V4? then 1 else 4;
    var tail := [5, cmd, 0] + EncodeAddr(addr);
    GreetingPlaces(methods, tail);
    assert tail[..4] == [5, cmd, 0, atyp];
  }

  lemma GreetingPlaces(methods: seq<Byte>, tail: seq<Byte>)
    requires |methods| < 256 && |tail| >= 4
    ensures var r, m := Greeting(methods) + tail, |methods|;
            |r| >= 6 + m && r[0] == 5 && r[1] == m && r[2..2 + m] == methods && r[2 + m..6 + m] == tail[..4]
  {
  }

  /** And so has what can be continued to one, as far as it goes. */
  lemma ContinuableBytes(s: seq<Byte>)
    requires Continuable(s) && |s| >= 2
    ensures s[0] == 5 && Announced(s) > 0
    ensures |s| >= 2 + Announced(s) ==> 0 in s[2..2 + Announced(s)]
    ensures |s| >= 6 + Announced(s) ==> GoodHeader(s[2 + Announced(s)..6 + Announced(s)])
  {
    var r :| IsRequest(r) && s <= r;
    hide IsRequest, GoodHeader, Continuable;
    RequestBytes(r);
    SamePlaces(s, r, Announced(r));
    assert Announced(s) == Announced(r);
  }

  lemma SamePlaces(s: seq<Byte>, r: seq<Byte>, m: nat)
    requires s <= r && |s| >= 2
    ensures s[0] == r[0] && s[1] == r[1]
    ensures |s| >= 2 + m ==> s[2..2 + m] == r[2..2 + m]
    ensures |s| >= 6 + m ==> s[2 + m..6 + m] == r[2 + m..6 + m]
  {
  }

  /** The bytes that are rejected, one by one. */
  predicate Unacceptable(s: seq<Byte>) {
    && |s| >= 2
    && (|| s[0] != 5 || s[1] == 0
        || (|s| >= 2 + Announced(s) && 0 !in s[2..2 + Announced(s)])
        || (|s| >= 6 + Announced(s) && !GoodHeader(s[2 + Announced(s)..6 + Announced(s)])))
  }

  lemma RejectedBytes(s: seq<Byte>)
    ensures Rejected(s) <==> Unacceptable(s)
  {
    if Rejected(s) {
      var k: nat :| Looks(s, k) && !Continuable(s[..k]);
      if !Unacceptable(s) { GoesOn(s, k); }
    }
    if Unacceptable(s) {
      var k := StopsAt(s);
    }
  }

  lemma StopsAt(s: seq<Byte>) returns (k: nat)
    requires Unacceptable(s)
    ensures Looks(s, k) && !Continuable(s[..k])
  {
    hide Continuable, GoodHeader;
    var m := Announced(s);
    if s[0] != 5 || m == 0 {
      k := 2;
    } else if 0 !in s[2..2 + m] {
      k := 2 + m;
      assert s[..k][2..] == s[2..2 + m];
    } else {
      k := 6 + m;
      assert s[..k][2 + m..] == s[2 + m..6 + m];
    }
    NothingBegins(s[..k]);
  }

  lemma NothingBegins(s: seq<Byte>)
    requires |s| >= 2
    requires || s[0] != 5 || s[1] == 0
             || (|s| == 2 + Announced(s) && 0 !in s[2..])
             || (|s| == 6 + Announced(s) && !GoodHeader(s[2 + Announced(s)..]))
    ensures !Continuable(s)
  {
    hide Continuable;
    if Continuable(s) { ContinuableBytes(s); }
  }

  lemma GoesOn(s: seq<Byte>, k: nat)
    requires Looks(s, k) && !Unacceptable(s)
    ensures Continuable(s[..k])
  {
    hide Continuable;
    var m := Announced(s);
    assert s[..2] == [5, m];
    if k == 2 {
      HeaderContinuable(m);
    } else {
      var methods := s[2..2 + m];
      assert s[..2 + m] == s[..2] + methods;
      if k == 2 + m {
        GreetingContinuable(methods);
      } else {
        var h := s[2 + m..6 + m];
        assert h == [5, h[1], 0, h[3]];
        assert s[..k] == s[..2 + m] + h;
        RequestContinuable(methods, h[1], h[3]);
      }
    }
  }

  // What the states stand for.

  const GREETED: seq<Call> := [Respond([5, 0])]

  /** The client was answered that it need not authenticate. */
  ghost predicate Greets(app: App) {
    app.answer([], Respond([5, 0])).status == OK
  }

  /** What the server has asked of the application when it rests in a state. To wait for a connection is
      to have asked for one, and to have been told that it is under way; to wait for a peer, to have
      obtained a port and reported it; to succeed at once, to have been connected at once, and to have
      said so. Without a connect callback nothing is asked. */
  ghost predicate Stands(app: App, r: Session) {
    match r.state
    case GreetingHeader | GreetingMethods => r.calls == []
    case RequestHeader | RequestAddrV4 | RequestAddrV6 | RequestBind => Greets(app) && r.calls == GREETED
    case WaitConnect =>
      && Greets(app)
      && if app.hasConnect then
           exists a: Address ::
             a != OtherFamily && r.calls == GREETED + [Connect(a)] && app.answer(GREETED, Connect(a)).status == InProgress
         else r.calls == GREETED
    case WaitAccept =>
      && Greets(app)
      && exists p: Port, q: Port ::
           var reply := Respond([5, 0, 0] + EncodeAddr(V4([0, 0, 0, 0], [q / 256, q % 256])));
           && r.calls == GREETED + [Bind(p), reply] && q == app.answer(GREETED, Bind(p)).port
           && app.answer(GREETED, Bind(p)).status != Failed && app.answer(GREETED + [Bind(p)], reply).status != Failed
    case Response => false
    case Success =>
      && Greets(app)
      && exists a: Address ::
           a != OtherFamily && Replied(app, GREETED + [Connect(a)], r) && app.answer(GREETED, Connect(a)).status == OK
    case Fail => true
  }

  /** It fails if and only if the bytes are bad or a call was refused. */
  ghost predicate Ended(app: App, bad: bool, r: Session) {
    Stands(app, r) && (r.state == Fail <==> bad || Refused(app, r.calls))
  }

  lemma GreetingEnds(app: App, all: seq<Byte>)
    requires |all| < 2 + (if |all| < 2 then 0 else Announced(all)) || all[0] != 5 || 0 !in all[2..2 + Announced(all)]
    ensures Ended(app, Unacceptable(all), Exhaust(app, Feed(Initial, all)))
  {
    hide GoodHeader;
    NoneRefused(app);
    var s := Feed(Initial, all);
    assert s.buf == all;
    if |all| >= 2 {
      assert all[..2][0] == all[0] && all[..2][1] == all[1];
      if all[0] == 5 && all[1] > 0 && |all| >= 2 + Announced(all) {
        assert all[2..][..all[1]] == all[2..2 + Announced(all)];
      }
    }
  }

  lemma GreetingRefused(app: App, methods: seq<Byte>, more: seq<Byte>)
    requires Acceptable(methods) && !Greets(app)
    ensures var r := Exhaust(app, Feed(Initial, Greeting(methods) + more)); r.state == Fail && r.calls == GREETED
  {
    var s := Feed(Initial, Greeting(methods) + more);
    assert s.buf[..2] == [5, |methods|] && s.buf[2..] == methods + more;
    var s1 := Session(GreetingMethods, |methods|, methods + more, []);
    assert Proceed(app, s) == (s1, true);
    assert s1.buf[..|methods|] == methods && s1.buf[|methods|..] == more;
    assert s1.calls + [Respond(GREETING_REPLY)] == GREETED;
  }

  /** The greeting was accepted; the request's header is short or bad. */
  lemma HeaderEnds(app: App, more: seq<Byte>)
    requires Greets(app) && (|more| < 4 || !GoodHeader(more[..4]))
    ensures Ended(app, |more| >= 4, Exhaust(app, Session(RequestHeader, 4, more, GREETED)))
  {
    GreetedUnrefused(app);
  }

  lemma GreetedUnrefused(app: App)
    requires Greets(app)
    ensures !Refused(app, GREETED)
  {
    NoneRefused(app);
    OneMoreCall(app, [], Respond([5, 0]));
    assert [] + [Respond([5, 0])] == GREETED;
  }

  /** The header was accepted; the address is short. */
  lemma AddressEnds(app: App, s: Session)
    requires Greets(app) && s.calls == GREETED && s.Insufficient() && s.Wf()
    requires s.state == RequestAddrV4 || s.state == RequestAddrV6 || s.state == RequestBind
    ensures Ended(app, false, Exhaust(app, s))
  {
    GreetedUnrefused(app);
  }

  lemma NobodyAsked(app: App, s: Session)
    requires Greets(app) && !app.hasConnect && s.calls == GREETED && !s.Insufficient() && s.Wf()
    requires s.state == RequestAddrV4 || s.state == RequestAddrV6
    ensures Ended(app, false, Exhaust(app, s))
  {
    GreetedUnrefused(app);
  }

  lemma ConnectEnds(app: App, addr: Address, payload: seq<Byte>, r: Session)
    requires app.hasConnect && Greets(app) && addr != OtherFamily && Connecting(app, GREETED, addr, payload, r)
    ensures Ended(app, false, r)
  {
    hide Replied, Refused;
    GreetedUnrefused(app);
    OneMoreCall(app, GREETED, Connect(addr));
    if app.answer(GREETED, Connect(addr)).status == OK { ReplyEnds(app, GREETED, addr, r); }
  }

  lemma ReplyEnds(app: App, calls: seq<Call>, addr: Address, r: Session)
    requires var asked := calls + [Connect(addr)]; !Refused(app, asked) && Replied(app, asked, r)
    ensures (r.state == Success || r.state == Fail) && (r.state == Fail <==> Refused(app, r.calls))
  {
    hide Refused, EncodeAddr;
    var asked := calls + [Connect(addr)];
    assert asked[|asked| - 1] == Connect(addr);
    var reply := r.calls[|r.calls| - 1];
    if app.hasDestAddress {
      OneMoreCall(app, asked, DestAddress(false));
      OneMoreCall(app, asked + [DestAddress(false)], reply);
    } else {
      OneMoreCall(app, asked, reply);
    }
  }

  lemma BindEnds(app: App, port: Port, payload: seq<Byte>, r: Session)
    requires Greets(app) && Binding(app, GREETED, port, payload, r)
    ensures Ended(app, false, r)
  {
    hide EncodeAddr;
    GreetedUnrefused(app);
    var asked := GREETED + [Bind(port)];
    var bound := app.answer(GREETED, Bind(port));
    var reply := Respond([5, 0, 0] + EncodeAddr(V4([0, 0, 0, 0], [bound.port / 256, bound.port % 256])));
    OneMoreCall(app, GREETED, Bind(port));
    OneMoreCall(app, asked, reply);
    assert asked[|asked| - 1] == Bind(port);
    assert asked + [reply] == GREETED + [Bind(port), reply];
  }

  lemma AddressOf(rest: seq<Byte>, atyp: Byte) returns (addr: Address, payload: seq<Byte>)
    requires (atyp == ATYP_V4 && |rest| >= 6) || (atyp == ATYP_V6 && |rest| >= 18)
    ensures addr != OtherFamily && (addr.V4? <==> atyp == ATYP_V4) && rest == addr.addr + addr.port + payload
  {
    var k := if atyp == ATYP_V4 then 4 else 16;
    addr := if atyp == ATYP_V4 then V4(rest[..4], rest[4..6]) else V6(rest[..16], rest[16..18]);
    payload := rest[k + 2..];
    assert rest == rest[..k] + rest[k..k + 2] + rest[k + 2..];
  }

  /** The header was accepted. */
  lemma TargetEnds(app: App, cmd: Byte, atyp: Byte, rest: seq<Byte>)
    requires Greets(app) && (cmd == 1 || cmd == 2) && (atyp == ATYP_V4 || atyp == ATYP_V6)
    ensures Ended(app, false, Exhaust(app, Session(RequestHeader, 4, [5, cmd, 0, atyp] + rest, GREETED)))
  {
    hide Exhaust, Ended, Connecting, Binding, Greets;
    HeaderAccepted(app, cmd, atyp, rest, GREETED);
    var n := if atyp == ATYP_V4 then 6 else 18;
    var s := Session(if cmd == 2 then RequestBind else if atyp == ATYP_V4 then RequestAddrV4 else RequestAddrV6, n, rest, GREETED);
    if |rest| < n {
      AddressEnds(app, s);
    } else {
      var addr, payload := AddressOf(rest, atyp);
      if cmd == 1 && !app.hasConnect {
        NobodyAsked(app, s);
      } else if cmd == 1 {
        AddressAccepted(app, addr, payload, GREETED);
        ConnectEnds(app, addr, payload, Exhaust(app, s));
      } else {
        BindAddressAccepted(app, addr, payload, GREETED);
        BindEnds(app, PortOf(addr.port), payload, Exhaust(app, s));
      }
    }
  }

  lemma RequestEnds(app: App, more: seq<Byte>)
    requires Greets(app)
    ensures Ended(app, |more| >= 4 && !GoodHeader(more[..4]), Exhaust(app, Session(RequestHeader, 4, more, GREETED)))
  {
    hide Exhaust, Ended, Greets;
    if |more| < 4 || !GoodHeader(more[..4]) {
      HeaderEnds(app, more);
    } else {
      var h := more[..4];
      assert more == [5, h[1], 0, h[3]] + more[4..];
      TargetEnds(app, h[1], h[3], more[4..]);
    }
  }

  lemma Ends(app: App, all: seq<Byte>)
    ensures Ended(app, Unacceptable(all), Exhaust(app, Feed(Initial, all)))
  {
    hide Exhaust, Ended, GoodHeader, Unacceptable;
    if |all| < 2 || |all| < 2 + Announced(all) || all[0] != 5 || 0 !in all[2..2 + Announced(all)] {
      GreetingEnds(app, all);
    } else {
      var m := Announced(all);
      var methods, more := all[2..2 + m], all[2 + m..];
      assert all == Greeting(methods) + more;
      AfterGreeting(app, methods, more);
    }
  }

  lemma AfterGreeting(app: App, methods: seq<Byte>, more: seq<Byte>)
    requires Acceptable(methods)
    ensures var all := Greeting(methods) + more; Ended(app, Unacceptable(all), Exhaust(app, Feed(Initial, all)))
  {
    var all := Greeting(methods) + more;
    UnacceptableRequest(methods, more);
    hide Exhaust, GoodHeader, Unacceptable, Greeting, Feed;
    if Greets(app) {
      GreetingAccepted(app, methods, more);
      RequestEnds(app, more);
    } else {
      GreetingRefused(app, methods, more);
      OneMoreCall(app, [], Respond([5, 0]));
      assert [] + [Respond([5, 0])] == GREETED;
    }
  }

  lemma UnacceptableRequest(methods: seq<Byte>, more: seq<Byte>)
    requires Acceptable(methods)
    ensures Unacceptable(Greeting(methods) + more) <==> |more| >= 4 && !GoodHeader(more[..4])
  {
    hide GoodHeader;
    var all, m := Greeting(methods) + more, |methods|;
    assert all[2..2 + m] == methods;
    if |more| >= 4 { assert all[2 + m..6 + m] == more[..4]; }
  }

  // Over any run.

  /** The handshake fails if and only if the client's bytes were rejected - a whole greeting header, a
      whole greeting or a whole request header has come with which no acceptable greeting and request
      begins - or the application refused one of the calls made; however the bytes are cut. */
  lemma FailsExactly(app: App, chunks: seq<seq<Byte>>)
    ensures var s := Run(app, Started, chunks).0.session;
            s.state == Fail <==> Rejected(Flatten(chunks)) || Refused(app, s.calls)
  {
    hide Run, Exhaust, Flatten, Refused, Rejected, Unacceptable, Stands;
    RunEnds(app, chunks);
    RejectedBytes(Flatten(chunks));
  }

  lemma RunEnds(app: App, chunks: seq<seq<Byte>>)
    ensures var s := Run(app, Started, chunks).0.session; Ended(app, Unacceptable(Flatten(chunks)), s)
  {
    hide Run, Exhaust, Flatten, Refused, Unacceptable;
    StartedRests(app);
    RunIsExhaust(app, Started, chunks);
    assert Feed(Initial, Flatten(chunks)).buf == Flatten(chunks);
    Ends(app, Flatten(chunks));
  }

  /** And where it rests otherwise, it has asked for what it waits for, and was not refused. */
  lemma RestsAsAsked(app: App, chunks: seq<seq<Byte>>)
    ensures Stands(app, Run(app, Started, chunks).0.session)
  {
    hide Run, Flatten, Refused, Unacceptable, Stands;
    RunEnds(app, chunks);
  }

  /** The server does not look before a unit is whole: a first byte that no greeting has is waited on. */
  lemma NotYetRejected(app: App)
    ensures !Continuable([6]) && !Rejected([6])
    ensures Run(app, Started, [[6]]).0.session.state == GreetingHeader
  {
    if Continuable([6]) {
      var r :| IsRequest(r) && [6] <= r;
      RequestBytes(r);
    }
    RejectedBytes([6]);
  }
}
