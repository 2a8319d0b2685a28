/** The client half of the handshake, as the preloaded connect() performs it, and its agreement
    with the server half. */
module Client {
  import opened Bytes
  import opened Protocol
  import opened Handshake
  import opened Rfc1928

  /** What one call of recv() meets: a signal, an error, or up to so many bytes. */
  datatype RecvEvent = Interrupt | Error | Chunk(n: nat)

  /** A blocking stream socket: the bytes that will arrive on it before its end, how the system
      deals them out, and how many bytes the next send() takes (a negative number: it fails). */
  class StreamSocket {
    var incoming: seq<Byte>
    var script: seq<RecvEvent>
    var accepts: int
    var sent: seq<Byte>
    var broken: bool  // a recv() has failed

    constructor (incoming: seq<Byte>, script: seq<RecvEvent>, accepts: int)
      ensures this.incoming == incoming && this.script == script && this.accepts == accepts
      ensures sent == [] && !broken
    {
      this.incoming, this.script, this.accepts := incoming, script, accepts;
      sent, broken := [], false;
    }

    method Send(bytes: seq<Byte>) returns (r: int)
      modifies this`sent
      ensures r == if accepts < |bytes| then (if accepts < 0 then -1 else accepts) else |bytes|
      ensures sent == old(sent) + if r < 0 then [] else bytes[..r]
    {
      r := if accepts < 0 then -1 else if accepts < |bytes| then accepts else |bytes|;
      if r >= 0 { sent := sent + bytes[..r]; }
    }

    /** -1 and again: interrupted; -1: failed; 0: the stream has ended; otherwise a byte count.
        With `truncate` the bytes are discarded. */
    method Recv(buf: array<Byte>, at: nat, len: nat, truncate: bool) returns (r: int, again: bool)
      requires len > 0 && at + len <= buf.Length
      modifies this`incoming, this`script, this`broken, buf
      ensures again ==> r < 0 && incoming == old(incoming) && broken == old(broken) && |script| < |old(script)|
      ensures !again && r < 0 ==> incoming == old(incoming) && broken
      ensures r == 0 ==> incoming == old(incoming) == [] && broken == old(broken)
      ensures r > 0 ==> r <= len && r <= |old(incoming)| && incoming == old(incoming)[r..] && broken == old(broken)
      ensures r > 0 && !truncate ==> buf[..] == Patched(old(buf[..]), at, old(incoming)[..r])
      ensures r <= 0 ==> buf[..] == old(buf[..])
    {
      again := false;
      if incoming == [] {
        return 0, false;
      }
      var most := if len < |incoming| then len else |incoming|;
      var event := if script == [] then Chunk(most) else script[0];
      script := if script == [] then [] else script[1..];
      match event
      case Interrupt => r, again := -1, true;
      case Error =>
        r, broken := -1, true;
      case Chunk(n) =>
        r := if n == 0 then 1 else if n < most then n else most;
        if !truncate { Memcpy(buf, at, incoming[..r]); }
        incoming := incoming[r..];
    }
  }

  function Min(a: nat, b: nat): nat {
    if a < b then a else b
  }

  lemma NothingReceived(orig: seq<Byte>, at: nat, all: seq<Byte>)
    requires at <= |orig|
    ensures Patched(orig, at, all[..0]) == orig && all[0..] == all
  {
  }

  lemma ReceivedMore(orig: seq<Byte>, at: nat, all: seq<Byte>, so: nat, r: nat)
    requires so + r <= |all| && at + so + r <= |orig|
    ensures Patched(Patched(orig, at, all[..so]), at + so, all[so..][..r]) == Patched(orig, at, all[..so + r])
    ensures all[so..][r..] == all[so + r..]
  {
    PatchTwice(orig, at, all[..so], all[so..][..r]);
    assert all[..so] + all[so..][..r] == all[..so + r];
  }

  /** Keep receiving until `len` bytes have come, through signals; stop short only at the end of
      the stream or on an error. */
  method RecvAll(sock: StreamSocket, buf: array<Byte>, at: nat, len: nat, truncate: bool) returns (received: nat)
    requires at + len <= buf.Length
    modifies sock`incoming, sock`script, sock`broken, buf
    ensures received <= Min(len, |old(sock.incoming)|) && sock.incoming == old(sock.incoming)[received..]
    ensures received < Min(len, |old(sock.incoming)|) ==> sock.broken
    ensures !old(sock.broken) && received == len ==> !sock.broken
    ensures old(sock.broken) ==> sock.broken
    ensures !truncate ==> buf[..] == Patched(old(buf[..]), at, old(sock.incoming)[..received])
  {
    hide Patched;
    received := 0;
    ghost var all, orig := sock.incoming, buf[..];
    NothingReceived(orig, at, all);
    while received < len
      invariant received <= len && received <= |all| && sock.incoming == all[received..]
      invariant sock.broken == old(sock.broken)
      invariant !truncate ==> buf[..] == Patched(orig, at, all[..received])
      decreases len - received, |sock.script|
    {
      ghost var so := received;
      var r, again := sock.Recv(buf, at + received, len - received, truncate);
      if r < 0 {
        if again {
          continue;
        }
        return;
      } else if r == 0 {
        return;
      } else {
        ReceivedMore(orig, at, all, so, r);
        received := received + r;
      }
    }
  }

  /** Everything the client sends: a greeting offering no authentication, and the request. */
  function Hello(addr: Address): seq<Byte> {
    Greeting([0]) + ConnectRequest(addr)
  }

  const EXPECTED_REPLY: seq<Byte> := [5, 0, 5, 0, 0]

  /** How much of the reply is left once its address type and one more byte are known. */
  function ReplyTail(atyp: Byte, extra: Byte): nat {
    if atyp == ATYP_V4 then 4 + 2 - 1
    else if atyp == ATYP_FQDN then extra as int + 2
    else if atyp == ATYP_V6 then 16 + 2 - 1
    else 7
  }

  /** What the client makes of the server's bytes: its result, and how many of them it takes. */
  function Verdict(incoming: seq<Byte>): (int, nat) {
    if |incoming| < 7 then (-1, |incoming|)
    else if incoming[..5] != EXPECTED_REPLY then (if incoming[3] != 0 then -(incoming[3] as int) else -1, 7)
    else
      var more := ReplyTail(incoming[5], incoming[6]);
      if |incoming| < 7 + more then (-1, |incoming|) else (0, 7 + more)
  }

  /** The greeting's reply, then a success reply up to the end of its port: twelve bytes in all with an
      IPv4 address, twenty-four with IPv6, nine and the name with a domain name. Fourteen are taken if
      the address is of none of these types. */
  predicate WholeReply(s: seq<Byte>) {
    && |s| >= 7 && s[..5] == [5, 0, 5, 0, 0]
    && |s| == if s[5] == 1 then 12 else if s[5] == 3 then 9 + s[6] as int else if s[5] == 4 then 24 else 14
  }

  /** The verdict, told by the bytes: zero if and only if they begin with a whole reply of success, which
      is then taken; or else the server's error code, negated, if at least seven bytes came and it is
      there to be read; or else -1. */
  lemma VerdictReads(all: seq<Byte>)
    ensures var (ret, n) := Verdict(all);
            && n <= |all|
            && (ret == 0 <==> exists k: nat :: k <= |all| && WholeReply(all[..k]))
            && (ret == 0 ==> WholeReply(all[..n]))
            && (|all| >= 7 && all[..5] != [5, 0, 5, 0, 0] ==> n == 7 && ret == if all[3] != 0 then -(all[3] as int) else -1)
            && (ret != 0 && (|all| < 7 || all[..5] == [5, 0, 5, 0, 0]) ==> n == |all| && ret == -1)
  {
    var (ret, n) := Verdict(all);
    if ret == 0 {
      assert all[..n][..5] == all[..5];
      assert WholeReply(all[..n]);
    }
    forall k: nat | k <= |all| && WholeReply(all[..k]) ensures ret == 0 {
      assert all[..k][..5] == all[..5] && all[..k][5] == all[5] && all[..k][6] == all[6];
    }
  }

  /** socks5_client_connect: zero on success, a negative number otherwise. */
  method ClientConnect(sock: StreamSocket, addr: Address) returns (ret: int)
    requires !sock.broken
    modifies sock
    ensures addr == OtherFamily ==> ret == -1 && sock.sent == old(sock.sent) && sock.incoming == old(sock.incoming)
    ensures addr != OtherFamily && sock.accepts < |Hello(addr)| ==> ret == -1 && sock.incoming == old(sock.incoming)
    ensures addr != OtherFamily && sock.accepts >= |Hello(addr)| ==>
      sock.sent == old(sock.sent) + ([5, 1, 0, 5, 1, 0, if addr.V4? then 1 else 4] + addr.addr + addr.port)
    ensures addr != OtherFamily && sock.accepts >= |Hello(addr)| && !sock.broken ==>
      var all := old(sock.incoming);
      && |sock.incoming| <= |all| && sock.incoming == all[|all| - |sock.incoming|..]
      && (ret == 0 <==> exists k: nat :: k <= |all| && WholeReply(all[..k]))
      && (ret == 0 ==> WholeReply(all[..|all| - |sock.incoming|]))
      && (|all| >= 7 && all[..5] != [5, 0, 5, 0, 0] ==>
            ret == (if all[3] != 0 then -(all[3] as int) else -1) && sock.incoming == all[7..])
      && (ret != 0 && (|all| < 7 || all[..5] == [5, 0, 5, 0, 0]) ==> ret == -1 && sock.incoming == [])
    ensures sock.broken ==> ret == -1
  {
    hide Patched, Greeting, WholeReply, Verdict;
    var buffer := new Byte[64](_ => 0);
    ghost var blank := buffer[..];
    Memcpy(buffer, 0, [5, 1, 0, 5, 1, 0]);
    PatchTwice(blank, 0, [5, 1, 0, 5, 1, 0], EncodeAddr(addr));
    var copied := FillAddrPort(buffer, 6, addr);
    if copied == 0 {
      return -1;
    }
    var outSize := 6 + copied;
    HelloPrinted(blank, addr);
    assert buffer[..outSize] == buffer[..][..outSize] == Hello(addr);
    var sent := sock.Send(buffer[..outSize]);
    if sent != outSize {
      return -1;
    }
    HelloReads(addr);
    VerdictReads(sock.incoming);
    ret := AwaitReply(sock, buffer);
  }

  lemma HelloReads(addr: Address)
    requires addr != OtherFamily
    ensures Hello(addr) == [5, 1, 0, 5, 1, 0, if addr.V4? then 1 else 4] + addr.addr + addr.port
  {
  }

  lemma HelloPrinted(blank: seq<Byte>, addr: Address)
    requires addr != OtherFamily && |blank| == 64
    ensures Patched(blank, 0, [5, 1, 0, 5, 1, 0] + EncodeAddr(addr))[..6 + |EncodeAddr(addr)|] == Hello(addr)
  {
    assert Greeting([0]) + ([5, 1, 0] + EncodeAddr(addr)) == [5, 1, 0, 5, 1, 0] + EncodeAddr(addr);
  }

  /** The receiving half: the first seven bytes tell how many more there are. */
  method AwaitReply(sock: StreamSocket, buffer: array<Byte>) returns (ret: int)
    requires !sock.broken && buffer.Length == 64
    modifies sock`incoming, sock`script, sock`broken, buffer
    ensures !sock.broken ==>
      && ret == Verdict(old(sock.incoming)).0
      && sock.incoming == old(sock.incoming)[Verdict(old(sock.incoming)).1..]
    ensures sock.broken ==> ret == -1
  {
    ghost var all := sock.incoming;
    var received := RecvAll(sock, buffer, 0, 7, false);
    if received != 7 {
      return -1;
    }
    assert buffer[..7] == all[..7];
    if buffer[..5] != EXPECTED_REPLY {
      return if buffer[3] != 0 then -(buffer[3] as int) else -1;
    }
    var atyp, extra := buffer[5], buffer[6];
    var toReceive := 7;
    if atyp == ATYP_V4 {
      toReceive := 4 + 2 - 1;
    } else if atyp == ATYP_FQDN {
      toReceive := extra as int + 2;
    } else if atyp == ATYP_V6 {
      toReceive := 16 + 2 - 1;
    }
    assert toReceive == ReplyTail(all[5], all[6]);
    var rest := buffer;
    if toReceive + 1 > buffer.Length {
      rest := new Byte[toReceive + 1](_ => 0);
    }
    rest[0] := extra;
    received := RecvAll(sock, rest, 1, toReceive, true);
    if received != toReceive {
      return -1;
    }
    ret := 0;
  }

  /** The bytes the server wrote to the client. */
  function Replies(calls: seq<Call>): seq<Byte> {
    if calls == [] then []
    else (if calls[0].Respond? then calls[0].bytes else []) + Replies(calls[1..])
  }

  /** The server's final reply is accepted exactly when it knew its endpoint and that is an IPv4 or
      IPv6 address; then the client takes every byte of it and none that follow, and that endpoint
      can be read off it. */
  lemma ReplyAccepted(app: App, calls: seq<Call>, more: seq<Byte>)
    ensures var resp := CreateResp(app, calls, false).0;
            var a := app.answer(calls, DestAddress(false));
            && (app.hasDestAddress && a.status == OK && a.addr != OtherFamily
                ==> Verdict(GREETING_REPLY + resp + more) == (0, |GREETING_REPLY + resp|)
                    && DecodeAddr((resp + more)[3..]) == a.addr)
            && (Verdict(GREETING_REPLY + resp) == (0, |GREETING_REPLY + resp|)
                <==> app.hasDestAddress && a.status == OK && a.addr != OtherFamily)
  {
    var resp := CreateResp(app, calls, false).0;
    var a := app.answer(calls, DestAddress(false));
    if app.hasDestAddress && a.status == OK {
      assert (GREETING_REPLY + resp)[..5] == EXPECTED_REPLY;
      if a.addr != OtherFamily {
        assert (GREETING_REPLY + resp + more)[..5] == EXPECTED_REPLY;
        AddrRoundTrip(a.addr, more);
        assert (resp + more)[3..] == EncodeAddr(a.addr) + more;
      }
    } else {
      assert (GREETING_REPLY + resp)[3] == 1;
      assert (GREETING_REPLY + resp)[..5][3] != EXPECTED_REPLY[3];
    }
  }

  /** CONNECT round trip: however the client's bytes are cut into reads, they make the server
      connect to the client's own address and leave nothing over; and once the connection is made,
      the client accepts what the server wrote, to the last byte. */
  lemma ConnectRoundTrip(app: App, chunks: seq<seq<Byte>>, addr: Address)
    requires addr != OtherFamily && Flatten(chunks) == Hello(addr)
    requires app.hasConnect && app.hasDestAddress
    requires app.answer([], Respond(GREETING_REPLY)).status == OK
    requires app.answer([Respond(GREETING_REPLY)], Connect(addr)).status == InProgress
    requires var a := app.answer([Respond(GREETING_REPLY), Connect(addr)], DestAddress(false));
             a.status == OK && a.addr != OtherFamily
    ensures var (d, rest) := Run(app, Started, chunks);
            && d.session.state == WaitConnect
            && d.session.calls == [Respond(GREETING_REPLY), Connect(addr)]
            && d.session.buf + Flatten(rest) == []
            && var (s, ok) := ConnectionSucceed(app, d.session);
               ok && Verdict(Replies(s.calls)) == (0, |Replies(s.calls)|)
  {
    hide Proceed, Exhaust, Run, Greeting, Verdict;
    var (d, rest) := Run(app, Started, chunks);
    StartedRests(app);
    RunIsExhaust(app, Started, chunks);
    ConnectAccepted(app, [0], addr, []);
    assert Greeting([0]) + ConnectRequest(addr) + [] == Hello(addr);
    var calls := [Respond(GREETING_REPLY), Connect(addr)];
    assert d.session.calls == calls;
    ReplyAccepted(app, calls, []);
    var resp := CreateResp(app, calls, false).0;
    ReplyBytes(addr, resp);
    assert ConnectionSucceed(app, d.session).0.calls == calls + [DestAddress(false)] + [Respond(resp)];
  }

  lemma ReplyBytes(addr: Address, resp: seq<Byte>)
    ensures Replies([Respond(GREETING_REPLY), Connect(addr)] + [DestAddress(false)] + [Respond(resp)]) == GREETING_REPLY + resp
  {
    var c3 := [Respond(resp)];
    var c2 := [DestAddress(false)] + c3;
    var c1 := [Connect(addr)] + c2;
    var c0 := [Respond(GREETING_REPLY)] + c1;
    assert Replies(c3) == resp by { assert c3[1..] == []; }
    assert c2[1..] == c3 && c1[1..] == c2 && c0[1..] == c1;
    assert Replies(c2) == resp && Replies(c1) == resp;
    assert [Respond(GREETING_REPLY), Connect(addr)] + [DestAddress(false)] + [Respond(resp)] == c0;
  }
}
