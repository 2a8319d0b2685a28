/** The server half of the SOCKS5 handshake as the object that runs it: it consumes the bytes of
    a buffer and calls back into the application. */
module Socks5 {
  import opened Bytes
  import opened Protocol
  import opened Handshake
  import opened Buffers
  import opened Cells

  class Socks5State {
    const app: App
    var state: State
    var required: nat
    var calls: seq<Call>  // every callback made, in order

    constructor (app: App)
      ensures this.app == app && Session([]) == Initial
    {
      this.app := app;
      state, required, calls := GreetingHeader, 2, [];
    }

    /** This object and the bytes waiting in its buffer, as a value. */
    ghost function Session(waiting: seq<Byte>): Handshake.Session
      reads this
    {
      Handshake.Session(state, required, waiting, calls)
    }

    predicate InsufficientBuffer(dataSize: nat)
      reads this
    {
      dataSize < required
    }

    predicate Failed()
      reads this
      ensures Failed() <==> state == Fail
    {
      state == Fail
    }

    method Callback(call: Call) returns (a: Answer)
      modifies this`calls
      ensures a == app.answer(old(calls), call) && calls == old(calls) + [call]
    {
      a := app.answer(calls, call);
      calls := calls + [call];
    }

    /** Take n bytes off the front of the buffer. */
    static method Take(buffer: BasicBuffer, n: nat) returns (bytes: seq<Byte>)
      requires buffer.Valid() && !buffer.peeked && n <= |buffer.Contents()|
      modifies buffer, buffer.freelist, buffer.mine
      ensures buffer.Valid() && !buffer.peeked && buffer.reserved == old(buffer.reserved)
      ensures bytes == old(buffer.Contents())[..n] && buffer.Contents() == old(buffer.Contents())[n..]
      ensures buffer.Footprint() == old(buffer.Footprint()) && buffer.mine <= old(buffer.mine)
    {
      hide BasicBuffer.Valid, BasicBuffer.Footprint, BasicBuffer.Stock, Data;
      var to := new Byte[n];
      var copied := buffer.CopyOut(to, n);
      bytes := to[..];
    }

    /** The final reply, built in a 32-byte array. */
    method CreateResp(isBind: bool) returns (resp: seq<Byte>)
      modifies this`calls
      ensures (resp, calls) == Handshake.CreateResp(app, old(calls), isBind)
    {
      if app.hasDestAddress {
        var a := Callback(DestAddress(isBind));
        if a.status == OK {
          var storage := new Byte[32](_ => 0);
          ghost var storage0 := storage[..];
          Memcpy(storage, 0, [5, 0, 0]);
          PatchTwice(storage0, 0, [5, 0, 0], EncodeAddr(a.addr));
          var n := FillAddrPort(storage, 3, a.addr);
          resp := storage[..3 + n];
          assert resp == [5, 0, 0] + EncodeAddr(a.addr);
          return;
        }
      }
      resp := ERROR_REPLY;
    }

    /** One transition. */
    method Proceed(buffer: BasicBuffer) returns (again: bool)
      requires buffer.Valid() && !buffer.peeked && Session(buffer.Contents()).Wf()
      modifies this, buffer, buffer.freelist, buffer.mine
      ensures buffer.Valid() && !buffer.peeked && buffer.reserved == old(buffer.reserved)
      ensures buffer.Footprint() == old(buffer.Footprint()) && buffer.mine <= old(buffer.mine)
      ensures (Session(buffer.Contents()), again) == Handshake.Proceed(app, old(Session(buffer.Contents())))
    {
      hide BasicBuffer.Valid, BasicBuffer.Footprint, Data;
      Sized(buffer);
      if InsufficientBuffer(buffer.DataSize()) {
        return false;
      }
      match state
      case GreetingHeader => again := ProceedGreetingHeader(buffer);
      case GreetingMethods => again := ProceedGreetingMethods(buffer);
      case RequestHeader => again := ProceedRequestHeader(buffer);
      case RequestAddrV4 | RequestAddrV6 => again := ProceedRequestAddr(buffer);
      case RequestBind => again := ProceedRequestBind(buffer);
      case Response =>
        var resp := CreateResp(false);
        var a := Callback(Respond(resp));
        if a.status != OK {
          state := Fail;
          return false;
        }
        state, required := Success, 1;
        again := true;
      case WaitConnect | WaitAccept | Success => again := false;
      case Fail =>
        required := 0;
        again := false;
    }

    static lemma Sized(buffer: BasicBuffer)
      requires buffer.Valid()
      ensures buffer.DataSize() == |buffer.Contents()|
    {
    }

    method ProceedGreetingHeader(buffer: BasicBuffer) returns (again: bool)
      requires buffer.Valid() && !buffer.peeked && Session(buffer.Contents()).Wf()
      requires state == GreetingHeader && required <= |buffer.Contents()|
      modifies this, buffer, buffer.freelist, buffer.mine
      ensures buffer.Valid() && !buffer.peeked && buffer.reserved == old(buffer.reserved)
      ensures buffer.Footprint() == old(buffer.Footprint()) && buffer.mine <= old(buffer.mine)
      ensures (Session(buffer.Contents()), again) == Handshake.Proceed(app, old(Session(buffer.Contents())))
    {
      hide BasicBuffer.Valid, BasicBuffer.Footprint, Data;
      var greeting := Take(buffer, 2);
      if greeting[0] != 5 || greeting[1] == 0 {
        state := Fail;
        return false;
      }
      state, required := GreetingMethods, greeting[1];
      again := true;
    }

    method ProceedGreetingMethods(buffer: BasicBuffer) returns (again: bool)
      requires buffer.Valid() && !buffer.peeked && Session(buffer.Contents()).Wf()
      requires state == GreetingMethods && required <= |buffer.Contents()|
      modifies this, buffer, buffer.freelist, buffer.mine
      ensures buffer.Valid() && !buffer.peeked && buffer.reserved == old(buffer.reserved)
      ensures buffer.Footprint() == old(buffer.Footprint()) && buffer.mine <= old(buffer.mine)
      ensures (Session(buffer.Contents()), again) == Handshake.Proceed(app, old(Session(buffer.Contents())))
    {
      hide BasicBuffer.Valid, BasicBuffer.Footprint, Data;
      var methods := Take(buffer, required);
      if 0 !in methods {
        state := Fail;
        return false;
      }
      var a := Callback(Respond(GREETING_REPLY));
      if a.status != OK {
        state := Fail;
        return false;
      }
      state, required := RequestHeader, 4;
      again := true;
    }

    method ProceedRequestHeader(buffer: BasicBuffer) returns (again: bool)
      requires buffer.Valid() && !buffer.peeked && Session(buffer.Contents()).Wf()
      requires state == RequestHeader && required <= |buffer.Contents()|
      modifies this, buffer, buffer.freelist, buffer.mine
      ensures buffer.Valid() && !buffer.peeked && buffer.reserved == old(buffer.reserved)
      ensures buffer.Footprint() == old(buffer.Footprint()) && buffer.mine <= old(buffer.mine)
      ensures (Session(buffer.Contents()), again) == Handshake.Proceed(app, old(Session(buffer.Contents())))
    {
      hide BasicBuffer.Valid, BasicBuffer.Footprint, Data;
      var header := Take(buffer, 4);
      again := false;
      if header[0] != 5 || header[2] != 0 {
        state := Fail;
        return;
      }
      var atyp := header[3];
      if header[1] == 1 {  // CONNECT
        if atyp == ATYP_V4 {
          state, required := RequestAddrV4, 6;
        } else if atyp == ATYP_FQDN {
          state := Fail;
          return;
        } else if atyp == ATYP_V6 {
          state, required := RequestAddrV6, 18;
        } else {
          state := Fail;
          return;
        }
      } else if header[1] == 2 {  // BIND
        if atyp == ATYP_V4 {
          required := 6;
        } else if atyp == ATYP_FQDN {
          state := Fail;
          return;
        } else if atyp == ATYP_V6 {
          required := 18;
        } else {
          state := Fail;
          return;
        }
        state := RequestBind;
      } else {
        state := Fail;
        return;
      }
      again := true;
    }

    method ProceedRequestAddr(buffer: BasicBuffer) returns (again: bool)
      requires buffer.Valid() && !buffer.peeked && Session(buffer.Contents()).Wf()
      requires (state == RequestAddrV4 || state == RequestAddrV6) && required <= |buffer.Contents()|
      modifies this, buffer, buffer.freelist, buffer.mine
      ensures buffer.Valid() && !buffer.peeked && buffer.reserved == old(buffer.reserved)
      ensures buffer.Footprint() == old(buffer.Footprint()) && buffer.mine <= old(buffer.mine)
      ensures (Session(buffer.Contents()), again) == Handshake.Proceed(app, old(Session(buffer.Contents())))
    {
      hide BasicBuffer.Valid, BasicBuffer.Footprint, Data;
      var size := if state == RequestAddrV4 then 4 else 16;
      var address := Take(buffer, size);
      var port := Take(buffer, 2);
      assert old(buffer.Contents())[size..][2..] == old(buffer.Contents())[size + 2..];
      assert old(buffer.Contents())[size..][..2] == old(buffer.Contents())[size..size + 2];
      var addr: Address := if state == RequestAddrV4 then V4(address, port) else V6(address, port);
      required := 0;
      if !app.hasConnect {
        state := WaitConnect;
        return true;
      }
      var a := Callback(Connect(addr));
      match a.status
      case OK => state, again := Response, true;
      case InProgress => state, again := WaitConnect, false;
      case Failed => state, again := Fail, false;
    }

    method ProceedRequestBind(buffer: BasicBuffer) returns (again: bool)
      requires buffer.Valid() && !buffer.peeked && Session(buffer.Contents()).Wf()
      requires state == RequestBind && required <= |buffer.Contents()|
      modifies this, buffer, buffer.freelist, buffer.mine
      ensures buffer.Valid() && !buffer.peeked && buffer.reserved == old(buffer.reserved)
      ensures buffer.Footprint() == old(buffer.Footprint()) && buffer.mine <= old(buffer.mine)
      ensures (Session(buffer.Contents()), again) == Handshake.Proceed(app, old(Session(buffer.Contents())))
    {
      hide BasicBuffer.Valid, BasicBuffer.Footprint, Data;
      var n := required;
      Sized(buffer);
      var dropped := buffer.CopyOut(null, n - 2);
      var field := Take(buffer, 2);
      assert old(buffer.Contents())[n - 2..][2..] == old(buffer.Contents())[n..];
      assert old(buffer.Contents())[n - 2..][..2] == old(buffer.Contents())[n - 2..n];
      var port := PortOf(field);
      required := 0;
      again := false;
      var a := Callback(Bind(port));
      if a.status == Status.Failed {
        state := Fail;
        return;
      }
      port := a.port;
      a := Callback(Respond(BindReply(port)));
      if a.status == Status.Failed {
        state := Fail;
        return;
      }
      state := WaitAccept;
    }

    /** The pending connection was made. */
    method ConnectionSucceed() returns (ok: bool)
      modifies this
      ensures forall waiting ::
        (Session(waiting), ok) == Handshake.ConnectionSucceed(app, old(Session(waiting)))
    {
      var resp;
      if state == WaitConnect {
        resp := CreateResp(false);
      } else if state == WaitAccept {
        resp := CreateResp(true);
      } else {
        state := Fail;
        return false;
      }
      var a := Callback(Respond(resp));
      if a.status != OK {
        state := Fail;
      }
      state := Success;
      ok := state == Success;
    }
  }
}
