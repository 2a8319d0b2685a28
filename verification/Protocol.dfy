/** The wire format of RFC 1928: addresses, ports and the printers both peers share. */
module Protocol {
  import opened Bytes

  /** A socket address; address and port are in network byte order, as in sockaddr_in. */
  datatype SockAddr =
    | V4(addr: seq<Byte>, port: seq<Byte>)
    | V6(addr: seq<Byte>, port: seq<Byte>)
    | OtherFamily
  {
    predicate Sized() {
      match this
      case V4(a, p) => |a| == 4 && |p| == 2
      case V6(a, p) => |a| == 16 && |p| == 2
      case OtherFamily => true
    }
  }

  type Address = a: SockAddr | a.Sized() witness OtherFamily

  const ATYP_V4: Byte := 1
  const ATYP_FQDN: Byte := 3
  const ATYP_V6: Byte := 4

  /** ATYP, address, port: what FillAddrPort prints. Other families print nothing. */
  function EncodeAddr(a: Address): seq<Byte> {
    match a
    case V4(addr, port) => [ATYP_V4] + addr + port
    case V6(addr, port) => [ATYP_V6] + addr + port
    case OtherFamily => []
  }

  /** The inverse of EncodeAddr, on any string that starts with an encoded address. */
  function DecodeAddr(s: seq<Byte>): (a: Address) {
    if |s| >= 7 && s[0] == ATYP_V4 then V4(s[1..5], s[5..7])
    else if |s| >= 19 && s[0] == ATYP_V6 then V6(s[1..17], s[17..19])
    else OtherFamily
  }

  lemma AddrRoundTrip(a: Address, rest: seq<Byte>)
    requires a != OtherFamily
    ensures DecodeAddr(EncodeAddr(a) + rest) == a
  {
    var s := EncodeAddr(a) + rest;
    match a
    case V4(addr, port) =>
      assert s[1..5] == addr && s[5..7] == port;
    case V6(addr, port) =>
      assert s[1..17] == addr && s[17..19] == port;
  }

  type Port = p: int | 0 <= p < 0x10000

  /** ntohs of the two bytes. */
  function PortOf(b: seq<Byte>): Port
    requires |b| == 2
  {
    (b[0] as int) * 256 + b[1] as int
  }

  /** htons, as bytes. */
  function PortBytes(p: Port): seq<Byte> {
    [p / 256, p % 256]
  }

  lemma PortRoundTrip(p: Port, b: seq<Byte>)
    requires |b| == 2
    ensures PortOf(PortBytes(p)) == p && PortBytes(PortOf(b)) == b
  {
  }

  /** What a write of `bytes` at offset `at` leaves. */
  ghost function Patched(s: seq<Byte>, at: nat, bytes: seq<Byte>): seq<Byte>
    requires at + |bytes| <= |s|
  {
    s[..at] + bytes + s[at + |bytes|..]
  }

  method Memcpy(msg: array<Byte>, at: nat, bytes: seq<Byte>)
    requires at + |bytes| <= msg.Length
    modifies msg
    ensures msg[..] == Patched(old(msg[..]), at, bytes)
  {
    forall i | 0 <= i < |bytes| { msg[at + i] := bytes[i]; }
  }

  lemma PatchTwice(s: seq<Byte>, at: nat, x: seq<Byte>, y: seq<Byte>)
    requires at + |x| + |y| <= |s|
    ensures Patched(Patched(s, at, x), at + |x|, y) == Patched(s, at, x + y)
  {
  }

  /** Print an address into msg at offset `at`; returns how many bytes were printed. */
  method FillAddrPort(msg: array<Byte>, at: nat, addr: Address) returns (n: nat)
    requires at + |EncodeAddr(addr)| <= msg.Length
    modifies msg
    ensures n == |EncodeAddr(addr)|
    ensures msg[..] == Patched(old(msg[..]), at, EncodeAddr(addr))
  {
    if addr == OtherFamily {
      return 0;
    }
    hide Patched;
    var atyp := if addr.V4? then ATYP_V4 else ATYP_V6;
    var size := if addr.V4? then 4 else 16;
    PatchTwice(msg[..], at, [atyp], addr.addr);
    PatchTwice(msg[..], at, [atyp] + addr.addr, addr.port);
    Memcpy(msg, at, [atyp]);
    Memcpy(msg, at + 1, addr.addr);
    Memcpy(msg, at + 1 + size, addr.port);
    n := 1 + size + 2;
  }
}
