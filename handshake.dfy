/**
 * The server side of the SOCKS5 handshake as handleConnection performs it,
 * reading the client connection one field at a time (server.go:72-177; the
 * same code is at main.go:36-141), and the in-place construction of the
 * success reply (server.go:224-253, main.go:151-184).
 */
module Handshake {
  import opened Wire
  import opened Net
  import opened Codec

  /** What the client's bytes ask for, given how many writes the client
      accepts: the destination of an accepted CONNECT request, or None when
      the server gives up on the connection (among others when the method
      reply cannot be written). */
  function RequestedDestination(input: seq<byte>, writes: nat): Option<Destination>
  {
    match ParseGreeting(input)
    case Err(_) => None
    case Ok(n) =>
      if writes == 0 then None
      else
        match ParseRequest(input[n..])
        case Err(_) => None
        case Ok((d, _)) => Some(d)
  }

  /** The bytes the server has written to the client when the handshake
      phase ends: [5, 0] after an accepted greeting, otherwise nothing. */
  function HandshakeWrites(input: seq<byte>, writes: nat): seq<byte>
  {
    if ParseGreeting(input).Ok? && writes > 0 then MethodReply else []
  }

  /** Method negotiation (server.go:76-114): VER must be 5, then NMETHODS
      method bytes must include 0; only then is [5, 0] written. The method
      bytes are read with Read, modelled as reading all of them or failing. */
  method Negotiate(conn: Conn) returns (ok: bool)
    requires conn.Valid()
    modifies conn`pos, conn`output, conn`writesLeft
    ensures conn.Valid()
    ensures ok <==> ParseGreeting(old(conn.Remaining())).Ok? && old(conn.writesLeft) > 0
    ensures ok ==> conn.pos == old(conn.pos) + ParseGreeting(old(conn.Remaining())).value
    ensures conn.output == old(conn.output) + HandshakeWrites(old(conn.Remaining()), old(conn.writesLeft))
    ensures conn.writesLeft == if ok then old(conn.writesLeft) - 1 else old(conn.writesLeft)
  {
    ghost var s := conn.Remaining();
    ghost var start := conn.pos;
    var got, version := conn.ReadByte();
    if !got || version != Socks5Version {
      return false;
    }
    var nMethods: byte;
    got, nMethods := conn.ReadByte();
    if !got {
      return false;
    }
    var methods;
    got, methods := conn.ReadFull(nMethods);
    if !got {
      return false;
    }
    assert methods == s[2..2 + nMethods as int];
    var offered := Contains(methods, NoAuthentication);
    if !offered {
      return false;
    }
    ok := conn.Write(MethodReply);
  }

  /** The request (server.go:116-177): a 4-byte header of which only CMD and
      ATYP are used, the address for ATYP 1, 3 or 4, and the 2-byte port. The
      header is read with Read, modelled as reading all four bytes or
      failing. */
  method ReadRequest(conn: Conn) returns (dest: Option<Destination>)
    requires conn.Valid()
    modifies conn`pos
    ensures conn.Valid()
    ensures dest.Some? <==> ParseRequest(old(conn.Remaining())).Ok?
    ensures dest.Some? ==> dest.value == ParseRequest(old(conn.Remaining())).value.0
    ensures dest.Some? ==> conn.pos == old(conn.pos) + ParseRequest(old(conn.Remaining())).value.1
  {
    ghost var s := conn.Remaining();
    var got, request := conn.ReadFull(4);
    if !got {
      return None;
    }
    var cmd := request[1];
    if cmd != CmdConnect {
      return None;
    }
    assert conn.Remaining() == s[4..];
    var addr := ReadAddress(conn, request[3]);
    if addr.None? {
      return None;
    }
    var len := addr.value.1;
    var portBytes;
    got, portBytes := conn.ReadFull(2);
    if !got {
      return None;
    }
    assert portBytes == s[4 + len..4 + len + 2];
    dest := Some(Destination(addr.value.0, PortValue(portBytes[0], portBytes[1])));
  }

  /** DST.ADDR for address type `atyp` (server.go:131-167): four bytes for
      IPv4, a length byte and that many bytes for a domain name, sixteen
      bytes for IPv6; any other type is refused. */
  method ReadAddress(conn: Conn, atyp: byte) returns (r: Option<(Address, nat)>)
    requires conn.Valid()
    modifies conn`pos
    ensures conn.Valid()
    ensures r.Some? <==> DecodeAddress(atyp, old(conn.Remaining())).Ok?
    ensures r.Some? ==> r.value.0 == DecodeAddress(atyp, old(conn.Remaining())).value.0
    ensures r.Some? ==> r.value.1 == DecodeAddress(atyp, old(conn.Remaining())).value.1
    ensures r.Some? ==> conn.pos == old(conn.pos) + r.value.1
  {
    ghost var a := conn.Remaining();
    var got;
    if atyp == AtypIPv4 {
      var ip;
      got, ip := conn.ReadFull(4);
      if !got {
        return None;
      }
      assert ip == a[..4];
      r := Some((IPv4(ip), 4));
    } else if atyp == AtypDomain {
      var length: byte;
      got, length := conn.ReadByte();
      if !got {
        return None;
      }
      assert length == a[0];
      var domain;
      got, domain := conn.ReadFull(length);
      if !got {
        return None;
      }
      assert domain == a[1..1 + length as int];
      r := Some((DomainName(domain), 1 + length as int));
    } else if atyp == AtypIPv6 {
      var ip;
      got, ip := conn.ReadFull(16);
      if !got {
        return None;
      }
      assert ip == a[..16];
      r := Some((IPv6(ip), 16));
    } else {
      r := None;
    }
  }

  /** The whole handshake phase: negotiation, then the request. */
  method ReadHandshake(conn: Conn) returns (dest: Option<Destination>)
    requires conn.Valid()
    modifies conn`pos, conn`output, conn`writesLeft
    ensures conn.Valid()
    ensures dest == RequestedDestination(old(conn.Remaining()), old(conn.writesLeft))
    ensures conn.output == old(conn.output) + HandshakeWrites(old(conn.Remaining()), old(conn.writesLeft))
    ensures conn.writesLeft == if HandshakeWrites(old(conn.Remaining()), old(conn.writesLeft)) == [] then old(conn.writesLeft) else old(conn.writesLeft) - 1
  {
    ghost var s := conn.Remaining();
    var ok := Negotiate(conn);
    if !ok {
      return None;
    }
    assert conn.Remaining() == s[ParseGreeting(s).value..];
    dest := ReadRequest(conn);
  }

  /** The reply buffer filled in place (server.go:232-253): VER, REP and RSV,
      ATYP 1, the IPv4 local address or 0.0.0.0, and the port truncated to
      16 bits, high byte first. */
  method BuildBindReply(local: LocalAddr) returns (response: array<byte>)
    ensures fresh(response)
    ensures response[..] == BindReply(local)
  {
    var port := local.port % 65536;
    response := new byte[10];
    response[0] := Socks5Version;
    response[1] := 0;
    response[2] := 0;
    match local.ip4 {
      case Some(ip) =>
        response[3] := AtypIPv4;
        response[4], response[5], response[6], response[7] := ip[0], ip[1], ip[2], ip[3];
      case None =>
        // not IPv4: 0.0.0.0 as a placeholder
        response[3] := AtypIPv4;
        response[4], response[5], response[6], response[7] := 0, 0, 0, 0;
    }
    response[8] := port / 256;
    response[9] := port % 256;
    ghost var ip: Ipv4Bytes := match local.ip4 case Some(ip) => ip case None => [0, 0, 0, 0];
    assert response[..4] == [Socks5Version, 0, 0, AtypIPv4];
    assert response[4..8] == ip;
    assert response[8..] == PortBytes(port);
    assert response[..] == response[..4] + response[4..8] + response[8..];
  }

  // ---------------------------------------------------------------------
  // Properties of the handshake phase

  /** A connection whose first byte is not 5 gets nothing written and yields
      no destination. */
  lemma WrongVersionWritesNothing(input: seq<byte>, writes: nat)
    requires |input| > 0 && input[0] != Socks5Version
    ensures RequestedDestination(input, writes) == None
    ensures HandshakeWrites(input, writes) == []
  {
  }

  /** A client that offers method 0 and sends a CONNECT request gets [5, 0]
      and has its destination decoded exactly; one that does not offer
      method 0 gets nothing written and no destination. */
  lemma {:induction false} HandshakeRoundTrip(methods: seq<byte>, a: Address, port: nat, rest: seq<byte>, writes: nat)
    requires |methods| <= 255 && Encodable(a) && port < 65536 && writes > 0
    ensures var input := EncodeGreeting(methods) + EncodeRequest(a, port) + rest;
      && (0 in methods ==> RequestedDestination(input, writes) == Some(Destination(a, port))
                           && HandshakeWrites(input, writes) == MethodReply)
      && (0 !in methods ==> RequestedDestination(input, writes) == None
                            && HandshakeWrites(input, writes) == [])
  {
    var input := EncodeGreeting(methods) + EncodeRequest(a, port) + rest;
    assert input == EncodeGreeting(methods) + (EncodeRequest(a, port) + rest);
    GreetingAcceptedIffNoAuthOffered(methods, EncodeRequest(a, port) + rest);
    if 0 in methods {
      assert input[|EncodeGreeting(methods)|..] == EncodeRequest(a, port) + rest;
      RequestRoundTrip(a, port, rest);
    }
  }

  /** Whenever a destination comes out of the handshake, [5, 0] and nothing
      else has been written, the greeting offered method 0, and the request
      had CMD 1. */
  lemma DestinationOnlyAfterMethodReply(input: seq<byte>, writes: nat)
    requires RequestedDestination(input, writes).Some?
    ensures HandshakeWrites(input, writes) == MethodReply
    ensures writes > 0 && |input| >= 2 && input[0] == 5 && 0 in input[2..2 + input[1] as int]
    ensures var n := 2 + input[1] as int; |input| >= n + 4 && input[n + 1] == CmdConnect
  {
  }

  /** The decoded port is always a 16-bit value and its decimal text parses
      back to the same two bytes. */
  lemma DestinationPortIn16Bits(input: seq<byte>, writes: nat)
    requires RequestedDestination(input, writes).Some?
    ensures var p := RequestedDestination(input, writes).value.port;
      p < 65536 && Atoi(Decimal(p)) == p
  {
    var n := ParseGreeting(input).value;
    RequestDecodeEncode(input[n..]);
    var p := RequestedDestination(input, writes).value.port;
    var t := PortBytes(p);
    PortDecimalRoundTrip(t[0], t[1]);
    AtoiDecimal(p);
  }
}
