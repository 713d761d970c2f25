/**
 * The SOCKS5 messages of RFC 1928 as this server reads and writes them:
 * method negotiation (section 3), the request (section 4), the address
 * field (section 5) and the simplified reply (section 6). The functions here
 * say what the byte-by-byte reading code must find; the reading code itself
 * is in module Handshake.
 */
module Codec {
  import opened Wire

  type Ipv4Bytes = s: seq<byte> | |s| == 4 witness [0, 0, 0, 0]
  type Ipv6Bytes = s: seq<byte> | |s| == 16 witness [0, 0, 0, 0, 0, 0, 0, 0, 0, 0, 0, 0, 0, 0, 0, 0]

  /** DST.ADDR: ATYP 1, 3 or 4 with its payload. */
  datatype Address = IPv4(ip: Ipv4Bytes) | DomainName(name: seq<byte>) | IPv6(ip6: Ipv6Bytes)

  /** The destination a CONNECT request names. */
  datatype Destination = Destination(addr: Address, port: nat)

  const NoAuthentication: byte := 0
  const CmdConnect: byte := 1
  const AtypIPv4: byte := 1
  const AtypDomain: byte := 3
  const AtypIPv6: byte := 4

  // ---------------------------------------------------------------------
  // Method negotiation

  datatype GreetingError = NoVersion | BadVersion(v: byte) | NoMethodCount | ShortMethods | NoAcceptableMethod

  /** What the server finds in the greeting VER, NMETHODS, METHODS: on
      success, the number of bytes the greeting occupies. */
  function ParseGreeting(s: seq<byte>): Result<nat, GreetingError>
  {
    if |s| == 0 then Err(NoVersion)
    else if s[0] != Socks5Version then Err(BadVersion(s[0]))
    else if |s| == 1 then Err(NoMethodCount)
    else if |s| < 2 + s[1] as int then Err(ShortMethods)
    else if NoAuthentication !in s[2..2 + s[1] as int] then Err(NoAcceptableMethod)
    else Ok(2 + s[1] as int)
  }

  /** The greeting a client offering `methods` sends. */
  function EncodeGreeting(methods: seq<byte>): (g: seq<byte>)
    requires |methods| <= 255
  {
    [Socks5Version, |methods|] + methods
  }

  /** The server's answer to an acceptable greeting: version 5, method 0. */
  const MethodReply: seq<byte> := [Socks5Version, NoAuthentication]

  /** A first byte other than 5 is refused whatever follows. */
  lemma GreetingNeedsVersion5(s: seq<byte>)
    requires |s| > 0 && s[0] != 5
    ensures ParseGreeting(s).Err?
  {
  }

  /** A greeting is accepted exactly when it offers method 0 (so never with
      NMETHODS = 0), and then exactly its own bytes are consumed. */
  lemma GreetingAcceptedIffNoAuthOffered(methods: seq<byte>, rest: seq<byte>)
    requires |methods| <= 255
    ensures ParseGreeting(EncodeGreeting(methods) + rest).Ok? <==> 0 in methods
    ensures 0 in methods ==> ParseGreeting(EncodeGreeting(methods) + rest) == Ok(|EncodeGreeting(methods)|)
    ensures |methods| == 0 ==> ParseGreeting(EncodeGreeting(methods) + rest).Err?
  {
    var s := EncodeGreeting(methods) + rest;
    assert s[2..2 + |methods|] == methods;
  }

  /** Every accepted greeting has version 5 and offers method 0 among its
      NMETHODS method bytes. */
  lemma GreetingAcceptedShape(s: seq<byte>)
    requires ParseGreeting(s).Ok?
    ensures var n := ParseGreeting(s).value;
      2 <= n <= |s| && n <= 257 && s[0] == 5 && n == 2 + s[1] as int && 0 in s[2..n]
      && s[..n] == EncodeGreeting(s[2..n])
  {
  }

  // ---------------------------------------------------------------------
  // Requests and addresses

  datatype RequestError = ShortHeader | UnsupportedCommand(cmd: byte) | ShortAddress | UnsupportedAddressType(atyp: byte) | ShortPort

  /** DST.ADDR for address type `atyp` at the front of `s`, with the number
      of bytes it occupies. */
  function DecodeAddress(atyp: byte, s: seq<byte>): Result<(Address, nat), RequestError>
  {
    if atyp == AtypIPv4 then
      if |s| < 4 then Err(ShortAddress) else Ok((IPv4(s[..4]), 4))
    else if atyp == AtypDomain then
      if |s| < 1 || |s| < 1 + s[0] as int then Err(ShortAddress)
      else Ok((DomainName(s[1..1 + s[0] as int]), 1 + s[0] as int))
    else if atyp == AtypIPv6 then
      if |s| < 16 then Err(ShortAddress) else Ok((IPv6(s[..16]), 16))
    else Err(UnsupportedAddressType(atyp))
  }

  /** What the server finds in VER, CMD, RSV, ATYP, DST.ADDR, DST.PORT: on
      success the destination and the number of bytes the request occupies.
      Only CMD and ATYP are looked at; VER and RSV may hold anything. */
  function ParseRequest(s: seq<byte>): Result<(Destination, nat), RequestError>
  {
    if |s| < 4 then Err(ShortHeader)
    else if s[1] != CmdConnect then Err(UnsupportedCommand(s[1]))
    else
      match DecodeAddress(s[3], s[4..])
      case Err(e) => Err(e)
      case Ok((addr, len)) =>
        if |s| < 4 + len + 2 then Err(ShortPort)
        else Ok((Destination(addr, PortValue(s[4 + len], s[4 + len + 1])), 4 + len + 2))
  }

  /** ATYP and DST.ADDR for an address. The length byte of a domain name is
      byte(len(name)): it wraps for names longer than 255 bytes. */
  function EncodeAddress(a: Address): (e: seq<byte>)
  {
    match a
    case IPv4(ip) => [AtypIPv4] + ip
    case DomainName(name) => [AtypDomain, |name| % 256] + name
    case IPv6(ip) => [AtypIPv6] + ip
  }

  /** A CONNECT request for `a` and `port` as a SOCKS5 client sends it. */
  function EncodeRequest(a: Address, port: int): (r: seq<byte>)
  {
    [Socks5Version, CmdConnect, 0] + EncodeAddress(a) + PortBytes(port)
  }

  /** An address the wire can carry: a domain name of at most 255 bytes. */
  predicate Encodable(a: Address)
  {
    a.DomainName? ==> |a.name| <= 255
  }

  /** Decoding what EncodeRequest produced gives back the address and the
      port, and consumes exactly the request, whatever follows it. */
  lemma {:induction false} RequestRoundTrip(a: Address, port: nat, rest: seq<byte>)
    requires Encodable(a) && port < 65536
    ensures ParseRequest(EncodeRequest(a, port) + rest) == Ok((Destination(a, port), |EncodeRequest(a, port)|))
  {
    var e := EncodeAddress(a);
    var s := EncodeRequest(a, port) + rest;
    assert s[4..] == e[1..] + PortBytes(port) + rest;
    match a
    case IPv4(ip) =>
      assert s[4..][..4] == ip;
    case DomainName(name) =>
      assert s[4..][1..1 + |name|] == name;
    case IPv6(ip) =>
      assert s[4..][..16] == ip;
  }

  /** Conversely, a request the server accepts is, byte for byte, the
      encoding of what it decoded, except that VER and RSV are echoed from
      the input rather than checked. */
  lemma RequestDecodeEncode(s: seq<byte>)
    requires ParseRequest(s).Ok?
    ensures var (d, n) := ParseRequest(s).value;
      n <= |s| && Encodable(d.addr) && d.port < 65536
      && s[..n] == [s[0], CmdConnect, s[2]] + EncodeAddress(d.addr) + PortBytes(d.port)
  {
    var (d, n) := ParseRequest(s).value;
    var (addr, len) := DecodeAddress(s[3], s[4..]).value;
    assert d.addr == addr && n == 4 + len + 2 && d.port == PortValue(s[4 + len], s[4 + len + 1]);
    AddressDecodeEncode(s[3], s[4..]);
    assert s[4..][..len] == s[4..4 + len];
    CutRequest(s, len);
  }

  /** An address the server decodes is the encoding of what it decoded. */
  lemma AddressDecodeEncode(atyp: byte, a: seq<byte>)
    requires DecodeAddress(atyp, a).Ok?
    ensures var (addr, len) := DecodeAddress(atyp, a).value;
      len <= |a| && Encodable(addr) && EncodeAddress(addr) == [atyp] + a[..len]
  {
    var (addr, len) := DecodeAddress(atyp, a).value;
    if atyp == AtypDomain {
      assert a[..len] == [a[0]] + a[1..len];
    }
  }

  /** A request prefix cut into its header, its address payload of `len`
      bytes and its two port bytes. */
  lemma CutRequest(s: seq<byte>, len: nat)
    requires 4 + len + 2 <= |s|
    ensures s[..4 + len + 2] == [s[0], s[1], s[2]] + ([s[3]] + s[4..4 + len]) + [s[4 + len], s[4 + len + 1]]
  {
    assert s[..4 + len + 2] == s[..4] + s[4..4 + len] + s[4 + len..4 + len + 2];
  }

  /** A domain name longer than 255 bytes is not carried faithfully: its
      length byte wraps, and a decoder reads only the first |name| mod 256
      bytes of it as the name. */
  lemma LongDomainTruncated(name: seq<byte>, port: int, rest: seq<byte>)
    requires |name| > 255
    ensures var s := EncodeRequest(DomainName(name), port) + rest;
      ParseRequest(s).Ok? && ParseRequest(s).value.0.addr == DomainName(name[..|name| % 256])
      && ParseRequest(s).value.0.addr != DomainName(name)
  {
    var n := |name| % 256;
    var s := EncodeRequest(DomainName(name), port) + rest;
    DomainRequestLayout(name, port, rest);
    var tail := PortBytes(port) + rest;
    SplitConcat(name, n, tail);
    DomainRequestParsed(s, name[..n], name[n..] + tail);
  }

  /** Cutting a sequence at n before appending to it. */
  lemma SplitConcat(a: seq<byte>, n: nat, b: seq<byte>)
    requires n <= |a|
    ensures a + b == a[..n] + (a[n..] + b)
  {
    assert a == a[..n] + a[n..];
  }

  /** A request with CMD 1 and ATYP 3 whose length byte counts `name`
      decodes to that name when two port bytes follow. */
  lemma DomainRequestParsed(s: seq<byte>, name: seq<byte>, tail: seq<byte>)
    requires |name| < 256 && |tail| >= 2
    requires |s| >= 4 && s[1] == CmdConnect && s[3] == AtypDomain
    requires s[4..] == [|name| as byte] + (name + tail)
    ensures ParseRequest(s).Ok? && ParseRequest(s).value.0.addr == DomainName(name)
  {
    assert s[4..][1..1 + |name|] == name;
  }

  /** Where the fields of a domain-name request stand. */
  lemma DomainRequestLayout(name: seq<byte>, port: int, rest: seq<byte>)
    ensures var s := EncodeRequest(DomainName(name), port) + rest;
      && |s| >= 4 && s[1] == CmdConnect && s[3] == AtypDomain
      && s[4..] == [(|name| % 256) as byte] + (name + (PortBytes(port) + rest))
  {
    var header: seq<byte> := [Socks5Version, CmdConnect, 0, AtypDomain];
    var tail := [(|name| % 256) as byte] + (name + (PortBytes(port) + rest));
    assert EncodeRequest(DomainName(name), port) + rest == header + tail;
  }

  /** Every request whose CMD is not 1 is refused, whatever else it holds. */
  lemma OnlyConnectAccepted(s: seq<byte>)
    requires |s| >= 4 && s[1] != 1
    ensures ParseRequest(s) == Err(UnsupportedCommand(s[1]))
  {
  }

  /** VER and RSV of a request are never looked at: overwriting them does
      not change what the server decodes. */
  lemma RequestIgnoresVersionAndReserved(s: seq<byte>, ver: byte, rsv: byte)
    requires |s| >= 4
    ensures ParseRequest(s[0 := ver][2 := rsv]) == ParseRequest(s)
  {
    var t := s[0 := ver][2 := rsv];
    assert t[4..] == s[4..];
  }

  /** A CONNECT request whose ATYP is none of 1, 3 and 4 is refused. */
  lemma UnknownAddressTypeRefused(s: seq<byte>)
    requires |s| >= 4 && s[1] == CmdConnect && s[3] != AtypIPv4 && s[3] != AtypDomain && s[3] != AtypIPv6
    ensures ParseRequest(s) == Err(UnsupportedAddressType(s[3]))
  {
  }

  // ---------------------------------------------------------------------
  // Text of the destination host

  /** net.IPv4(a, b, c, d).String(): dotted-quad decimal. */
  function DottedQuad(ip: Ipv4Bytes): seq<byte>
  {
    Decimal(ip[0]) + ['.' as int] + Decimal(ip[1]) + ['.' as int] + Decimal(ip[2]) + ['.' as int] + Decimal(ip[3])
  }

  /** The host string the server builds from a decoded address: dotted quad
      for IPv4, the name bytes verbatim for a domain, and for IPv6 the text
      that `ipv6Text` (net.IP.String) gives. */
  function HostText(a: Address, ipv6Text: Ipv6Bytes -> seq<byte>): seq<byte>
  {
    match a
    case IPv4(ip) => DottedQuad(ip)
    case DomainName(name) => name
    case IPv6(ip) => ipv6Text(ip)
  }

  /** The port text, fmt.Sprintf("%d", port) of the decoded port, is always a decimal in 0..65535 that parses back to the
      two port bytes it came from. */
  lemma PortDecimalRoundTrip(b0: byte, b1: byte)
    ensures var t := Decimal(PortValue(b0, b1));
      AllDigits(t) && 0 < |t| <= 5 && DigitsValue(t) < 65536
      && PortBytes(Atoi(t)) == [b0, b1]
  {
    var p := PortValue(b0, b1);
    DecimalDigits(p);
    assert Pow10(5) == 100_000;
    DecimalLength(p, 5, Pow10(5));
    AtoiDecimal(p);
  }

  /** A dotted quad contains no ':' (so it never needs brackets in host:port)
      and consists of digits and exactly the three dots. */
  lemma DottedQuadShape(ip: Ipv4Bytes)
    ensures ':' as int !in DottedQuad(ip)
    ensures forall i :: 0 <= i < |DottedQuad(ip)| ==> IsDigit(DottedQuad(ip)[i]) || DottedQuad(ip)[i] == '.' as int
  {
    var d0, d1, d2, d3 := Decimal(ip[0]), Decimal(ip[1]), Decimal(ip[2]), Decimal(ip[3]);
    DecimalDigitsOrDots(ip[0]);
    DecimalDigitsOrDots(ip[1]);
    DecimalDigitsOrDots(ip[2]);
    DecimalDigitsOrDots(ip[3]);
    DotJoin(d0, d1);
    DotJoin(d0 + ['.' as int] + d1, d2);
    DotJoin(d0 + ['.' as int] + d1 + ['.' as int] + d2, d3);
    NoColonInDigitsOrDots(DottedQuad(ip));
  }

  /** Every byte is a digit or a dot. */
  predicate DigitsOrDots(s: seq<byte>)
  {
    forall i :: 0 <= i < |s| ==> IsDigit(s[i]) || s[i] == '.' as int
  }

  lemma DecimalDigitsOrDots(n: nat)
    ensures DigitsOrDots(Decimal(n))
  {
    DecimalDigits(n);
  }

  /** Joining two texts of digits and dots with a dot keeps that shape. */
  lemma DotJoin(a: seq<byte>, b: seq<byte>)
    requires DigitsOrDots(a) && DigitsOrDots(b)
    ensures DigitsOrDots(a + ['.' as int] + b)
  {
    var s := a + ['.' as int] + b;
    forall i | 0 <= i < |s|
      ensures IsDigit(s[i]) || s[i] == '.' as int
    {
      if i > |a| {
        assert s[i] == b[i - |a| - 1];
      }
    }
  }

  lemma NoColonInDigitsOrDots(s: seq<byte>)
    requires DigitsOrDots(s)
    ensures ':' as int !in s
  {
    forall i | 0 <= i < |s|
      ensures s[i] != ':' as int
    {
      assert IsDigit(s[i]) || s[i] == '.' as int;
    }
  }

  // ---------------------------------------------------------------------
  // The reply

  /** What targetConn.LocalAddr() reports: its IPv4 form when it has one
      (IP.To4() != nil) and its port as a Go int. */
  datatype LocalAddr = LocalAddr(ip4: Option<Ipv4Bytes>, port: int)

  /** The success reply: VER 5, REP 0, RSV 0, ATYP 1, BND.ADDR, BND.PORT.
      The address type is IPv4 whatever the family; a non-IPv4 local address
      is reported as 0.0.0.0; the port goes through uint16(...). */
  function BindReply(local: LocalAddr): (r: seq<byte>)
    ensures |r| == 10
    ensures r[0] == Socks5Version && r[1] == 0 && r[2] == 0 && r[3] == AtypIPv4
    ensures r[4..8] == match local.ip4 case Some(ip) => ip case None => [0, 0, 0, 0]
    ensures PortValue(r[8], r[9]) == local.port % 65536
  {
    var ip: Ipv4Bytes := match local.ip4 case Some(ip) => ip case None => [0, 0, 0, 0];
    [Socks5Version, 0, 0, AtypIPv4] + ip + PortBytes(local.port % 65536)
  }

  /** The reply is itself a well-formed address field: decoding it as a
      request-shaped message yields the bound address and the port. */
  lemma BindReplyDecodes(local: LocalAddr)
    ensures var r := BindReply(local);
      DecodeAddress(r[3], r[4..]) == Ok((IPv4(r[4..8]), 4))
      && r == [Socks5Version, 0, 0] + EncodeAddress(IPv4(r[4..8])) + PortBytes(local.port % 65536)
  {
    var r := BindReply(local);
    assert r[4..][..4] == r[4..8];
  }
}
