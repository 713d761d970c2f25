/**
 * The client side of the two upstream protocols (proxy_common.go): an HTTP
 * CONNECT tunnel (section 9.3.6 of RFC 9110) and a SOCKS5 CONNECT (sections
 * 3 to 6 of RFC 1928). The proxy connection is a scripted Conn; whether
 * net.Dial reaches the proxy at all is an input.
 */
module Dialers {
  import opened Wire
  import opened Net
  import opened Codec

  /** How a dial through a proxy ends. */
  datatype DialError =
    | ProxyUnreachable
    | SendFailed
    | ReadFailed
    | Refused          // HTTP status line without "200"
    | MethodRejected   // SOCKS5 method reply other than [5, 0]
    | BadReplyVersion  // SOCKS5 reply VER other than 5
    | ConnectFailed    // SOCKS5 reply REP other than 0

  datatype Dialed = Connected | Failed(reason: DialError)

  // ---------------------------------------------------------------------
  // HTTP CONNECT

  /** The request line "CONNECT host:port HTTP/1.1", with host and port
      joined by a bare ':' (an IPv6 host is not put in brackets). */
  function RequestLine(host: seq<byte>, port: seq<byte>): seq<byte>
  {
    RequestHead(host, port) + Crlf
  }

  /** The request line without its terminator. */
  function RequestHead(host: seq<byte>, port: seq<byte>): seq<byte>
  {
    Ascii("CONNECT ") + host + [':' as int] + port + Ascii(" HTTP/1.1")
  }

  /** The CONNECT request: the request line, the Host, User-Agent and
      Proxy-Connection headers, and the empty line. */
  function ConnectRequest(host: seq<byte>, port: seq<byte>): seq<byte>
  {
    RequestLine(host, port) + HeaderLines(host, port)
  }

  /** The headers of the CONNECT request and the empty line after them. */
  function HeaderLines(host: seq<byte>, port: seq<byte>): seq<byte>
  {
    Ascii("Host: ") + host + [':' as int] + port + Crlf
    + Ascii("User-Agent: Go-SOCKS5-Proxy") + Crlf
    + Ascii("Proxy-Connection: keep-alive") + Crlf
    + Crlf
  }

  /** The status code the proxy's status line must contain. */
  const Status200: seq<byte> := ['2' as int, '0' as int, '0' as int]

  /** The line terminator of HTTP/1.1. */
  const Crlf: seq<byte> := ['\r' as int, '\n' as int]

  /** A line that ends the header block: "\r\n" or "\n". */
  predicate BlankLine(line: seq<byte>)
  {
    || (|line| == 1 && line[0] == '\n' as int)
    || (|line| == 2 && line[0] == '\r' as int && line[1] == '\n' as int)
  }

  /** The text ends with a complete line that is blank. */
  predicate EndsWithBlankLine(t: seq<byte>)
  {
    || (|t| >= 1 && t[|t| - 1] == '\n' as int && (|t| == 1 || t[|t| - 2] == '\n' as int))
    || (|t| >= 2 && t[|t| - 2] == '\r' as int && t[|t| - 1] == '\n' as int && (|t| == 2 || t[|t| - 3] == '\n' as int))
  }

  /** How many bytes of `s` the header-skipping loop reads: every line up
      to and including the first blank one; None if the stream ends first. */
  function HeaderBlockLength(s: seq<byte>): (r: Option<nat>)
    ensures r.Some? ==> 0 < r.value <= |s| && EndsWithBlankLine(s[..r.value])
    decreases |s|
  {
    match LineLength(s)
    case None => None
    case Some(k) =>
      if BlankLine(s[..k]) then Some(k)
      else
        match HeaderBlockLength(s[k..])
        case None => None
        case Some(m) =>
          BlankLineAfterFirstLine(s, k, m);
          Some(k + m)
  }

  /** How many bytes of the proxy's answer a successful CONNECT exchange
      reads: a status line containing "200" anywhere (not only as the status
      code), then the header block up to its blank line, where the answer
      ends. */
  function HttpAnswerLength(s: seq<byte>): (r: Option<nat>)
    ensures r.Some? ==> LineLength(s).Some? && HasSubstring(s[..LineLength(s).value], Status200)
    ensures r.Some? ==> LineLength(s).value < r.value <= |s| && EndsWithBlankLine(s[..r.value])
  {
    match LineLength(s)
    case None => None
    case Some(k) =>
      if !HasSubstring(s[..k], Status200) then None
      else
        match HeaderBlockLength(s[k..])
        case None => None
        case Some(m) =>
          BlankLineAfterFirstLine(s, k, m);
          Some(k + m)
  }

  /** connectViaHttpProxy (proxy_common.go:13-62) as written. The answer
      is read through a bufio.Reader that is then dropped, and the raw
      connection is handed on: it has moved past the answer and past
      whatever else the reader took in with it, which is everything the
      proxy had sent, up to a whole buffer. Every failure after the dial
      closes the connection. */
  method ConnectViaHttpProxy(proxy: Conn, dialOk: bool, targetHost: seq<byte>, targetPort: seq<byte>)
    returns (r: Dialed)
    requires proxy.Valid() && !proxy.closed
    modifies proxy`pos, proxy`output, proxy`writesLeft, proxy`closed
    ensures proxy.Valid()
    ensures !dialOk ==> r == Failed(ProxyUnreachable) && unchanged(proxy)
    ensures dialOk ==> proxy.output == old(proxy.output) + (if old(proxy.writesLeft) > 0 then ConnectRequest(targetHost, targetPort) else [])
    ensures proxy.writesLeft == if dialOk && old(proxy.writesLeft) > 0 then old(proxy.writesLeft) - 1 else old(proxy.writesLeft)
    ensures r.Connected? <==> dialOk && old(proxy.writesLeft) > 0 && HttpAnswerLength(old(proxy.Remaining())).Some?
    ensures r.Connected? ==> !proxy.closed && old(proxy.pos) + HttpAnswerLength(old(proxy.Remaining())).value <= proxy.pos
    ensures r.Connected? ==> Min(|proxy.input|, old(proxy.pos) + BufferSize) <= proxy.pos
    ensures dialOk && r.Failed? ==> proxy.closed
  {
    if !dialOk {
      return Failed(ProxyUnreachable);
    }
    var err, reader := HttpConnect(proxy, targetHost, targetPort);
    if err.Some? {
      return Failed(err.value);
    }
    r := Connected;
  }

  /** connectViaHttpProxy as evidently intended: the connection handed on
      reads through the same buffer, so the tunnel delivers exactly the
      bytes the proxy sent after its answer. */
  method ConnectViaHttpProxyKeepingBuffer(proxy: Conn, dialOk: bool, targetHost: seq<byte>, targetPort: seq<byte>)
    returns (r: Dialed, tunnel: Reader?)
    requires proxy.Valid() && !proxy.closed
    modifies proxy`pos, proxy`output, proxy`writesLeft, proxy`closed
    ensures proxy.Valid()
    ensures !dialOk ==> r == Failed(ProxyUnreachable) && unchanged(proxy)
    ensures dialOk ==> proxy.output == old(proxy.output) + (if old(proxy.writesLeft) > 0 then ConnectRequest(targetHost, targetPort) else [])
    ensures proxy.writesLeft == if dialOk && old(proxy.writesLeft) > 0 then old(proxy.writesLeft) - 1 else old(proxy.writesLeft)
    ensures r.Connected? <==> dialOk && old(proxy.writesLeft) > 0 && HttpAnswerLength(old(proxy.Remaining())).Some?
    ensures r.Connected? ==>
      && !proxy.closed && tunnel != null && fresh(tunnel) && tunnel.conn == proxy && tunnel.Valid()
      && tunnel.Position() == old(proxy.pos) + HttpAnswerLength(old(proxy.Remaining())).value
    ensures dialOk && r.Failed? ==> proxy.closed
  {
    if !dialOk {
      return Failed(ProxyUnreachable), null;
    }
    var err, reader := HttpConnect(proxy, targetHost, targetPort);
    if err.Some? {
      return Failed(err.value), null;
    }
    r, tunnel := Connected, reader;
  }

  /** The exchange with a reachable HTTP proxy (proxy_common.go:20-59): the
      CONNECT request, then the answer read through a new bufio.Reader;
      every failure closes the connection. */
  method HttpConnect(proxy: Conn, targetHost: seq<byte>, targetPort: seq<byte>)
    returns (err: Option<DialError>, reader: Reader?)
    requires proxy.Valid() && !proxy.closed
    modifies proxy`pos, proxy`output, proxy`writesLeft, proxy`closed
    ensures proxy.Valid()
    ensures proxy.output == old(proxy.output) + (if old(proxy.writesLeft) > 0 then ConnectRequest(targetHost, targetPort) else [])
    ensures proxy.writesLeft == if old(proxy.writesLeft) > 0 then old(proxy.writesLeft) - 1 else old(proxy.writesLeft)
    ensures err.None? <==> old(proxy.writesLeft) > 0 && HttpAnswerLength(old(proxy.Remaining())).Some?
    ensures err.None? ==>
      && !proxy.closed && reader != null && fresh(reader) && reader.conn == proxy && reader.Valid()
      && reader.origin == old(proxy.pos) && reader.Position() == old(proxy.pos) + HttpAnswerLength(old(proxy.Remaining())).value
    ensures err.Some? ==> proxy.closed
  {
    ghost var s, p := proxy.Remaining(), proxy.pos;
    var connectReq := ConnectRequest(targetHost, targetPort);
    var sent := proxy.Write(connectReq);
    if !sent {
      proxy.Close();
      return Some(SendFailed), null;
    }
    reader := new Reader(proxy);
    assert reader.Position() == p && reader.Remaining() == s;
    err := ReadHttpAnswer(reader);
    if err.Some? {
      proxy.Close();
    }
  }

  /** Reading the proxy's answer (proxy_common.go:36-59): the status line
      must contain "200", then header lines are skipped up to the blank
      line. */
  method ReadHttpAnswer(reader: Reader) returns (err: Option<DialError>)
    requires reader.Valid()
    modifies reader`buf, reader.conn`pos
    ensures reader.Valid() && old(reader.conn.pos) <= reader.conn.pos
    ensures err.None? <==> HttpAnswerLength(old(reader.Remaining())).Some?
    ensures err == Some(Refused) <==> StatusRefused(old(reader.Remaining()))
    ensures err.Some? && err != Some(Refused) ==> err == Some(ReadFailed)
    ensures err.None? ==> reader.Position() == old(reader.Position()) + HttpAnswerLength(old(reader.Remaining())).value
  {
    ghost var s, p := reader.Remaining(), reader.Position();
    err := ReadStatusLine(reader);
    if err.Some? {
      return;
    }
    ghost var k := LineLength(s).value;
    HttpAnswerAfterStatusLine(s, k);
    assert reader.Remaining() == s[k..] && reader.Position() == p + k;
    var skipped := SkipHeaders(reader);
    if !skipped {
      return Some(ReadFailed);
    }
    assert HttpAnswerLength(s).value == k + HeaderBlockLength(s[k..]).value;
  }

  /** The status line of the proxy's answer (proxy_common.go:36-46): it
      must be complete and contain "200". */
  method ReadStatusLine(reader: Reader) returns (err: Option<DialError>)
    requires reader.Valid()
    modifies reader`buf, reader.conn`pos
    ensures reader.Valid() && old(reader.conn.pos) <= reader.conn.pos
    ensures err.None? <==> LineLength(old(reader.Remaining())).Some? && !StatusRefused(old(reader.Remaining()))
    ensures err == Some(Refused) <==> StatusRefused(old(reader.Remaining()))
    ensures err.Some? && err != Some(Refused) ==> err == Some(ReadFailed)
    ensures err.None? ==> reader.Position() == old(reader.Position()) + LineLength(old(reader.Remaining())).value
  {
    ghost var s := reader.Remaining();
    var got, respLine := reader.ReadLine();
    if !got {
      assert !StatusRefused(s);
      return Some(ReadFailed);
    }
    assert respLine == s[..LineLength(s).value];
    var accepted := HasSubstring(respLine, Status200);
    if !accepted {
      return Some(Refused);
    }
    err := None;
  }

  /** The proxy's status line is complete and does not contain "200". */
  predicate StatusRefused(s: seq<byte>)
  {
    LineLength(s).Some? && !HasSubstring(s[..LineLength(s).value], Status200)
  }

  /** How the answer's length splits at the end of the status line. */
  lemma HttpAnswerAfterStatusLine(s: seq<byte>, k: nat)
    requires LineLength(s).Some? && LineLength(s).value == k
    ensures StatusRefused(s) <==> !HasSubstring(s[..k], Status200)
    ensures !HasSubstring(s[..k], Status200) ==> HttpAnswerLength(s).None?
    ensures HasSubstring(s[..k], Status200) ==>
      && (HttpAnswerLength(s).Some? <==> HeaderBlockLength(s[k..]).Some?)
      && (HttpAnswerLength(s).Some? ==> HttpAnswerLength(s).value == k + HeaderBlockLength(s[k..]).value)
  {
  }

  /** The header-skipping loop (proxy_common.go:48-59): read lines until one
      is "\r\n" or "\n"; fail if the stream ends first. */
  method SkipHeaders(reader: Reader) returns (ok: bool)
    requires reader.Valid()
    modifies reader`buf, reader.conn`pos
    ensures reader.Valid() && old(reader.conn.pos) <= reader.conn.pos
    ensures ok <==> HeaderBlockLength(old(reader.Remaining())).Some?
    ensures ok ==> reader.Position() == old(reader.Position()) + HeaderBlockLength(old(reader.Remaining())).value
  {
    ghost var s := reader.Remaining();
    while true
      invariant reader.Valid() && old(reader.conn.pos) <= reader.conn.pos && old(reader.Position()) <= reader.Position()
      invariant HeaderBlockLength(s).Some? <==> HeaderBlockLength(reader.Remaining()).Some?
      invariant HeaderBlockLength(reader.Remaining()).Some? ==>
        HeaderBlockLength(s).value == reader.Position() - old(reader.Position()) + HeaderBlockLength(reader.Remaining()).value
      decreases |reader.conn.input| - reader.Position()
    {
      ghost var before := reader.Remaining();
      var got, line := reader.ReadLine();
      if !got {
        return false;
      }
      if BlankLine(line) {
        return true;
      }
      assert reader.Remaining() == before[|line|..];
    }
  }

  // ---------------------------------------------------------------------
  // SOCKS5

  /** What net.ParseIP(targetHost) and To4 report about the target host. */
  datatype IpClass = NotAnIp | V4(v4: Ipv4Bytes) | V6(v6: Ipv6Bytes)

  /** The address field the dialer sends for a host of the given class. */
  function AddressFor(host: seq<byte>, ip: IpClass): Address
  {
    match ip
    case NotAnIp => DomainName(host)
    case V4(a) => IPv4(a)
    case V6(a) => IPv6(a)
  }

  /** The greeting the dialer sends: version 5, one method, method 0. */
  const ClientGreeting: seq<byte> := [Socks5Version, 1, NoAuthentication]

  /** The bytes of BND.ADDR and BND.PORT the dialer reads after a reply
      header with address type `atyp`; None if the stream ends first. Any
      other address type reads nothing. */
  function BoundFieldLength(atyp: byte, s: seq<byte>): Option<nat>
  {
    if atyp == AtypIPv4 then (if |s| >= 6 then Some(6) else None)
    else if atyp == AtypDomain then
      (if |s| >= 1 && |s| >= 1 + s[0] as int + 2 then Some(1 + s[0] as int + 2) else None)
    else if atyp == AtypIPv6 then (if |s| >= 18 then Some(18) else None)
    else Some(0)
  }

  /** Whether the proxy's method reply (the first two bytes it sends) lets
      the dialer go on to send its request. */
  predicate MethodAccepted(s: seq<byte>)
  {
    |s| >= 2 && s[0] == Socks5Version && s[1] == NoAuthentication
  }

  /** How many bytes of the proxy's reply to the CONNECT request the dialer
      reads on success: a header with VER 5 and REP 0, then the bound
      address field. */
  function Socks5ReplyLength(s: seq<byte>): Option<nat>
  {
    if |s| < 4 || s[0] != Socks5Version || s[1] != 0 then None
    else
      match BoundFieldLength(s[3], s[4..])
      case None => None
      case Some(m) => Some(4 + m)
  }

  /** How many bytes of the proxy's answers a successful SOCKS5 exchange
      reads: the method reply [5, 0], then the reply to the request. */
  function Socks5AnswerLength(s: seq<byte>): Option<nat>
  {
    if !MethodAccepted(s) then None
    else
      match Socks5ReplyLength(s[2..])
      case None => None
      case Some(m) => Some(2 + m)
  }

  /** The CONNECT request the dialer builds for a target host text, its
      classification and port text (proxy_common.go:94-118). */
  function Socks5RequestFor(targetHost: seq<byte>, ip: IpClass, targetPort: seq<byte>): seq<byte>
  {
    EncodeRequest(AddressFor(targetHost, ip), Atoi(targetPort))
  }

  /** How many of the dialer's writes to a reachable SOCKS5 proxy whose
      answers are `s`, and which accepts `writes` more writes, go through:
      the greeting, then the request once the method reply is [5, 0]. */
  function Socks5WritesDone(s: seq<byte>, writes: nat): nat
  {
    if writes == 0 then 0
    else if MethodAccepted(s) then Min(writes, 2)
    else 1
  }

  /** The bytes those writes carry. */
  function Socks5Sent(s: seq<byte>, writes: nat, request: seq<byte>): seq<byte>
  {
    var done := Socks5WritesDone(s, writes);
    if done == 0 then []
    else if done == 1 then ClientGreeting
    else ClientGreeting + request
  }

  /** connectViaSocks5Proxy (proxy_common.go:65-165). Success leaves the
      proxy connection open and positioned after the bound address; every
      failure after the dial closes it. */
  method ConnectViaSocks5Proxy(proxy: Conn, dialOk: bool, targetHost: seq<byte>, ip: IpClass, targetPort: seq<byte>)
    returns (r: Dialed)
    requires proxy.Valid() && !proxy.closed
    modifies proxy`pos, proxy`output, proxy`writesLeft, proxy`closed
    ensures proxy.Valid()
    ensures !dialOk ==> r == Failed(ProxyUnreachable) && unchanged(proxy)
    ensures dialOk ==>
      && proxy.output == old(proxy.output) + Socks5Sent(old(proxy.Remaining()), old(proxy.writesLeft), Socks5RequestFor(targetHost, ip, targetPort))
      && proxy.writesLeft == old(proxy.writesLeft) - Socks5WritesDone(old(proxy.Remaining()), old(proxy.writesLeft))
    ensures r.Connected? <==> dialOk && old(proxy.writesLeft) >= 2 && Socks5AnswerLength(old(proxy.Remaining())).Some?
    ensures r.Connected? ==> proxy.pos == old(proxy.pos) + Socks5AnswerLength(old(proxy.Remaining())).value && !proxy.closed
    ensures dialOk && r.Failed? ==> proxy.closed
  {
    if !dialOk {
      return Failed(ProxyUnreachable);
    }
    var request := BuildSocks5Request(targetHost, ip, targetPort);
    var err := Socks5Exchange(proxy, request);
    if err.Some? {
      proxy.Close();
      r := Failed(err.value);
    } else {
      r := Connected;
    }
  }

  /** The exchange with a reachable SOCKS5 proxy (proxy_common.go:72-162):
      the greeting, then `request` and the reply to it. */
  method Socks5Exchange(proxy: Conn, request: seq<byte>) returns (err: Option<DialError>)
    requires proxy.Valid()
    modifies proxy`pos, proxy`output, proxy`writesLeft
    ensures proxy.Valid()
    ensures proxy.output == old(proxy.output) + Socks5Sent(old(proxy.Remaining()), old(proxy.writesLeft), request)
    ensures proxy.writesLeft == old(proxy.writesLeft) - Socks5WritesDone(old(proxy.Remaining()), old(proxy.writesLeft))
    ensures err.None? <==> old(proxy.writesLeft) >= 2 && Socks5AnswerLength(old(proxy.Remaining())).Some?
    ensures err.None? ==> proxy.pos == old(proxy.pos) + Socks5AnswerLength(old(proxy.Remaining())).value
  {
    err := Socks5Greet(proxy);
    if err.None? {
      err := Socks5Request(proxy, request);
    }
  }

  /** Method negotiation as the client (proxy_common.go:72-91): send the
      greeting, then read a two-byte reply that must be [5, 0]. */
  method Socks5Greet(proxy: Conn) returns (err: Option<DialError>)
    requires proxy.Valid()
    modifies proxy`pos, proxy`output, proxy`writesLeft
    ensures proxy.Valid()
    ensures proxy.output == old(proxy.output) + (if old(proxy.writesLeft) > 0 then ClientGreeting else [])
    ensures proxy.writesLeft == if old(proxy.writesLeft) > 0 then old(proxy.writesLeft) - 1 else old(proxy.writesLeft)
    ensures err.None? <==> old(proxy.writesLeft) > 0 && MethodAccepted(old(proxy.Remaining()))
    ensures err.None? ==> proxy.Remaining() == old(proxy.Remaining())[2..] && proxy.pos == old(proxy.pos) + 2
  {
    var sent := proxy.Write(ClientGreeting);
    if !sent {
      return Some(SendFailed);
    }
    var got, resp := proxy.ReadFull(2);
    if !got {
      return Some(ReadFailed);
    }
    if resp[0] != Socks5Version || resp[1] != NoAuthentication {
      return Some(MethodRejected);
    }
    err := None;
  }

  /** Sending the CONNECT request and reading the reply header and bound
      address (proxy_common.go:120-162). */
  method Socks5Request(proxy: Conn, request: seq<byte>) returns (err: Option<DialError>)
    requires proxy.Valid()
    modifies proxy`pos, proxy`output, proxy`writesLeft
    ensures proxy.Valid()
    ensures proxy.output == old(proxy.output) + (if old(proxy.writesLeft) > 0 then request else [])
    ensures proxy.writesLeft == if old(proxy.writesLeft) > 0 then old(proxy.writesLeft) - 1 else old(proxy.writesLeft)
    ensures err.None? <==> old(proxy.writesLeft) > 0 && Socks5ReplyLength(old(proxy.Remaining())).Some?
    ensures err.None? ==> proxy.pos == old(proxy.pos) + Socks5ReplyLength(old(proxy.Remaining())).value
  {
    var sent := proxy.Write(request);
    if !sent {
      return Some(SendFailed);
    }
    ghost var s := proxy.Remaining();
    var got, response := proxy.ReadFull(4);
    if !got {
      return Some(ReadFailed);
    }
    if response[0] != Socks5Version {
      return Some(BadReplyVersion);
    }
    if response[1] != 0 {
      return Some(ConnectFailed);
    }
    assert proxy.Remaining() == s[4..];
    var skipped := SkipBoundAddress(proxy, response[3]);
    if !skipped {
      return Some(ReadFailed);
    }
    err := None;
  }

  /** The CONNECT request of proxy_common.go:94-118, built by successive
      appends: header, address type and address by IP class, then the port
      parsed with strconv.Atoi (0 when it is not a number). */
  method BuildSocks5Request(targetHost: seq<byte>, ip: IpClass, targetPort: seq<byte>) returns (request: seq<byte>)
    ensures request == Socks5RequestFor(targetHost, ip, targetPort)
  {
    request := [];
    request := request + [Socks5Version];
    request := request + [CmdConnect];
    request := request + [0];
    ghost var header := request;
    ghost var address := EncodeAddress(AddressFor(targetHost, ip));
    match ip {
      case NotAnIp =>
        request := request + [AtypDomain];
        request := request + [|targetHost| % 256];
        request := request + targetHost;
        assert request == header + address;
      case V4(a) =>
        request := request + [AtypIPv4];
        request := request + a;
        assert request == header + address;
      case V6(a) =>
        request := request + [AtypIPv6];
        request := request + a;
        assert request == header + address;
    }
    var port := Atoi(targetPort);
    request := request + [(port / 256) % 256, port % 256];
    assert request == header + address + PortBytes(port);
  }

  /** Skipping BND.ADDR and BND.PORT after the reply header
      (proxy_common.go:145-162). */
  method SkipBoundAddress(proxy: Conn, atyp: byte) returns (ok: bool)
    requires proxy.Valid()
    modifies proxy`pos
    ensures proxy.Valid()
    ensures ok <==> BoundFieldLength(atyp, old(proxy.Remaining())).Some?
    ensures ok ==> proxy.pos == old(proxy.pos) + BoundFieldLength(atyp, old(proxy.Remaining())).value
  {
    ghost var s := proxy.Remaining();
    ok := true;
    var ignored;
    if atyp == AtypIPv4 {
      ok, ignored := proxy.ReadFull(4 + 2);
    } else if atyp == AtypDomain {
      var length;
      ok, length := proxy.ReadFull(1);
      if ok {
        assert length[0] == s[0];
        ok, ignored := proxy.ReadFull(length[0] as int + 2);
      }
    } else if atyp == AtypIPv6 {
      ok, ignored := proxy.ReadFull(16 + 2);
    }
  }

  // ---------------------------------------------------------------------
  // Properties of the dialers

  /** The CONNECT request's first line is its request line when neither
      host nor port holds a line feed. */
  lemma {:induction false} ConnectRequestFirstLine(host: seq<byte>, port: seq<byte>)
    requires '\n' as int !in host && '\n' as int !in port
    ensures var line := RequestLine(host, port);
      LineLength(ConnectRequest(host, port)).Some? && LineLength(ConnectRequest(host, port)).value == |line|
      && ConnectRequest(host, port)[..|line|] == line
  {
    assert '\n' as int !in RequestHead(host, port) by {
      AsciiWithoutLineFeed("CONNECT ");
      AsciiWithoutLineFeed(" HTTP/1.1");
    }
    FirstLineEndsAtCrlf(RequestHead(host, port), HeaderLines(host, port));
  }

  /** A text without a line feed followed by "\r\n" is a whole first
      line, whatever comes after it. */
  lemma FirstLineEndsAtCrlf(head: seq<byte>, tail: seq<byte>)
    requires '\n' as int !in head
    ensures LineLength(head + Crlf + tail).Some? && LineLength(head + Crlf + tail).value == |head| + 2
    ensures (head + Crlf + tail)[..|head| + 2] == head + Crlf
  {
    var s := head + Crlf + tail;
    assert s[..|head| + 1] == head + ['\r' as int];
    LineLengthAt(s, |head| + 1);
  }

  /** A literal without a line feed, all of whose characters are single
      bytes, gives bytes without a line feed. */
  lemma AsciiWithoutLineFeed(t: string)
    requires forall i | 0 <= i < |t| :: t[i] != '\n' && t[i] as int < 256
    ensures '\n' as int !in Ascii(t)
  {
    forall i | 0 <= i < |t|
      ensures Ascii(t)[i] != '\n' as int
    {
    }
  }

  /** The CONNECT request ends with the empty line that closes its header
      block. */
  lemma ConnectRequestEnds(host: seq<byte>, port: seq<byte>)
    ensures var req := ConnectRequest(host, port);
      |req| >= 4 && req[|req| - 4..] == Crlf + Crlf
  {
  }

  /** The answer read up to the end of the header block ends with its
      blank line. */
  lemma BlankLineAfterFirstLine(s: seq<byte>, k: nat, m: nat)
    requires 0 < k <= |s| && s[k - 1] == '\n' as int && m <= |s| - k && EndsWithBlankLine(s[k..][..m])
    ensures EndsWithBlankLine(s[..k + m])
  {
    assert s[..k + m] == s[..k] + s[k..][..m];
    BlankLineAfterLine(s[..k], s[k..][..m]);
  }

  /** A text that ends with a blank line still does after a complete line
      is put in front of it. */
  lemma BlankLineAfterLine(a: seq<byte>, b: seq<byte>)
    requires |a| > 0 && a[|a| - 1] == '\n' as int && EndsWithBlankLine(b)
    ensures EndsWithBlankLine(a + b)
  {
    var t := a + b;
    assert t[|t| - 1] == b[|b| - 1];
    if |b| >= 2 {
      assert t[|t| - 2] == b[|b| - 2];
    } else {
      assert t[|t| - 2] == a[|a| - 1];
    }
    if |b| >= 3 {
      assert t[|t| - 3] == b[|b| - 3];
    } else if |b| == 2 {
      assert t[|t| - 3] == a[|a| - 1];
    }
  }

  /** The header-skipping loop stops at the FIRST line that is blank: no
      earlier prefix ends with a blank line, and it finds none exactly when
      no prefix of the stream ends with one. */
  lemma {:induction false} HeaderBlockFirstBlankLine(s: seq<byte>)
    ensures HeaderBlockLength(s).Some? ==>
      forall m :: 0 < m < HeaderBlockLength(s).value ==> !EndsWithBlankLine(s[..m])
    ensures HeaderBlockLength(s).None? <==> forall m :: 0 < m <= |s| ==> !EndsWithBlankLine(s[..m])
    decreases |s|
  {
    match LineLength(s)
    case None =>
      forall m | 0 < m <= |s|
        ensures !EndsWithBlankLine(s[..m])
      {
        assert s[m - 1] in s;
      }
    case Some(k) =>
      FirstLineBlankEnds(s, k);
      if !BlankLine(s[..k]) {
        HeaderBlockFirstBlankLine(s[k..]);
        ShiftBlankLineEnds(s, k);
      }
  }

  /** Within the first line of `s`, a blank line can only end where that
      line ends, and does exactly when the line is blank. */
  lemma FirstLineBlankEnds(s: seq<byte>, k: nat)
    requires LineLength(s).Some? && LineLength(s).value == k
    ensures forall m :: 0 < m <= k ==> (EndsWithBlankLine(s[..m]) <==> m == k && BlankLine(s[..k]))
  {
    forall m | 0 < m <= k
      ensures EndsWithBlankLine(s[..m]) <==> m == k && BlankLine(s[..k])
    {
      NoLineFeedBefore(s, k, m - 1);
      if m >= 2 {
        NoLineFeedBefore(s, k, m - 2);
      }
      if m >= 3 {
        NoLineFeedBefore(s, k, m - 3);
      }
    }
  }

  /** No '\n' stands before the end of the first line. */
  lemma NoLineFeedBefore(s: seq<byte>, k: nat, i: nat)
    requires LineLength(s).Some? && LineLength(s).value == k && i < k
    ensures s[i] == '\n' as int <==> i == k - 1
  {
    if i < k - 1 {
      assert s[i] == s[..k - 1][i];
    }
  }

  /** After a complete line, a blank line ends at m in the whole exactly
      when it ends at m - k in what follows that line. */
  lemma ShiftBlankLineEnds(s: seq<byte>, k: nat)
    requires 0 < k <= |s| && s[k - 1] == '\n' as int
    ensures forall m :: k < m <= |s| ==> (EndsWithBlankLine(s[..m]) <==> EndsWithBlankLine(s[k..][..m - k]))
  {
    forall m | k < m <= |s|
      ensures EndsWithBlankLine(s[..m]) <==> EndsWithBlankLine(s[k..][..m - k])
    {
      var t, u := s[..m], s[k..][..m - k];
      assert t[m - 1] == u[m - k - 1];
      if m - k >= 2 {
        assert t[m - 2] == u[m - k - 2];
      }
      if m - k >= 3 {
        assert t[m - 3] == u[m - k - 3];
      }
    }
  }

  /** The proxy's answer is accepted exactly when its status line contains
      "200" and a blank line follows it, and then it is read up to the
      first such blank line and no further. */
  lemma HttpAnswerEndsAtFirstBlankLine(s: seq<byte>)
    ensures HttpAnswerLength(s).Some? <==>
      && LineLength(s).Some? && HasSubstring(s[..LineLength(s).value], Status200)
      && exists m :: LineLength(s).value < m <= |s| && EndsWithBlankLine(s[..m])
    ensures HttpAnswerLength(s).Some? ==>
      forall m :: LineLength(s).value < m < HttpAnswerLength(s).value ==> !EndsWithBlankLine(s[..m])
  {
    if LineLength(s).Some? {
      var k := LineLength(s).value;
      HeaderBlockFirstBlankLine(s[k..]);
      ShiftBlankLineEnds(s, k);
      if HttpAnswerLength(s).Some? {
        var r := HttpAnswerLength(s).value;
        assert EndsWithBlankLine(s[..r]);
      }
    }
  }

  /** A proxy answer that is a status line and an immediate blank line is
      accepted, and the reader's user consumes exactly those bytes (the
      connection itself may have moved further; see ConnectViaHttpProxy). */
  lemma HttpMinimalAnswer(status: seq<byte>, rest: seq<byte>)
    requires |status| > 0 && status[|status| - 1] == '\n' as int && '\n' as int !in status[..|status| - 1]
    requires HasSubstring(status, Status200)
    ensures HttpAnswerLength(status + Crlf + rest).Some? && HttpAnswerLength(status + Crlf + rest).value == |status| + 2
  {
    var t := Crlf + rest;
    var s := status + t;
    assert status + Crlf + rest == s;
    FirstLineOfConcat(status, t);
    assert s[|status|..] == t;
    HeaderBlockEndsAtBlankLine(rest);
    HttpAnswerFrom(s, |status|, 2);
  }

  /** A complete line followed by anything is the first line of the
      whole. */
  lemma FirstLineOfConcat(line: seq<byte>, rest: seq<byte>)
    requires |line| > 0 && line[|line| - 1] == '\n' as int && '\n' as int !in line[..|line| - 1]
    ensures LineLength(line + rest).Some? && LineLength(line + rest).value == |line|
    ensures (line + rest)[..|line|] == line && (line + rest)[|line|..] == rest
  {
    assert (line + rest)[..|line| - 1] == line[..|line| - 1];
    LineLengthAt(line + rest, |line| - 1);
  }

  /** The answer length from its two parts. */
  lemma HttpAnswerFrom(s: seq<byte>, k: nat, m: nat)
    requires LineLength(s).Some? && LineLength(s).value == k && k <= |s| && HasSubstring(s[..k], Status200)
    requires HeaderBlockLength(s[k..]).Some? && HeaderBlockLength(s[k..]).value == m
    ensures HttpAnswerLength(s).Some? && HttpAnswerLength(s).value == k + m
  {
  }

  /** A header block that starts with a blank line is that line alone. */
  lemma HeaderBlockEndsAtBlankLine(rest: seq<byte>)
    ensures HeaderBlockLength(Crlf + rest).Some? && HeaderBlockLength(Crlf + rest).value == 2
  {
    var t := Crlf + rest;
    assert '\n' as int !in t[..1];
    LineLengthAt(t, 1);
    assert t[..2] == Crlf;
  }

  /** The SOCKS5 request the dialer sends has length 10 for an IPv4 host,
      22 for an IPv6 host and 7 + len(host) for a name, and carries the
      port's low 16 bits high byte first; a port text that is not a number
      is sent as port 0. */
  lemma Socks5RequestShape(host: seq<byte>, ip: IpClass, portText: seq<byte>)
    ensures var req := EncodeRequest(AddressFor(host, ip), Atoi(portText));
      && req[..3] == [5, 1, 0]
      && (ip.V4? ==> |req| == 10 && req[3] == 1 && req[4..8] == ip.v4)
      && (ip.V6? ==> |req| == 22 && req[3] == 4 && req[4..20] == ip.v6)
      && (ip.NotAnIp? ==> |req| == 7 + |host| && req[3] == 3 && req[4] == |host| % 256 && req[5..5 + |host|] == host)
      && PortValue(req[|req| - 2], req[|req| - 1]) == Atoi(portText) % 65536
  {
    var p := Atoi(portText);
    var req := EncodeRequest(AddressFor(host, ip), p);
    assert req[|req| - 2..] == PortBytes(p);
    PortBytesLow16(p);
  }

  /** The reply this project's server sends after its method reply is
      accepted by this dialer, which reads exactly those 12 bytes. */
  lemma ServerReplyAccepted(local: LocalAddr, rest: seq<byte>)
    ensures Socks5AnswerLength(MethodReply + BindReply(local) + rest) == Some(12)
  {
    var s := MethodReply + BindReply(local) + rest;
    assert s[2..12] == BindReply(local);
  }

  /** When the server relays a destination it decoded to an upstream SOCKS5
      proxy (host text handed over with the matching IP class, port as
      decimal text), the dialer sends the very request that decodes to the
      same destination: chaining through a SOCKS5 proxy preserves the
      target. */
  lemma {:induction false} ChainedRequestPreservesDestination(d: Destination, host: seq<byte>, ip: IpClass, rest: seq<byte>)
    requires Encodable(d.addr) && d.port < 65536
    requires AddressFor(host, ip) == d.addr
    ensures var req := EncodeRequest(AddressFor(host, ip), Atoi(Decimal(d.port)));
      req == EncodeRequest(d.addr, d.port)
      && ParseRequest(req + rest) == Ok((d, |req|))
  {
    AtoiDecimal(d.port);
    RequestRoundTrip(d.addr, d.port, rest);
  }
}
