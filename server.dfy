/**
 * The proxy server of server.go: NewServer's configuration, and one
 * connection's life in handleConnection — the handshake, the choice of path,
 * the upstream dial (a direct dial is an input; a proxy dial runs the
 * dialers over the upstream connection), and forward's success reply. The
 * deferred Close means the client connection is closed however the handler
 * returns.
 */
module Socks5Server {
  import opened Wire
  import opened Net
  import opened Codec
  import opened Handshake
  import opened Dialers
  import opened Selection

  /** Whether the upstream connection on `path` is established: a direct
      dial succeeds as the network decides; a proxy dial must also complete
      its exchange with the proxy, whose answers are `up`. */
  function UpstreamConnects(path: Path, dialOk: bool, up: seq<byte>, upWrites: nat): bool
  {
    match path
    case Direct => dialOk
    case ViaHttp(_) => dialOk && upWrites > 0 && HttpAnswerLength(up).Some?
    case ViaSocks5(_) => dialOk && upWrites >= 2 && Socks5AnswerLength(up).Some?
    case Refuse(_) => false
    case Panic => false
  }

  /** The bytes sent to the proxy on `path` for the target host and port;
      nothing for a direct dial or a refused path. */
  function UpstreamWrites(path: Path, dialOk: bool, up: seq<byte>, upWrites: nat,
                          host: seq<byte>, ip: IpClass, port: seq<byte>): seq<byte>
  {
    match path
    case ViaHttp(_) => if dialOk && upWrites > 0 then ConnectRequest(host, port) else []
    case ViaSocks5(_) => if dialOk then Socks5Sent(up, upWrites, Socks5RequestFor(host, ip, port)) else []
    case Direct => []
    case Refuse(_) => []
    case Panic => []
  }

  /** How many of the upstream connection's writes a dial on `path` uses up:
      one per message it manages to send. */
  function UpstreamWritesUsed(path: Path, dialOk: bool, up: seq<byte>, upWrites: nat): nat
  {
    match path
    case ViaHttp(_) => if dialOk && upWrites > 0 then 1 else 0
    case ViaSocks5(_) => if dialOk then Socks5WritesDone(up, upWrites) else 0
    case Direct => 0
    case Refuse(_) => 0
    case Panic => 0
  }

  /** Whether a dial on `path` goes through a proxy connection. */
  predicate DialsProxy(path: Path)
  {
    path.ViaHttp? || path.ViaSocks5?
  }

  class Server {
    /** Whether the operating system's proxy settings are used. */
    var systemProxy: bool
    /** The downstream proxy as configured ("" for none). */
    var downProxy: string
    var listenAddr: string
    var downProxyInfo: DownProxyInfo

    /** NewServer (server.go:27-50): the downstream proxy is enabled and
        typed step by step from its prefix. */
    constructor NewServer(useSystemProxy: bool, listenAddr: string, downProxy: string)
      ensures this.systemProxy == useSystemProxy && this.listenAddr == listenAddr && this.downProxy == downProxy
      ensures downProxyInfo == ClassifyDownProxy(downProxy)
    {
      this.systemProxy := useSystemProxy;
      this.downProxy := downProxy;
      this.listenAddr := listenAddr;
      var info := DownProxyInfo("", downProxy, false);
      if downProxy != "" {
        info := info.(enabled := true);
        if HasPrefix(downProxy, "socks5") {
          info := info.(proxyType := "socks5");
        } else if HasPrefix(downProxy, "https") {
          info := info.(proxyType := "https");
        } else if HasPrefix(downProxy, "http") {
          info := info.(proxyType := "http");
        } else {
          info := info.(enabled := false);
        }
      }
      this.downProxyInfo := info;
    }

    /** handleConnection (server.go:72-222) for one client. The outcome of a
        direct dial is `dialOk`; a proxy dial reaches the proxy when `dialOk`
        and then talks to `upstream`. `ipv6Text` renders an IPv6 address
        (net.IP.String), `classify` is what net.ParseIP and To4 make of a
        host text, `local` is the upstream connection's local address.
        Returns the host and port text handed to the dial, if the request
        got that far. A target connection that is established stays open
        whether or not the success reply reaches the client: forward returns
        without closing it when that write fails. */
    method HandleConnection(client: Conn, upstream: Conn, discovery: Discovery, dialOk: bool, local: LocalAddr,
                            ipv6Text: Ipv6Bytes -> seq<byte>, classify: seq<byte> -> IpClass)
      returns (target: Option<(seq<byte>, seq<byte>)>)
      requires client != upstream
      requires client.Valid() && upstream.Valid() && !upstream.closed
      modifies client`pos, client`output, client`writesLeft, client`closed
      modifies upstream`pos, upstream`output, upstream`writesLeft, upstream`closed
      ensures client.Valid() && upstream.Valid()
      ensures client.closed
      ensures var dest := RequestedDestination(old(client.Remaining()), old(client.writesLeft));
        && (dest.None? ==>
              && target.None? && unchanged(upstream)
              && client.output == old(client.output) + HandshakeWrites(old(client.Remaining()), old(client.writesLeft))
              && client.writesLeft == old(client.writesLeft) - (if HandshakeWrites(old(client.Remaining()), old(client.writesLeft)) == [] then 0 else 1))
        && (dest.Some? ==> target == Some((HostText(dest.value.addr, ipv6Text), Decimal(dest.value.port))))
      ensures target.Some? ==>
        var path := SelectPath(downProxyInfo, systemProxy, discovery);
        var (host, port) := target.value;
        var connects := UpstreamConnects(path, dialOk, old(upstream.Remaining()), old(upstream.writesLeft));
        var replied := connects && old(client.writesLeft) >= 2;
        && client.output == old(client.output) + MethodReply + (if replied then BindReply(local) else [])
        && client.writesLeft == old(client.writesLeft) - (if replied then 2 else 1)
        && upstream.output == old(upstream.output)
             + UpstreamWrites(path, dialOk, old(upstream.Remaining()), old(upstream.writesLeft), host, classify(host), port)
        && upstream.writesLeft == old(upstream.writesLeft)
             - UpstreamWritesUsed(path, dialOk, old(upstream.Remaining()), old(upstream.writesLeft))
        && (!DialsProxy(path) || !dialOk ==> unchanged(upstream))
        && (DialsProxy(path) && dialOk ==> upstream.closed == !connects)
        && (connects ==> !upstream.closed)
    {
      ghost var s := client.Remaining();
      ghost var w := client.writesLeft;
      var dest := ReadHandshake(client);
      if dest.None? {
        client.Close();
        return None;
      }
      DestinationOnlyAfterMethodReply(s, w);
      var targetHost := HostText(dest.value.addr, ipv6Text);
      var targetPort := Decimal(dest.value.port);
      target := Some((targetHost, targetPort));
      var path := SelectPath(downProxyInfo, systemProxy, discovery);
      var connected, tunnel := Dial(path, upstream, dialOk, targetHost, classify(targetHost), targetPort);
      if connected {
        var replied := Forward(client, local);
      }
      client.Close();
    }

    /** The dial of the chosen path: net.Dial for a direct path, useDownProxy
        or useSystemProxy for a proxy path (server.go:181-221, 289-312). An
        HTTP proxy dial keeps its read buffer as `tunnel`, the corrected
        dialer of the read-ahead finding. */
    method Dial(path: Path, upstream: Conn, dialOk: bool, host: seq<byte>, ip: IpClass, port: seq<byte>)
      returns (connected: bool, tunnel: Reader?)
      requires upstream.Valid() && !upstream.closed && !path.Panic?
      modifies upstream`pos, upstream`output, upstream`writesLeft, upstream`closed
      ensures upstream.Valid()
      ensures connected == UpstreamConnects(path, dialOk, old(upstream.Remaining()), old(upstream.writesLeft))
      ensures upstream.output == old(upstream.output) + UpstreamWrites(path, dialOk, old(upstream.Remaining()), old(upstream.writesLeft), host, ip, port)
      ensures upstream.writesLeft == old(upstream.writesLeft) - UpstreamWritesUsed(path, dialOk, old(upstream.Remaining()), old(upstream.writesLeft))
      ensures !DialsProxy(path) || !dialOk ==> unchanged(upstream)
      ensures DialsProxy(path) && dialOk ==> upstream.closed == !connected
      ensures path.ViaHttp? && connected ==>
        && tunnel != null && fresh(tunnel) && tunnel.conn == upstream && tunnel.Valid()
        && tunnel.Position() == old(upstream.pos) + HttpAnswerLength(old(upstream.Remaining())).value
    {
      tunnel := null;
      if path.Direct? {
        connected := dialOk;
      } else if path.ViaHttp? {
        var r;
        r, tunnel := ConnectViaHttpProxyKeepingBuffer(upstream, dialOk, host, port);
        connected := r.Connected?;
      } else if path.ViaSocks5? {
        var r := ConnectViaSocks5Proxy(upstream, dialOk, host, ip, port);
        connected := r.Connected?;
      } else {
        connected := false;
      }
    }

    /** forward's reply (server.go:224-259): the 10-byte success reply built
        in place and written to the client. The relay that follows is not
        part of this model. */
    method Forward(client: Conn, local: LocalAddr) returns (replied: bool)
      modifies client`output, client`writesLeft
      ensures replied <==> old(client.writesLeft) > 0
      ensures client.output == old(client.output) + (if replied then BindReply(local) else [])
      ensures client.writesLeft == if replied then old(client.writesLeft) - 1 else old(client.writesLeft)
    {
      var response := BuildBindReply(local);
      replied := client.Write(response[..]);
    }
  }

  // ---------------------------------------------------------------------
  // Properties of a served connection

  /** A client that gets the success reply sees exactly [5, 0] followed by
      the 10-byte reply, which a SOCKS5 client such as this project's own
      dialer accepts, consuming exactly those bytes. */
  lemma {:induction false} ServedClientSeesValidReply(local: LocalAddr, rest: seq<byte>)
    ensures var answer := MethodReply + BindReply(local);
      |answer| == 12 && Socks5AnswerLength(answer + rest) == Some(12)
  {
    ServerReplyAccepted(local, rest);
  }

  /** With a downstream SOCKS5 proxy configured and a host text that
      classifies back to the address it came from, the request sent
      upstream decodes to exactly the destination the client asked for. */
  lemma {:induction false} ChainingPreservesTarget(input: seq<byte>, ipv6Text: Ipv6Bytes -> seq<byte>,
                                                   classify: seq<byte> -> IpClass, up: seq<byte>, rest: seq<byte>,
                                                   writes: nat, upWrites: nat)
    requires RequestedDestination(input, writes).Some?
    requires var d := RequestedDestination(input, writes).value;
      AddressFor(HostText(d.addr, ipv6Text), classify(HostText(d.addr, ipv6Text))) == d.addr
    requires MethodAccepted(up) && upWrites >= 2
    ensures var d := RequestedDestination(input, writes).value;
      var host := HostText(d.addr, ipv6Text);
      var sent := UpstreamWrites(ViaSocks5(ProxyUrl("socks5")), true, up, upWrites, host, classify(host), Decimal(d.port));
      && sent[..3] == ClientGreeting
      && ParseRequest(sent[3..] + rest) == Ok((d, |sent| - 3))
  {
    var d := RequestedDestination(input, writes).value;
    var n := ParseGreeting(input).value;
    RequestDecodeEncode(input[n..]);
    DestinationPortIn16Bits(input, writes);
    var host := HostText(d.addr, ipv6Text);
    ChainedRequestPreservesDestination(d, host, classify(host), rest);
    var sent := UpstreamWrites(ViaSocks5(ProxyUrl("socks5")), true, up, upWrites, host, classify(host), Decimal(d.port));
    assert sent[3..] == EncodeRequest(d.addr, d.port);
  }
}
