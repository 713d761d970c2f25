/**
 * The standalone handler of main.go: the same handshake and reply as the
 * server, but every target is dialled directly, and the client connection
 * is closed only when that dial fails (main.go:36-212). After a successful
 * reply the relay, which is not part of this model, closes both sides.
 */
module Standalone {
  import opened Wire
  import opened Net
  import opened Codec
  import opened Handshake

  /** handleConnection (main.go:36-184) for one client. `dialOk` is the
      outcome of net.Dial to the target, `local` the dialled connection's
      local address, `ipv6Text` the rendering of an IPv6 address. Returns
      the host and port text handed to the dial, if the request got that
      far. When the success reply cannot be written the handler returns
      with both the client and the dialled connection left open. */
  method HandleConnection(client: Conn, dialOk: bool, local: LocalAddr, ipv6Text: Ipv6Bytes -> seq<byte>)
    returns (target: Option<(seq<byte>, seq<byte>)>)
    requires client.Valid()
    modifies client`pos, client`output, client`writesLeft, client`closed
    ensures client.Valid()
    ensures var dest := RequestedDestination(old(client.Remaining()), old(client.writesLeft));
      var greeted := HandshakeWrites(old(client.Remaining()), old(client.writesLeft)) != [];
      var replied := dest.Some? && dialOk && old(client.writesLeft) >= 2;
      && target == (if dest.None? then None else Some((HostText(dest.value.addr, ipv6Text), Decimal(dest.value.port))))
      && client.output == old(client.output) + HandshakeWrites(old(client.Remaining()), old(client.writesLeft))
                          + (if replied then BindReply(local) else [])
      && client.writesLeft == old(client.writesLeft) - (if greeted then 1 else 0) - (if replied then 1 else 0)
      && client.closed == (old(client.closed) || (dest.Some? && !dialOk))
  {
    ghost var s := client.Remaining();
    ghost var w := client.writesLeft;
    var dest := ReadHandshake(client);
    if dest.None? {
      // protocol errors return without closing the client
      return None;
    }
    DestinationOnlyAfterMethodReply(s, w);
    target := Some((HostText(dest.value.addr, ipv6Text), Decimal(dest.value.port)));
    if !dialOk {
      client.Close();
      return;
    }
    var response := BuildBindReply(local);
    var replied := client.Write(response[..]);
  }
}
