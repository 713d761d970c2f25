# A verified model of the dcsunny/socks5 proxy core

This project models the core of a small SOCKS5 proxy written in Go: the
server side of the SOCKS5 handshake (RFC 1928 sections 3 to 6), the success
reply, the choice between a direct dial, a downstream proxy and the
operating system's proxy, the two upstream dialers (an HTTP CONNECT tunnel
as in section 9.3.6 of RFC 9110, and a SOCKS5 client), the standalone
handler of `main.go`, and the parsing of the Windows `ProxyServer` setting.

Connections are objects of class `Net.Conn`: a scripted input stream with a
read cursor, an output log that only grows, the number of further writes
the peer accepts (each write after those fails, so a later write can fail
after an earlier one succeeded), and a closed flag. The bytes the peer sends
are taken to have all arrived, so a read returns as much as it asks for, up
to the end of the stream. A `bufio.Reader` is a separate object,
`Net.Reader`, that fills a 4096-byte buffer from its connection and so reads
ahead of its user. The handler and dialer methods read and
write such connections step by step, as the Go code does, and each is
proved against a specification function of the bytes the peer sends
(`Codec.ParseGreeting`, `Codec.ParseRequest`, `Dialers.HttpAnswerLength`,
`Dialers.Socks5AnswerLength`, ...). Lemmas then state what those functions
promise: encodings decode back, only CMD 1 is accepted, an accepted greeting
offers method 0, the port is always 16 bits, a SOCKS5 chain preserves the
destination, a `socks=` entry wins over an `http=` one, and so on.

Modules, one per file:

- `Wire` (wire.dfy): bytes, `contains`, `strings.Contains`,
  `isConnectionClosed`, `fmt "%d"`, `strconv.Atoi` and the two port bytes.
- `Net` (conn.dfy): the connection class, and `bufio.Reader` with its
  buffer and line reading.
- `Codec` (codec.dfy): the SOCKS5 messages and the success reply.
- `Handshake` (handshake.dfy): the server's byte-by-byte reading code and
  the in-place reply buffer.
- `Dialers` (dialers.dfy): `connectViaHttpProxy` and
  `connectViaSocks5Proxy`.
- `Selection` (selection.dfy): `NewServer`'s classification and the path
  choice, including `useDownProxy` and `useSystemProxy`.
- `Socks5Server` (server.dfy): the `Server` class and its
  `handleConnection`.
- `Standalone` (standalone.dfy): `main.go`'s `handleConnection`.
- `WindowsProxy` (windows_proxy.dfy): the `ProxyServer` string parser.

## Model

| member | source | states |
|---|---|---|
| Wire.Contains | proxy_common.go:182-189 | The search loop returns true exactly when the value occurs in the slice, in both directions; main.go:214-221 is the same function. |
| Wire.HasSubstring | proxy_common.go:174-178 | `strings.Contains` is true exactly when the needle occurs at some index of the text. |
| Wire.IsConnectionClosed | proxy_common.go:168-179 | A nil error is never a closed connection; a non-nil error is one exactly when its text contains one of the five listed messages; main.go:224-235 is the same function. |
| Wire.DecimalDigits | server.go:177 | `fmt.Sprintf("%d", n)` is a non-empty string of digits whose value is n, with no leading zero unless n is 0. |
| Wire.AtoiDecimal | proxy_common.go:117 | `strconv.Atoi` of a number rendered in decimal gives the number back, for every value below 10^18. |
| Wire.AtoiNonNumeric | proxy_common.go:117 | A port text of fewer than 19 bytes, without a sign, that is not a number is converted to 0 (the dialer drops the error). Longer texts take Atoi's slow path, which can give the clamped bound instead, as for "99999999999999999999x". |
| Wire.PortBytes | proxy_common.go:118 | `byte(port>>8), byte(port&0xff)` is two bytes, and for a port in 0..65535 they are its big-endian encoding. |
| Wire.PortBytesLow16 | proxy_common.go:118 | For any Go int, the two bytes carry the port's low 16 bits. |
| Wire.PortValue | server.go:177 | `(b0<<8)\|b1` is below 65536, and encoding it again gives back the same two bytes. |
| Net.LineLength | proxy_common.go:36 | The first line ends at the first '\n' and contains no earlier '\n'; there is no line exactly when the stream holds no '\n'. |
| Net.LineLengthAt | proxy_common.go:50 | The first '\n', found at index k, fixes the length of the first line at k + 1. |
| Net.Conn.Read | proxy_common.go:35-36 | A read of up to n bytes returns the next bytes of the stream, as many as are left up to n, and fails only at the end of the stream. |
| Net.Conn.ReadByte | server.go:77 | `bufio.Reader.ReadByte` yields the next byte and advances by one, or fails at the end of the stream without consuming anything. |
| Net.Conn.ReadFull | server.go:138 | `io.ReadFull` yields exactly the next n bytes and advances by n, or fails after consuming what was left. |
| Net.Conn.Write | server.go:110 | A write succeeds exactly while the peer still accepts writes; it then appends all of its data to the output and uses up one accepted write, and otherwise appends nothing. |
| Net.Reader.constructor | proxy_common.go:35 | `bufio.NewReader` starts with an empty buffer at the connection's current position. |
| Net.Reader.Fill | proxy_common.go:36 | Filling the buffer reads from the connection as much as fits (the free space, or what is left of the stream if less), moving the connection forward without changing what the reader's user has consumed; it fails only at the end of the stream. |
| Net.Reader.Take | proxy_common.go:36 | Handing over k buffered bytes advances the user's position by k, and those bytes followed by what remains are what remained before. |
| Net.Reader.ReadLineStep | proxy_common.go:36 | One step of `ReadString('\n')` hands over either a complete line or a fragment holding no '\n' (all of a full buffer, or the rest of the stream), and the handed-over bytes are exactly the next ones. |
| Net.Reader.ReadLine | proxy_common.go:36 | `ReadString('\n')` yields the bytes up to and including the next '\n' and advances the user's position past them, or fails when the stream ends first; the connection itself never moves back. |
| Net.Conn.Close | server.go:73 | After a close the connection is closed. |
| Codec.GreetingNeedsVersion5 | server.go:82-86 | A first byte other than 5 is refused, whatever follows it. |
| Codec.GreetingAcceptedIffNoAuthOffered | server.go:88-107 | A greeting is accepted exactly when method 0 is among its NMETHODS bytes (so never when NMETHODS is 0), and then exactly the greeting's bytes are consumed. |
| Codec.GreetingAcceptedShape | server.go:76-107 | Every accepted greeting has version 5, occupies 2 + NMETHODS bytes (at most 257) and offers method 0. |
| Codec.RequestRoundTrip | server.go:116-177 | A CONNECT request for any carriable address and 16-bit port decodes to that address and port, and consumes exactly the request's bytes. |
| Codec.RequestDecodeEncode | server.go:116-177 | Conversely, every accepted request is byte for byte the encoding of what was decoded, with a 16-bit port; VER and RSV are echoed, not checked. |
| Codec.AddressDecodeEncode | server.go:130-168 | An address field the server accepts is the encoding of the decoded address and occupies exactly the decoded length. |
| Codec.RequestIgnoresVersionAndReserved | server.go:117-128 | Overwriting VER and RSV does not change what the server decodes: only CMD and ATYP are looked at. |
| Codec.OnlyConnectAccepted | server.go:124-128 | A request whose CMD is not 1 is refused. |
| Codec.UnknownAddressTypeRefused | server.go:165-167 | A CONNECT request whose ATYP is not 1, 3 or 4 is refused. |
| Codec.LongDomainTruncated | proxy_common.go:103-105 | A domain name longer than 255 bytes is not carried faithfully: its length byte wraps, and the decoder reads only the first len mod 256 bytes as the name. |
| Codec.PortDecimalRoundTrip | server.go:170-177 | The port text is 1 to 5 decimal digits of a value below 65536, and parsing it and encoding it again gives back the two port bytes. |
| Codec.DottedQuadShape | server.go:143 | `net.IPv4(...).String()` contains no ':' and holds only digits and dots. |
| Codec.BindReply | server.go:232-253 | The reply is 10 bytes: VER 5, REP 0, RSV 0, ATYP 1, then the IPv4 local address or 0.0.0.0, then the port truncated to 16 bits, high byte first. |
| Codec.BindReplyDecodes | server.go:232-253 | The reply's address part is a well-formed IPv4 address field that decodes to its four bytes. |
| Handshake.Negotiate | server.go:76-114 | The negotiation succeeds exactly when the greeting is accepted and [5, 0] can be written; it then consumes exactly the greeting; [5, 0] is written only after an accepted greeting, and otherwise nothing is written. |
| Handshake.ReadRequest | server.go:116-177 | Reading the request yields a destination exactly when the request decodes; the destination is the decoded one and exactly the request's bytes are consumed. |
| Handshake.ReadAddress | server.go:130-168 | The address is read for ATYP 1, 3 and 4 exactly when the address field decodes; the address and length are the decoded ones, and exactly that many bytes are consumed. |
| Handshake.ReadHandshake | server.go:76-177 | The handshake yields exactly the requested destination, and writes exactly the handshake's bytes: [5, 0] after an accepted greeting when the client accepts a write, nothing otherwise; no destination comes out when [5, 0] cannot be written. |
| Handshake.BuildBindReply | server.go:228-253 | The 10-byte buffer filled in place is exactly the success reply. |
| Handshake.WrongVersionWritesNothing | server.go:77-86 | A first byte other than 5 yields no destination and nothing written. |
| Handshake.HandshakeRoundTrip | server.go:76-177 | A client that accepts writes and offers method 0 and sends a CONNECT request gets [5, 0] and has its destination decoded exactly; a client that does not offer method 0 gets nothing written and no destination. |
| Handshake.DestinationOnlyAfterMethodReply | server.go:103-128 | Whenever a destination comes out, [5, 0] was written, the greeting had version 5 and offered method 0, and the request had CMD 1. |
| Handshake.DestinationPortIn16Bits | server.go:170-177 | The decoded port is always below 65536, and its decimal text parses back to it. |
| Dialers.HeaderBlockLength | proxy_common.go:48-59 | The header-skipping loop stops at a blank line: what it reads ends with a complete line that is "\r\n" or "\n". |
| Dialers.HeaderBlockFirstBlankLine | proxy_common.go:48-59 | The header block ends at the first blank line: no shorter prefix ends with one, and there is no header block exactly when no prefix of the stream ends with a blank line. |
| Dialers.HttpAnswerLength | proxy_common.go:34-59 | An accepted answer's first line contains "200", and the answer goes past that line and ends at the blank line of the header block. |
| Dialers.HttpAnswerEndsAtFirstBlankLine | proxy_common.go:34-59 | An answer is accepted exactly when its status line contains "200" and a blank line ends somewhere after it, and the answer ends at the first such blank line. |
| Dialers.ConnectViaHttpProxy | proxy_common.go:13-62 | As written: without a dial nothing happens; otherwise the CONNECT request is written if the proxy accepts a write, success happens exactly when that write succeeds and the answer is accepted, and every failure closes the connection. On success the returned connection has moved past the answer and has also consumed the buffer's read-ahead: up to 4096 bytes from where the answer starts, or to the end of the stream. |
| Dialers.ConnectViaHttpProxyKeepingBuffer | proxy_common.go:13-62 | Corrected: the same writes, outcomes and closing, but the tunnel is returned as the reader that read the answer, positioned exactly after the answer's blank line, so no byte the proxy sent after the answer is lost. |
| Dialers.HttpConnect | proxy_common.go:20-59 | The CONNECT request is written, then the answer is read through a new buffered reader; the exchange succeeds exactly when the write succeeds and the answer is accepted, the reader then being positioned just after the answer; every failure closes the connection. |
| Dialers.ReadHttpAnswer | proxy_common.go:34-59 | Reading the answer through the reader succeeds exactly when the status line contains "200" and a blank line ends the headers, and the reader's user then has consumed exactly the answer. The error is Refused exactly when a complete status line lacks "200", and a read failure otherwise. |
| Dialers.ReadStatusLine | proxy_common.go:36-46 | The status line is read through the reader; the call succeeds exactly when the line is complete and contains "200", and then consumes exactly that line; it is Refused exactly when a complete line lacks "200", and a read failure otherwise. |
| Dialers.SkipHeaders | proxy_common.go:48-59 | The loop succeeds exactly when a blank line comes before the end of the stream, and the reader's user then has consumed every line up to and including the first blank line. |
| Dialers.ConnectRequestFirstLine | proxy_common.go:21-26 | When host and port hold no line feed, the first line of the CONNECT request is "CONNECT host:port HTTP/1.1\r\n". |
| Dialers.ConnectRequestEnds | proxy_common.go:21-26 | The CONNECT request ends with "\r\n\r\n". |
| Dialers.HttpMinimalAnswer | proxy_common.go:34-59 | A status line containing "200" followed at once by a blank line is accepted, and the answer is exactly those bytes, whatever follows them. |
| Dialers.ConnectViaSocks5Proxy | proxy_common.go:65-165 | Without a dial nothing happens; otherwise the greeting is written if the proxy accepts a write, and the request only after the method reply [5, 0] and only if the proxy accepts a second write, so the request write can fail after the greeting went out; success happens exactly when both writes succeed and both answers are accepted, and leaves the connection open after the bound address; every failure closes it. |
| Dialers.Socks5Exchange | proxy_common.go:72-162 | The greeting, then the request once [5, 0] comes back, are written, each only while the proxy accepts writes; the exchange succeeds exactly when both writes succeed and both answers are accepted, and consumes exactly those answers. |
| Dialers.Socks5Greet | proxy_common.go:72-91 | [5, 1, 0] is written if the proxy accepts a write, and the call succeeds exactly when that write succeeds and the two bytes read are [5, 0], consuming those two bytes. |
| Dialers.Socks5Request | proxy_common.go:120-162 | The request is written if the proxy accepts a write, and the call succeeds exactly when that write succeeds and the reply has VER 5 and REP 0 and its bound address is complete; it then consumes exactly the reply. |
| Dialers.BuildSocks5Request | proxy_common.go:93-118 | The appended bytes are the CONNECT request for the host's address class and the port from `strconv.Atoi`. |
| Dialers.SkipBoundAddress | proxy_common.go:145-162 | 6 bytes are consumed for ATYP 1, 1 + N + 2 for ATYP 3 and 18 for ATYP 4; any other ATYP consumes nothing and succeeds. |
| Dialers.Socks5RequestShape | proxy_common.go:93-118 | The request starts with [5, 1, 0] and is 10 bytes for IPv4, 22 for IPv6 and 7 + len(host) for a name; the host length byte wraps; the last two bytes carry the port's low 16 bits. |
| Dialers.ServerReplyAccepted | proxy_common.go:127-162 | This project's own method reply and success reply are accepted by its SOCKS5 dialer, which reads exactly those 12 bytes. |
| Dialers.ChainedRequestPreservesDestination | proxy_common.go:93-118 | A destination relayed as host text of the matching IP class and decimal port text is sent upstream as the very request that decodes to the same destination. |
| Selection.ProxyPath | server.go:292-299 | The type switch: "http" and "https" go through an HTTP tunnel, "socks5" through a SOCKS5 proxy, both to the given endpoint; any other type is refused with that type. |
| Selection.SelectPath | server.go:179-221 | The corrected path choice never dereferences a nil proxy. |
| Selection.ClassifyEnabledIffKnownScheme | server.go:33-48 | The downstream proxy is enabled exactly when its string starts with "socks5" or "http"; Addr always keeps the whole string; a disabled proxy has no type. |
| Selection.ClassifyPrefixOrder | server.go:38-43 | "socks5" is tested first, and "https" before "http", so an https URL is never classified as http. |
| Selection.ClassifiedProxyDispatches | server.go:289-300 | Every downstream proxy that NewServer enables is dialled, through HTTP or SOCKS5, by its whole configured string. |
| Selection.DownProxyTakesPriority | server.go:180-189 | An enabled downstream proxy is always used, and the discovery result makes no difference. |
| Selection.NoSystemProxyIsDirect | server.go:191-198 | With no downstream proxy and systemProxy off, the dial is direct. |
| Selection.SystemProxyOutcomes | server.go:200-221 | In the corrected path choice, a discovery error refuses the connection; a disabled or absent system proxy means a direct dial (the code as written dereferences nil when the proxy is absent); an enabled one goes through the type switch. |
| Selection.UnknownTypeRefused | server.go:289-312 | A proxy of a type other than http, https and socks5 is refused, on either route. |
| Selection.NilDiscoveryPanics | server.go:200-214 | Discovery that returns no proxy and no error makes the code as written dereference nil; the corrected choice dials directly. |
| Selection.SelectPathAgreesWhenNoPanic | server.go:179-221 | The code as written dereferences nil exactly in that case, and everywhere else the corrected choice agrees with it. |
| Socks5Server.Server.NewServer | server.go:27-50 | The flags and addresses are stored, and the downstream proxy is classified by its prefix. |
| Socks5Server.Server.HandleConnection | server.go:72-222 | The client is always closed. Without a destination only the handshake bytes are written and the upstream is untouched. With one, the host and port text is handed to the dial of the selected path; the client gets [5, 0], then the success reply exactly when the upstream connects and the client accepts a second write; the upstream gets exactly the proxy dialer's bytes, a proxy connection is closed exactly when it does not connect, and an upstream that connects is left open even when the success reply cannot be written. |
| Socks5Server.Server.Dial | server.go:179-221 | Corrected in its HTTP branch, which uses Dialers.ConnectViaHttpProxyKeepingBuffer. The upstream connects as the selected path decides: a direct dial as the network does, a proxy dial only when its writes and its exchange succeed. Exactly that proxy's bytes are written, and an HTTP tunnel is handed on with its buffer, just after the proxy's answer, where `connectViaHttpProxy` as written returns the raw connection. |
| Socks5Server.Server.Forward | server.go:224-259 | The success reply is written to the client when the client accepts a write, and nothing otherwise. |
| Socks5Server.ServedClientSeesValidReply | server.go:224-259 | A served client sees [5, 0] followed by the 10-byte reply, which a SOCKS5 client accepts after reading exactly those 12 bytes. |
| Socks5Server.ChainingPreservesTarget | server.go:116-182 | With a SOCKS5 downstream proxy, and provided the host text the server builds classifies back to the address it came from, the request the server sends upstream decodes to exactly the destination the client asked for. The proviso fails, and the address type changes on the way, for an ATYP 3 name that is itself an IP literal and for an IPv4-mapped IPv6 address, which is printed as a dotted quad. |
| Standalone.HandleConnection | main.go:36-184 | Same handshake as the server, but a protocol error leaves the client open. After a destination, the client is closed exactly when the direct dial fails, and otherwise gets the success reply if it accepts a second write; when that write fails the client is left open. |
| WindowsProxy.HostRun | proxy_windows.go:52 | `[^;:]+` starting at an index is the longest run of characters other than ';' and ':'. |
| WindowsProxy.DigitRun | proxy_windows.go:52 | `[0-9]+` starting at an index is the longest run of digits. |
| WindowsProxy.MatchAt | proxy_windows.go:52-53 | A match at an index starts with the key and captures a non-empty host without ';' or ':' and a port of digits only. |
| WindowsProxy.PortGroup | proxy_windows.go:52-60 | The optional port group captures digits only. |
| WindowsProxy.FindEntry | proxy_windows.go:53 | The search finds nothing exactly when no index matches. |
| WindowsProxy.FindEntryAt | proxy_windows.go:53 | The search returns the match at the leftmost index where one starts. |
| WindowsProxy.Split | proxy_windows.go:81 | `strings.Split` gives at least one part, no part holds the separator, and joining the parts gives back the text. |
| WindowsProxy.SplitFirstIsPrefix | proxy_windows.go:81-82 | Part 0 of the split is the text before the first ':'. |
| WindowsProxy.SplitWithoutSeparator | proxy_windows.go:81-87 | Text without ':' splits into itself alone. |
| WindowsProxy.SplitAfterPart | proxy_windows.go:81-85 | A first part without ':' followed by ':' is peeled off by the split. |
| WindowsProxy.ParseProxySettings | proxy_windows.go:29-97 | ProxyEnable 0 or an empty ProxyServer gives no proxy. Every result is enabled and is of type socks5 or http. In the per-protocol form the type is socks5 exactly when a `socks=` match exists. The plain form always gives an http proxy whose host is the text before the first ':'. |
| WindowsProxy.PlainFormRoundTrip | proxy_windows.go:79-89 | In the plain form "host" gives port 80, "host:port" gives that port, and a third field is ignored; the type is http. |
| WindowsProxy.MatchAtEntry | proxy_windows.go:52-60 | An entry "key host[:digits]" followed by the end or ';' is read back as exactly that host and port. |
| WindowsProxy.FirstEntryFound | proxy_windows.go:52-53 | The search finds an entry that only entries without its key come before. |
| WindowsProxy.SocksEntryWins | proxy_windows.go:50-62 | A `socks=` entry wins wherever it stands, even after an `http=` entry: the result is that SOCKS5 proxy, with port 1080 when none is given. |
| WindowsProxy.HttpEntryUsedWithoutSocks | proxy_windows.go:63-73 | Without any `socks=`, an `http=` entry gives that HTTP proxy, with port 80 when none is given. |
| WindowsProxy.NoKeyNoEntry | proxy_windows.go:74-77 | Text that does not contain the key holds no entry for it. |
| WindowsProxy.NoProxyCases | proxy_windows.go:29-77 | There is no proxy exactly when ProxyEnable is 0, ProxyServer is empty, or the per-protocol form has neither a socks nor an http match. |

## Left out

- Handshake.Negotiate and Handshake.ReadRequest: the `bufio` `Read` calls at server.go:97 and server.go:118 (main.go:61 and main.go:82) are modelled as reading all requested bytes or failing. A real short read returns fewer bytes and leaves the rest of the buffer zero-filled, which can make `contains(methods, 0)` true for a method byte that was never sent.
- The relay goroutines of `forward` (server.go:261-286, main.go:186-211), the listener and accept loops (server.go:52-70, main.go:17-34), and `cmd/main.go` are outside the model: they are concurrency and socket I/O. The model stops after the success reply is written.
- Standalone.HandleConnection: the client connection is closed by the relay after a successful reply, so the model leaves it open at that point.
- `net.Dial` is an input (`dialOk`). The target connection's local address is an input (`LocalAddr`). The proxy connection is a scripted `Conn` chosen by the caller.
- `net.ParseIP` with `To4`/`To16`, and `net.IP.String` for IPv6, are function parameters (`classify`, `ipv6Text`). Their parsing and formatting rules are not modelled.
- Logging and the text of error messages are left out. Errors are named by a datatype.
- The registry reads of proxy_windows.go:15-43 are inputs to WindowsProxy.ParseProxySettings: the ProxyEnable number and the ProxyServer string. The registry itself is not modelled, and neither are the (nil, err) results when opening the key or reading either value fails (proxy_windows.go:18-19, 25-26, 36-37).
- GetSystemProxy and the runtime.GOOS dispatch of proxy.go:22-28 are modelled by the `Discovery` input. The Linux and macOS discovery routines are outside the model.
- http_proxy.go and proxy_dialer.go are not part of this model.
- server.go passes the proxy address (`Addr`) to three-argument `ConnectVia...` functions and reads a `sysProxy.Addr` field. proxy_common.go defines four-argument functions, and proxy.go's `ProxyInfo` has `Host` and `Port` fields. The model keeps both forms as `Selection.Endpoint` (a whole URL or a host and port). How an endpoint is split for `net.Dial` is not modelled.
- A write that fails part-way is modelled as writing nothing.
- Socks5Server.Server.Dial: its HTTP branch calls the corrected dialer Dialers.ConnectViaHttpProxyKeepingBuffer, which hands on the buffered reader, instead of `connectViaHttpProxy` as written (proxy_common.go:35,61).
- Net.Conn.Read: every byte the peer sends is taken to have arrived before it is read, so a read returns everything left up to the size asked for. A real socket can return less, and then `bufio`'s read-ahead (and what the as-written HTTP dialer loses) can be smaller than the model says.
- Socks5Server.Server.HandleConnection: it uses the corrected path choice of the server.go:206 finding (Selection.SelectPath) and the corrected HTTP dialer of the proxy_common.go:35,61 finding (Dialers.ConnectViaHttpProxyKeepingBuffer), not the code as written.
- Socks5Server.Server.HandleConnection: the target connection of a direct dial is not a `Conn` of the model, so that it stays open when the success reply cannot be written is stated only for a proxy connection. Standalone.HandleConnection likewise does not model the dialled connection.
- Handshake.ReadHandshake: the server and the standalone handler read the handshake through `bufio.NewReader(conn)` (server.go:74, main.go:38) and then relay from `conn` itself, so client bytes sent right after the request that the buffer already holds never reach the target. The model reads the handshake from the connection directly and does not model the relay, so this loss is not represented.
- WindowsProxy.MatchAt: Go's regexp works on UTF-8 text. The model matches over a sequence of characters, which gives the same matches because the pattern's classes are ASCII.
- WindowsProxy.FindEntry: its own contract states only when nothing is found. That the match found is the leftmost one is stated by WindowsProxy.FindEntryAt.

## Findings

| source | as written | input that shows it | evidently intended | confidence | as-written member | corrected member |
|---|---|---|---|---|---|---|
| proxy_common.go:35,61 | The answer is read through `bufio.NewReader(proxyConn)`, which fills up to 4096 bytes at a time, and then the raw `proxyConn` is returned, so bytes the buffer read past the answer's blank line are dropped. | a proxy that answers "HTTP/1.1 200 OK\r\n\r\n" followed at once by the target's first bytes (an SSH or SMTP banner), all of it within 4096 bytes | the tunnel delivers every byte after the answer | not executed | Dialers.ConnectViaHttpProxy | Dialers.ConnectViaHttpProxyKeepingBuffer |
| server.go:206 | After a nil error from system proxy discovery, `sysProxy.Enabled` is read without a nil check. Discovery returns a nil proxy with a nil error whenever no proxy is configured (proxy_linux.go:64, proxy_windows.go:31 and 42). | no downstream proxy, systemProxy on, discovery returns (nil, nil) | a direct dial, the same as a disabled system proxy | not executed | Selection.SelectPathAsWritten (Selection.NilDiscoveryPanics) | Selection.SelectPath |
