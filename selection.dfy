/**
 * How the server chooses the way to reach a target (server.go:27-50,
 * 179-221, 289-312): the downstream proxy string is classified once by its
 * scheme prefix; per connection an enabled downstream proxy wins, then the
 * systemProxy flag decides between a direct dial and the operating
 * system's proxy, whose discovery result is an input here.
 */
module Selection {
  import opened Wire

  /** The classified downstream proxy (server.go:14-18). */
  datatype DownProxyInfo = DownProxyInfo(proxyType: string, addr: string, enabled: bool)

  /** A discovered system proxy (proxy.go:14-19). */
  datatype ProxyInfo = ProxyInfo(proxyType: string, host: string, port: string, enabled: bool)

  /** What system proxy discovery returned: a proxy or nil, and an error or
      nil. */
  datatype Discovery = Discovery(info: Option<ProxyInfo>, err: Option<string>)

  /** Where a proxy connection is dialled: the downstream proxy by its whole
      configured string, a system proxy by host and port. */
  datatype Endpoint = ProxyUrl(url: string) | ProxyHostPort(host: string, port: string)

  datatype Refusal = UnsupportedType(proxyType: string) | DiscoveryFailed(message: string)

  /** The path a connection takes after its request is decoded. Panic is the
      nil dereference of the code as written and never comes out of
      SelectPath. */
  datatype Path =
    | Direct
    | ViaHttp(proxy: Endpoint)
    | ViaSocks5(proxy: Endpoint)
    | Refuse(why: Refusal)
    | Panic

  /** NewServer's classification of the downstream proxy string: empty means
      none; otherwise "socks5" is tested first, then "https", then "http",
      and any other string leaves the proxy disabled with no type. The
      address always keeps the whole string. */
  function ClassifyDownProxy(downProxy: string): DownProxyInfo
  {
    if downProxy == "" then DownProxyInfo("", downProxy, false)
    else if HasPrefix(downProxy, "socks5") then DownProxyInfo("socks5", downProxy, true)
    else if HasPrefix(downProxy, "https") then DownProxyInfo("https", downProxy, true)
    else if HasPrefix(downProxy, "http") then DownProxyInfo("http", downProxy, true)
    else DownProxyInfo("", downProxy, false)
  }

  /** The switch shared by useDownProxy and useSystemProxy: "http" and
      "https" go through an HTTP CONNECT tunnel, "socks5" through a SOCKS5
      proxy, anything else is an error. */
  function ProxyPath(proxyType: string, endpoint: Endpoint): (p: Path)
    ensures p.ViaHttp? <==> proxyType == "http" || proxyType == "https"
    ensures p.ViaSocks5? <==> proxyType == "socks5"
    ensures p.Refuse? <==> proxyType !in {"http", "https", "socks5"}
    ensures p.Refuse? ==> p.why == UnsupportedType(proxyType)
    ensures p.ViaHttp? || p.ViaSocks5? ==> p.proxy == endpoint
    ensures !p.Panic? && !p.Direct?
  {
    match proxyType
    case "http" => ViaHttp(endpoint)
    case "https" => ViaHttp(endpoint)
    case "socks5" => ViaSocks5(endpoint)
    case _ => Refuse(UnsupportedType(proxyType))
  }

  /** useDownProxy (server.go:289-300). */
  function UseDownProxy(down: DownProxyInfo): Path
  {
    ProxyPath(down.proxyType, ProxyUrl(down.addr))
  }

  /** useSystemProxy (server.go:302-312). */
  function UseSystemProxy(sys: ProxyInfo): Path
  {
    ProxyPath(sys.proxyType, ProxyHostPort(sys.host, sys.port))
  }

  /** The selection exactly as server.go:181-221 writes it: a nil proxy
      returned together with a nil error is dereferenced. */
  function SelectPathAsWritten(down: DownProxyInfo, systemProxy: bool, discovery: Discovery): Path
  {
    if down.enabled then UseDownProxy(down)
    else if !systemProxy then Direct
    else if discovery.err.Some? then Refuse(DiscoveryFailed(discovery.err.value))
    else if discovery.info.None? then Panic
    else if !discovery.info.value.enabled then Direct
    else UseSystemProxy(discovery.info.value)
  }

  /** The selection with the nil proxy read as "no system proxy", which is
      what every discovery routine means by it. */
  function SelectPath(down: DownProxyInfo, systemProxy: bool, discovery: Discovery): (p: Path)
    ensures !p.Panic?
  {
    if down.enabled then UseDownProxy(down)
    else if !systemProxy then Direct
    else if discovery.err.Some? then Refuse(DiscoveryFailed(discovery.err.value))
    else if discovery.info.None? || !discovery.info.value.enabled then Direct
    else UseSystemProxy(discovery.info.value)
  }

  // ---------------------------------------------------------------------
  // Classification

  /** A downstream proxy is enabled exactly when its string starts with
      "socks5" or "http"; the address is the whole string either way. */
  lemma ClassifyEnabledIffKnownScheme(downProxy: string)
    ensures ClassifyDownProxy(downProxy).addr == downProxy
    ensures ClassifyDownProxy(downProxy).enabled <==> HasPrefix(downProxy, "socks5") || HasPrefix(downProxy, "http")
    ensures !ClassifyDownProxy(downProxy).enabled ==> ClassifyDownProxy(downProxy).proxyType == ""
  {
  }

  /** The prefix order: "socks5" first, and "https" before "http", so an
      https URL is never classified as plain http. */
  lemma ClassifyPrefixOrder(downProxy: string)
    ensures HasPrefix(downProxy, "socks5") ==> ClassifyDownProxy(downProxy).proxyType == "socks5"
    ensures HasPrefix(downProxy, "https") ==> ClassifyDownProxy(downProxy).proxyType == "https"
    ensures HasPrefix(downProxy, "http") && !HasPrefix(downProxy, "https") ==> ClassifyDownProxy(downProxy).proxyType == "http"
  {
    if HasPrefix(downProxy, "http") {
      assert downProxy[0] == 'h';
    }
  }

  /** Every downstream proxy NewServer enables has a type the dispatch
      supports, and is dialled by its whole configured string. */
  lemma ClassifiedProxyDispatches(downProxy: string)
    requires ClassifyDownProxy(downProxy).enabled
    ensures UseDownProxy(ClassifyDownProxy(downProxy)) in {ViaHttp(ProxyUrl(downProxy)), ViaSocks5(ProxyUrl(downProxy))}
  {
  }

  // ---------------------------------------------------------------------
  // Priorities

  /** An enabled downstream proxy is always used and discovery is never
      consulted, whatever the systemProxy flag. */
  lemma DownProxyTakesPriority(down: DownProxyInfo, systemProxy: bool, d1: Discovery, d2: Discovery)
    requires down.enabled
    ensures SelectPath(down, systemProxy, d1) == SelectPath(down, systemProxy, d2) == UseDownProxy(down)
  {
  }

  /** Without a downstream proxy and with systemProxy off, the dial is
      direct whatever discovery would say. */
  lemma NoSystemProxyIsDirect(down: DownProxyInfo, discovery: Discovery)
    requires !down.enabled
    ensures SelectPath(down, false, discovery) == Direct
  {
  }

  /** A discovery error refuses the connection; a disabled or absent system
      proxy means a direct dial; an enabled one is used through the type
      switch. */
  lemma SystemProxyOutcomes(down: DownProxyInfo, discovery: Discovery)
    requires !down.enabled
    ensures discovery.err.Some? ==> SelectPath(down, true, discovery) == Refuse(DiscoveryFailed(discovery.err.value))
    ensures discovery.err.None? && (discovery.info.None? || !discovery.info.value.enabled) ==> SelectPath(down, true, discovery) == Direct
    ensures discovery.err.None? && discovery.info.Some? && discovery.info.value.enabled ==>
      SelectPath(down, true, discovery) == UseSystemProxy(discovery.info.value)
  {
  }

  /** A proxy whose type is none of http, https and socks5 is refused, on
      either route. */
  lemma UnknownTypeRefused(down: DownProxyInfo, systemProxy: bool, discovery: Discovery)
    ensures down.enabled && down.proxyType !in {"http", "https", "socks5"} ==>
      SelectPath(down, systemProxy, discovery) == Refuse(UnsupportedType(down.proxyType))
    ensures (&& !down.enabled && systemProxy && discovery.err.None? && discovery.info.Some?
             && discovery.info.value.enabled && discovery.info.value.proxyType !in {"http", "https", "socks5"}) ==>
      SelectPath(down, systemProxy, discovery) == Refuse(UnsupportedType(discovery.info.value.proxyType))
  {
  }

  // ---------------------------------------------------------------------
  // The nil system proxy

  /** As written, discovery that reports no proxy and no error (what the
      discovery routines return when nothing is configured) makes the
      handler dereference nil; the corrected selection dials directly. */
  lemma NilDiscoveryPanics(down: DownProxyInfo, discovery: Discovery)
    requires !down.enabled && discovery == Discovery(None, None)
    ensures SelectPathAsWritten(down, true, discovery) == Panic
    ensures SelectPath(down, true, discovery) == Direct
  {
  }

  /** Apart from that case the corrected selection is the code as
      written. */
  lemma SelectPathAgreesWhenNoPanic(down: DownProxyInfo, systemProxy: bool, discovery: Discovery)
    ensures SelectPathAsWritten(down, systemProxy, discovery) != Panic ==>
      SelectPath(down, systemProxy, discovery) == SelectPathAsWritten(down, systemProxy, discovery)
    ensures SelectPathAsWritten(down, systemProxy, discovery) == Panic <==>
      !down.enabled && systemProxy && discovery == Discovery(None, None)
  {
  }
}
