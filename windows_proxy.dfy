/**
 * The Windows discovery routine's reading of the Internet Settings values
 * (proxy_windows.go:29-97), with the registry values given as inputs.
 * ProxyServer is either per protocol ("http=h:p;socks=h:p;...") or plain
 * ("h:p"). The per-protocol entries are found with the regular expressions
 * `socks=([^;:]+)(?::([0-9]+))?` and `http=([^;:]+)(?::([0-9]+))?`, whose
 * leftmost match is modelled by MatchAt and FindEntry.
 */
module WindowsProxy {
  import opened Wire
  import opened Selection

  /** A character of the class [^;:]. */
  predicate HostChar(c: char) { c != ';' && c != ':' }

  predicate DecimalChar(c: char) { '0' <= c <= '9' }

  predicate AllHostChars(t: string) { forall j :: 0 <= j < |t| ==> HostChar(t[j]) }

  predicate AllDecimalChars(t: string) { forall j :: 0 <= j < |t| ==> DecimalChar(t[j]) }

  /** The length of the longest run of host characters starting at i. */
  function HostRun(s: string, i: nat): (n: nat)
    requires i <= |s|
    ensures i + n <= |s|
    ensures forall j :: i <= j < i + n ==> HostChar(s[j])
    ensures i + n == |s| || !HostChar(s[i + n])
    decreases |s| - i
  {
    if i == |s| || !HostChar(s[i]) then 0 else 1 + HostRun(s, i + 1)
  }

  /** The length of the longest run of decimal digits starting at i. */
  function DigitRun(s: string, i: nat): (n: nat)
    requires i <= |s|
    ensures i + n <= |s|
    ensures forall j :: i <= j < i + n ==> DecimalChar(s[j])
    ensures i + n == |s| || !DecimalChar(s[i + n])
    decreases |s| - i
  {
    if i == |s| || !DecimalChar(s[i]) then 0 else 1 + DigitRun(s, i + 1)
  }

  /** The two submatches: the host, and the port ("" when the optional
      group did not take part). */
  datatype Entry = Entry(host: string, port: string)

  /** The regular expression `key([^;:]+)(?::([0-9]+))?` tried at index i
      (key is "socks=" or "http="): both repetitions are greedy, and the
      optional port group is taken whenever a ':' and at least one digit
      follow the host. */
  function MatchAt(s: string, key: string, i: nat): (m: Option<Entry>)
    ensures m.Some? ==> OccursAt(key, s, i) && m.value.host != []
    ensures m.Some? ==> AllHostChars(m.value.host) && AllDecimalChars(m.value.port)
  {
    if !OccursAt(key, s, i) then None
    else
      var start := i + |key|;
      var h := HostRun(s, start);
      if h == 0 then None
      else Some(Entry(s[start..start + h], PortGroup(s, start + h)))
  }

  /** The optional group `(?::([0-9]+))?` at index e: the digits after a
      ':'. It is empty when no ':' follows or no digit follows the ':', and
      then the group does not take part. */
  function PortGroup(s: string, e: nat): (port: string)
    requires e <= |s|
    ensures AllDecimalChars(port)
  {
    if e < |s| && s[e] == ':' then s[e + 1..e + 1 + DigitRun(s, e + 1)] else []
  }

  /** FindStringSubmatch from index i on: the match at the leftmost index
      where one starts. */
  function FindEntry(s: string, key: string, i: nat): (m: Option<Entry>)
    requires i <= |s|
    ensures m.None? <==> forall j :: i <= j <= |s| ==> MatchAt(s, key, j).None?
    decreases |s| - i
  {
    if MatchAt(s, key, i).Some? then MatchAt(s, key, i)
    else if i == |s| then None
    else FindEntry(s, key, i + 1)
  }

  // ---------------------------------------------------------------------
  // strings.Split on ':'

  /** strings.Split(s, sep) for a one-character separator. */
  function Split(s: string, sep: char): (parts: seq<string>)
    ensures |parts| >= 1
    ensures forall k :: 0 <= k < |parts| ==> sep !in parts[k]
    ensures Join(parts, sep) == s
    decreases |s|
  {
    if s == [] then [[]]
    else
      var rest := Split(s[1..], sep);
      if s[0] == sep then
        assert Join([[]] + rest, sep) == [sep] + Join(rest, sep);
        [[]] + rest
      else
        var parts := [[s[0]] + rest[0]] + rest[1..];
        assert Join(parts, sep) == [s[0]] + Join(rest, sep) by {
          if |rest| > 1 {
            assert parts[1..] == rest[1..];
          }
        }
        parts
  }

  /** strings.Join(parts, string(sep)): the inverse of Split. */
  function Join(parts: seq<string>, sep: char): string
    requires |parts| >= 1
    decreases |parts|
  {
    if |parts| == 1 then parts[0] else parts[0] + [sep] + Join(parts[1..], sep)
  }

  // ---------------------------------------------------------------------
  // getProxy once the registry values are read

  /** What getProxy returns when ProxyEnable and ProxyServer read without
      error: None stands for the (nil, nil) of "no proxy". */
  function ParseProxySettings(proxyEnable: nat, proxyServer: string): (r: Option<ProxyInfo>)
    ensures proxyEnable == 0 || proxyServer == "" ==> r.None?
    ensures r.Some? ==> r.value.enabled && r.value.proxyType in {"socks5", "http"}
    ensures r.Some? && '=' in proxyServer ==>
      (r.value.proxyType == "socks5" <==> exists j :: 0 <= j <= |proxyServer| && MatchAt(proxyServer, "socks=", j).Some?)
    ensures '=' !in proxyServer && proxyServer != "" && proxyEnable != 0 ==>
      && r.Some? && r.value.proxyType == "http" && ':' !in r.value.host && HasPrefix(proxyServer, r.value.host)
      && (|r.value.host| == |proxyServer| || proxyServer[|r.value.host|] == ':')
  {
    if proxyEnable == 0 then None
    else if proxyServer == "" then None
    else if '=' in proxyServer then
      match FindEntry(proxyServer, "socks=", 0)
      case Some(e) => Some(ProxyInfo("socks5", e.host, if e.port == [] then "1080" else e.port, true))
      case None =>
        match FindEntry(proxyServer, "http=", 0)
        case Some(e) => Some(ProxyInfo("http", e.host, if e.port == [] then "80" else e.port, true))
        case None => None
    else
      var parts := Split(proxyServer, ':');
      SplitFirstIsPrefix(proxyServer, ':');
      Some(ProxyInfo("http", parts[0], if |parts| > 1 then parts[1] else "80", true))
  }

  // ---------------------------------------------------------------------
  // Properties

  /** The first part of a split is the text before the first separator. */
  lemma {:induction false} SplitFirstIsPrefix(s: string, sep: char)
    ensures var p := Split(s, sep)[0];
      HasPrefix(s, p) && (|p| == |s| || s[|p|] == sep)
    decreases |s|
  {
    if s != [] && s[0] != sep {
      SplitFirstIsPrefix(s[1..], sep);
    }
  }

  /** Splitting text that holds no separator gives the text itself. */
  lemma {:induction false} SplitWithoutSeparator(s: string, sep: char)
    requires sep !in s
    ensures Split(s, sep) == [s]
    decreases |s|
  {
    if s != [] {
      assert sep !in s[1..] by {
        assert forall c :: c in s[1..] ==> c in s;
      }
      SplitWithoutSeparator(s[1..], sep);
    }
  }

  /** Splitting at a first separator after a part without one peels that
      part off. */
  lemma {:induction false} SplitAfterPart(a: string, sep: char, b: string)
    requires sep !in a
    ensures Split(a + [sep] + b, sep) == [a] + Split(b, sep)
    decreases |a|
  {
    if a == [] {
      assert a + [sep] + b == [sep] + b;
      assert ([sep] + b)[1..] == b;
    } else {
      assert (a + [sep] + b)[1..] == a[1..] + [sep] + b;
      assert sep !in a[1..] by {
        assert forall c :: c in a[1..] ==> c in a;
      }
      SplitAfterPart(a[1..], sep, b);
      assert [a[0]] + a[1..] == a;
    }
  }

  /** The result is an enabled proxy of the given type, host and port. */
  predicate Found(r: Option<ProxyInfo>, proxyType: string, host: string, port: string)
  {
    r.Some? && r.value.proxyType == proxyType && r.value.host == host && r.value.port == port && r.value.enabled
  }

  /** The plain form: "host:port" gives that host and port, "host" alone
      gives port 80, and a third field is ignored; the type is http. */
  lemma PlainFormRoundTrip(host: string, port: string, extra: string)
    requires ':' !in host && ':' !in port && '=' !in host && '=' !in port && '=' !in extra
    ensures host != "" ==> Found(ParseProxySettings(1, host), "http", host, "80")
    ensures Found(ParseProxySettings(1, host + ":" + port), "http", host, port)
    ensures Found(ParseProxySettings(1, host + ":" + port + ":" + extra), "http", host, port)
  {
    if host != "" {
      PlainHostOnly(host);
    }
    PlainHostAndPort(host, port);
    PlainThirdFieldIgnored(host, port, extra);
  }

  lemma PlainHostOnly(host: string)
    requires host != "" && ':' !in host && '=' !in host
    ensures Found(ParseProxySettings(1, host), "http", host, "80")
  {
    SplitWithoutSeparator(host, ':');
    PlainFormGives(host, [host]);
  }

  lemma PlainHostAndPort(host: string, port: string)
    requires ':' !in host && ':' !in port && '=' !in host && '=' !in port
    ensures Found(ParseProxySettings(1, host + ":" + port), "http", host, port)
  {
    SplitWithoutSeparator(port, ':');
    SplitAfterPart(host, ':', port);
    NotInColonJoin('=', host, port);
    PlainFormGives(host + ":" + port, [host, port]);
  }

  lemma PlainThirdFieldIgnored(host: string, port: string, extra: string)
    requires ':' !in host && ':' !in port && '=' !in host && '=' !in port && '=' !in extra
    ensures Found(ParseProxySettings(1, host + ":" + port + ":" + extra), "http", host, port)
  {
    var tail := port + ":" + extra;
    var s := host + ":" + tail;
    assert host + ":" + port + ":" + extra == s;
    SplitAfterPart(port, ':', extra);
    var rest := Split(tail, ':');
    assert |rest| > 1 && rest[0] == port;
    SplitAfterPart(host, ':', tail);
    NotInColonJoin('=', port, extra);
    NotInColonJoin('=', host, tail);
    PlainFormGives(s, [host] + rest);
  }

  /** The plain form's result read off the parts of the split. */
  lemma PlainFormGives(s: string, parts: seq<string>)
    requires s != "" && '=' !in s && Split(s, ':') == parts
    ensures Found(ParseProxySettings(1, s), "http", parts[0], if |parts| > 1 then parts[1] else "80")
  {
  }

  /** Joining two texts with ':' adds no other character. */
  lemma NotInColonJoin(c: char, a: string, b: string)
    requires c != ':' && c !in a && c !in b
    ensures c !in a + ":" + b
  {
  }

  /** The text of an entry's optional port group. */
  function PortSuffix(port: string): string
  {
    if port == [] then [] else [':'] + port
  }

  /** One per-protocol entry is read back exactly: a key, a non-empty host
      without ';' or ':', an optional ":digits" port, then the end of the
      string or a ';'. */
  lemma MatchAtEntry(pre: string, key: string, host: string, port: string, post: string)
    requires host != [] && AllHostChars(host)
    requires AllDecimalChars(port)
    requires post == [] || post[0] == ';'
    ensures var m := MatchAt(pre + key + host + PortSuffix(port) + post, key, |pre|);
      m.Some? && m.value.host == host && m.value.port == port
  {
    if port == [] {
      EntryWithoutPort(pre, key, host, post);
      assert pre + key + host + PortSuffix(port) + post == pre + key + host + post;
    } else {
      EntryWithPort(pre, key, host, port, post);
    }
  }

  lemma EntryWithoutPort(pre: string, key: string, host: string, post: string)
    requires host != [] && AllHostChars(host)
    requires post == [] || post[0] == ';'
    ensures var m := MatchAt(pre + key + host + post, key, |pre|);
      m.Some? && m.value.host == host && m.value.port == []
  {
    EntryLayout(pre, key, host, [], post);
    assert pre + key + host + [] + post == pre + key + host + post;
    EntrySpan(pre + key + host + post, key, |pre|, host, []);
  }

  lemma EntryWithPort(pre: string, key: string, host: string, port: string, post: string)
    requires host != [] && AllHostChars(host)
    requires port != [] && AllDecimalChars(port)
    requires post == [] || post[0] == ';'
    ensures var m := MatchAt(pre + key + host + PortSuffix(port) + post, key, |pre|);
      m.Some? && m.value.host == host && m.value.port == port
  {
    var s := pre + key + host + PortSuffix(port) + post;
    var e := |pre| + |key| + |host|;
    EntryLayout(pre, key, host, PortSuffix(port), post);
    assert PortSuffix(port) + post == [':'] + port + post;
    PortGroupAt(s, e, port, post);
    EntrySpan(s, key, |pre|, host, port);
  }

  /** Where the parts of an entry stand in the whole string. */
  lemma EntryLayout(pre: string, key: string, host: string, suffix: string, post: string)
    ensures var s := pre + key + host + suffix + post;
      var e := |pre| + |key| + |host|;
      && OccursAt(key, s, |pre|) && s[|pre| + |key|..e] == host
      && s[e..] == suffix + post
  {
    var s := pre + key + host + suffix + post;
    assert s[|pre|..|pre| + |key|] == key;
  }

  /** MatchAt at index i where the key is followed by the host, which is
      followed by a character outside [^;:] or the end, and then by the
      port group. */
  lemma EntrySpan(s: string, key: string, i: nat, host: string, port: string)
    requires OccursAt(key, s, i)
    requires host != [] && AllHostChars(host)
    requires i + |key| + |host| <= |s| && s[i + |key|..i + |key| + |host|] == host
    requires i + |key| + |host| == |s| || !HostChar(s[i + |key| + |host|])
    requires PortGroup(s, i + |key| + |host|) == port
    ensures MatchAt(s, key, i).Some? && MatchAt(s, key, i).value.host == host && MatchAt(s, key, i).value.port == port
  {
    HostRunAt(s, i + |key|, host);
  }

  /** The port group at e is the digits written after the ':' there, when
      the end of the string or a ';' follows them. */
  lemma PortGroupAt(s: string, e: nat, port: string, post: string)
    requires AllDecimalChars(port) && (post == [] || post[0] == ';')
    requires e <= |s| && s[e..] == [':'] + port + post
    ensures e < |s| && s[e] == ':' && PortGroup(s, e) == port
  {
    assert s[e] == s[e..][0];
    assert forall j :: e + 1 <= j < e + 1 + |port| ==> s[j] == s[e..][j - e] == port[j - e - 1];
    assert e + 1 + |port| == |s| || s[e + 1 + |port|] == s[e..][1 + |port|] == post[0];
    DigitRunIs(s, e + 1, |port|);
    assert s[e + 1..e + 1 + |port|] == s[e..][1..1 + |port|] == port;
  }

  /** The host run at `start` is exactly the host written there. */
  lemma HostRunAt(s: string, start: nat, host: string)
    requires AllHostChars(host) && start + |host| <= |s| && s[start..start + |host|] == host
    requires start + |host| == |s| || !HostChar(s[start + |host|])
    ensures HostRun(s, start) == |host|
  {
    assert forall j :: start <= j < start + |host| ==> s[j] == host[j - start];
    HostRunIs(s, start, |host|);
  }

  /** A run of n host characters ended by the end of the string or by a
      non-host character has length n. */
  lemma {:induction false} HostRunIs(s: string, i: nat, n: nat)
    requires i + n <= |s|
    requires forall j :: i <= j < i + n ==> HostChar(s[j])
    requires i + n == |s| || !HostChar(s[i + n])
    ensures HostRun(s, i) == n
    decreases n
  {
    if n > 0 {
      HostRunIs(s, i + 1, n - 1);
    }
  }

  /** A run of n digits ended by the end of the string or by a non-digit
      has length n. */
  lemma {:induction false} DigitRunIs(s: string, i: nat, n: nat)
    requires i + n <= |s|
    requires forall j :: i <= j < i + n ==> DecimalChar(s[j])
    requires i + n == |s| || !DecimalChar(s[i + n])
    ensures DigitRun(s, i) == n
    decreases n
  {
    if n > 0 {
      DigitRunIs(s, i + 1, n - 1);
    }
  }

  /** The search from index i finds the match at j when j is the first
      index from i on where one starts. */
  lemma {:induction false} FindEntryAt(s: string, key: string, i: nat, j: nat)
    requires i <= j <= |s| && MatchAt(s, key, j).Some?
    requires forall k :: i <= k < j ==> MatchAt(s, key, k).None?
    ensures FindEntry(s, key, i) == MatchAt(s, key, j)
    decreases j - i
  {
    if i < j {
      FindEntryAt(s, key, i + 1, j);
    }
  }

  /** A socks entry wins wherever it stands: with a "socks=host[:port]"
      entry after entries that hold no "socks=", the result is that SOCKS5
      proxy, port 1080 when none is given, even if an http entry comes
      first. */
  lemma SocksEntryWins(pre: string, host: string, port: string, post: string)
    requires pre == [] || pre[|pre| - 1] == ';'
    requires !HasSubstring(pre, "socks=")
    requires host != [] && AllHostChars(host)
    requires AllDecimalChars(port)
    requires post == [] || post[0] == ';'
    ensures var s := pre + "socks=" + host + PortSuffix(port) + post;
      Found(ParseProxySettings(1, s), "socks5", host, if port == [] then "1080" else port)
  {
    var s := pre + "socks=" + host + PortSuffix(port) + post;
    FirstEntryFound(pre, "socks=", host, port, post);
    KeyMarksPerProtocol(pre, "socks=", host, PortSuffix(port), post);
    SocksFound(s, host, port);
  }

  /** A string holding a key that ends in '=' is in the per-protocol
      form. */
  lemma KeyMarksPerProtocol(pre: string, key: string, host: string, suffix: string, post: string)
    requires |key| > 0 && key[|key| - 1] == '='
    ensures '=' in pre + key + host + suffix + post
  {
    var s := pre + key + host + suffix + post;
    assert s[|pre| + |key| - 1] == key[|key| - 1];
  }

  /** In the per-protocol form, the first socks entry is the result. */
  lemma SocksFound(s: string, host: string, port: string)
    requires '=' in s
    requires var m := FindEntry(s, "socks=", 0); m.Some? && m.value.host == host && m.value.port == port
    ensures Found(ParseProxySettings(1, s), "socks5", host, if port == [] then "1080" else port)
  {
  }

  /** In the per-protocol form without a socks entry, the first http entry
      is the result. */
  lemma HttpFound(s: string, host: string, port: string)
    requires '=' in s && FindEntry(s, "socks=", 0).None?
    requires var m := FindEntry(s, "http=", 0); m.Some? && m.value.host == host && m.value.port == port
    ensures Found(ParseProxySettings(1, s), "http", host, if port == [] then "80" else port)
  {
  }

  /** The search finds an entry preceded only by entries without its key. */
  lemma FirstEntryFound(pre: string, key: string, host: string, port: string, post: string)
    requires pre == [] || pre[|pre| - 1] == ';'
    requires !HasSubstring(pre, key) && ';' !in key
    requires host != [] && AllHostChars(host)
    requires AllDecimalChars(port)
    requires post == [] || post[0] == ';'
    ensures var m := FindEntry(pre + key + host + PortSuffix(port) + post, key, 0);
      m.Some? && m.value.host == host && m.value.port == port
  {
    var s := pre + key + host + PortSuffix(port) + post;
    MatchAtEntry(pre, key, host, port, post);
    NoEarlierMatch(pre, key, s);
    FindEntryAt(s, key, 0, |pre|);
  }

  /** Without any "socks=" in the string, an "http=host[:port]" entry after
      entries that hold no "http=" gives that HTTP proxy, port 80 when none
      is given. */
  lemma HttpEntryUsedWithoutSocks(pre: string, host: string, port: string, post: string)
    requires pre == [] || pre[|pre| - 1] == ';'
    requires !HasSubstring(pre, "http=")
    requires host != [] && AllHostChars(host)
    requires AllDecimalChars(port)
    requires post == [] || post[0] == ';'
    requires !HasSubstring(pre + "http=" + host + PortSuffix(port) + post, "socks=")
    ensures var s := pre + "http=" + host + PortSuffix(port) + post;
      Found(ParseProxySettings(1, s), "http", host, if port == [] then "80" else port)
  {
    var s := pre + "http=" + host + PortSuffix(port) + post;
    FirstEntryFound(pre, "http=", host, port, post);
    KeyMarksPerProtocol(pre, "http=", host, PortSuffix(port), post);
    NoKeyNoEntry(s, "socks=");
    HttpFound(s, host, port);
  }

  /** Text that does not contain the key holds no entry for it. */
  lemma NoKeyNoEntry(s: string, key: string)
    requires !HasSubstring(s, key)
    ensures FindEntry(s, key, 0).None?
  {
    forall j | 0 <= j <= |s|
      ensures MatchAt(s, key, j).None?
    {
      assert !OccursAt(key, s, j);
    }
  }

  /** A key ending in '=' and holding no ';' cannot start in an entry list
      `pre` that ends with ';' (or is empty) and does not contain it. */
  lemma NoEarlierMatch(pre: string, key: string, s: string)
    requires pre == [] || pre[|pre| - 1] == ';'
    requires !HasSubstring(pre, key) && ';' !in key
    requires HasPrefix(s, pre)
    ensures forall j :: 0 <= j < |pre| ==> !OccursAt(key, s, j)
  {
    forall j | 0 <= j < |pre| ensures !OccursAt(key, s, j) {
      if j + |key| <= |pre| {
        SliceOfPrefix(s, pre, j, j + |key|);
        assert !OccursAt(key, pre, j);
      } else if j + |key| <= |s| {
        assert s[|pre| - 1] == ';';
        assert s[j..j + |key|][|pre| - 1 - j] == ';';
      }
    }
  }

  /** A slice inside a prefix is the same slice of the prefix. */
  lemma SliceOfPrefix(s: string, pre: string, i: nat, k: nat)
    requires HasPrefix(s, pre) && i <= k <= |pre|
    ensures s[i..k] == pre[i..k]
  {
    forall m | i <= m < k
      ensures s[m] == pre[m]
    {
      assert pre[m] == s[..|pre|][m];
    }
    assert s[i..k] == pre[i..k];
  }

  /** getProxy reports no proxy, the (nil, nil) that the server as written
      dereferences (server.go:206), exactly when ProxyEnable is 0, ProxyServer
      is empty, or ProxyServer is per protocol with neither a socks nor an
      http entry. */
  lemma NoProxyCases(proxyEnable: nat, proxyServer: string)
    ensures ParseProxySettings(proxyEnable, proxyServer).None? <==>
      || proxyEnable == 0
      || proxyServer == ""
      || ('=' in proxyServer
          && (forall j :: 0 <= j <= |proxyServer| ==> MatchAt(proxyServer, "socks=", j).None?)
          && (forall j :: 0 <= j <= |proxyServer| ==> MatchAt(proxyServer, "http=", j).None?))
  {
  }
}
