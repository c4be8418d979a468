/**
 * The URL handling of the HTTP client: `send_request` picks the scheme by
 * prefix and splits the rest into host, port and path before the network
 * exchange; `resolve` picks the address out of a DNS answer.
 */
module Request {
  import opened Wrappers
  import opened RustStr

  const HTTPS_PREFIX := "https://"
  const HTTP_PREFIX := "http://"
  const HTTPS_DEFAULT_PORT := "443"
  const HTTP_DEFAULT_PORT := "80"

  datatype Scheme = Https | Http

  /** The errors of `RequestError` that arise before any network traffic. */
  datatype RequestError = UnsupportedScheme | PortParse | DnsLookup

  /** What `send_request` passes on to the HTTPS or plain HTTP request. */
  datatype Target = Target(scheme: Scheme, host: string, port: nat, path: string)

  /** Host and path split at the first '/', the path being empty when there is none. */
  function SplitPath(rest: string): (r: (string, string))
    ensures Contains(rest, "/") ==> rest == r.0 + "/" + r.1
    ensures !Contains(rest, "/") ==> r == (rest, "")
    ensures !Contains(r.0, "/")
  {
    match SplitOnce(rest, "/")
    case Some(p) => SplitOnceBeforeFree(rest, "/"); p
    case None => (rest, "")
  }

  /** Host and port text split at the first ':', the port text being `default` when there is none. */
  function SplitPort(hostAndPort: string, default: string): (r: (string, string))
    ensures Contains(hostAndPort, ":") ==> hostAndPort == r.0 + ":" + r.1
    ensures !Contains(hostAndPort, ":") ==> r == (hostAndPort, default)
    ensures !Contains(r.0, ":")
    ensures !Contains(hostAndPort, "/") ==> !Contains(r.0, "/")
  {
    match SplitOnce(hostAndPort, ":")
    case Some(p) =>
      SplitOnceBeforeFree(hostAndPort, ":");
      if Contains(p.0, "/") then ContainsPrefix(p.0, ":" + p.1, "/"); assert p.0 + ":" + p.1 == p.0 + (":" + p.1); p
      else p
    case None => (hostAndPort, default)
  }

  /** The part of `send_request` shared by both schemes. */
  function Locate(scheme: Scheme, rest: string, default: string): (r: Result<Target, RequestError>)
    ensures r.Ok? ==> r.value.scheme == scheme && r.value.port < 0x1_0000
    ensures r.Ok? ==> !Contains(r.value.host, "/") && !Contains(r.value.host, ":")
    ensures r.Ok? || r == Err(PortParse)
    ensures r == Err(PortParse) <==> ParseU16(SplitPort(SplitPath(rest).0, default).1).None?
    ensures r.Ok? ==> ParseU16(SplitPort(SplitPath(rest).0, default).1) == Some(r.value.port)
  {
    var (hostAndPort, path) := SplitPath(rest);
    var (host, portText) := SplitPort(hostAndPort, default);
    match ParseU16(portText)
    case None => Err(PortParse)
    case Some(port) => Ok(Target(scheme, host, port, path))
  }

  /** `send_request` up to the call that opens the connection. */
  function SplitUrl(url: string): (r: Result<Target, RequestError>)
    ensures r == Err(UnsupportedScheme) <==> !StartsWith(url, HTTPS_PREFIX) && !StartsWith(url, HTTP_PREFIX)
    ensures r.Ok? ==> (r.value.scheme == Https <==> StartsWith(url, HTTPS_PREFIX))
    ensures r.Ok? ==> r.value.port < 0x1_0000
    ensures r.Ok? ==> !Contains(r.value.host, "/") && !Contains(r.value.host, ":")
  {
    match StripPrefix(url, HTTPS_PREFIX)
    case Some(rest) => Locate(Https, rest, HTTPS_DEFAULT_PORT)
    case None =>
      match StripPrefix(url, HTTP_PREFIX)
      case Some(rest) => Locate(Http, rest, HTTP_DEFAULT_PORT)
      case None => Err(UnsupportedScheme)
  }

  function Prefix(scheme: Scheme): string {
    match scheme
    case Https => HTTPS_PREFIX
    case Http => HTTP_PREFIX
  }

  predicate PlainHost(host: string) {
    !Contains(host, "/") && !Contains(host, ":")
  }

  function DefaultPort(scheme: Scheme): string {
    match scheme
    case Https => HTTPS_DEFAULT_PORT
    case Http => HTTP_DEFAULT_PORT
  }

  lemma SplitUrlOf(scheme: Scheme, rest: string)
    ensures SplitUrl(Prefix(scheme) + rest) == Locate(scheme, rest, DefaultPort(scheme))
  {
    SchemeDispatch(scheme, rest);
  }

  lemma LocateRoundTrip(t: Target, default: string)
    requires PlainHost(t.host) && t.port < 0x1_0000
    ensures Locate(t.scheme, t.host + ":" + NatToString(t.port) + "/" + t.path, default) == Ok(t)
  {
    var portText := NatToString(t.port);
    var hostAndPort := t.host + ":" + portText;
    SlashFree(portText);
    NoPatInConcat(t.host, ":", portText, "/");
    FirstOccurrence(hostAndPort, "/", t.path);
    assert SplitPath(hostAndPort + "/" + t.path) == (hostAndPort, t.path);
    FirstOccurrence(t.host, ":", portText);
    assert SplitPort(hostAndPort, default) == (t.host, portText);
    ParseU16OfNatToString(t.port);
  }

  /** A located target rebuilds the text after the scheme: host, then ':' and the port text if given, then '/' and the path if given. */
  lemma LocateRebuilds(scheme: Scheme, rest: string, default: string)
    requires Locate(scheme, rest, default).Ok?
    ensures var t := Locate(scheme, rest, default).value;
      rest == t.host
        + (if Contains(SplitPath(rest).0, ":") then ":" + SplitPort(SplitPath(rest).0, default).1 else "")
        + (if Contains(rest, "/") then "/" + t.path else "")
  {
    RebuildParts(rest, default);
  }

  /** The two splits of `send_request` lose nothing but the separators they split at. */
  lemma RebuildParts(rest: string, default: string)
    ensures rest == SplitPort(SplitPath(rest).0, default).0
        + (if Contains(SplitPath(rest).0, ":") then ":" + SplitPort(SplitPath(rest).0, default).1 else "")
        + (if Contains(rest, "/") then "/" + SplitPath(rest).1 else "")
  {
    var hostAndPort := SplitPath(rest).0;
    var path := SplitPath(rest).1;
    var host := SplitPort(hostAndPort, default).0;
    var portText := SplitPort(hostAndPort, default).1;
    var mid: string;
    if Contains(hostAndPort, ":") {
      mid := ":" + portText;
      assert hostAndPort == host + ":" + portText;
      assert host + ":" + portText == host + mid;
    } else {
      mid := "";
      assert host == hostAndPort && host + mid == host;
    }
    var tail: string;
    if Contains(rest, "/") {
      tail := "/" + path;
      assert rest == hostAndPort + "/" + path;
      assert hostAndPort + "/" + path == hostAndPort + tail;
    } else {
      tail := "";
      assert rest == hostAndPort && hostAndPort + tail == hostAndPort;
    }
    assert rest == host + mid + tail;
  }

  /** A port text that is not a 16-bit decimal number is a port parse error, whatever the host and path. */
  lemma LocateBadPort(scheme: Scheme, host: string, portText: string, path: string, default: string)
    requires PlainHost(host) && !Contains(portText, "/") && ParseU16(portText).None?
    ensures Locate(scheme, host + ":" + portText + "/" + path, default) == Err(PortParse)
  {
    var hostAndPort := host + ":" + portText;
    NoPatInConcat(host, ":", portText, "/");
    FirstOccurrence(hostAndPort, "/", path);
    FirstOccurrence(host, ":", portText);
  }

  /** Round trip: a URL with an explicit port splits back into its parts. */
  lemma SplitUrlRoundTrip(t: Target)
    requires PlainHost(t.host) && t.port < 0x1_0000
    ensures SplitUrl(Prefix(t.scheme) + t.host + ":" + NatToString(t.port) + "/" + t.path) == Ok(t)
  {
    var rest := t.host + ":" + NatToString(t.port) + "/" + t.path;
    assert Prefix(t.scheme) + t.host + ":" + NatToString(t.port) + "/" + t.path == Prefix(t.scheme) + rest;
    SplitUrlOf(t.scheme, rest);
    LocateRoundTrip(t, DefaultPort(t.scheme));
  }

  /** The scheme prefixes are told apart: "http://..." does not start with "https://". */
  lemma SchemeDispatch(scheme: Scheme, rest: string)
    ensures StripPrefix(Prefix(scheme) + rest, HTTPS_PREFIX) == if scheme == Https then Some(rest) else None
    ensures scheme == Http ==> StripPrefix(Prefix(scheme) + rest, HTTP_PREFIX) == Some(rest)
  {
    var url := Prefix(scheme) + rest;
    assert url[..|Prefix(scheme)|] == Prefix(scheme);
    if scheme == Http {
      assert url[4] == ':' != HTTPS_PREFIX[4];
    }
  }

  /** Without a ':' the default port of the scheme applies, and without a '/' the path is empty. */
  lemma SplitUrlDefaults(scheme: Scheme, host: string)
    requires PlainHost(host)
    ensures SplitUrl(Prefix(scheme) + host) == Ok(Target(scheme, host, if scheme == Https then 443 else 80, ""))
  {
    SplitUrlOf(scheme, host);
    DefaultPortsParse();
    LocateDefaults(scheme, host, DefaultPort(scheme), if scheme == Https then 443 else 80);
  }

  lemma DefaultPortsParse()
    ensures ParseU16(HTTPS_DEFAULT_PORT) == Some(443) && ParseU16(HTTP_DEFAULT_PORT) == Some(80)
  {
    assert NatToString(443) == HTTPS_DEFAULT_PORT;
    assert NatToString(80) == HTTP_DEFAULT_PORT;
    ParseU16OfNatToString(443);
    ParseU16OfNatToString(80);
  }

  /** A plain host alone: the path is empty and the default port text is parsed. */
  lemma LocateDefaults(scheme: Scheme, host: string, default: string, port: nat)
    requires PlainHost(host) && ParseU16(default) == Some(port)
    ensures Locate(scheme, host, default) == Ok(Target(scheme, host, port, ""))
  {
    assert SplitPath(host) == (host, "");
    assert SplitPort(host, default) == (host, default);
  }

  lemma SlashFree(digits: string)
    requires forall i :: 0 <= i < |digits| ==> IsDigit(digits[i])
    ensures !Contains(digits, "/") && !Contains(digits, ":")
  {
    NoCharNotContains(digits, '/');
    NoCharNotContains(digits, ':');
  }

  /** A one-character pattern absent from both sides of a different separator is absent from the whole. */
  lemma NoPatInConcat(a: string, sep: string, b: string, pat: string)
    requires |pat| == 1 && |sep| == 1 && sep != pat
    requires !Contains(a, pat) && !Contains(b, pat)
    ensures !Contains(a + sep + b, pat)
  {
    var s := a + sep + b;
    forall j | 0 <= j ensures !OccursAt(s, pat, j) {
      if OccursAt(s, pat, j) {
        if j < |a| {
          assert a[j..j + 1] == s[j..j + 1];
          assert OccursAt(a, pat, j);
        } else if j > |a| {
          assert b[j - |a| - 1..j - |a|] == s[j..j + 1];
          assert OccursAt(b, pat, j - |a| - 1);
        }
      }
    }
  }

  /** Splitting `before + pat + after` at the first one-character `pat` gives the halves back when `before` has none. */
  lemma FirstOccurrence(before: string, pat: string, after: string)
    requires |pat| == 1 && !Contains(before, pat)
    ensures SplitOnce(before + pat + after, pat) == Some((before, after))
  {
    var s := before + pat + after;
    assert OccursAt(s, pat, |before|) by {
      assert s[|before|..|before| + 1] == pat;
    }
    forall j | 0 <= j < |before| ensures !OccursAt(s, pat, j) {
      assert !OccursAt(before, pat, j);
      assert s[j..j + 1] == before[j..j + 1];
    }
    assert Find(s, pat) == Some(|before|);
    assert s[..|before|] == before && s[|before| + 1..] == after;
  }

  /**
   * `resolve`: a failed query or an empty answer is a DNS lookup error,
   * otherwise the address popped off the end of the answer.
   */
  function Resolve<A>(answer: Option<seq<A>>): (r: Result<A, RequestError>)
    ensures r.Err? <==> answer.None? || answer.value == []
    ensures r.Err? ==> r.error == DnsLookup
    ensures r.Ok? ==> r.value == answer.value[|answer.value| - 1]
  {
    match answer
    case None => Err(DnsLookup)
    case Some(addresses) =>
      if addresses == [] then Err(DnsLookup) else Ok(addresses[|addresses| - 1])
  }
}
