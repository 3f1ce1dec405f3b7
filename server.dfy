/**
 * The request-handling logic of the server in main.go: configuration
 * defaulting, choosing the server's own address, extracting the client's
 * address, and the two JSON API handlers. The HTTP library, logging and JSON
 * encoding stay outside; a handler is a function from the request (and what
 * it would read from the host) to the response it writes.
 */
module Server {
  import opened Wrappers
  import opened GoStrings
  import opened GoNet

  const DefaultPort := "8080"
  const DefaultContainerID := "N/A"
  const Unknown := "Unknown"
  const MethodGet := "GET"

  // ---------------------------------------------------------------------
  // Configuration

  datatype Config = Config(port: string, containerID: string)

  /** An environment value, or `default` when the variable is unset or empty. */
  function OrDefault(value: string, default: string): (r: string)
    ensures value != "" ==> r == value
    ensures value == "" ==> r == default
  {
    if value == "" then default else value
  }

  /**
   * `loadConfig`: the values of `PORT` and `CONTAINER_ID` (empty when unset),
   * defaulted to "8080" and "N/A".
   */
  function LoadConfig(envPort: string, envContainerID: string): (c: Config)
    ensures envPort == "" ==> c.port == DefaultPort
    ensures envPort != "" ==> c.port == envPort
    ensures envContainerID == "" ==> c.containerID == DefaultContainerID
    ensures envContainerID != "" ==> c.containerID == envContainerID
  {
    Config(OrDefault(envPort, DefaultPort), OrDefault(envContainerID, DefaultContainerID))
  }

  /** A loaded configuration has no empty field. */
  lemma LoadConfigNonEmpty(envPort: string, envContainerID: string)
    ensures LoadConfig(envPort, envContainerID).port != ""
    ensures LoadConfig(envPort, envContainerID).containerID != ""
  {
  }

  /** Loading a loaded configuration again changes nothing. */
  lemma LoadConfigIdempotent(envPort: string, envContainerID: string)
    ensures var c := LoadConfig(envPort, envContainerID);
      LoadConfig(c.port, c.containerID) == c
  {
  }

  // ---------------------------------------------------------------------
  // Server address

  /** The two address families `getServerIP` looks for, in order of preference. */
  datatype Family = V4 | V6

  /**
   * An address `getServerIP` accepts for `family`: an IP network that is not
   * loopback, with a 4-byte form for V4 and, failing that, a 16-byte form for V6.
   */
  predicate IsCandidate(a: Addr, family: Family)
  {
    a.isIPNet && !a.isLoopback &&
    match family
    case V4 => a.isV4
    case V6 => !a.isV4 && a.has16
  }

  /** Position of the first candidate of `family` in `addrs`, or `|addrs|` when there is none. */
  function FirstCandidate(addrs: seq<Addr>, family: Family): (k: nat)
    ensures k <= |addrs|
    ensures forall j :: 0 <= j < k ==> !IsCandidate(addrs[j], family)
    ensures k < |addrs| ==> IsCandidate(addrs[k], family)
  {
    if |addrs| == 0 then 0
    else if IsCandidate(addrs[0], family) then 0
    else 1 + FirstCandidate(addrs[1..], family)
  }

  /**
   * What `getServerIP` answers for an interface enumeration (`None` when
   * `net.InterfaceAddrs` fails): the first IPv4 candidate, else the first
   * IPv6 candidate, else "Unknown".
   */
  function ServerIP(enumerated: Option<seq<Addr>>): (ip: string)
    ensures ip != ""
    ensures enumerated.None? ==> ip == Unknown
  {
    match enumerated
    case None => Unknown
    case Some(addrs) =>
      var v4 := FirstCandidate(addrs, V4);
      if v4 < |addrs| then addrs[v4].text
      else
        var v6 := FirstCandidate(addrs, V6);
        if v6 < |addrs| then addrs[v6].text else Unknown
  }

  /** `k` is the earliest position of a candidate of `family`. */
  ghost predicate IsEarliest(addrs: seq<Addr>, family: Family, k: nat)
  {
    k < |addrs| && IsCandidate(addrs[k], family) &&
    forall j :: 0 <= j < k ==> !IsCandidate(addrs[j], family)
  }

  /** The earliest IPv4 candidate wins, whatever IPv6 addresses come before it. */
  lemma ServerIPPrefersV4(addrs: seq<Addr>, k: nat)
    requires IsEarliest(addrs, V4, k)
    ensures ServerIP(Some(addrs)) == addrs[k].text
  {
  }

  /** Without IPv4 candidates, the earliest IPv6 candidate wins. */
  lemma ServerIPFallsBackToV6(addrs: seq<Addr>, k: nat)
    requires forall j :: 0 <= j < |addrs| ==> !IsCandidate(addrs[j], V4)
    requires IsEarliest(addrs, V6, k)
    ensures ServerIP(Some(addrs)) == addrs[k].text
  {
  }

  /** Without any candidate the answer is "Unknown". */
  lemma ServerIPNoCandidate(addrs: seq<Addr>)
    requires forall j :: 0 <= j < |addrs| ==> !IsCandidate(addrs[j], V4) && !IsCandidate(addrs[j], V6)
    ensures ServerIP(Some(addrs)) == Unknown
  {
  }

  /**
   * `getServerIP`, with the result of `net.InterfaceAddrs` as its input: a
   * scan that returns at the first IPv4 candidate and remembers the first
   * IPv6 one as a fallback.
   */
  method GetServerIP(enumerated: Option<seq<Addr>>) returns (ip: string)
    ensures ip == ServerIP(enumerated)
  {
    if enumerated.None? {
      return Unknown;
    }
    var addrs := enumerated.value;
    ghost var v6 := FirstCandidate(addrs, V6);
    var ipv6Addr := "";
    for n := 0 to |addrs|
      invariant forall j :: 0 <= j < n ==> !IsCandidate(addrs[j], V4)
      invariant ipv6Addr == if v6 < n then addrs[v6].text else ""
    {
      var addr := addrs[n];
      if addr.isIPNet && !addr.isLoopback {
        if addr.isV4 {
          return addr.text;
        }
        if ipv6Addr == "" && addr.has16 {
          ipv6Addr := addr.text;
        }
      }
    }
    if ipv6Addr != "" {
      return ipv6Addr;
    }
    return Unknown;
  }

  // ---------------------------------------------------------------------
  // Client address

  /**
   * What the handlers read from an HTTP request: its method (`verb`), the first
   * `X-Forwarded-For` and `X-Real-IP` header values ("" when absent, as
   * `Header.Get` gives) and the transport-level `RemoteAddr`.
   */
  datatype Request = Request(verb: string, forwardedFor: string, realIP: string, remoteAddr: string)

  /**
   * `getClientIP`: the first comma-separated entry of `X-Forwarded-For`,
   * trimmed; else `X-Real-IP` as it is; else the host part of `RemoteAddr`,
   * or `RemoteAddr` itself when it does not split into host and port.
   */
  function ClientIP(r: Request): (ip: string)
    ensures r.forwardedFor != "" ==>
      ',' !in ip && (ip == "" || (!IsSpace(ip[0]) && !IsSpace(ip[|ip| - 1])))
    ensures r.forwardedFor == "" && r.realIP != "" ==> ip == r.realIP
    ensures r.forwardedFor == "" && r.realIP == "" ==> |ip| <= |r.remoteAddr|
    ensures r.forwardedFor == "" && r.realIP == "" && ':' !in r.remoteAddr ==> ip == r.remoteAddr
  {
    if r.forwardedFor != "" then
      TrimSpace(Split(r.forwardedFor, ',')[0])
    else if r.realIP != "" then
      r.realIP
    else
      match SplitHostPort(r.remoteAddr)
      case Failure(_) => r.remoteAddr
      case Success(hp) => hp.host
  }

  /** With several forwarded entries, only the first one, trimmed, is taken. */
  lemma ClientIPForwardedFirst(r: Request, first: string, rest: string)
    requires r.forwardedFor == first + "," + rest && ',' !in first
    ensures ClientIP(r) == TrimSpace(first)
  {
    SplitFirst(first, rest, ',');
  }

  /** A forwarded value without a comma is taken whole, trimmed. */
  lemma ClientIPForwardedSingle(r: Request)
    requires r.forwardedFor != "" && ',' !in r.forwardedFor
    ensures ClientIP(r) == TrimSpace(r.forwardedFor)
  {
    SplitWhole(r.forwardedFor, ',');
  }

  /** A non-empty `X-Forwarded-For` decides alone: `X-Real-IP` and `RemoteAddr` do not matter. */
  lemma ClientIPForwardedPrecedence(r: Request, realIP: string, remoteAddr: string)
    requires r.forwardedFor != ""
    ensures ClientIP(r) == ClientIP(r.(realIP := realIP, remoteAddr := remoteAddr))
  {
  }

  /** Without `X-Forwarded-For`, a non-empty `X-Real-IP` is returned untrimmed. */
  lemma ClientIPRealIP(r: Request)
    requires r.forwardedFor == "" && r.realIP != ""
    ensures ClientIP(r) == r.realIP
  {
  }

  /** Without either header, `host:port` gives the host. */
  lemma ClientIPRemotePlain(r: Request, host: string, port: string)
    requires r.forwardedFor == "" && r.realIP == ""
    requires PlainForm(r.remoteAddr, host, port)
    ensures ClientIP(r) == host
  {
    SplitHostPortComplete(r.remoteAddr, host, port);
  }

  /** Without either header, `[host]:port` gives the host without brackets. */
  lemma ClientIPRemoteBracketed(r: Request, host: string, port: string)
    requires r.forwardedFor == "" && r.realIP == ""
    requires BracketedForm(r.remoteAddr, host, port)
    ensures ClientIP(r) == host
  {
    SplitHostPortComplete(r.remoteAddr, host, port);
  }

  /** Without either header, a `RemoteAddr` of neither form comes back unchanged. */
  lemma ClientIPRemoteUnsplittable(r: Request)
    requires r.forwardedFor == "" && r.realIP == ""
    requires forall host, port :: !PlainForm(r.remoteAddr, host, port) && !BracketedForm(r.remoteAddr, host, port)
    ensures ClientIP(r) == r.remoteAddr
  {
    if SplitHostPort(r.remoteAddr).Success? {
      SplitHostPortSound(r.remoteAddr);
    }
  }

  // ---------------------------------------------------------------------
  // Handlers

  /** The JSON bodies the API writes, as records. */
  datatype Payload =
    | IPResponse(serverIP: string, clientIP: string)
    | ConfigResponse(containerID: string)

  /** What a handler writes: 405 with no JSON body, or 200 with a payload. */
  datatype Response = MethodNotAllowed | Ok(payload: Payload)

  function StatusCode(resp: Response): (code: int)
    ensures resp.MethodNotAllowed? <==> code == 405
    ensures resp.Ok? <==> code == 200
  {
    match resp
    case MethodNotAllowed => 405
    case Ok(_) => 200
  }

  /**
   * `handleIP` on `/api/ip`, given what `net.InterfaceAddrs` reports: only GET
   * is served, with the server's and the client's address.
   */
  function HandleIP(r: Request, enumerated: Option<seq<Addr>>): (resp: Response)
    ensures r.verb != MethodGet <==> resp == MethodNotAllowed
    ensures r.verb == MethodGet ==> resp == Ok(IPResponse(ServerIP(enumerated), ClientIP(r)))
  {
    if r.verb != MethodGet then MethodNotAllowed
    else Ok(IPResponse(ServerIP(enumerated), ClientIP(r)))
  }

  /** The handler `handleConfigWithConfig(config)` returns, applied to a request. */
  function HandleConfigWithConfig(config: Config, r: Request): (resp: Response)
    ensures r.verb != MethodGet <==> resp == MethodNotAllowed
    ensures r.verb == MethodGet ==> resp == Ok(ConfigResponse(config.containerID))
  {
    if r.verb != MethodGet then MethodNotAllowed
    else Ok(ConfigResponse(config.containerID))
  }

  /** `handleConfig`, reading `CONTAINER_ID` (empty when unset) at request time. */
  function HandleConfig(r: Request, envContainerID: string): (resp: Response)
    ensures r.verb != MethodGet <==> resp == MethodNotAllowed
    ensures r.verb == MethodGet && envContainerID != "" ==> resp == Ok(ConfigResponse(envContainerID))
    ensures r.verb == MethodGet && envContainerID == "" ==> resp == Ok(ConfigResponse(DefaultContainerID))
  {
    if r.verb != MethodGet then MethodNotAllowed
    else
      var containerID := OrDefault(envContainerID, DefaultContainerID);
      Ok(ConfigResponse(containerID))
  }

  /**
   * The two config handlers agree: reading the environment per request gives
   * what the handler built from the configuration loaded at start-up gives.
   */
  lemma HandleConfigAgrees(r: Request, envPort: string, envContainerID: string)
    ensures HandleConfig(r, envContainerID) == HandleConfigWithConfig(LoadConfig(envPort, envContainerID), r)
  {
  }
}
