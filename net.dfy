/**
 * The parts of Go's `net` package that the server relies on: `SplitHostPort`
 * written out, and interface addresses as abstract records.
 */
module GoNet {
  import opened Wrappers
  import opened GoStrings

  /** The reasons Go's `net.SplitHostPort` gives for refusing an address. */
  datatype AddrError =
    | MissingPort
    | TooManyColons
    | MissingCloseBracket
    | UnexpectedOpenBracket
    | UnexpectedCloseBracket

  datatype HostPort = HostPort(host: string, port: string)

  /**
   * Go's `net.SplitHostPort`: the port is what follows the last ':'; the host
   * is either everything before it (holding no ':') or, when the address
   * starts with '[', the text between '[' and the first ']', which must sit
   * right before that last ':'. Stray brackets are refused. An empty port
   * (`"host:"`) is accepted, as in Go.
   */
  function SplitHostPort(hostport: string): (r: Result<HostPort, AddrError>)
    ensures ':' !in hostport ==> r == Failure(MissingPort)
    ensures r.Success? ==> NoDelimiters(r.value.port) && ']' !in r.value.host
    ensures r.Success? ==> |r.value.host| + |r.value.port| < |hostport|
  {
    var i := LastIndexOf(hostport, ':');
    if i < 0 then Failure(MissingPort)
    else if hostport[0] == '[' then
      var end := IndexOf(hostport, ']');
      if end < 0 then Failure(MissingCloseBracket)
      else if end + 1 == |hostport| then Failure(MissingPort)
      else if end + 1 != i then
        if hostport[end + 1] == ':' then Failure(TooManyColons) else Failure(MissingPort)
      else CheckBrackets(hostport, hostport[1..end], i, 1, end + 1)
    else
      var host := hostport[..i];
      if ':' in host then Failure(TooManyColons)
      else CheckBrackets(hostport, host, i, 0, 0)
  }

  /** The final checks of `SplitHostPort`: no '[' from `j` on, no ']' from `k` on. */
  function CheckBrackets(hostport: string, host: string, i: nat, j: nat, k: nat): Result<HostPort, AddrError>
    requires i < |hostport| && j <= |hostport| && k <= |hostport|
  {
    if '[' in hostport[j..] then Failure(UnexpectedOpenBracket)
    else if ']' in hostport[k..] then Failure(UnexpectedCloseBracket)
    else Success(HostPort(host, hostport[i + 1..]))
  }

  /** None of ':', '[' and ']' occurs in `s`. */
  predicate NoDelimiters(s: string)
  {
    ':' !in s && '[' !in s && ']' !in s
  }

  /** `s` is `host:port` with a plain host. */
  ghost predicate PlainForm(s: string, host: string, port: string)
  {
    s == host + ":" + port && NoDelimiters(host) && NoDelimiters(port)
  }

  /** `s` is `[host]:port`, the host free of brackets (it may hold ':'). */
  ghost predicate BracketedForm(s: string, host: string, port: string)
  {
    s == "[" + host + "]:" + port && '[' !in host && ']' !in host && NoDelimiters(port)
  }

  lemma PlainSound(s: string, i: nat)
    requires i < |s| && s[i] == ':' && ':' !in s[i + 1..] && ':' !in s[..i]
    requires '[' !in s && ']' !in s
    ensures PlainForm(s, s[..i], s[i + 1..])
  {
    assert s == s[..i] + ":" + s[i + 1..];
  }

  lemma BracketedSound(s: string, i: nat, end: nat)
    requires 0 < end && i == end + 1 < |s| && s[0] == '[' && s[end] == ']' && s[i] == ':'
    requires ':' !in s[i + 1..] && ']' !in s[..end]
    requires '[' !in s[1..] && ']' !in s[i..]
    ensures BracketedForm(s, s[1..end], s[i + 1..])
  {
    var host, port := s[1..end], s[i + 1..];
    assert forall c :: c in host ==> c in s[1..] && c in s[..end];
    assert forall c :: c in port ==> c in s[1..] && c in s[i..];
    assert s == "[" + host + "]:" + port;
  }

  /** Every accepted address has one of the two forms, with the host and port returned. */
  lemma SplitHostPortSound(s: string)
    requires SplitHostPort(s).Success?
    ensures var hp := SplitHostPort(s).value;
      PlainForm(s, hp.host, hp.port) || BracketedForm(s, hp.host, hp.port)
  {
    var i := LastIndexOf(s, ':');
    if s[0] == '[' {
      var end := IndexOf(s, ']');
      BracketedSound(s, i, end);
    } else {
      assert s[0..] == s;
      PlainSound(s, i);
    }
  }

  lemma PlainComplete(s: string, host: string, port: string)
    requires PlainForm(s, host, port)
    ensures SplitHostPort(s) == Success(HostPort(host, port))
  {
    var i := |host|;
    assert s[..i] == host && s[i] == ':' && s[i + 1..] == port;
    assert LastIndexOf(s, ':') == i;
    assert s[0] != '[' by {
      if host == [] { assert s[0] == ':'; } else { assert s[0] == host[0]; }
    }
    assert s[0..] == s;
    assert forall c :: c in s ==> c in host || c == ':' || c in port;
  }

  lemma BracketedPositions(s: string, host: string, port: string)
    requires BracketedForm(s, host, port)
    ensures LastIndexOf(s, ':') == |host| + 2 && IndexOf(s, ']') == |host| + 1
    ensures s[0] == '[' && s[1..|host| + 1] == host && s[|host| + 3..] == port
    ensures '[' !in s[1..] && ']' !in s[|host| + 2..]
  {
    var end := |host| + 1;
    assert s[..end] == "[" + host;
    assert s[end] == ']' && s[end + 1] == ':' && s[end + 2..] == port;
    assert s[1..end] == host;
    assert s[1..] == host + "]:" + port;
    assert s[end + 1..] == ":" + port;
  }

  lemma BracketedComplete(s: string, host: string, port: string)
    requires BracketedForm(s, host, port)
    ensures SplitHostPort(s) == Success(HostPort(host, port))
  {
    BracketedPositions(s, host, port);
    var end := |host| + 1;
    assert CheckBrackets(s, s[1..end], end + 1, 1, end + 1) == Success(HostPort(host, port));
  }

  /** Every address of either form is accepted, with exactly that host and port. */
  lemma SplitHostPortComplete(s: string, host: string, port: string)
    requires PlainForm(s, host, port) || BracketedForm(s, host, port)
    ensures SplitHostPort(s) == Success(HostPort(host, port))
  {
    if PlainForm(s, host, port) {
      PlainComplete(s, host, port);
    } else {
      BracketedComplete(s, host, port);
    }
  }

  /** Go's `net.JoinHostPort`, the inverse of `SplitHostPort`. */
  function JoinHostPort(host: string, port: string): string
  {
    if ':' in host then "[" + host + "]:" + port else host + ":" + port
  }

  /** Splitting a joined host and port gives them back. */
  lemma SplitJoinHostPort(host: string, port: string)
    requires '[' !in host && ']' !in host && NoDelimiters(port)
    ensures SplitHostPort(JoinHostPort(host, port)) == Success(HostPort(host, port))
  {
    SplitHostPortComplete(JoinHostPort(host, port), host, port);
  }

  /** Text of an address as Go's `IP.String` prints it; never empty. */
  type IPText = s: string | s != "" witness "?"

  /**
   * One entry of `net.InterfaceAddrs`, reduced to what the server asks of it:
   * whether it is a `*net.IPNet`, and of its IP whether `IsLoopback`,
   * `To4() != nil`, `To16() != nil`, and its `String()`.
   */
  datatype Addr = Addr(isIPNet: bool, isLoopback: bool, isV4: bool, has16: bool, text: IPText)
}
