# mycontainer request logic, modelled in Dafny

The repository is a small Go HTTP server (`main.go`). It answers `/api/ip` with the
server's own network address and the client's address, and `/api/config` with an
operator-supplied container identifier. This project models the server's decision
logic. Handlers become pure functions from a request, plus what they would read from
the host, to the response they write.

- `wrappers.dfy`, module `Wrappers`: `Option` and `Result`.
- `strings.dfy`, module `GoStrings`: the parts of Go's `strings` package the server
  uses, `Split` with its inverse `Join` and `TrimSpace`, built on an explicit
  `unicode.IsSpace` set. Also `IndexOf`/`LastIndexOf`, the byte searches that
  `net.SplitHostPort` makes inside (Go's internal `IndexByteString` and
  `LastIndexByteString`); main.go calls neither directly.
- `net.dfy`, module `GoNet`: Go's `net.SplitHostPort`, written out step by step after
  Go's own algorithm, with its inverse `JoinHostPort`. Also an abstract record `Addr`
  for an entry of `net.InterfaceAddrs`.
- `server.dfy`, module `Server`: `loadConfig`, and `getServerIP` as a loop method
  (`GetServerIP`) proved equal to a specification function (`ServerIP`). Also
  `getClientIP` (`ClientIP`) and the three handlers.
- `examples.dfy`, module `ServerExamples`: the concrete cases of `main_test.go`,
  proved from the general lemmas.

Inputs that the Go code reads from the outside world become plain parameters:
- `os.Getenv("PORT")` and `os.Getenv("CONTAINER_ID")` become strings, empty when unset.
- The result of `net.InterfaceAddrs` becomes `Option<seq<Addr>>`, with `None` standing
  for an enumeration error.
- A request becomes `Request(verb, forwardedFor, realIP, remoteAddr)`: the method,
  the `X-Forwarded-For` value, the `X-Real-IP` value (each "" when absent, as
  `Header.Get` gives) and `RemoteAddr`.

Two points of the code's behaviour worth knowing:
- The client address can be empty. main_test.go:152-157 check that both fields of a
  GET `/api/ip` answer are non-empty, but only for `RemoteAddr` "192.168.1.1:12345".
  `ServerExamples.ForwardedBlankFirstEntry` shows `X-Forwarded-For: " , 10.0.0.1"`
  giving "", and a `RemoteAddr` of `":80"` also gives "". Only the server address is
  proved non-empty (`Server.ServerIP`).
- An empty port is not a missing port: `"host:"` splits into host `"host"` and port
  `""`, as in Go.

## Model

| member | source | states |
|---|---|---|
| `Server.LoadConfig` | main.go:21-36 | an empty `PORT` gives "8080" and an empty `CONTAINER_ID` gives "N/A"; non-empty values pass through verbatim |
| `Server.LoadConfigNonEmpty` | main.go:12-36 | neither field of a loaded configuration is ever empty |
| `Server.LoadConfigIdempotent` | main.go:21-36 | loading a loaded configuration again changes nothing |
| `Server.FirstCandidate` | main.go:125-133 | the position returned holds a candidate of the family, and every earlier position holds none; `|addrs|` means there is none |
| `Server.ServerIP` | main.go:118-139 | the server address is never empty, and it is "Unknown" when enumeration fails |
| `Server.GetServerIP` | main.go:118-139 | the loop, with its early return on IPv4 and remembered IPv6 fallback, answers exactly `ServerIP` |
| `Server.ServerIPPrefersV4` | main.go:126-129 | the earliest non-loopback IPv4 address is returned, even when IPv6 addresses come before it |
| `Server.ServerIPFallsBackToV6` | main.go:130-137 | with no IPv4 candidate, the earliest non-loopback IPv6 address is returned |
| `Server.ServerIPNoCandidate` | main.go:135-138 | with no candidate of either family, the answer is "Unknown" |
| `Server.ClientIP` | main.go:141-162 | with `X-Forwarded-For` set, the answer holds no comma and neither starts nor ends with white space; otherwise a non-empty `X-Real-IP` is returned verbatim; otherwise the answer is no longer than `RemoteAddr`, and is `RemoteAddr` itself when it holds no ':'. The `ClientIP*` lemmas below give the exact answer in each case |
| `Server.ClientIPForwardedFirst` | main.go:143-148 | for `X-Forwarded-For` = first + "," + rest with no comma in first, the client address is `TrimSpace(first)`, whatever follows |
| `Server.ClientIPForwardedSingle` | main.go:143-148 | a non-empty `X-Forwarded-For` with no comma is taken whole, trimmed |
| `Server.ClientIPForwardedPrecedence` | main.go:143-154 | a non-empty `X-Forwarded-For` decides alone; `X-Real-IP` and `RemoteAddr` cannot change the answer |
| `Server.ClientIPRealIP` | main.go:151-154 | with `X-Forwarded-For` empty, a non-empty `X-Real-IP` is returned verbatim, untrimmed |
| `Server.ClientIPRemotePlain` | main.go:157-161 | with both headers empty, a `host:port` remote address gives the host |
| `Server.ClientIPRemoteBracketed` | main.go:157-161 | with both headers empty, a `[host]:port` remote address gives the host without brackets |
| `Server.ClientIPRemoteUnsplittable` | main.go:157-160 | with both headers empty, a remote address of neither form comes back unchanged |
| `Server.StatusCode` | main.go:91-94 | a refusal is status 405 and a served payload is status 200 |
| `Server.HandleIP` | main.go:90-116 | any method other than GET gives 405 with no payload; GET gives `Ok` with exactly the computed server and client addresses |
| `Server.HandleConfigWithConfig` | main.go:164-186 | any method other than GET gives 405; GET gives `Ok` with the configured container ID |
| `Server.HandleConfig` | main.go:188-212 | any method other than GET gives 405; GET gives the `CONTAINER_ID` value, or "N/A" when it is empty |
| `Server.HandleConfigAgrees` | main.go:164-212 | reading `CONTAINER_ID` per request answers the same as the handler built from the configuration loaded at start-up |
| `GoStrings.IndexOf` | main.go:157 | -1 exactly when the character is absent; otherwise the position of its first occurrence |
| `GoStrings.LastIndexOf` | main.go:157 | -1 exactly when the character is absent; otherwise the position of its last occurrence |
| `GoStrings.Split` | main.go:146 | there is always at least one piece, and no piece holds the separator |
| `GoStrings.JoinSplit` | main.go:146 | joining the pieces of a split with the separator gives back the original text |
| `GoStrings.SplitJoin` | main.go:146 | splitting a join of separator-free pieces gives back the pieces |
| `GoStrings.SplitFirst` | main.go:146-147 | the first piece is the text before the first separator |
| `GoStrings.IsSpace` | main.go:147 | the white space `TrimSpace` removes, Go's `unicode.IsSpace`; within Latin-1 it is exactly tab, newline, vertical tab, form feed, carriage return, space, U+0085 and U+00A0 |
| `GoStrings.TrimLeftSpace` | main.go:147 | the result is a suffix preceded only by white space, and it does not start with white space |
| `GoStrings.TrimRightSpace` | main.go:147 | the result is a prefix followed only by white space, and it does not end with white space |
| `GoStrings.TrimSpace` | main.go:147 | the result neither starts nor ends with white space, and holds only characters of the input |
| `GoStrings.TrimSpaceSlice` | main.go:147 | the result is a slice of the input with only white space before and after it |
| `GoStrings.TrimSpacePadded` | main.go:147 | padding a text that neither starts nor ends with white space by white space only, then trimming, gives back that text |
| `GoStrings.TrimSpaceIdempotent` | main.go:147 | trimming twice is trimming once |
| `GoNet.SplitHostPort` | main.go:157 | an address without ':' has a missing port; an accepted port holds no ':', '[' or ']', an accepted host no ']', and together they are shorter than the address. `SplitHostPortSound` and `SplitHostPortComplete` give its exact meaning |
| `GoNet.SplitHostPortSound` | main.go:157 | every accepted address is `host:port` (no ':' '[' ']' in either part) or `[host]:port` (no brackets in host, no ':' '[' ']' in port), with that host and port returned |
| `GoNet.SplitHostPortComplete` | main.go:157 | every address of either form is accepted, with exactly its host and port |
| `GoNet.SplitJoinHostPort` | main.go:157 | splitting `JoinHostPort(host, port)` gives back the host and the port |
| `ServerExamples.DirectConnection` | main_test.go:19-23 | "192.168.1.1:12345" with no headers gives "192.168.1.1" |
| `ServerExamples.ForwardedSingle` | main_test.go:24-29 | `X-Forwarded-For` "203.0.113.1" gives "203.0.113.1" |
| `ServerExamples.ForwardedMultiple` | main_test.go:30-35 | `X-Forwarded-For` "203.0.113.1, 198.51.100.1, 10.0.0.1" gives "203.0.113.1" |
| `ServerExamples.ForwardedWithSpaces` | main_test.go:36-41 | `X-Forwarded-For` "  203.0.113.1  " gives "203.0.113.1" |
| `ServerExamples.ForwardedBlankFirstEntry` | main.go:146-147 | a first `X-Forwarded-For` entry of only white space gives the empty string |
| `ServerExamples.RealIP` | main_test.go:42-47 | `X-Real-IP` "203.0.113.1" alone gives "203.0.113.1" |
| `ServerExamples.ForwardedOverRealIP` | main_test.go:48-54 | `X-Forwarded-For` wins over `X-Real-IP` |
| `ServerExamples.RemoteIPv6` | main_test.go:55-59 | "[2001:db8::1]:12345" gives "2001:db8::1" |
| `ServerExamples.RemoteWithoutPort` | main_test.go:60-64 | "192.168.1.1" with no port comes back unchanged |
| `ServerExamples.V4PreferredOverEarlierV6` | main.go:124-129 | behind a loopback and a link-local IPv6 address, a later IPv4 address is chosen |
| `ServerExamples.HandleIPRejectsOtherMethods` | main_test.go:115-132 | POST, PUT and DELETE on `/api/ip` are refused with 405 |
| `ServerExamples.HandleIPGet` | main_test.go:109-114 | GET on `/api/ip` gives 200, a non-empty server address and client address "192.168.1.1" |
| `ServerExamples.HandleConfigCases` | main_test.go:171-190 | GET gives "test-container-123" when set and "N/A" when unset; POST gives 405 |

## Left out

- `main` is left out: route registration, `http.ListenAndServe`, the static file server, the `/health` handler and the exit on a listen error (main.go:47-76). These are library wiring and I/O.
- `logRequest` and every `slog` call are left out (main.go:78-88 and inside the handlers). They only log, and the middleware then hands the request on unchanged.
- JSON encoding, `http.Error`'s body text, the `Content-Type` header and the ignored encoding-error branch are left out. These are foreign library calls; only the payload record is modelled.
- `net.InterfaceAddrs`, `IP.IsLoopback`, `To4`, `To16` and `IP.String` are left out. Their answers are fields of `Addr`. `IPText` records only that `IP.String` never returns "".
- Go's own source of `net.SplitHostPort`, `strings.Split` and `strings.TrimSpace` is not part of this model. `SplitHostPort` follows Go's implementation step by step: the same searches, the same error kinds and the same bracket checks. `Split` and `TrimSpace` are written out from Go's documented behaviour.
- Go strings are bytes. The model works on code points, so invalid UTF-8 is not modelled. The delimiters `Split` and `SplitHostPort` look for are ASCII, which never occurs inside a multi-byte UTF-8 sequence. `TrimSpace` decodes runes and tests them with `unicode.IsSpace`, most of whose white space is not ASCII. So on valid UTF-8 the two views agree.
- Header lookup is left out: key canonicalisation, and the extra values of a header set several times. Only the first value, as `Header.Get` returns it, is an input.
- The one-goroutine-per-request concurrency of the HTTP server is left out. Every handler is a pure function of its inputs.
