# urllib3 `util/connection.py` in Dafny

This project models urllib3's `util/connection.py`, the module that opens a
client socket to a host. Its centre is `create_connection`, which works in
four steps:

1. It normalises the host by stripping brackets.
2. It rejects a host that fails IDNA encoding.
3. It asks the resolver for candidate addresses.
4. It tries the candidates in order. For each one it opens a socket, applies
   the socket options, sets the timeout, binds the source address and
   connects.

The socket of the first candidate that gets through all of its steps is
returned. The socket of every candidate that raised an `OSError` is closed.
If every candidate failed, the last error is raised. If the resolver
returned no candidate, a distinct error is raised. Three smaller pieces sit
beside it:

- `allowed_gai_family`, the address-family choice;
- `is_connection_dropped`, the liveness probe;
- `_has_ipv6`, the IPv6 capability probe.

The operating system does not appear in the model. An `Env` value
(`sockets.dfy`) stands in for it and has three parts:

- whether `host.encode("idna")` succeeds;
- what `socket.getaddrinfo` answers;
- how each socket call returns, either normally (`Done`) or by raising an
  exception.

The answer to a socket call may depend on its position in the invocation,
so it may depend on everything issued before it. One invocation produces
two things: a **trace**, which is the sequence of calls it issues (the
resolver query, then the socket calls), and a result, which is either a
socket or an exception. The socket opened for the resolver's candidate at
index `i` is socket `i`.

The files are:

- `wrappers.dfy`: `Option` and `Result`.
- `sockets.dfy`: the calls and the oracle. `RunCalls` issues a planned
  sequence of calls and stops at the first one that raises, which is the
  shape of a `try` block of socket calls. Its lemmas cover it.
- `connection.dfy`: the module itself.
  - Host normalisation, `allowed_gai_family` and `is_connection_dropped` are
    functions.
  - `create_connection` is a reference definition in three parts. `Plan`
    gives the calls for one candidate. `AttemptCandidate` gives the
    `try`/`except` around them, and `Walk` gives the loop.
  - The imperative methods are proved equal to that reference:
    `SetSocketOptions`, `SetTimeoutAndBind`, `TryCandidate`, `AttemptOn`,
    `ConnectCandidates` and `CreateConnection`.
  - `HasIpv6` is a method too. Its ensures give its calls and its answer
    directly from the environment's answers.
- `connection_properties.dfy`: facts about one candidate's calls. It also
  restates the loop as a list of attempts.
- `connection_theorems.dfy`: the promises of `create_connection` about the
  whole trace:
  - candidates are tried in resolver order;
  - the first success is returned;
  - failed sockets are closed;
  - the last error is raised.

## Model

| member | source | states |
|---|---|---|
| Connection.LeadingBrackets | src/urllib3/util/connection.py:49-50 | counts the maximal run of '[' / ']' at the start of the host: all of them are brackets and the next character is not |
| Connection.TrailingBrackets | src/urllib3/util/connection.py:49-50 | counts the maximal run of brackets at the end of the host: all of them are brackets and the character before is not |
| Connection.StripBrackets | src/urllib3/util/connection.py:49-50 | `strip("[]")`: the result is a contiguous slice of the host, only brackets were removed on either side, and neither end of the result is a bracket |
| Connection.StripBracketsUnique | src/urllib3/util/connection.py:49-50 | any split of a string into brackets, a middle with no bracket at either end, and brackets strips to exactly that middle (so StripBrackets is `str.strip("[]")` and nothing else) |
| Connection.StripAllBrackets | src/urllib3/util/connection.py:49-50 | a host made only of brackets strips to the empty string |
| Connection.NormalizeHost | src/urllib3/util/connection.py:48-50 | a host starting with '[' becomes shorter and has no bracket at either end; any other host is used unchanged |
| Connection.NormalizeBracketedHost | src/urllib3/util/connection.py:48-50 | a bracketed literal such as `[::1]` or `[[fe80::1]]` loses all its leading and trailing brackets and nothing else |
| Connection.NormalizeHostIdempotent | src/urllib3/util/connection.py:48-50 | normalising an already normalised host changes nothing |
| Connection.AllowedGaiFamily | src/urllib3/util/connection.py:99-107 | the family is AF_INET exactly when IPv6 is unavailable, and AF_UNSPEC exactly when it is available |
| Connection.IsConnectionDropped | src/urllib3/util/connection.py:12-23 | a connection without a socket is dropped (`Ok(true)`). Otherwise the answer is True exactly when the zero-timeout readability wait answers True, and False exactly when it answers False. An exception from that wait is passed on unchanged, and an exception only arises when there is a socket |
| Connection.SetSockOptCalls | src/urllib3/util/connection.py:95-96 | one setsockopt per option, with the same count and in the same order |
| Connection.OptionCalls | src/urllib3/util/connection.py:91-96 | `None` gives no setsockopt call; a list gives one setsockopt per option, in the given order |
| Connection.Plan | src/urllib3/util/connection.py:67-76 | one candidate's calls number at least two: the open and the connect |
| Connection.TimeoutCalls | src/urllib3/util/connection.py:72-73 | at most one settimeout call |
| Connection.BindCalls | src/urllib3/util/connection.py:74-75 | at most one bind call |
| Connection.AttemptCandidate | src/urllib3/util/connection.py:65-83 | every attempt issues at least one call (the open) |
| Connection.Walk | src/urllib3/util/connection.py:63-88 | a socket returned by the loop from candidate i on belongs to a candidate at index i or later |
| Connection.WalkStep | src/urllib3/util/connection.py:63-88 | proof helper for ConnectCandidates and WalkAttempts, unfolding one iteration of Walk: a connected candidate's socket is returned, a propagated exception leaves the loop, and a failed candidate's calls are followed by the rest of the loop with its error remembered |
| Connection.WalkContinues | src/urllib3/util/connection.py:79-83 | proof helper for the loop invariant of ConnectCandidates: after a candidate fails with a caught OSError, the loop's trace and result are the failed attempt's calls followed by the loop from the next candidate, with that error as `err` |
| Connection.SetSocketOptions | src/urllib3/util/connection.py:91-96 | the loop issues setsockopt for the options in order, stops at the first that raises, and issues nothing for None; it equals running the option calls |
| Connection.SetTimeoutAndBind | src/urllib3/util/connection.py:72-75 | settimeout unless the timeout is the default sentinel, then bind when a source address is given, stopping at the first raise; it equals running `TimeoutAndBindCalls` (the concatenation of TimeoutCalls and BindCalls) |
| Connection.PlanRun | src/urllib3/util/connection.py:66-77 | running a candidate's plan is open, then options, then timeout and bind, then connect, each stage issued only if nothing before raised |
| Connection.TryCandidate | src/urllib3/util/connection.py:66-77 | the `try` block issues the candidate's plan up to its first raise, and `sock` is set exactly when the socket creation returned normally |
| Connection.AttemptOn | src/urllib3/util/connection.py:65-83 | one iteration with its `except OSError` handler: the attempt equals AttemptCandidate, so the socket is closed only after an OSError and only if it was created, and a non-OSError or an error from close propagates |
| Connection.ConnectCandidates | src/urllib3/util/connection.py:63-88 | the loop over the candidates produces exactly the trace and result of Walk: first success returned, last error or the empty-list error raised |
| Connection.ParseError | src/urllib3/util/connection.py:60-61 | the IDNA failure is a LocationParseError, not an OSError, and its message starts with the normalised host in single quotes |
| Connection.Query | src/urllib3/util/connection.py:56-63 | the resolver is asked for the host and port as given, for stream sockets, with family AF_UNSPEC exactly when IPv6 is available and AF_INET exactly when it is not |
| Connection.CreateConnectionSpec | src/urllib3/util/connection.py:30-88 | reference for the whole function. Nothing is issued exactly when the host fails the IDNA check; otherwise the resolver query comes first; a returned socket belongs to one of the resolver's candidates. ConnectionTheorems proves the rest of its properties |
| Connection.CreateConnection | src/urllib3/util/connection.py:30-88 | equals the reference CreateConnectionSpec; a host failing IDNA raises LocationParseError before any call; otherwise the resolver query is the first call, and a resolver error propagates unchanged with nothing else issued |
| Connection.HasIpv6 | src/urllib3/util/connection.py:110-130 | without interpreter IPv6 support nothing is issued and the answer is False. Otherwise an AF_INET6 probe is opened first. If that open raises, nothing else is issued and the answer is False. If it returns, the probe is bound to (host, 0) and then closed. The answer is then True when the bind returned normally and False when it raised; if the close raises, its exception is passed on instead. The probe is closed exactly when it was created, and the close is the last call |
| Sockets.RunCalls | src/urllib3/util/connection.py:66-77 | reference semantics of a `try` block of socket calls: the calls are issued in order, stopping at the first that raises. It has no contract of its own; its properties are RunCallsShape, RunCallsResponses, RunCallsAppend and RunCallsFailedPrefix |
| Sockets.RunCallsShape | src/urllib3/util/connection.py:66-77 | the calls a `try` block issues are a prefix of its plan: all of it when nothing raised, and at least one call otherwise |
| Sockets.RunCallsResponses | src/urllib3/util/connection.py:66-77 | every issued call but the last returned normally; the last one raised the reported exception, or returned normally when there is none |
| Sockets.RunCallsAppend | src/urllib3/util/connection.py:66-77 | running two consecutive groups of statements is running the first, then the second only if the first did not raise |
| Sockets.ThenAssoc | src/urllib3/util/connection.py:66-77 | sequencing of statement groups is associative |
| Sockets.RunCallsFailedPrefix | src/urllib3/util/connection.py:66-77 | once a statement raised, no later statement of the block is issued |
| Sockets.RunPrefixStep | src/urllib3/util/connection.py:95-96 | one more call past a completed prefix either completes too or stops the whole sequence with its exception |
| ConnectionProperties.PlanLayout | src/urllib3/util/connection.py:67-76 | the exact layout of one candidate's calls: open with the candidate's family, type and protocol; then the options; then settimeout iff the timeout is not the sentinel (an explicit None included); then bind iff a source address is given; then connect to the candidate's address |
| ConnectionProperties.PlanSockets | src/urllib3/util/connection.py:67-76 | every planned call is on the candidate's socket, the open comes first and only there, and the plan closes nothing |
| ConnectionProperties.PlanCalls | src/urllib3/util/connection.py:72-75 | settimeout(t) is planned iff the timeout is given as t, and bind(a) iff the source address is a |
| ConnectionProperties.AttemptCalls | src/urllib3/util/connection.py:65-83 | an attempt's calls are the plan up to its first raise, plus a close exactly when an OSError was caught after the socket was created; all are on its socket, and the open comes first and only there |
| ConnectionProperties.AttemptCloses | src/urllib3/util/connection.py:79-83 | the socket is closed iff an OSError was caught and the socket creation had returned normally, and the close is then the attempt's last call |
| ConnectionProperties.AttemptConnected | src/urllib3/util/connection.py:66-77 | an attempt connects iff every planned call returned normally; it then issued the whole plan and did not close its socket |
| ConnectionProperties.AttemptFailed | src/urllib3/util/connection.py:79-83 | a failed attempt caught an OSError raised by its last call, or by the call just before a close that returned normally |
| ConnectionProperties.AttemptPropagated | src/urllib3/util/connection.py:79-83 | an exception leaving an attempt was raised by its last call; an OSError can leave only from the close |
| ConnectionProperties.AttemptFactsHold | src/urllib3/util/connection.py:65-83 | every attempt satisfies all the per-attempt facts above at once |
| ConnectionProperties.AttemptsCount | src/urllib3/util/connection.py:63-86 | at most one attempt per candidate; every attempt but the last failed; if the last failed (or there was none), every candidate was tried |
| ConnectionProperties.WalkAttempts | src/urllib3/util/connection.py:63-88 | the loop's trace is its attempts' calls in order, and its result is the last attempt's socket or exception, or the empty-list error when there was none |
| ConnectionTheorems.RunOrdered | src/urllib3/util/connection.py:63-77 | in a run, every call after the query is on a candidate's socket and the socket index never decreases |
| ConnectionTheorems.RunOpens | src/urllib3/util/connection.py:63-67 | a call opens a socket exactly when it is the first call on that socket; the open uses its candidate's family, type and protocol, and candidates are opened one after another without skipping |
| ConnectionTheorems.RunSuccess | src/urllib3/util/connection.py:63-77 | a returned socket's whole plan ends the trace, with every call returning normally; every earlier candidate had a call that raised; no later socket was touched; and the returned socket was never closed |
| ConnectionTheorems.RunCloses | src/urllib3/util/connection.py:79-83 | a socket whose creation raised is never closed. Every created socket is closed unless it is returned or a non-OSError escaped. Every created socket of a candidate before the last one tried is closed, whatever ended the run. A close is the last call on its socket |
| ConnectionTheorems.EarlierClosed | src/urllib3/util/connection.py:79-83 | a created socket of a candidate before the last one tried is closed: that candidate failed with a caught OSError, even when a later one raised something else |
| ConnectionTheorems.RunLastError | src/urllib3/util/connection.py:79-86 | when an error leaves after a non-empty candidate list, it came from the last call or from the call before a final close that returned normally; an OSError that did not come from a final close was raised on the last candidate, so every candidate was tried |
| ConnectionTheorems.RunEmpty | src/urllib3/util/connection.py:63-88 | with no candidate the trace is just the query, and the empty-list error is raised |
| ConnectionTheorems.SpecRun | src/urllib3/util/connection.py:30-88 | once the resolver answers, create_connection's trace is the query followed by the attempts on the candidates, each satisfying its per-attempt facts |
| ConnectionTheorems.CandidatesInOrder | src/urllib3/util/connection.py:58-77 | the resolver is queried first, with the normalised host and the allowed family. Candidates are then tried in resolver order, each starting with the open of its own socket with its own family, type and protocol. No candidate is skipped, and no socket is revisited |
| ConnectionTheorems.FirstSuccessReturned | src/urllib3/util/connection.py:63-77 | a returned socket is the first candidate whose whole setup and connect returned normally. Every earlier candidate raised, no later candidate was touched, and the returned socket is never closed |
| ConnectionTheorems.FailedSocketsClosed | src/urllib3/util/connection.py:79-83 | a socket whose creation raised is never closed. Every created socket except the returned one is closed, unless a non-OSError escaped. Even then, every created socket of a candidate before the last one tried is closed. The close is the socket's last call, so it precedes the next candidate |
| ConnectionTheorems.LastErrorRaised | src/urllib3/util/connection.py:85-88 | if every candidate fails, the raised error is the last candidate's error. It came from the last call, or from the call before a final close that returned normally. With no candidate, the constant `Connection.EmptyListError`, `OSError("getaddrinfo returns an empty list")`, is raised right after the query |

## Left out

- The operating system, `socket.getaddrinfo`, the IDNA codec and `wait_for_read` are not modelled. They are the fields of `Env` and a `readable` parameter, and they answer each call arbitrarily, with a value or an exception.
- The socket oracle answers by the call's position in the invocation, not by the whole history. The module is deterministic, so within one invocation a position fixes every call before it. Properties that compare two different invocations are not stated.
- Timeout values are `Option<real>`, and no arithmetic is done on them. `socket.getdefaulttimeout` and the way the OS enforces a timeout are not modelled.
- Socket addresses are (host, port) pairs. The IPv6 flow-info and scope-id fields of a 4-tuple address are not modelled.
- `HAS_IPV6` (src/urllib3/util/connection.py:133) is a module-level value computed once at import time. The model passes it as the `hasIpv6` parameter, and `socket.has_ipv6` is the `pythonHasIpv6` parameter of `HasIpv6`.
- `source_address` is an `Option`. A present address counts as truthy, so the empty tuple, which Python treats as false, is not modelled.
- Exceptions are grouped into three kinds: OSError with its subclasses, LocationParseError, and any other exception. The Python class hierarchy is not modelled beyond that split.
- In `_has_ipv6`, an exception that does not derive from `Exception`, such as `KeyboardInterrupt`, escapes the `except Exception` clause. The model does not include that path.
- A non-OSError raised while a candidate's socket is open leaves that socket unclosed. This is the source's own behaviour, and the model reproduces it rather than fixing it.
- Socket objects are named by candidate index, so their identity, garbage collection and the `sock = None` reassignment are not modelled.
- The socket returned by `create_connection` is a `SockId`, not a socket object with its state.
- The tests, PoolManager, retries, redirects and TLS helpers are not part of this model.
