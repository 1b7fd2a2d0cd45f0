/**
 * util/connection.py: opening a client socket to the first reachable
 * address of a host, the liveness probe on an established connection, and
 * the choice of address family for name resolution.
 */
module Connection {
  import opened Wrappers
  import opened Sockets

  // ---------------------------------------------------------------------
  // Host normalisation: `host.strip("[]")` when the host starts with '['
  // ---------------------------------------------------------------------

  predicate IsBracket(c: char) { c == '[' || c == ']' }

  predicate AllBrackets(s: string) { forall k :: 0 <= k < |s| ==> IsBracket(s[k]) }

  /** Neither end of `s` is a bracket. */
  predicate Trimmed(s: string) { |s| == 0 || (!IsBracket(s[0]) && !IsBracket(s[|s| - 1])) }

  /** The number of brackets `s` starts with. */
  function LeadingBrackets(s: string): (n: nat)
    ensures n <= |s| && AllBrackets(s[..n])
    ensures n < |s| ==> !IsBracket(s[n])
    decreases |s|
  {
    if |s| > 0 && IsBracket(s[0]) then
      var m := LeadingBrackets(s[1..]);
      assert s[..1 + m] == [s[0]] + s[1..][..m];
      1 + m
    else 0
  }

  /** The number of brackets `s` ends with. */
  function TrailingBrackets(s: string): (n: nat)
    ensures n <= |s| && forall k :: |s| - n <= k < |s| ==> IsBracket(s[k])
    ensures n < |s| ==> !IsBracket(s[|s| - 1 - n])
    decreases |s|
  {
    if |s| > 0 && IsBracket(s[|s| - 1]) then
      var t := s[..|s| - 1];
      var m := TrailingBrackets(t);
      assert forall k :: |t| - m <= k < |t| ==> s[k] == t[k];
      1 + m
    else 0
  }

  /**
   * Python's `s.strip("[]")`: every leading and every trailing '[' or ']' is
   * removed. What remains is the part of `s` between a run of brackets on
   * the left and a run of brackets on the right, with no bracket at either
   * end.
   */
  function StripBrackets(s: string): (r: string)
    ensures Trimmed(r)
    ensures var i := LeadingBrackets(s);
      i + |r| <= |s| && s[i..i + |r|] == r && AllBrackets(s[..i]) && AllBrackets(s[i + |r|..])
  {
    var i := LeadingBrackets(s);
    var t := s[i..];
    var r := t[..|t| - TrailingBrackets(t)];
    assert s[i + |r|..] == t[|t| - TrailingBrackets(t)..];
    r
  }

  /** connection.py:48-50: the host name as passed on to the IDNA check and the resolver. */
  function NormalizeHost(host: string): (h: string)
    ensures |host| > 0 && host[0] == '[' ==> Trimmed(h) && |h| < |host|
    ensures !(|host| > 0 && host[0] == '[') ==> h == host
  {
    if |host| > 0 && host[0] == '[' then StripBrackets(host) else host
  }

  /** `s.strip("[]")` is the only way to write `s` as brackets, a trimmed middle, and brackets. */
  lemma StripBracketsUnique(s: string, p: string, r: string, q: string)
    requires s == p + r + q && AllBrackets(p) && AllBrackets(q) && Trimmed(r)
    ensures StripBrackets(s) == r
  {
    assert s == p + (r + q);
    LeadingPastBrackets(p, r + q);
    if |r| == 0 {
      StripAllBrackets(s, p, q);
    } else {
      StripAroundMiddle(s, p, r, q);
    }
  }

  /** Only brackets strip to nothing. */
  lemma StripAllBrackets(s: string, p: string, q: string)
    requires s == p + q && AllBrackets(p) && AllBrackets(q)
    ensures StripBrackets(s) == []
  {
    LeadingAllBrackets(s);
  }

  /** Brackets around a middle that starts and ends with no bracket strip to that middle. */
  lemma StripAroundMiddle(s: string, p: string, r: string, q: string)
    requires s == p + (r + q) && AllBrackets(p) && AllBrackets(q) && |r| > 0 && Trimmed(r)
    requires LeadingBrackets(s) == |p| + LeadingBrackets(r + q)
    ensures StripBrackets(s) == r
  {
    assert LeadingBrackets(r + q) == 0 by { assert (r + q)[0] == r[0]; }
    assert s[|p|..] == r + q;
    TrailingPastBrackets(r, q);
    assert (r + q)[..|r|] == r;
  }

  lemma {:induction false} LeadingPastBrackets(p: string, x: string)
    requires AllBrackets(p)
    ensures LeadingBrackets(p + x) == |p| + LeadingBrackets(x)
    decreases |p|
  {
    if |p| > 0 {
      assert (p + x)[1..] == p[1..] + x;
      LeadingPastBrackets(p[1..], x);
    } else {
      assert p + x == x;
    }
  }

  lemma {:induction false} LeadingAllBrackets(s: string)
    requires AllBrackets(s)
    ensures LeadingBrackets(s) == |s|
    decreases |s|
  {
    if |s| > 0 {
      LeadingAllBrackets(s[1..]);
    }
  }

  lemma {:induction false} TrailingPastBrackets(r: string, q: string)
    requires |r| > 0 && !IsBracket(r[|r| - 1]) && AllBrackets(q)
    ensures TrailingBrackets(r + q) == |q|
    decreases |q|
  {
    if |q| > 0 {
      assert (r + q)[..|r + q| - 1] == r + q[..|q| - 1];
      TrailingPastBrackets(r, q[..|q| - 1]);
    } else {
      assert r + q == r;
    }
  }

  /** A bracketed literal such as "[::1]" or "[[fe80::1]]" loses exactly its brackets. */
  lemma NormalizeBracketedHost(p: string, addr: string, q: string)
    requires |p| > 0 && p[0] == '[' && AllBrackets(p) && AllBrackets(q) && Trimmed(addr)
    ensures NormalizeHost(p + addr + q) == addr
  {
    assert (p + addr + q)[0] == '[';
    StripBracketsUnique(p + addr + q, p, addr, q);
  }

  /** Normalising an already normalised host changes nothing. */
  lemma NormalizeHostIdempotent(host: string)
    ensures NormalizeHost(NormalizeHost(host)) == NormalizeHost(host)
  {
  }

  // ---------------------------------------------------------------------
  // allowed_gai_family and is_connection_dropped
  // ---------------------------------------------------------------------

  /** connection.py:99-107: IPv4 records only, unless the system can bind an IPv6 address. */
  function AllowedGaiFamily(hasIpv6: bool): (f: Family)
    ensures f == AF_INET <==> !hasIpv6
    ensures f == AF_UNSPEC <==> hasIpv6
  {
    if hasIpv6 then AF_UNSPEC else AF_INET
  }

  /** An HTTP connection object as far as the liveness probe looks at it: its `sock` attribute, if any. */
  datatype HttpConnection = HttpConnection(sock: Option<SockId>)

  /**
   * connection.py:12-23. `readable` is `wait_for_read(sock, timeout=0.0)`: a
   * socket that is readable before anything was requested has seen EOF or a
   * reset. An exception from that wait reaches the caller unchanged.
   */
  function IsConnectionDropped(conn: HttpConnection, readable: SockId -> Result<bool, Exception>): (dropped: Result<bool, Exception>)
    ensures conn.sock.None? ==> dropped == Ok(true)
    ensures conn.sock.Some? ==> (dropped == Ok(true) <==> readable(conn.sock.value) == Ok(true))
    ensures conn.sock.Some? ==> (dropped == Ok(false) <==> readable(conn.sock.value) == Ok(false))
    ensures conn.sock.Some? && readable(conn.sock.value).Err? ==> dropped == readable(conn.sock.value)
    ensures dropped.Err? ==> conn.sock.Some?
  {
    match conn.sock
    case None => Ok(true)
    case Some(s) => readable(s)
  }

  // ---------------------------------------------------------------------
  // create_connection
  // ---------------------------------------------------------------------

  /** The `timeout` argument: the module's default sentinel, or a value (None included) passed to settimeout. */
  datatype Timeout = GlobalDefault | Given(seconds: Option<real>)

  /** The per-socket arguments of create_connection. */
  datatype Config = Config(timeout: Timeout, sourceAddress: Option<SockAddr>, socketOptions: Option<seq<SockOpt>>)

  /** The error raised when the resolver returned no candidate (connection.py:88). */
  const EmptyListError: Exception := OSError("getaddrinfo returns an empty list")

  /** The error raised for a host that fails IDNA encoding (connection.py:61). */
  function ParseError(host: string): (e: Exception)
    ensures e.LocationParseError? && !e.OSError?
    ensures |e.location| > |host| + 1 && e.location[0] == '\'' && e.location[1..|host| + 1] == host
      && e.location[|host| + 1] == '\''
  {
    LocationParseError("'" + host + "', label empty or too long")
  }

  /** connection.py:91-96: one setsockopt per option, in order; None issues nothing. */
  function OptionCalls(sock: SockId, options: Option<seq<SockOpt>>): (calls: seq<Call>)
    ensures options.None? ==> |calls| == 0
    ensures options.Some? ==> |calls| == |options.value|
    ensures options.Some? ==> forall k :: 0 <= k < |calls| ==> calls[k] == SetSockOpt(sock, options.value[k])
  {
    match options
    case None => []
    case Some(opts) => SetSockOptCalls(sock, opts)
  }

  function SetSockOptCalls(sock: SockId, opts: seq<SockOpt>): (calls: seq<Call>)
    ensures |calls| == |opts|
    ensures forall k :: 0 <= k < |opts| ==> calls[k] == SetSockOpt(sock, opts[k])
  {
    if |opts| == 0 then [] else [SetSockOpt(sock, opts[0])] + SetSockOptCalls(sock, opts[1..])
  }

  /**
   * The calls create_connection makes for one candidate when none of them
   * raises (connection.py:67-76): open the socket, apply the options, set the
   * timeout unless it is the default sentinel, bind when a source address is
   * given, connect.
   */
  function Plan(cfg: Config, id: SockId, c: AddrInfo): (plan: seq<Call>)
    ensures |plan| >= 2
  {
    [Open(id, c.family, c.sockType, c.proto)]
    + (OptionCalls(id, cfg.socketOptions) + (TimeoutAndBindCalls(id, cfg) + [Connect(id, c.sockAddr)]))
  }

  /** connection.py:72-75: the calls between applying the options and connecting. */
  function TimeoutAndBindCalls(id: SockId, cfg: Config): (calls: seq<Call>)
  {
    TimeoutCalls(id, cfg.timeout) + BindCalls(id, cfg.sourceAddress)
  }

  /** connection.py:72-73: settimeout is called unless the timeout is the default sentinel. */
  function TimeoutCalls(id: SockId, timeout: Timeout): (calls: seq<Call>)
    ensures |calls| <= 1
  {
    if timeout.Given? then [SetTimeout(id, timeout.seconds)] else []
  }

  /** connection.py:74-75: bind is called only when a source address is given. */
  function BindCalls(id: SockId, sourceAddress: Option<SockAddr>): (calls: seq<Call>)
    ensures |calls| <= 1
  {
    if sourceAddress.Some? then [Bind(id, sourceAddress.value)] else []
  }

  /** How the attempt on one candidate ended. */
  datatype Attempt =
    | Connected(calls: seq<Call>)                  // the socket is returned
    | Failed(calls: seq<Call>, exc: Exception)     // an OSError was caught; the next candidate is tried
    | Propagated(calls: seq<Call>, exc: Exception) // an exception leaves create_connection

  /**
   * The `try`/`except OSError` around one candidate (connection.py:65-83):
   * run the plan; on an OSError close the socket if it was created; any other
   * exception, or one raised by close, propagates.
   */
  function AttemptCandidate(env: Env, cfg: Config, id: SockId, c: AddrInfo, n: nat): (a: Attempt)
    ensures a.calls != []
  {
    var plan := Plan(cfg, id, c);
    var run := RunCalls(env, n, plan);
    if run.failure.None? then Connected(run.issued)
    else
      var e := run.failure.value;
      if !e.OSError? then Propagated(run.issued, e)
      else if env.respond(n, plan[0]).Raised? then Failed(run.issued, e)
      else match env.respond(n + |run.issued|, Close(id))
        case Done => Failed(run.issued + [Close(id)], e)
        case Raised(e2) => Propagated(run.issued + [Close(id)], e2)
  }

  /** The calls a (part of a) create_connection issues, and what it returns or raises. */
  datatype Outcome = Outcome(trace: seq<Call>, result: Result<SockId, Exception>)

  /**
   * The loop over the candidates from index `i` on (connection.py:63-88),
   * starting at call position `n`, with `err` the last OSError caught so far.
   * The outcome's trace holds only the calls issued from candidate `i` on.
   */
  function Walk(env: Env, cfg: Config, cands: seq<AddrInfo>, i: nat, n: nat, err: Option<Exception>): (o: Outcome)
    requires i <= |cands|
    ensures o.result.Ok? ==> i <= o.result.value < |cands|
    decreases |cands| - i
  {
    if i == |cands| then
      Outcome([], Err(if err.Some? then err.value else EmptyListError))
    else match AttemptCandidate(env, cfg, i, cands[i], n)
      case Connected(calls) => Outcome(calls, Ok(i))
      case Propagated(calls, e) => Outcome(calls, Err(e))
      case Failed(calls, e) =>
        var rest := Walk(env, cfg, cands, i + 1, n + |calls|, Some(e));
        Outcome(calls + rest.trace, rest.result)
  }

  /** One step of Walk, for the attempt `a` on candidate `i`. */
  lemma WalkStep(env: Env, cfg: Config, cands: seq<AddrInfo>, i: nat, n: nat, err: Option<Exception>, a: Attempt)
    requires i < |cands| && a == AttemptCandidate(env, cfg, i, cands[i], n)
    ensures Walk(env, cfg, cands, i, n, err) == match a
      case Connected(calls) => Outcome(calls, Ok(i))
      case Propagated(calls, e) => Outcome(calls, Err(e))
      case Failed(calls, e) => Outcome(calls + Walk(env, cfg, cands, i + 1, n + |calls|, Some(e)).trace,
                                       Walk(env, cfg, cands, i + 1, n + |calls|, Some(e)).result)
  {
  }

  /** After a failed candidate the walk goes on from the next one, with that candidate's error remembered. */
  lemma WalkContinues(env: Env, cfg: Config, cands: seq<AddrInfo>, i: nat, n: nat, err: Option<Exception>,
                      a: Attempt, m: nat, before: seq<Call>, goal: Outcome)
    requires i < |cands| && a == AttemptCandidate(env, cfg, i, cands[i], n) && a.Failed? && m == n + |a.calls|
    requires goal == Outcome(before + Walk(env, cfg, cands, i, n, err).trace, Walk(env, cfg, cands, i, n, err).result)
    ensures var next := Walk(env, cfg, cands, i + 1, m, Some(a.exc));
      goal == Outcome((before + a.calls) + next.trace, next.result)
  {
    WalkStep(env, cfg, cands, i, n, err, a);
    var next := Walk(env, cfg, cands, i + 1, m, Some(a.exc));
    assert before + (a.calls + next.trace) == (before + a.calls) + next.trace;
  }

  /** The resolver query create_connection issues for `host`. */
  function Query(host: string, port: int, hasIpv6: bool): (q: Call)
    ensures q.GetAddrInfo? && q.host == host && q.port == port && q.sockType == SOCK_STREAM
    ensures q.family == AF_UNSPEC <==> hasIpv6
    ensures q.family == AF_INET <==> !hasIpv6
  {
    GetAddrInfo(host, port, AllowedGaiFamily(hasIpv6), SOCK_STREAM)
  }

  /** connection.py:30-88 as a whole: normalise, check IDNA, resolve, walk the candidates. */
  function CreateConnectionSpec(env: Env, hasIpv6: bool, address: (string, int), cfg: Config): (o: Outcome)
    ensures |o.trace| == 0 <==> !env.idnaEncodes(NormalizeHost(address.0))
    ensures |o.trace| > 0 ==> o.trace[0] == Query(NormalizeHost(address.0), address.1, hasIpv6)
    ensures o.result.Ok? ==>
      var answer := env.getaddrinfo(NormalizeHost(address.0), address.1, AllowedGaiFamily(hasIpv6), SOCK_STREAM);
      answer.Ok? && o.result.value < |answer.value|
  {
    var host := NormalizeHost(address.0);
    if !env.idnaEncodes(host) then Outcome([], Err(ParseError(host)))
    else
      var query := Query(host, address.1, hasIpv6);
      match env.getaddrinfo(host, address.1, AllowedGaiFamily(hasIpv6), SOCK_STREAM)
      case Err(e) => Outcome([query], Err(e))
      case Ok(cands) =>
        var w := Walk(env, cfg, cands, 0, 1, None);
        Outcome([query] + w.trace, w.result)
  }

  /**
   * connection.py:91-96, `_set_socket_options`: applies the options in order
   * from call position `n`, stopping at the first setsockopt that raises.
   */
  method SetSocketOptions(env: Env, n: nat, sock: SockId, options: Option<seq<SockOpt>>)
    returns (issued: seq<Call>, failure: Option<Exception>)
    ensures Run(issued, failure) == RunCalls(env, n, OptionCalls(sock, options))
  {
    issued, failure := [], None;
    if options.None? {
      return;
    }
    var opts := options.value;
    ghost var calls := OptionCalls(sock, options);
    var i := 0;
    while i < |opts|
      invariant 0 <= i <= |opts|
      invariant issued == calls[..i]
      invariant RunCalls(env, n, issued) == Run(issued, None)
    {
      var c := SetSockOpt(sock, opts[i]);
      var st := env.respond(n + i, c);
      assert calls[i] == c;
      RunPrefixStep(env, n, calls, i);
      issued := issued + [c];
      if st.Raised? {
        failure := Some(st.exc);
        return;
      }
      i := i + 1;
    }
    assert issued == calls;
  }

  /**
   * connection.py:72-75: set the timeout unless it is the default sentinel,
   * then bind when a source address is given; stop at the first call that
   * raises.
   */
  method SetTimeoutAndBind(env: Env, n: nat, id: SockId, cfg: Config)
    returns (issued: seq<Call>, failure: Option<Exception>)
    ensures Run(issued, failure) == RunCalls(env, n, TimeoutAndBindCalls(id, cfg))
  {
    issued, failure := [], None;
    assert RunCalls(env, n, issued) == Run(issued, None);
    // connection.py:72-73: set the timeout unless it is the default sentinel
    if cfg.timeout.Given? {
      var setTimeout := SetTimeout(id, cfg.timeout.seconds);
      var st := env.respond(n, setTimeout);
      RunCallsStep(env, n, issued, setTimeout);
      issued := issued + [setTimeout];
      if st.Raised? {
        failure := Some(st.exc);
        RunCallsFailedPrefix(env, n, issued, BindCalls(id, cfg.sourceAddress));
        return;
      }
    }
    assert issued == TimeoutCalls(id, cfg.timeout);
    // connection.py:74-75: bind only when a source address is given
    if cfg.sourceAddress.Some? {
      var bind := Bind(id, cfg.sourceAddress.value);
      var st := env.respond(n + |issued|, bind);
      RunCallsStep(env, n, issued, bind);
      issued := issued + [bind];
      if st.Raised? {
        failure := Some(st.exc);
      }
    }
    assert issued == TimeoutAndBindCalls(id, cfg);
  }

  /** The plan for one candidate runs as its four steps in sequence. */
  lemma PlanRun(env: Env, n: nat, cfg: Config, id: SockId, c: AddrInfo)
    ensures RunCalls(env, n, Plan(cfg, id, c)) ==
      var created := RunCalls(env, n, [Open(id, c.family, c.sockType, c.proto)]);
      var configured := Then(env, n, created, OptionCalls(id, cfg.socketOptions));
      var prepared := Then(env, n, configured, TimeoutAndBindCalls(id, cfg));
      Then(env, n, prepared, [Connect(id, c.sockAddr)])
  {
    var open, opts, middle, connect :=
      [Open(id, c.family, c.sockType, c.proto)], OptionCalls(id, cfg.socketOptions),
      TimeoutAndBindCalls(id, cfg), [Connect(id, c.sockAddr)];
    RunCallsAppend(env, n, open, opts + (middle + connect));
    ThenAssoc(env, n, RunCalls(env, n, open), opts, middle + connect);
    ThenAssoc(env, n, Then(env, n, RunCalls(env, n, open), opts), middle, connect);
  }

  /**
   * The `try` block of connection.py:66-77 for one candidate: the calls
   * issued are the plan run up to its first raise, and `created` says
   * whether `sock` was set, i.e. whether the socket was created.
   */
  method TryCandidate(env: Env, n: nat, id: SockId, c: AddrInfo, cfg: Config)
    returns (issued: seq<Call>, created: bool, failure: Option<Exception>)
    ensures Run(issued, failure) == RunCalls(env, n, Plan(cfg, id, c))
    ensures created <==> env.respond(n, Open(id, c.family, c.sockType, c.proto)) == Done
  {
    // connection.py:67: create the candidate's socket
    var open := Open(id, c.family, c.sockType, c.proto);
    var st := env.respond(n, open);
    issued, failure := [open], if st.Raised? then Some(st.exc) else None;
    created := st.Done?;
    ghost var run := RunCalls(env, n, [open]);
    RunCallsSingle(env, n, open);
    // each later statement of the `try` block runs only when nothing has raised yet
    // connection.py:70: apply the socket options
    ghost var opts := OptionCalls(id, cfg.socketOptions);
    if failure.None? {
      var more;
      more, failure := SetSocketOptions(env, n + 1, id, cfg.socketOptions);
      issued := issued + more;
    }
    assert Run(issued, failure) == Then(env, n, run, opts);
    run := Then(env, n, run, opts);
    // connection.py:72-75: timeout and source address
    ghost var middle := TimeoutAndBindCalls(id, cfg);
    if failure.None? {
      var more;
      more, failure := SetTimeoutAndBind(env, n + |issued|, id, cfg);
      issued := issued + more;
    }
    assert Run(issued, failure) == Then(env, n, run, middle);
    run := Then(env, n, run, middle);
    // connection.py:76: connect to the candidate's address
    var connect := Connect(id, c.sockAddr);
    if failure.None? {
      st := env.respond(n + |issued|, connect);
      RunCallsSingle(env, n + |issued|, connect);
      issued, failure := issued + [connect], if st.Raised? then Some(st.exc) else None;
    }
    assert Run(issued, failure) == Then(env, n, run, [connect]);
    PlanRun(env, n, cfg, id, c);
  }

  /**
   * One iteration of the loop of connection.py:63-83: the `try` block, and
   * on an OSError closing the socket if it was created; any other exception,
   * or one raised by that close, propagates.
   */
  method AttemptOn(env: Env, n: nat, id: SockId, c: AddrInfo, cfg: Config) returns (a: Attempt)
    ensures a == AttemptCandidate(env, cfg, id, c, n)
  {
    var issued, created, failure := TryCandidate(env, n, id, c, cfg);
    if failure.None? {
      return Connected(issued);
    }
    // connection.py:79: only an OSError is caught
    var e := failure.value;
    if !e.OSError? {
      return Propagated(issued, e);
    }
    // connection.py:81-82: close the socket if it was created
    if created {
      var st := env.respond(n + |issued|, Close(id));
      if st.Raised? {
        return Propagated(issued + [Close(id)], st.exc);
      }
      return Failed(issued + [Close(id)], e);
    }
    return Failed(issued, e);
  }

  /**
   * The loop of connection.py:63-88 over the resolver's candidates, starting
   * at call position `n`: the calls issued and the socket returned or the
   * exception raised.
   */
  method ConnectCandidates(env: Env, cfg: Config, cands: seq<AddrInfo>, n: nat)
    returns (r: Result<SockId, Exception>, calls: seq<Call>)
    ensures Outcome(calls, r) == Walk(env, cfg, cands, 0, n, None)
  {
    ghost var goal := Walk(env, cfg, cands, 0, n, None);
    var err: Option<Exception> := None;
    calls := [];
    var i, pos := 0, n;
    while i < |cands|
      invariant 0 <= i <= |cands| && pos == n + |calls|
      invariant var rest := Walk(env, cfg, cands, i, pos, err);
        goal == Outcome(calls + rest.trace, rest.result)
    {
      var a := AttemptOn(env, pos, i, cands[i], cfg);
      if !a.Failed? {
        WalkStep(env, cfg, cands, i, pos, err, a);
        return if a.Connected? then Ok(i) else Err(a.exc), calls + a.calls;
      }
      var next := pos + |a.calls|;
      WalkContinues(env, cfg, cands, i, pos, err, a, next, calls, goal);
      calls, err := calls + a.calls, Some(a.exc);
      i, pos := i + 1, next;
    }
    // raise err, or the empty-list error when no candidate was tried
    if err.Some? {
      return Err(err.value), calls;
    }
    return Err(EmptyListError), calls;
  }

  /**
   * connection.py:30-88, `create_connection`. Returns the socket of the
   * first candidate whose setup and connect all succeed, or the exception
   * raised, together with every call issued.
   */
  method CreateConnection(env: Env, hasIpv6: bool, address: (string, int), timeout: Timeout,
                          sourceAddress: Option<SockAddr>, socketOptions: Option<seq<SockOpt>>)
    returns (r: Result<SockId, Exception>, trace: seq<Call>)
    ensures Outcome(trace, r) == CreateConnectionSpec(env, hasIpv6, address, Config(timeout, sourceAddress, socketOptions))
    ensures !env.idnaEncodes(NormalizeHost(address.0)) ==> trace == [] && r == Err(ParseError(NormalizeHost(address.0)))
    ensures env.idnaEncodes(NormalizeHost(address.0)) ==>
      trace != [] && trace[0] == GetAddrInfo(NormalizeHost(address.0), address.1, AllowedGaiFamily(hasIpv6), SOCK_STREAM)
    ensures
      (env.idnaEncodes(NormalizeHost(address.0)) &&
       env.getaddrinfo(NormalizeHost(address.0), address.1, AllowedGaiFamily(hasIpv6), SOCK_STREAM).Err?) ==>
        |trace| == 1 &&
        r == Err(env.getaddrinfo(NormalizeHost(address.0), address.1, AllowedGaiFamily(hasIpv6), SOCK_STREAM).error)
  {
    var cfg := Config(timeout, sourceAddress, socketOptions);
    var host, port := address.0, address.1;
    if |host| > 0 && host[0] == '[' {
      host := StripBrackets(host);
    }
    var family := AllowedGaiFamily(hasIpv6);
    // host.encode("idna") raising UnicodeError becomes LocationParseError
    if !env.idnaEncodes(host) {
      return Err(ParseError(host)), [];
    }
    var query := GetAddrInfo(host, port, family, SOCK_STREAM);
    var resolved := env.getaddrinfo(host, port, family, SOCK_STREAM);
    if resolved.Err? {
      return Err(resolved.error), [query];
    }
    var calls;
    r, calls := ConnectCandidates(env, cfg, resolved.value, 1);
    trace := [query] + calls;
  }

  // ---------------------------------------------------------------------
  // _has_ipv6
  // ---------------------------------------------------------------------

  /** The probe is the only socket _has_ipv6 opens. */
  const Probe: SockId := 0

  /**
   * connection.py:110-130, `_has_ipv6(host)`. `pythonHasIpv6` is
   * `socket.has_ipv6`. Any exception from creating or binding the probe
   * socket means no IPv6; the probe is closed whenever it was created, and an
   * exception from that close propagates.
   */
  method HasIpv6(env: Env, pythonHasIpv6: bool, host: string) returns (r: Result<bool, Exception>, trace: seq<Call>)
    ensures !pythonHasIpv6 ==> r == Ok(false) && trace == []
    ensures pythonHasIpv6 ==> trace != [] && trace[0] == Open(Probe, AF_INET6, SOCK_STREAM, 0)
    ensures (Close(Probe) in trace) <==> pythonHasIpv6 && RespAt(env, 0, trace, 0) == Done
    ensures Close(Probe) in trace ==> trace[|trace| - 1] == Close(Probe)
    ensures r == Ok(true) <==>
      pythonHasIpv6 && trace == [Open(Probe, AF_INET6, SOCK_STREAM, 0), Bind(Probe, SockAddr(host, 0)), Close(Probe)] &&
      forall k :: 0 <= k < |trace| ==> RespAt(env, 0, trace, k) == Done
    ensures r.Err? ==>
      trace != [] && trace[|trace| - 1] == Close(Probe) && RespAt(env, 0, trace, |trace| - 1) == Raised(r.error)
    ensures r.Err? <==> Close(Probe) in trace && RespAt(env, 0, trace, |trace| - 1).Raised?
    ensures var open := Open(Probe, AF_INET6, SOCK_STREAM, 0);
      pythonHasIpv6 && env.respond(0, open).Raised? ==> trace == [open] && r == Ok(false)
    ensures var open, bind := Open(Probe, AF_INET6, SOCK_STREAM, 0), Bind(Probe, SockAddr(host, 0));
      pythonHasIpv6 && env.respond(0, open) == Done ==>
        && trace == [open, bind, Close(Probe)]
        && r == match env.respond(2, Close(Probe))
                case Raised(e) => Err(e)
                case Done => Ok(env.respond(1, bind) == Done)
  {
    var sock: Option<SockId> := None;
    var hasIpv6 := false;
    trace := [];
    if pythonHasIpv6 {
      var open := Open(Probe, AF_INET6, SOCK_STREAM, 0);
      var st := env.respond(|trace|, open);
      trace := trace + [open];
      if st.Done? {
        sock := Some(Probe);
        var bind := Bind(Probe, SockAddr(host, 0));
        st := env.respond(|trace|, bind);
        trace := trace + [bind];
        assert RespAt(env, 0, trace, 1) == st;
        if st.Done? {
          hasIpv6 := true;
        }
      }
    }
    if sock.Some? {
      var close := Close(Probe);
      var st := env.respond(|trace|, close);
      ghost var before := trace;
      trace := trace + [close];
      assert forall k :: 0 <= k < |before| ==> RespAt(env, 0, trace, k) == RespAt(env, 0, before, k);
      if st.Raised? {
        assert RespAt(env, 0, trace, |trace| - 1) == st;
        return Err(st.exc), trace;
      }
    }
    return Ok(hasIpv6), trace;
  }
}
