/**
 * What create_connection promises about the calls it issues, proved about
 * the reference definition in module Connection (which the methods there
 * are proved to follow).
 */
module ConnectionProperties {
  import opened Wrappers
  import opened Sockets
  import opened Connection

  /** The socket a call is made on; the resolver query is on none. */
  function Sock(c: Call): int
  {
    if c.GetAddrInfo? then -1 else c.sock
  }

  /** Every call of `calls` is made on socket `id`. */
  predicate OnSocket(calls: seq<Call>, id: SockId)
  {
    forall k :: 0 <= k < |calls| ==> Sock(calls[k]) == id
  }

  /** No call of `calls` closes a socket. */
  predicate NoClose(calls: seq<Call>)
  {
    forall k :: 0 <= k < |calls| ==> !calls[k].Close?
  }

  // ---------------------------------------------------------------------
  // The per-candidate plan (connection.py:67-76, 91-96)
  // ---------------------------------------------------------------------

  /**
   * The layout of one candidate's calls: open first, then the options in
   * order, then settimeout exactly when the timeout is not the default
   * sentinel (an explicit None included), then bind exactly when a source
   * address is given, and connect last. Every call is on the candidate's
   * socket and none of them closes it.
   */
  lemma PlanLayout(cfg: Config, id: SockId, c: AddrInfo)
    ensures var plan := Plan(cfg, id, c);
      var opts := OptionCalls(id, cfg.socketOptions);
      var t := if cfg.timeout.Given? then 1 else 0;
      var b := if cfg.sourceAddress.Some? then 1 else 0;
      && |plan| == 2 + |opts| + t + b
      && plan[0] == Open(id, c.family, c.sockType, c.proto)
      && (forall k :: 0 <= k < |opts| ==> plan[1 + k] == opts[k])
      && (cfg.timeout.Given? ==> plan[1 + |opts|] == SetTimeout(id, cfg.timeout.seconds))
      && (cfg.sourceAddress.Some? ==> plan[1 + |opts| + t] == Bind(id, cfg.sourceAddress.value))
      && plan[|plan| - 1] == Connect(id, c.sockAddr)
  {
    var plan := Plan(cfg, id, c);
    var opts := OptionCalls(id, cfg.socketOptions);
    assert plan == [plan[0]] + opts + TimeoutAndBindCalls(id, cfg) + [plan[|plan| - 1]];
  }

  /**
   * Every call of the plan is on the candidate's socket, the open comes
   * first and only there, and none closes.
   */
  lemma PlanSockets(cfg: Config, id: SockId, c: AddrInfo)
    ensures var plan := Plan(cfg, id, c);
      && plan[0] == Open(id, c.family, c.sockType, c.proto) && OnSocket(plan, id) && NoClose(plan)
      && forall k :: 0 < k < |plan| ==> !plan[k].Open?
  {
    var plan := Plan(cfg, id, c);
    var opts := OptionCalls(id, cfg.socketOptions);
    var middle := TimeoutAndBindCalls(id, cfg);
    forall k | 0 <= k < |plan|
      ensures Sock(plan[k]) == id && !plan[k].Close? && (k > 0 ==> !plan[k].Open?)
    {
      if 1 <= k < 1 + |opts| {
        assert plan[k] == opts[k - 1];
      } else if 1 + |opts| <= k < 1 + |opts| + |middle| {
        assert plan[k] == middle[k - 1 - |opts|];
      }
    }
  }

  /** The plan mentions no socket but its own: settimeout and bind are the only optional calls. */
  lemma PlanCalls(cfg: Config, id: SockId, c: AddrInfo, t: Option<real>, a: SockAddr)
    ensures SetTimeout(id, t) in Plan(cfg, id, c) <==> cfg.timeout == Given(t)
    ensures Bind(id, a) in Plan(cfg, id, c) <==> cfg.sourceAddress == Some(a)
  {
    var opts := OptionCalls(id, cfg.socketOptions);
    assert forall k :: 0 <= k < |opts| ==> opts[k].SetSockOpt?;
    assert SetTimeout(id, t) !in opts && Bind(id, a) !in opts;
  }

  // ---------------------------------------------------------------------
  // One candidate (connection.py:65-83)
  // ---------------------------------------------------------------------

  /**
   * The calls of one attempt: the plan up to its first raise, followed by a
   * close exactly when an OSError was caught after the socket was created.
   * All of them are on the candidate's socket, and the open comes first.
   */
  lemma AttemptCalls(env: Env, cfg: Config, id: SockId, c: AddrInfo, n: nat)
    ensures var a := AttemptCandidate(env, cfg, id, c, n);
      var plan := Plan(cfg, id, c);
      var run := RunCalls(env, n, plan);
      var closes := run.failure.Some? && run.failure.value.OSError? && env.respond(n, plan[0]).Done?;
      && a.calls[0] == plan[0]
      && a.calls == (if closes then run.issued + [Close(id)] else run.issued)
      && OnSocket(a.calls, id)
      && (forall k :: 0 < k < |a.calls| ==> !a.calls[k].Open?)
      && (forall k :: 0 <= k < |a.calls| - 1 ==> !a.calls[k].Close?)
      && NoClose(run.issued)
  {
    var plan := Plan(cfg, id, c);
    var run := RunCalls(env, n, plan);
    RunCallsShape(env, n, plan);
    PlanSockets(cfg, id, c);
    assert forall k :: 0 <= k < |run.issued| ==> run.issued[k] == plan[k];
  }

  /**
   * The socket of an attempt is closed exactly when an OSError was caught
   * after the socket was created, and then as the attempt's last call.
   */
  lemma AttemptCloses(env: Env, cfg: Config, id: SockId, c: AddrInfo, n: nat)
    ensures var a := AttemptCandidate(env, cfg, id, c, n);
      var plan := Plan(cfg, id, c);
      var run := RunCalls(env, n, plan);
      var closes := run.failure.Some? && run.failure.value.OSError? && env.respond(n, plan[0]).Done?;
      && (Close(id) in a.calls <==> closes)
      && (closes ==> a.calls[|a.calls| - 1] == Close(id))
  {
    AttemptCalls(env, cfg, id, c, n);
  }

  /**
   * An attempt connects exactly when every call of the plan returned
   * normally; it then issued the whole plan and closed nothing.
   */
  lemma AttemptConnected(env: Env, cfg: Config, id: SockId, c: AddrInfo, n: nat)
    ensures var a := AttemptCandidate(env, cfg, id, c, n);
      var plan := Plan(cfg, id, c);
      && (a.Connected? <==> forall k :: 0 <= k < |plan| ==> RespAt(env, n, plan, k) == Done)
      && (a.Connected? ==> a.calls == plan && Close(id) !in a.calls)
  {
    var plan := Plan(cfg, id, c);
    var run := RunCalls(env, n, plan);
    RunCallsShape(env, n, plan);
    RunCallsResponses(env, n, plan);
    AttemptCalls(env, cfg, id, c, n);
    if run.failure.Some? {
      var last := |run.issued| - 1;
      assert RespAt(env, n, plan, last) == RespAt(env, n, run.issued, last);
    }
  }

  /**
   * How a caught OSError ended an attempt: it was raised by the last call of
   * the plan that was issued, and the close after it, if any, returned
   * normally.
   */
  lemma AttemptFailed(env: Env, cfg: Config, id: SockId, c: AddrInfo, n: nat)
    ensures var a := AttemptCandidate(env, cfg, id, c, n);
      var last := |a.calls| - 1;
      a.Failed? ==>
        && a.exc.OSError?
        && (a.calls[last] != Close(id) ==> RespAt(env, n, a.calls, last) == Raised(a.exc))
        && (a.calls[last] == Close(id) ==>
              last > 0 && RespAt(env, n, a.calls, last - 1) == Raised(a.exc) && RespAt(env, n, a.calls, last) == Done)
  {
    var a := AttemptCandidate(env, cfg, id, c, n);
    var plan := Plan(cfg, id, c);
    var run := RunCalls(env, n, plan);
    if a.Failed? {
      AttemptCalls(env, cfg, id, c, n);
      RunCallsResponses(env, n, plan);
      var j := |run.issued| - 1;
      assert RespAt(env, n, run.issued, j) == Raised(a.exc);
      if a.calls == run.issued {
        assert a.calls[j] != Close(id);
      } else {
        assert a.calls == run.issued + [Close(id)];
        assert RespAt(env, n, a.calls, j) == RespAt(env, n, run.issued, j);
        assert RespAt(env, n, a.calls, j + 1) == env.respond(n + |run.issued|, Close(id));
      }
    }
  }

  /**
   * An exception that leaves an attempt was raised by the attempt's last
   * call; if it is an OSError, that call is the close of the socket.
   */
  lemma AttemptPropagated(env: Env, cfg: Config, id: SockId, c: AddrInfo, n: nat)
    ensures var a := AttemptCandidate(env, cfg, id, c, n);
      var last := |a.calls| - 1;
      a.Propagated? ==>
        && RespAt(env, n, a.calls, last) == Raised(a.exc)
        && (a.exc.OSError? ==> a.calls[last] == Close(id))
  {
    var a := AttemptCandidate(env, cfg, id, c, n);
    var plan := Plan(cfg, id, c);
    var run := RunCalls(env, n, plan);
    if a.Propagated? && a.calls == run.issued {
      RunCallsShape(env, n, plan);
      RunCallsResponses(env, n, plan);
      assert RespAt(env, n, run.issued, |run.issued| - 1) == Raised(run.failure.value);
    }
  }

  // ---------------------------------------------------------------------
  // The loop over the candidates (connection.py:63-88)
  // ---------------------------------------------------------------------

  /** One attempt per candidate: AttemptCandidate, as a function value. */
  function Step(env: Env, cfg: Config): (step: (SockId, AddrInfo, nat) -> Attempt)
  {
    (id: SockId, c: AddrInfo, n: nat) => AttemptCandidate(env, cfg, id, c, n)
  }

  /**
   * The attempts the loop makes from candidate `i` on, starting at call
   * position `n`, when `step(id, c, n)` is the attempt on candidate `c` with
   * socket `id` from call position `n`: one per candidate, in resolver order,
   * continuing past an attempt only when it failed with a caught OSError.
   */
  function Attempts(step: (SockId, AddrInfo, nat) -> Attempt, cands: seq<AddrInfo>, i: nat, n: nat): (attempts: seq<Attempt>)
    requires i <= |cands|
    decreases |cands| - i
  {
    if i == |cands| then []
    else
      var a := step(i, cands[i], n);
      if a.Failed? then [a] + Attempts(step, cands, i + 1, n + |a.calls|) else [a]
  }

  /** The calls of a sequence of attempts, one attempt after the other. */
  function Flatten(attempts: seq<Attempt>): seq<Call>
  {
    if |attempts| == 0 then [] else attempts[0].calls + Flatten(attempts[1..])
  }

  lemma {:induction false} FlattenAppend(xs: seq<Attempt>, ys: seq<Attempt>)
    ensures Flatten(xs + ys) == Flatten(xs) + Flatten(ys)
    decreases |xs|
  {
    if |xs| == 0 {
      assert xs + ys == ys;
    } else {
      assert (xs + ys)[1..] == xs[1..] + ys;
      FlattenAppend(xs[1..], ys);
    }
  }

  /** Where attempt j starts among the calls of `attempts`. */
  function Start(attempts: seq<Attempt>, j: nat): nat
    requires j <= |attempts|
  {
    |Flatten(attempts[..j])|
  }

  lemma StartCons(a: Attempt, rest: seq<Attempt>, j: nat)
    requires 1 <= j <= 1 + |rest|
    ensures Start([a] + rest, j) == |a.calls| + Start(rest, j - 1)
  {
    var attempts := [a] + rest;
    assert attempts[..j] == [a] + rest[..j - 1];
    assert ([a] + rest[..j - 1])[1..] == rest[..j - 1];
  }

  /**
   * What every attempt on candidate `id`, made from call position `start`,
   * is known to satisfy. It opens the candidate's socket with its first
   * call and never again, and every call is on that socket. It closes the
   * socket only after the open returned normally, and then only as its
   * last call. A connected attempt issued the whole plan, every call of which
   * returned normally. A failed attempt caught an OSError, raised by its
   * last call or by the call just before a close that returned normally,
   * and it closed its socket whenever the open had returned normally. A
   * propagated exception was raised by the last call, and an OSError only
   * gets there from the close.
   */
  predicate AttemptFacts(env: Env, cfg: Config, id: SockId, c: AddrInfo, start: nat, a: Attempt)
  {
    && a.calls != [] && a.calls[0] == Open(id, c.family, c.sockType, c.proto)
    && OnSocket(a.calls, id)
    && (forall k :: 0 < k < |a.calls| ==> !a.calls[k].Open?)
    && (forall k :: 0 <= k < |a.calls| - 1 ==> !a.calls[k].Close?)
    && (Close(id) in a.calls ==>
          RespAt(env, start, a.calls, 0) == Done && a.calls[|a.calls| - 1] == Close(id))
    && (a.Connected? ==>
          && a.calls == Plan(cfg, id, c) && Close(id) !in a.calls
          && forall k :: 0 <= k < |a.calls| ==> RespAt(env, start, a.calls, k) == Done)
    && (a.Failed? ==>
          && a.exc.OSError?
          && (RespAt(env, start, a.calls, 0) == Done ==> Close(id) in a.calls)
          && (a.calls[|a.calls| - 1] != Close(id) ==>
                RespAt(env, start, a.calls, |a.calls| - 1) == Raised(a.exc))
          && (a.calls[|a.calls| - 1] == Close(id) ==>
                && |a.calls| > 1
                && RespAt(env, start, a.calls, |a.calls| - 2) == Raised(a.exc)
                && RespAt(env, start, a.calls, |a.calls| - 1) == Done))
    && (a.Propagated? ==>
          && RespAt(env, start, a.calls, |a.calls| - 1) == Raised(a.exc)
          && (a.exc.OSError? ==> a.calls[|a.calls| - 1] == Close(id)))
  }

  lemma AttemptFactsHold(env: Env, cfg: Config, id: SockId, c: AddrInfo, n: nat)
    ensures AttemptFacts(env, cfg, id, c, n, AttemptCandidate(env, cfg, id, c, n))
  {
    var a := AttemptCandidate(env, cfg, id, c, n);
    var last := |a.calls| - 1;
    AttemptCalls(env, cfg, id, c, n);
    PlanSockets(cfg, id, c);
    assert a.calls[0] == Open(id, c.family, c.sockType, c.proto);
    AttemptCloses(env, cfg, id, c, n);
    assert Close(id) in a.calls ==> RespAt(env, n, a.calls, 0) == Done && a.calls[last] == Close(id);
    AttemptConnected(env, cfg, id, c, n);
    AttemptFailed(env, cfg, id, c, n);
    AttemptPropagated(env, cfg, id, c, n);
  }

  lemma StepFactsHold(env: Env, cfg: Config)
    ensures forall id: SockId, c: AddrInfo, n: nat :: AttemptFacts(env, cfg, id, c, n, Step(env, cfg)(id, c, n))
  {
    forall id: SockId, c: AddrInfo, n: nat
      ensures AttemptFacts(env, cfg, id, c, n, Step(env, cfg)(id, c, n))
    {
      AttemptFactsHold(env, cfg, id, c, n);
    }
  }

  /**
   * The loop makes at most one attempt per candidate, and it stops early
   * only after an attempt that did not fail: every attempt but the last
   * failed, and when the last one failed too (or there was none), every
   * candidate was tried.
   */
  lemma {:induction false} AttemptsCount(step: (SockId, AddrInfo, nat) -> Attempt, cands: seq<AddrInfo>, i: nat, n: nat)
    requires i <= |cands|
    ensures var attempts := Attempts(step, cands, i, n);
      && |attempts| <= |cands| - i
      && (forall j :: 0 <= j < |attempts| - 1 ==> attempts[j].Failed?)
      && (|attempts| == 0 || attempts[|attempts| - 1].Failed? ==> |attempts| == |cands| - i)
    decreases |cands| - i
  {
    if i < |cands| {
      var a := step(i, cands[i], n);
      if a.Failed? {
        AttemptsCount(step, cands, i + 1, n + |a.calls|);
        var rest := Attempts(step, cands, i + 1, n + |a.calls|);
        var attempts := [a] + rest;
        assert forall j :: 1 <= j < |attempts| ==> attempts[j] == rest[j - 1];
      }
    }
  }

  /**
   * Attempt j is made on candidate i + j, from the call position right
   * after the attempts before it: whatever `facts` every attempt of `step`
   * satisfies holds of attempt j there.
   */
  lemma {:induction false} AttemptsAt(step: (SockId, AddrInfo, nat) -> Attempt, facts: (SockId, AddrInfo, nat, Attempt) -> bool,
                                      cands: seq<AddrInfo>, i: nat, n: nat, j: nat)
    requires forall id: SockId, c: AddrInfo, m: nat :: facts(id, c, m, step(id, c, m))
    requires i <= |cands| && j < |Attempts(step, cands, i, n)|
    ensures i + j < |cands|
    ensures var attempts := Attempts(step, cands, i, n);
      facts(i + j, cands[i + j], n + Start(attempts, j), attempts[j])
    decreases j
  {
    var attempts := Attempts(step, cands, i, n);
    var a := step(i, cands[i], n);
    if j == 0 {
      assert attempts[..0] == [];
    } else {
      var rest := Attempts(step, cands, i + 1, n + |a.calls|);
      AttemptsAt(step, facts, cands, i + 1, n + |a.calls|, j - 1);
      StartCons(a, rest, j);
      assert attempts[j] == rest[j - 1];
    }
  }

  lemma StepUnfold(env: Env, cfg: Config, cands: seq<AddrInfo>, i: nat, n: nat, a: Attempt)
    requires i < |cands| && a == AttemptCandidate(env, cfg, i, cands[i], n)
    ensures Attempts(Step(env, cfg), cands, i, n)
        == if a.Failed? then [a] + Attempts(Step(env, cfg), cands, i + 1, n + |a.calls|) else [a]
  {
  }

  /**
   * What the loop's outcome `o` is, given its `attempts` from candidate `i`
   * on with `err` caught before them: the trace is the calls of the
   * attempts, and the result is the socket of a last attempt that
   * connected, the exception of one that propagated, or, when the last one
   * failed, the OSError it caught (the empty-list error, or `err`, when
   * there was no attempt at all).
   */
  predicate WalkMatches(o: Outcome, attempts: seq<Attempt>, i: nat, err: Option<Exception>)
  {
    var last := |attempts| - 1;
    && o.trace == Flatten(attempts)
    && (|attempts| > 0 && attempts[last].Connected? ==> o.result == Ok(i + last))
    && (|attempts| > 0 && !attempts[last].Connected? ==> o.result == Err(attempts[last].exc))
    && (|attempts| == 0 ==> o.result == Err(if err.Some? then err.value else EmptyListError))
  }

  lemma WalkMatchesStep(a: Attempt, ro: Outcome, rest: seq<Attempt>, o: Outcome, attempts: seq<Attempt>, i: nat, err: Option<Exception>)
    requires o == match a
      case Connected(calls) => Outcome(calls, Ok(i))
      case Propagated(calls, e) => Outcome(calls, Err(e))
      case Failed(calls, e) => Outcome(calls + ro.trace, ro.result)
    requires attempts == if a.Failed? then [a] + rest else [a]
    requires a.Failed? ==> WalkMatches(ro, rest, i + 1, Some(a.exc))
    ensures WalkMatches(o, attempts, i, err)
  {
    assert attempts[1..] == (if a.Failed? then rest else []);
    if a.Failed? && |rest| > 0 {
      assert attempts[|attempts| - 1] == rest[|rest| - 1];
    }
  }

  /** The loop's outcome is the one its attempts make. */
  lemma {:induction false} WalkAttempts(env: Env, cfg: Config, cands: seq<AddrInfo>, i: nat, n: nat, err: Option<Exception>)
    requires i <= |cands|
    ensures WalkMatches(Walk(env, cfg, cands, i, n, err), Attempts(Step(env, cfg), cands, i, n), i, err)
    decreases |cands| - i
  {
    if i < |cands| {
      var a := AttemptCandidate(env, cfg, i, cands[i], n);
      var step := Step(env, cfg);
      StepUnfold(env, cfg, cands, i, n, a);
      WalkStep(env, cfg, cands, i, n, err, a);
      var m := n + |a.calls|;
      var next := if a.Failed? then Some(a.exc) else err;
      if a.Failed? {
        WalkAttempts(env, cfg, cands, i + 1, m, next);
      }
      WalkMatchesStep(a, Walk(env, cfg, cands, i + 1, m, next), Attempts(step, cands, i + 1, m),
                      Walk(env, cfg, cands, i, n, err), Attempts(step, cands, i, n), i, err);
    }
  }
}
