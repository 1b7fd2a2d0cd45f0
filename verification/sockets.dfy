/**
 * The socket layer underneath util/connection.py, reduced to the calls the
 * module issues. The operating system, the resolver and the IDNA codec are
 * not modelled: an `Env` answers every call, and its answer to a socket call
 * may depend on every call issued before it in the same invocation.
 */
module Sockets {
  import opened Wrappers

  /**
   * Sockets are named per invocation: the socket opened for the resolver's
   * candidate at index i is socket i.
   */
  type SockId = nat

  datatype Family = AF_UNSPEC | AF_INET | AF_INET6

  datatype SockType = SOCK_STREAM | SOCK_DGRAM | SOCK_RAW

  /** A (host, port) socket address; IPv6 flow and scope fields are not modelled. */
  datatype SockAddr = SockAddr(host: string, port: int)

  datatype OptValue = IntValue(n: int) | BytesValue(bytes: seq<bv8>)

  /** One `(level, optname, value)` triple of `socket_options`. */
  datatype SockOpt = SockOpt(level: int, name: int, value: OptValue)

  /** The exceptions the model distinguishes. */
  datatype Exception =
    | OSError(message: string)                  // OSError and its subclasses (socket.timeout, gaierror, ...)
    | LocationParseError(location: string)
    | OtherException(kind: string, message: string) // anything that is not an OSError

  /** One entry `(af, socktype, proto, canonname, sa)` of getaddrinfo's answer. */
  datatype AddrInfo = AddrInfo(family: Family, sockType: SockType, proto: int, canonName: string, sockAddr: SockAddr)

  /** The calls that leave the process. */
  datatype Call =
    | GetAddrInfo(host: string, port: int, family: Family, sockType: SockType)
    | Open(sock: SockId, family: Family, sockType: SockType, proto: int)
    | SetSockOpt(sock: SockId, opt: SockOpt)
    | SetTimeout(sock: SockId, timeout: Option<real>)
    | Bind(sock: SockId, addr: SockAddr)
    | Connect(sock: SockId, addr: SockAddr)
    | Close(sock: SockId)

  /** How a socket call returned: normally, or by raising. */
  datatype Status = Done | Raised(exc: Exception)

  /**
   * The world outside the process: whether `host.encode("idna")` succeeds,
   * what `socket.getaddrinfo` answers, and how each socket call returns.
   * `respond(n, c)` is the outcome of the call `c` when it is the n-th call
   * (counting from 0) of one invocation. The module's own behaviour is
   * deterministic, so within one invocation the position of a call fixes
   * every call issued before it: answering by position is as general as
   * answering by the whole history.
   */
  datatype Env = Env(
    idnaEncodes: string -> bool,
    getaddrinfo: (string, int, Family, SockType) -> Result<seq<AddrInfo>, Exception>,
    respond: (nat, Call) -> Status)

  /** The answer to the k-th call of `w`, when `w` starts at position `n`. */
  function RespAt(env: Env, n: nat, w: seq<Call>, k: nat): Status
    requires k < |w|
  {
    env.respond(n + k, w[k])
  }

  /** The answers to the calls of `w`, seen from a longer sequence `trace` that ends with `w` at position `p`. */
  lemma RespSuffix(env: Env, trace: seq<Call>, w: seq<Call>, p: nat)
    requires p + |w| == |trace| && trace[p..] == w
    ensures forall k :: p <= k < |trace| ==> RespAt(env, 0, trace, k) == RespAt(env, p, w, k - p)
  {
    forall k | p <= k < |trace|
      ensures RespAt(env, 0, trace, k) == RespAt(env, p, w, k - p)
    {
      assert trace[k] == w[k - p];
    }
  }

  /** The calls actually issued from a planned sequence, and the exception that stopped it, if any. */
  datatype Run = Run(issued: seq<Call>, failure: Option<Exception>)

  /**
   * Issues the calls of `plan` one by one from position `n`, stopping at the
   * first call that raises: the shape of a `try` block whose statements are
   * socket calls.
   */
  function RunCalls(env: Env, n: nat, plan: seq<Call>): (r: Run)
    decreases |plan|
  {
    if |plan| == 0 then Run([], None)
    else match env.respond(n, plan[0])
      case Raised(e) => Run([plan[0]], Some(e))
      case Done =>
        var rest := RunCalls(env, n + 1, plan[1..]);
        Run([plan[0]] + rest.issued, rest.failure)
  }

  /**
   * The issued calls are a prefix of the plan: all of it when nothing
   * raised, and at least the call that raised otherwise.
   */
  lemma {:induction false} RunCallsShape(env: Env, n: nat, plan: seq<Call>)
    ensures var r := RunCalls(env, n, plan);
      && |r.issued| <= |plan| && r.issued == plan[..|r.issued|]
      && (r.failure.None? ==> r.issued == plan)
      && (r.failure.Some? ==> r.issued != [])
    decreases |plan|
  {
    if |plan| > 0 && env.respond(n, plan[0]).Done? {
      RunCallsShape(env, n + 1, plan[1..]);
      var rest := RunCalls(env, n + 1, plan[1..]);
      assert plan == [plan[0]] + plan[1..];
      assert plan[..1 + |rest.issued|] == [plan[0]] + plan[1..][..|rest.issued|];
    }
  }

  /**
   * Every issued call but the last returned normally; the last one raised the
   * reported failure, or returned normally when there is none.
   */
  lemma {:induction false} RunCallsResponses(env: Env, n: nat, plan: seq<Call>)
    ensures var r := RunCalls(env, n, plan);
      forall k :: 0 <= k < |r.issued| ==>
        RespAt(env, n, r.issued, k) == if r.failure.Some? && k == |r.issued| - 1 then Raised(r.failure.value) else Done
    decreases |plan|
  {
    var r := RunCalls(env, n, plan);
    if |plan| > 0 && env.respond(n, plan[0]).Done? {
      var rest := RunCalls(env, n + 1, plan[1..]);
      RunCallsResponses(env, n + 1, plan[1..]);
      RunCallsShape(env, n + 1, plan[1..]);
      forall k | 0 <= k < |r.issued|
        ensures RespAt(env, n, r.issued, k) == if r.failure.Some? && k == |r.issued| - 1 then Raised(r.failure.value) else Done
      {
        assert r.issued == [plan[0]] + rest.issued;
        if k == 0 {
          assert rest.issued == [] ==> rest.failure.None?;
        } else {
          assert RespAt(env, n, r.issued, k) == RespAt(env, n + 1, rest.issued, k - 1);
        }
      }
    }
  }

  /**
   * Sequencing of two steps of a `try` block: after the run `a`, which
   * started at position `n`, the calls `q` are issued only if nothing in `a`
   * raised.
   */
  function Then(env: Env, n: nat, a: Run, q: seq<Call>): Run
  {
    if a.failure.Some? then a
    else var b := RunCalls(env, n + |a.issued|, q); Run(a.issued + b.issued, b.failure)
  }

  /** Running `p + q` is running `p`, then `q`. */
  lemma {:induction false} RunCallsAppend(env: Env, n: nat, p: seq<Call>, q: seq<Call>)
    ensures RunCalls(env, n, p + q) == Then(env, n, RunCalls(env, n, p), q)
    decreases |p|
  {
    if |p| == 0 {
      assert p + q == q;
    } else {
      assert (p + q)[0] == p[0];
      if env.respond(n, p[0]).Done? {
        assert (p + q)[1..] == p[1..] + q;
        var rest := RunCalls(env, n + 1, p[1..]);
        RunCallsAppend(env, n + 1, p[1..], q);
        if rest.failure.None? {
          RunCallsShape(env, n + 1, p[1..]);
          var b := RunCalls(env, n + 1 + |rest.issued|, q);
          assert [p[0]] + (rest.issued + b.issued) == ([p[0]] + rest.issued) + b.issued;
        }
      }
    }
  }

  /** Running from the empty run is running. */
  lemma ThenEmpty(env: Env, n: nat, q: seq<Call>)
    ensures Then(env, n, Run([], None), q) == RunCalls(env, n, q)
  {
    assert [] + RunCalls(env, n, q).issued == RunCalls(env, n, q).issued;
  }

  /** Sequencing is associative. */
  lemma ThenAssoc(env: Env, n: nat, a: Run, p: seq<Call>, q: seq<Call>)
    ensures Then(env, n, a, p + q) == Then(env, n, Then(env, n, a, p), q)
  {
    if a.failure.None? {
      var m := n + |a.issued|;
      RunCallsAppend(env, m, p, q);
      RunCallsShape(env, m, p);
      var rp := RunCalls(env, m, p);
      if rp.failure.None? {
        var rq := RunCalls(env, m + |p|, q);
        assert a.issued + (p + rq.issued) == (a.issued + p) + rq.issued;
      }
    }
  }

  /** A single call is issued, and the run fails exactly when it raises. */
  lemma RunCallsSingle(env: Env, n: nat, c: Call)
    ensures RunCalls(env, n, [c]) ==
      match env.respond(n, c)
      case Done => Run([c], None)
      case Raised(e) => Run([c], Some(e))
  {
    assert [c][0] == c;
    if env.respond(n, c).Done? {
      assert RunCalls(env, n + 1, [c][1..]) == Run([], None);
      assert [c] + [] == [c];
    }
  }

  /** Once a prefix of a plan raised, the rest of the plan is never issued. */
  lemma RunCallsFailedPrefix(env: Env, n: nat, p: seq<Call>, q: seq<Call>)
    requires RunCalls(env, n, p).failure.Some?
    ensures RunCalls(env, n, p + q) == RunCalls(env, n, p)
  {
    RunCallsAppend(env, n, p, q);
  }

  /**
   * Running a plan one call past a prefix that completed: either that
   * prefix extended by one call completes too, or the call raised and the
   * whole plan stops there.
   */
  lemma RunPrefixStep(env: Env, n: nat, plan: seq<Call>, i: nat)
    requires i < |plan| && RunCalls(env, n, plan[..i]) == Run(plan[..i], None)
    ensures plan[..i + 1] == plan[..i] + [plan[i]]
    ensures env.respond(n + i, plan[i]).Done? ==> RunCalls(env, n, plan[..i + 1]) == Run(plan[..i + 1], None)
    ensures env.respond(n + i, plan[i]).Raised? ==>
      RunCalls(env, n, plan) == Run(plan[..i + 1], Some(env.respond(n + i, plan[i]).exc))
  {
    assert plan[..i + 1] == plan[..i] + [plan[i]];
    RunCallsStep(env, n, plan[..i], plan[i]);
    if env.respond(n + i, plan[i]).Raised? {
      RunCallsFailedPrefix(env, n, plan[..i + 1], plan[i + 1..]);
      assert plan[..i + 1] + plan[i + 1..] == plan;
    }
  }

  /** Extending a prefix that ran to completion by one more call. */
  lemma RunCallsStep(env: Env, n: nat, done: seq<Call>, c: Call)
    requires RunCalls(env, n, done) == Run(done, None)
    ensures RunCalls(env, n, done + [c]) ==
      match env.respond(n + |done|, c)
      case Done => Run(done + [c], None)
      case Raised(e) => Run(done + [c], Some(e))
  {
    RunCallsAppend(env, n, done, [c]);
    RunCallsSingle(env, n + |done|, c);
  }
}
