/**
 * What create_connection (connection.py:30-88) promises about the whole
 * trace of calls it issues and about its result, once the host has passed
 * the IDNA check and the resolver has returned its candidates. Trace index
 * t is also the call's position in the invocation, so RespAt(env, 0, trace, t)
 * is how the t-th call returned; index 0 is the resolver query.
 */
module ConnectionTheorems {
  import opened Wrappers
  import opened Sockets
  import opened Connection
  import opened ConnectionProperties

  // ---------------------------------------------------------------------
  // Positions in the calls of a sequence of attempts
  // ---------------------------------------------------------------------

  lemma StartNext(attempts: seq<Attempt>, j: nat)
    requires j < |attempts|
    ensures Start(attempts, j + 1) == Start(attempts, j) + |attempts[j].calls|
  {
    var a := attempts[j];
    assert attempts[..j + 1] == attempts[..j] + [a];
    FlattenAppend(attempts[..j], [a]);
    assert [a][1..] == [];
    assert Flatten([a]) == a.calls + [];
  }

  lemma {:induction false} StartMono(attempts: seq<Attempt>, j1: nat, j2: nat)
    requires j1 <= j2 <= |attempts|
    ensures Start(attempts, j1) <= Start(attempts, j2)
    decreases j2 - j1
  {
    if j1 < j2 {
      StartNext(attempts, j1);
      StartMono(attempts, j1 + 1, j2);
    }
  }

  lemma FlattenSplit(attempts: seq<Attempt>, j: nat)
    requires j < |attempts|
    ensures Flatten(attempts) == Flatten(attempts[..j]) + attempts[j].calls + Flatten(attempts[j + 1..])
  {
    assert attempts == attempts[..j] + attempts[j..];
    FlattenAppend(attempts[..j], attempts[j..]);
    assert attempts[j..][1..] == attempts[j + 1..];
  }

  /** Call u of attempt j sits at index 1 + Start(attempts, j) + u of the trace. */
  lemma TraceAt(env: Env, q: Call, attempts: seq<Attempt>, j: nat, u: nat)
    requires j < |attempts| && u < |attempts[j].calls|
    ensures var trace := [q] + Flatten(attempts);
      var t := 1 + Start(attempts, j) + u;
      && t < |trace| && trace[t] == attempts[j].calls[u]
      && RespAt(env, 0, trace, t) == RespAt(env, 1 + Start(attempts, j), attempts[j].calls, u)
  {
    FlattenSplit(attempts, j);
  }

  /** Every call of the flattened attempts belongs to one attempt. */
  lemma {:induction false} FlattenLocate(attempts: seq<Attempt>, t: nat) returns (j: nat, u: nat)
    requires t < |Flatten(attempts)|
    ensures j < |attempts| && u < |attempts[j].calls| && t == Start(attempts, j) + u
    decreases |attempts|
  {
    if t < |attempts[0].calls| {
      j, u := 0, t;
      assert attempts[..0] == [];
    } else {
      var j', u' := FlattenLocate(attempts[1..], t - |attempts[0].calls|);
      j, u := j' + 1, u';
      assert attempts == [attempts[0]] + attempts[1..];
      StartCons(attempts[0], attempts[1..], j);
    }
  }

  // ---------------------------------------------------------------------
  // The trace of one run, at the level of its attempts
  // ---------------------------------------------------------------------

  /**
   * What is known of the attempts of one run: attempt j is made on
   * candidate j from call position 1 + Start(attempts, j) and satisfies
   * AttemptFacts there; every attempt but the last failed; and when the
   * last one failed too, every candidate was tried.
   */
  predicate AllFacts(env: Env, cfg: Config, cands: seq<AddrInfo>, attempts: seq<Attempt>)
  {
    && |attempts| <= |cands|
    && (forall j: nat :: j < |attempts| ==> FactsAt(env, cfg, cands, attempts, j))
    && (forall j :: 0 <= j < |attempts| - 1 ==> attempts[j].Failed?)
    && (|attempts| == 0 || attempts[|attempts| - 1].Failed? ==> |attempts| == |cands|)
  }

  /** Attempt j is made on candidate j from call position 1 + Start(attempts, j), and AttemptFacts holds of it. */
  predicate FactsAt(env: Env, cfg: Config, cands: seq<AddrInfo>, attempts: seq<Attempt>, j: nat)
  {
    && j < |attempts| && j < |cands|
    && AttemptFacts(env, cfg, j, cands[j], 1 + Start(attempts, j), attempts[j])
  }

  lemma AttemptsSatisfyFacts(env: Env, cfg: Config, cands: seq<AddrInfo>)
    ensures AllFacts(env, cfg, cands, Attempts(Step(env, cfg), cands, 0, 1))
  {
    var step := Step(env, cfg);
    var attempts := Attempts(step, cands, 0, 1);
    var facts := (id: SockId, c: AddrInfo, m: nat, a: Attempt) => AttemptFacts(env, cfg, id, c, m, a);
    StepFactsHold(env, cfg);
    AttemptsCount(step, cands, 0, 1);
    AttemptsSatisfy(step, facts, cands);
    forall j: nat | j < |attempts|
      ensures FactsAt(env, cfg, cands, attempts, j)
    {
      assert facts(j, cands[j], 1 + Start(attempts, j), attempts[j]);
    }
  }

  lemma AttemptsSatisfy(step: (SockId, AddrInfo, nat) -> Attempt, facts: (SockId, AddrInfo, nat, Attempt) -> bool,
                        cands: seq<AddrInfo>)
    requires forall id: SockId, c: AddrInfo, m: nat :: facts(id, c, m, step(id, c, m))
    ensures var attempts := Attempts(step, cands, 0, 1);
      && |attempts| <= |cands|
      && forall j :: 0 <= j < |attempts| ==> facts(j, cands[j], 1 + Start(attempts, j), attempts[j])
  {
    var attempts := Attempts(step, cands, 0, 1);
    AttemptsCount(step, cands, 0, 1);
    forall j | 0 <= j < |attempts|
      ensures facts(j, cands[j], 1 + Start(attempts, j), attempts[j])
    {
      AttemptsAt(step, facts, cands, 0, 1, j);
    }
  }

  /** A run: the trace is the query `q` followed by the calls of the attempts, and the result is theirs. */
  predicate IsRun(env: Env, cfg: Config, cands: seq<AddrInfo>, attempts: seq<Attempt>, q: Call,
                  trace: seq<Call>, r: Result<SockId, Exception>)
  {
    && q.GetAddrInfo?
    && trace == [q] + Flatten(attempts)
    && WalkMatches(Outcome(Flatten(attempts), r), attempts, 0, None)
    && AllFacts(env, cfg, cands, attempts)
  }

  /** The attempt and the call that trace index t comes from, and the socket it is on. */
  lemma CallAt(env: Env, cfg: Config, cands: seq<AddrInfo>, attempts: seq<Attempt>, q: Call,
               trace: seq<Call>, r: Result<SockId, Exception>, t: nat) returns (j: nat, u: nat)
    requires IsRun(env, cfg, cands, attempts, q, trace, r) && 1 <= t < |trace|
    ensures j < |attempts| && j < |cands| && u < |attempts[j].calls| && t == 1 + Start(attempts, j) + u
    ensures trace[t] == attempts[j].calls[u] && Sock(trace[t]) == j
    ensures RespAt(env, 0, trace, t) == RespAt(env, 1 + Start(attempts, j), attempts[j].calls, u)
    ensures FactsAt(env, cfg, cands, attempts, j)
  {
    j, u := FlattenLocate(attempts, t - 1);
    TraceAt(env, q, attempts, j, u);
    var a := attempts[j];
    assert FactsAt(env, cfg, cands, attempts, j);
    assert Sock(a.calls[u]) == j;
  }

  /**
   * The calls of one attempt are all on socket `id`, open it for candidate
   * `c` first and only there, and close it, if at all, only last.
   */
  predicate Shaped(calls: seq<Call>, id: SockId, c: AddrInfo)
  {
    && calls != [] && calls[0] == Open(id, c.family, c.sockType, c.proto)
    && OnSocket(calls, id)
    && (forall k :: 0 < k < |calls| ==> !calls[k].Open?)
    && (forall k :: 0 <= k < |calls| - 1 ==> !calls[k].Close?)
  }

  /** The part of a run that says which socket each call is on. */
  predicate Laid(cands: seq<AddrInfo>, attempts: seq<Attempt>, q: Call, trace: seq<Call>)
  {
    && q.GetAddrInfo?
    && trace == [q] + Flatten(attempts)
    && |attempts| <= |cands|
    && forall j :: 0 <= j < |attempts| ==> Shaped(attempts[j].calls, j, cands[j])
  }

  lemma RunLaid(env: Env, cfg: Config, cands: seq<AddrInfo>, attempts: seq<Attempt>, q: Call,
                trace: seq<Call>, r: Result<SockId, Exception>)
    requires IsRun(env, cfg, cands, attempts, q, trace, r)
    ensures Laid(cands, attempts, q, trace)
  {
    forall j | 0 <= j < |attempts|
      ensures Shaped(attempts[j].calls, j, cands[j])
    {
      assert FactsAt(env, cfg, cands, attempts, j);
    }
  }

  /**
   * The attempt and the call that trace index t comes from: it is on that
   * attempt's socket, an open exactly when first, and a close only when last.
   */
  lemma CallOn(cands: seq<AddrInfo>, attempts: seq<Attempt>, q: Call, trace: seq<Call>, t: nat) returns (j: nat, u: nat)
    requires Laid(cands, attempts, q, trace) && 1 <= t < |trace|
    ensures j < |attempts| && j < |cands| && u < |attempts[j].calls| && t == 1 + Start(attempts, j) + u
    ensures trace[t] == attempts[j].calls[u] && Sock(trace[t]) == j
    ensures trace[t].Open? <==> u == 0
    ensures u == 0 ==> trace[t] == Open(j, cands[j].family, cands[j].sockType, cands[j].proto)
    ensures trace[t].Close? ==> u == |attempts[j].calls| - 1
  {
    j, u := FlattenLocate(attempts, t - 1);
    FlattenSplit(attempts, j);
    assert Shaped(attempts[j].calls, j, cands[j]);
  }

  /** Every call after the query is on a candidate's socket, and the sockets never go back. */
  lemma RunOrdered(cands: seq<AddrInfo>, attempts: seq<Attempt>, q: Call, trace: seq<Call>)
    requires Laid(cands, attempts, q, trace)
    ensures forall t :: 1 <= t < |trace| ==> 0 <= Sock(trace[t]) < |cands|
    ensures forall t1, t2 :: 1 <= t1 <= t2 < |trace| ==> Sock(trace[t1]) <= Sock(trace[t2])
  {
    forall t | 1 <= t < |trace|
      ensures 0 <= Sock(trace[t]) < |cands|
    {
      var j, u := CallOn(cands, attempts, q, trace, t);
    }
    forall t1, t2 | 1 <= t1 <= t2 < |trace|
      ensures Sock(trace[t1]) <= Sock(trace[t2])
    {
      var j1, u1 := CallOn(cands, attempts, q, trace, t1);
      var j2, u2 := CallOn(cands, attempts, q, trace, t2);
      if j2 < j1 {
        StartNext(attempts, j2);
        StartMono(attempts, j2 + 1, j1);
      }
    }
  }

  /**
   * The calls on each candidate begin with the open of its socket, with the
   * candidate's family, type and protocol; the first candidate's open comes
   * right after the query, and each later one's right after a call on the
   * candidate before it: no candidate is skipped.
   */
  lemma RunOpens(cands: seq<AddrInfo>, attempts: seq<Attempt>, q: Call, trace: seq<Call>)
    requires Laid(cands, attempts, q, trace)
    ensures forall t :: 1 <= t < |trace| ==> (trace[t].Open? <==> t == 1 || Sock(trace[t - 1]) != Sock(trace[t]))
    ensures forall t :: 1 <= t < |trace| && trace[t].Open? ==>
      && trace[t].sock < |cands|
      && trace[t] == Open(trace[t].sock, cands[trace[t].sock].family, cands[trace[t].sock].sockType, cands[trace[t].sock].proto)
    ensures forall t :: 1 <= t < |trace| && trace[t].Open? ==>
      (t == 1 ==> trace[t].sock == 0) && (t > 1 ==> Sock(trace[t - 1]) == trace[t].sock - 1)
  {
    forall t | 1 <= t < |trace|
      ensures trace[t].Open? <==> t == 1 || Sock(trace[t - 1]) != Sock(trace[t])
    {
      OpenAt(cands, attempts, q, trace, t);
    }
    forall t | 1 <= t < |trace| && trace[t].Open?
      ensures && trace[t].sock < |cands|
              && trace[t] == Open(trace[t].sock, cands[trace[t].sock].family, cands[trace[t].sock].sockType, cands[trace[t].sock].proto)
    {
      OpenAt(cands, attempts, q, trace, t);
    }
    forall t | 1 <= t < |trace| && trace[t].Open?
      ensures (t == 1 ==> trace[t].sock == 0) && (t > 1 ==> Sock(trace[t - 1]) == trace[t].sock - 1)
    {
      OpenAt(cands, attempts, q, trace, t);
    }
  }

  lemma OpenAt(cands: seq<AddrInfo>, attempts: seq<Attempt>, q: Call, trace: seq<Call>, t: nat)
    requires Laid(cands, attempts, q, trace) && 1 <= t < |trace|
    ensures trace[t].Open? <==> t == 1 || Sock(trace[t - 1]) != Sock(trace[t])
    ensures trace[t].Open? ==>
      && trace[t].sock < |cands|
      && trace[t] == Open(trace[t].sock, cands[trace[t].sock].family, cands[trace[t].sock].sockType, cands[trace[t].sock].proto)
      && (t == 1 ==> trace[t].sock == 0) && (t > 1 ==> Sock(trace[t - 1]) == trace[t].sock - 1)
  {
    var j, u := CallOn(cands, attempts, q, trace, t);
    if u > 0 {
      var j', u' := CallOn(cands, attempts, q, trace, t - 1);
      if j' < j {
        StartNext(attempts, j');
        StartMono(attempts, j' + 1, j);
      } else if j < j' {
        StartNext(attempts, j);
        StartMono(attempts, j + 1, j');
      }
    } else if j == 0 {
      assert attempts[..0] == [];
    } else {
      StartNext(attempts, 0);
      StartMono(attempts, 1, j);
      var j', u' := CallOn(cands, attempts, q, trace, t - 1);
      if j' >= j {
        StartMono(attempts, j, j');
      } else if j' + 1 < j {
        StartNext(attempts, j');
        StartNext(attempts, j' + 1);
        StartMono(attempts, j' + 2, j);
      }
    }
  }

  /** The last attempt's calls end the trace, right after those of the attempts before it. */
  lemma LastAttempt(env: Env, cfg: Config, cands: seq<AddrInfo>, attempts: seq<Attempt>, q: Call,
                    trace: seq<Call>, r: Result<SockId, Exception>)
    requires IsRun(env, cfg, cands, attempts, q, trace, r) && |attempts| > 0
    ensures var last := attempts[|attempts| - 1];
      && |trace| == 1 + Start(attempts, |attempts| - 1) + |last.calls|
      && trace[|trace| - |last.calls|..] == last.calls
      && AttemptFacts(env, cfg, |attempts| - 1, cands[|attempts| - 1], |trace| - |last.calls|, last)
  {
    var j := |attempts| - 1;
    FlattenSplit(attempts, j);
    assert attempts[j + 1..] == [];
    assert FactsAt(env, cfg, cands, attempts, j);
  }

  /** Some call of the trace on socket j raised. */
  ghost predicate RaisedOn(env: Env, trace: seq<Call>, j: int)
  {
    exists t :: 1 <= t < |trace| && Sock(trace[t]) == j && RespAt(env, 0, trace, t).Raised?
  }

  /** A failed attempt has a call that raised: its last, or the one before its close. */
  lemma FailedRaised(env: Env, cfg: Config, cands: seq<AddrInfo>, attempts: seq<Attempt>, q: Call,
                     trace: seq<Call>, j: nat) returns (t: nat)
    requires trace == [q] + Flatten(attempts) && j < |attempts| && j < |cands| && attempts[j].Failed?
    requires AttemptFacts(env, cfg, j, cands[j], 1 + Start(attempts, j), attempts[j])
    ensures 1 <= t < |trace| && Sock(trace[t]) == j && RespAt(env, 0, trace, t).Raised?
  {
    var calls := attempts[j].calls;
    var k := if calls[|calls| - 1] == Close(j) then |calls| - 2 else |calls| - 1;
    TraceAt(env, q, attempts, j, k);
    t := 1 + Start(attempts, j) + k;
  }

  /**
   * A socket is returned only when it belongs to the last attempt, and then
   * the trace ends with that candidate's whole plan, every call of which
   * returned normally, while each earlier candidate had a call that raised;
   * no later candidate was touched, and the returned socket was never
   * closed.
   */
  lemma RunSuccess(env: Env, cfg: Config, cands: seq<AddrInfo>, attempts: seq<Attempt>, q: Call,
                   trace: seq<Call>, r: Result<SockId, Exception>)
    requires IsRun(env, cfg, cands, attempts, q, trace, r) && r.Ok?
    ensures r.value == |attempts| - 1 && r.value < |cands|
    ensures var plan := Plan(cfg, r.value, cands[r.value]);
      && |plan| < |trace| && trace[|trace| - |plan|..] == plan
      && forall k :: |trace| - |plan| <= k < |trace| ==> RespAt(env, 0, trace, k) == Done
    ensures forall t :: 1 <= t < |trace| ==> Sock(trace[t]) <= r.value
    ensures Close(r.value) !in trace
    ensures forall j :: 0 <= j < r.value ==> RaisedOn(env, trace, j)
  {
    var s := |attempts| - 1;
    EarlierRaised(env, cfg, cands, attempts, q, trace, r);
    LastConnected(env, cfg, cands, attempts, q, trace, r);
    RunLaid(env, cfg, cands, attempts, q, trace, r);
    ClosedIn(cands, attempts, q, trace, s);
    forall t | 1 <= t < |trace|
      ensures Sock(trace[t]) <= s
    {
      var j, u := CallOn(cands, attempts, q, trace, t);
    }
  }

  /** Every attempt before the last one had a call that raised. */
  lemma EarlierRaised(env: Env, cfg: Config, cands: seq<AddrInfo>, attempts: seq<Attempt>, q: Call,
                      trace: seq<Call>, r: Result<SockId, Exception>)
    requires IsRun(env, cfg, cands, attempts, q, trace, r)
    ensures forall j :: 0 <= j < |attempts| - 1 ==> RaisedOn(env, trace, j)
  {
    forall j | 0 <= j < |attempts| - 1
      ensures RaisedOn(env, trace, j)
    {
      assert FactsAt(env, cfg, cands, attempts, j);
      var t := FailedRaised(env, cfg, cands, attempts, q, trace, j);
    }
  }

  /** A returned socket is the last attempt's: its whole plan ends the trace, every call returning normally, and it is not closed. */
  lemma LastConnected(env: Env, cfg: Config, cands: seq<AddrInfo>, attempts: seq<Attempt>, q: Call,
                      trace: seq<Call>, r: Result<SockId, Exception>)
    requires IsRun(env, cfg, cands, attempts, q, trace, r) && r.Ok?
    ensures r.value == |attempts| - 1 && r.value < |cands|
    ensures var plan := Plan(cfg, r.value, cands[r.value]);
      && |plan| < |trace| && trace[|trace| - |plan|..] == plan
      && forall k :: |trace| - |plan| <= k < |trace| ==> RespAt(env, 0, trace, k) == Done
    ensures Close(r.value) !in attempts[r.value].calls
  {
    var s := |attempts| - 1;
    LastAttempt(env, cfg, cands, attempts, q, trace, r);
    var plan := attempts[s].calls;
    var p := |trace| - |plan|;
    assert p == 1 + Start(attempts, s);
    assert forall k :: 0 <= k < |plan| ==> RespAt(env, p, plan, k) == Done;
    RespSuffix(env, trace, plan, p);
  }

  /** A socket is closed somewhere in the trace exactly when its own attempt closed it. */
  lemma ClosedIn(cands: seq<AddrInfo>, attempts: seq<Attempt>, q: Call, trace: seq<Call>, j: nat)
    requires Laid(cands, attempts, q, trace) && j < |attempts|
    ensures Close(j) in trace <==> Close(j) in attempts[j].calls
  {
    CallsInTrace(attempts, q, trace, j);
    if Close(j) in trace {
      var t :| 0 <= t < |trace| && trace[t] == Close(j);
      var j', u' := CallOn(cands, attempts, q, trace, t);
    }
  }

  /** Every call of attempt j is in the trace. */
  lemma CallsInTrace(attempts: seq<Attempt>, q: Call, trace: seq<Call>, j: nat)
    requires trace == [q] + Flatten(attempts) && j < |attempts|
    ensures forall u :: 0 <= u < |attempts[j].calls| ==> attempts[j].calls[u] in trace
  {
    FlattenSplit(attempts, j);
    forall u | 0 <= u < |attempts[j].calls|
      ensures attempts[j].calls[u] in trace
    {
      assert trace[1 + Start(attempts, j) + u] == attempts[j].calls[u];
    }
  }

  /** The socket opened at trace index t is closed only if that open returned normally. */
  lemma OpenFailedNotClosed(env: Env, cfg: Config, cands: seq<AddrInfo>, attempts: seq<Attempt>, q: Call,
                            trace: seq<Call>, r: Result<SockId, Exception>, t: nat)
    requires IsRun(env, cfg, cands, attempts, q, trace, r) && 1 <= t < |trace| && trace[t].Open?
    ensures Close(trace[t].sock) in trace ==> RespAt(env, 0, trace, t) == Done
  {
    var j, u := CallAt(env, cfg, cands, attempts, q, trace, r, t);
    assert u == 0;
    RunLaid(env, cfg, cands, attempts, q, trace, r);
    ClosedIn(cands, attempts, q, trace, j);
  }

  /**
   * The socket opened at trace index t, when that open returned normally,
   * is closed unless it is the one returned or an exception other than
   * OSError left create_connection.
   */
  lemma OpenedClosed(env: Env, cfg: Config, cands: seq<AddrInfo>, attempts: seq<Attempt>, q: Call,
                     trace: seq<Call>, r: Result<SockId, Exception>, t: nat)
    requires IsRun(env, cfg, cands, attempts, q, trace, r) && 1 <= t < |trace| && trace[t].Open?
    requires RespAt(env, 0, trace, t) == Done && r != Ok(trace[t].sock) && (r.Ok? || r.error.OSError?)
    ensures Close(trace[t].sock) in trace
  {
    var j, u := CallAt(env, cfg, cands, attempts, q, trace, r, t);
    assert u == 0;
    var a := attempts[j];
    if !a.Failed? {
      assert j == |attempts| - 1;
      var last := |a.calls| - 1;
      assert a.calls[last] == Close(j);
    }
    RunLaid(env, cfg, cands, attempts, q, trace, r);
    ClosedIn(cands, attempts, q, trace, j);
  }

  /**
   * The socket opened at trace index t, when that open returned normally and
   * a later candidate was tried, is closed: its attempt failed with a caught
   * OSError, whatever ended the run afterwards.
   */
  lemma EarlierClosed(env: Env, cfg: Config, cands: seq<AddrInfo>, attempts: seq<Attempt>, q: Call,
                      trace: seq<Call>, r: Result<SockId, Exception>, t: nat)
    requires IsRun(env, cfg, cands, attempts, q, trace, r) && 1 <= t < |trace| && trace[t].Open?
    requires RespAt(env, 0, trace, t) == Done && trace[t].sock < Sock(trace[|trace| - 1])
    ensures Close(trace[t].sock) in trace
  {
    var j, u := CallAt(env, cfg, cands, attempts, q, trace, r, t);
    var j', u' := CallAt(env, cfg, cands, attempts, q, trace, r, |trace| - 1);
    assert u == 0 && j < j' < |attempts|;
    assert attempts[j].Failed?;
    RunLaid(env, cfg, cands, attempts, q, trace, r);
    ClosedIn(cands, attempts, q, trace, j);
  }

  /** A close is the last call on its socket. */
  lemma CloseLast(cands: seq<AddrInfo>, attempts: seq<Attempt>, q: Call, trace: seq<Call>, t1: nat, t2: nat)
    requires Laid(cands, attempts, q, trace)
    requires 1 <= t1 < |trace| && 1 <= t2 < |trace| && trace[t1].Close? && Sock(trace[t2]) == trace[t1].sock
    ensures t2 <= t1
  {
    var j1, u1 := CallOn(cands, attempts, q, trace, t1);
    var j2, u2 := CallOn(cands, attempts, q, trace, t2);
  }

  /**
   * Sockets whose creation failed are never closed; every other socket is
   * closed unless it is returned or an exception other than OSError left
   * create_connection; and a close is the last call on its socket, so it
   * comes before anything is done with the next candidate.
   */
  lemma RunCloses(env: Env, cfg: Config, cands: seq<AddrInfo>, attempts: seq<Attempt>, q: Call,
                  trace: seq<Call>, r: Result<SockId, Exception>)
    requires IsRun(env, cfg, cands, attempts, q, trace, r)
    ensures forall t :: 1 <= t < |trace| && trace[t].Open? && Close(trace[t].sock) in trace ==>
      RespAt(env, 0, trace, t) == Done
    ensures forall t ::
      (1 <= t < |trace| && trace[t].Open? && RespAt(env, 0, trace, t) == Done &&
       r != Ok(trace[t].sock) && (r.Ok? || r.error.OSError?)) ==> Close(trace[t].sock) in trace
    ensures forall t ::
      (1 <= t < |trace| && trace[t].Open? && RespAt(env, 0, trace, t) == Done &&
       trace[t].sock < Sock(trace[|trace| - 1])) ==> Close(trace[t].sock) in trace
    ensures forall t1, t2 ::
      (1 <= t1 < |trace| && 1 <= t2 < |trace| && trace[t1].Close? && Sock(trace[t2]) == trace[t1].sock) ==> t2 <= t1
  {
    forall t | 1 <= t < |trace| && trace[t].Open? && Close(trace[t].sock) in trace
      ensures RespAt(env, 0, trace, t) == Done
    {
      OpenFailedNotClosed(env, cfg, cands, attempts, q, trace, r, t);
    }
    forall t | 1 <= t < |trace| && trace[t].Open? && RespAt(env, 0, trace, t) == Done &&
      r != Ok(trace[t].sock) && (r.Ok? || r.error.OSError?)
      ensures Close(trace[t].sock) in trace
    {
      OpenedClosed(env, cfg, cands, attempts, q, trace, r, t);
    }
    forall t | 1 <= t < |trace| && trace[t].Open? && RespAt(env, 0, trace, t) == Done &&
      trace[t].sock < Sock(trace[|trace| - 1])
      ensures Close(trace[t].sock) in trace
    {
      EarlierClosed(env, cfg, cands, attempts, q, trace, r, t);
    }
    RunLaid(env, cfg, cands, attempts, q, trace, r);
    forall t1, t2 | 1 <= t1 < |trace| && 1 <= t2 < |trace| && trace[t1].Close? && Sock(trace[t2]) == trace[t1].sock
      ensures t2 <= t1
    {
      CloseLast(cands, attempts, q, trace, t1, t2);
    }
  }

  /**
   * An exception that leaves create_connection after a non-empty candidate
   * list is the one raised last: by the last call, or by the call before a
   * last close that returned normally. Unless it came from that close or is
   * not an OSError, the last call was on the last candidate: every
   * candidate was tried.
   */
  lemma RunLastError(env: Env, cfg: Config, cands: seq<AddrInfo>, attempts: seq<Attempt>, q: Call,
                     trace: seq<Call>, r: Result<SockId, Exception>)
    requires IsRun(env, cfg, cands, attempts, q, trace, r) && r.Err? && |cands| > 0
    ensures var last := |trace| - 1;
      && last >= 1
      && (|| RespAt(env, 0, trace, last) == Raised(r.error)
          || (&& trace[last].Close? && RespAt(env, 0, trace, last) == Done
              && RespAt(env, 0, trace, last - 1) == Raised(r.error)))
    ensures var last := |trace| - 1;
      r.error.OSError? && !(trace[last].Close? && RespAt(env, 0, trace, last).Raised?) ==>
        Sock(trace[last]) == |cands| - 1
  {
    var j := |attempts| - 1;
    LastAttempt(env, cfg, cands, attempts, q, trace, r);
    var a := attempts[j];
    var start := |trace| - |a.calls|;
    var k := |a.calls| - 1;
    TraceAt(env, q, attempts, j, k);
    if a.Failed? && a.calls[k] == Close(j) {
      TraceAt(env, q, attempts, j, k - 1);
    }
    assert Sock(a.calls[k]) == j;
  }

  /** With no candidate there is no attempt: the trace is the query alone and the empty-list error is raised. */
  lemma RunEmpty(env: Env, cfg: Config, cands: seq<AddrInfo>, attempts: seq<Attempt>, q: Call,
                 trace: seq<Call>, r: Result<SockId, Exception>)
    requires IsRun(env, cfg, cands, attempts, q, trace, r) && |cands| == 0
    ensures trace == [q] && r == Err(EmptyListError)
  {
  }

  // ---------------------------------------------------------------------
  // create_connection, once the resolver has answered (connection.py:63-88)
  // ---------------------------------------------------------------------

  /** The host passes the IDNA check and the resolver returns `cands` for it. */
  predicate Resolves(env: Env, hasIpv6: bool, address: (string, int), cands: seq<AddrInfo>)
  {
    var host := NormalizeHost(address.0);
    env.idnaEncodes(host) && env.getaddrinfo(host, address.1, AllowedGaiFamily(hasIpv6), SOCK_STREAM) == Ok(cands)
  }

  /** The run of create_connection is the query followed by the attempts on the candidates. */
  lemma SpecRun(env: Env, hasIpv6: bool, address: (string, int), cfg: Config, cands: seq<AddrInfo>)
    requires Resolves(env, hasIpv6, address, cands)
    ensures var o := CreateConnectionSpec(env, hasIpv6, address, cfg);
      IsRun(env, cfg, cands, Attempts(Step(env, cfg), cands, 0, 1),
            Query(NormalizeHost(address.0), address.1, hasIpv6), o.trace, o.result)
  {
    var attempts := Attempts(Step(env, cfg), cands, 0, 1);
    var w := Walk(env, cfg, cands, 0, 1, None);
    WalkAttempts(env, cfg, cands, 0, 1, None);
    AttemptsSatisfyFacts(env, cfg, cands);
    assert Outcome(Flatten(attempts), w.result) == w;
  }

  /**
   * The resolver is queried first; then the candidates are tried in
   * resolver order: every later call is on a candidate's socket, the
   * sockets never go back, the calls on each candidate start with the open
   * of its socket with the candidate's family, type and protocol, and no
   * candidate is skipped.
   */
  lemma CandidatesInOrder(env: Env, hasIpv6: bool, address: (string, int), cfg: Config, cands: seq<AddrInfo>)
    requires Resolves(env, hasIpv6, address, cands)
    ensures var trace := CreateConnectionSpec(env, hasIpv6, address, cfg).trace;
      && |trace| > 0 && trace[0] == Query(NormalizeHost(address.0), address.1, hasIpv6)
      && (forall t :: 1 <= t < |trace| ==> 0 <= Sock(trace[t]) < |cands|)
      && (forall t1, t2 :: 1 <= t1 <= t2 < |trace| ==> Sock(trace[t1]) <= Sock(trace[t2]))
      && (forall t :: 1 <= t < |trace| ==> (trace[t].Open? <==> t == 1 || Sock(trace[t - 1]) != Sock(trace[t])))
      && (forall t :: 1 <= t < |trace| && trace[t].Open? ==>
            && trace[t].sock < |cands|
            && trace[t] == Open(trace[t].sock, cands[trace[t].sock].family, cands[trace[t].sock].sockType, cands[trace[t].sock].proto))
      && (forall t :: 1 <= t < |trace| && trace[t].Open? ==>
            (t == 1 ==> trace[t].sock == 0) && (t > 1 ==> Sock(trace[t - 1]) == trace[t].sock - 1))
  {
    var o := CreateConnectionSpec(env, hasIpv6, address, cfg);
    var attempts := Attempts(Step(env, cfg), cands, 0, 1);
    var q := Query(NormalizeHost(address.0), address.1, hasIpv6);
    SpecRun(env, hasIpv6, address, cfg, cands);
    RunLaid(env, cfg, cands, attempts, q, o.trace, o.result);
    RunOrdered(cands, attempts, q, o.trace);
    RunOpens(cands, attempts, q, o.trace);
  }

  /**
   * A returned socket is that of the candidate whose whole plan ends the
   * trace with every call returning normally, while every candidate before
   * it had a call that raised: it is the first candidate to succeed. No
   * later candidate was touched, and the returned socket was never closed.
   */
  lemma FirstSuccessReturned(env: Env, hasIpv6: bool, address: (string, int), cfg: Config, cands: seq<AddrInfo>)
    requires Resolves(env, hasIpv6, address, cands)
    ensures var o := CreateConnectionSpec(env, hasIpv6, address, cfg);
      o.result.Ok? ==>
        && o.result.value < |cands|
        && (var plan := Plan(cfg, o.result.value, cands[o.result.value]);
            && |plan| < |o.trace| && o.trace[|o.trace| - |plan|..] == plan
            && forall k :: |o.trace| - |plan| <= k < |o.trace| ==> RespAt(env, 0, o.trace, k) == Done)
        && (forall t :: 1 <= t < |o.trace| ==> Sock(o.trace[t]) <= o.result.value)
        && Close(o.result.value) !in o.trace
        && (forall j :: 0 <= j < o.result.value ==> RaisedOn(env, o.trace, j))
  {
    var o := CreateConnectionSpec(env, hasIpv6, address, cfg);
    SpecRun(env, hasIpv6, address, cfg, cands);
    if o.result.Ok? {
      RunSuccess(env, cfg, cands, Attempts(Step(env, cfg), cands, 0, 1),
                 Query(NormalizeHost(address.0), address.1, hasIpv6), o.trace, o.result);
    }
  }

  /**
   * A socket whose creation raised is never closed. Every socket that was
   * created is closed, unless it is the one returned or an exception other
   * than OSError left create_connection; and whatever left it, every created
   * socket of a candidate before the last one tried is closed. A close is
   * the last call on its socket, so it comes before the next candidate is
   * tried.
   */
  lemma FailedSocketsClosed(env: Env, hasIpv6: bool, address: (string, int), cfg: Config, cands: seq<AddrInfo>)
    requires Resolves(env, hasIpv6, address, cands)
    ensures var o := CreateConnectionSpec(env, hasIpv6, address, cfg);
      && (forall t :: 1 <= t < |o.trace| && o.trace[t].Open? && Close(o.trace[t].sock) in o.trace ==>
            RespAt(env, 0, o.trace, t) == Done)
      && (forall t ::
            (1 <= t < |o.trace| && o.trace[t].Open? && RespAt(env, 0, o.trace, t) == Done &&
             o.result != Ok(o.trace[t].sock) && (o.result.Ok? || o.result.error.OSError?)) ==>
            Close(o.trace[t].sock) in o.trace)
      && (forall t ::
            (1 <= t < |o.trace| && o.trace[t].Open? && RespAt(env, 0, o.trace, t) == Done &&
             o.trace[t].sock < Sock(o.trace[|o.trace| - 1])) ==>
            Close(o.trace[t].sock) in o.trace)
      && (forall t1, t2 ::
            (1 <= t1 < |o.trace| && 1 <= t2 < |o.trace| && o.trace[t1].Close? &&
             Sock(o.trace[t2]) == o.trace[t1].sock) ==> t2 <= t1)
  {
    var o := CreateConnectionSpec(env, hasIpv6, address, cfg);
    SpecRun(env, hasIpv6, address, cfg, cands);
    RunCloses(env, cfg, cands, Attempts(Step(env, cfg), cands, 0, 1),
              Query(NormalizeHost(address.0), address.1, hasIpv6), o.trace, o.result);
  }

  /**
   * When every candidate fails, the exception raised is the last one: it
   * was raised by the last call, or by the call before a last close that
   * returned normally. A caught OSError is re-raised only after every
   * candidate was tried. With no candidate, the empty-list error is raised
   * right after the query.
   */
  lemma LastErrorRaised(env: Env, hasIpv6: bool, address: (string, int), cfg: Config, cands: seq<AddrInfo>)
    requires Resolves(env, hasIpv6, address, cands)
    ensures var o := CreateConnectionSpec(env, hasIpv6, address, cfg);
      var last := |o.trace| - 1;
      o.result.Err? && |cands| > 0 ==>
        && last >= 1
        && (|| RespAt(env, 0, o.trace, last) == Raised(o.result.error)
            || (&& o.trace[last].Close? && RespAt(env, 0, o.trace, last) == Done
                && RespAt(env, 0, o.trace, last - 1) == Raised(o.result.error)))
        && (o.result.error.OSError? && !(o.trace[last].Close? && RespAt(env, 0, o.trace, last).Raised?) ==>
              Sock(o.trace[last]) == |cands| - 1)
    ensures var o := CreateConnectionSpec(env, hasIpv6, address, cfg);
      |cands| == 0 ==> o == Outcome([Query(NormalizeHost(address.0), address.1, hasIpv6)], Err(EmptyListError))
  {
    var o := CreateConnectionSpec(env, hasIpv6, address, cfg);
    var attempts := Attempts(Step(env, cfg), cands, 0, 1);
    var q := Query(NormalizeHost(address.0), address.1, hasIpv6);
    SpecRun(env, hasIpv6, address, cfg, cands);
    if o.result.Err? && |cands| > 0 {
      RunLastError(env, cfg, cands, attempts, q, o.trace, o.result);
    }
    if |cands| == 0 {
      RunEmpty(env, cfg, cands, attempts, q, o.trace, o.result);
    }
  }
}
