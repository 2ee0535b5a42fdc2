/** Handling of a decoded request: validation, socket pair creation, the
    response to the manager, the endpoint transfer, the spawn and the
    closes that follow. */
module Spawner {
  import opened Protocol
  import opened Decoder
  import opened Cleanup

  /** The CREATED_TA response for request header `h` carrying `pid`. */
  function ResponseTo(h: Header, pid: int): TaCreated
  {
    TaCreated(CreatedTa, Response, h.sessId, pid)
  }

  /** After a successful socket pair and response send: transfer endpoint 0
      only if the whole response went out, and spawn only if that transfer
      succeeded. */
  function Handoff(env: Env, h: Header, recorded: seq<Fd>, p: Pair, c: Collaborators): seq<Action>
  {
    if c.sendCount == env.responseSize then
      [TransferFd(p.fd0)] + (if c.sendFdOk then [Spawn(p.fd1, h, recorded)] else [])
    else []
  }

  /** The actions before the cleanup funnel: nothing for an invalid message;
      the pair attempt and the failure response when no pair was created;
      otherwise the pair, the response, the handoff and the closes of both
      endpoints. */
  function Answer(env: Env, h: Header, recorded: seq<Fd>, c: Collaborators): seq<Action>
  {
    if !IsOpenSessionQuery(h) then []
    else match c.pair
      case None =>
        [SocketPair(None), SendResponse(ResponseTo(h, PID_NOT_CREATED))]
      case Some(p) =>
        [SocketPair(c.pair), SendResponse(ResponseTo(h, env.pid))] + Handoff(env, h, recorded, p, c)
        + [Close(p.fd0), Close(p.fd1)]
  }

  /** The actions taken for a received message with header `h` whose
      recorded auxiliary fds are `recorded`: every path ends in the funnel. */
  function RequestActions(env: Env, h: Header, recorded: seq<Fd>, c: Collaborators): seq<Action>
  {
    Answer(env, h, recorded, c) + ReverseCloses(recorded)
  }

  /** The launcher state after handling the request. */
  function HandleRequest(st: State, env: Env, h: Header, recorded: seq<Fd>, c: Collaborators): State
  {
    var response :=
      if !IsOpenSessionQuery(h) then st.response
      else if c.pair.None? then ResponseTo(h, PID_NOT_CREATED)
      else ResponseTo(h, env.pid);
    // With a pair, the launcher opens both endpoints and later closes each
    // of them, so the set is written as that sequence of steps.
    var open :=
      if IsOpenSessionQuery(h) && c.pair.Some? then
        (st.open + {c.pair.value.fd0, c.pair.value.fd1}) - {c.pair.value.fd0} - {c.pair.value.fd1}
      else st.open;
    State(st.sig, open - FdSet(recorded), response, st.trace + RequestActions(env, h, recorded, c))
  }

  lemma CountConcat(s1: seq<Action>, s2: seq<Action>, a: Action)
    ensures multiset(s1 + s2)[a] == multiset(s1)[a] + multiset(s2)[a]
  {
  }

  /** A message that is not an OPEN_SESSION query sends nothing, creates no
      socket pair and spawns nothing; it only closes every recorded fd, as
      often as it was recorded, and leaves the stale response record alone. */
  lemma InvalidRequest(st: State, env: Env, h: Header, recorded: seq<Fd>, c: Collaborators)
    requires !IsOpenSessionQuery(h)
    ensures forall a :: a in RequestActions(env, h, recorded, c) ==> a.Close? && a.fd in recorded
    ensures forall x :: multiset(RequestActions(env, h, recorded, c))[Close(x)] == multiset(recorded)[x]
    ensures HandleRequest(st, env, h, recorded, c).response == st.response
    ensures HandleRequest(st, env, h, recorded, c).open == st.open - FdSet(recorded)
  {
    assert RequestActions(env, h, recorded, c) == ReverseCloses(recorded);
    ReverseClosesOnlyCloses(recorded);
    ReverseClosesCount(recorded);
  }

  /** A failed socket pair yields exactly one response, CREATED_TA with the
      session id echoed and pid -1. */
  lemma PairFailureResponse(env: Env, h: Header, recorded: seq<Fd>, c: Collaborators)
    requires IsOpenSessionQuery(h) && c.pair.None?
    ensures var a := RequestActions(env, h, recorded, c);
      forall m :: multiset(a)[SendResponse(m)] ==
        (if m == TaCreated(CreatedTa, Response, h.sessId, -1) then 1 else 0)
  {
    var ans := Answer(env, h, recorded, c);
    assert ans == [SocketPair(None), SendResponse(ResponseTo(h, PID_NOT_CREATED))];
    forall m
      ensures multiset(ans + ReverseCloses(recorded))[SendResponse(m)] ==
        (if m == ResponseTo(h, PID_NOT_CREATED) then 1 else 0)
    {
      CountConcat(ans, ReverseCloses(recorded), SendResponse(m));
      NoResponseInCloses(recorded, m);
    }
  }

  /** A failed socket pair yields neither a transfer nor a spawn; the only
      closes are those of recorded fds (no endpoint exists to close), and
      the response record carries pid -1. */
  lemma PairFailure(st: State, env: Env, h: Header, recorded: seq<Fd>, c: Collaborators)
    requires IsOpenSessionQuery(h) && c.pair.None?
    ensures forall a :: a in RequestActions(env, h, recorded, c) ==> !a.TransferFd? && !a.Spawn?
    ensures forall a :: a in RequestActions(env, h, recorded, c) && a.Close? ==> a.fd in recorded
    ensures HandleRequest(st, env, h, recorded, c).response.pid == -1
    ensures HandleRequest(st, env, h, recorded, c).open == st.open - FdSet(recorded)
  {
    assert Answer(env, h, recorded, c) == [SocketPair(None), SendResponse(ResponseTo(h, PID_NOT_CREATED))];
    ReverseClosesOnlyCloses(recorded);
  }

  /** Unfolds the socket-pair branch of `Answer` and `RequestActions`. */
  lemma SuccessShape(env: Env, h: Header, recorded: seq<Fd>, c: Collaborators, p: Pair)
    requires IsOpenSessionQuery(h) && c.pair == Some(p)
    ensures Answer(env, h, recorded, c) ==
      [SocketPair(c.pair), SendResponse(ResponseTo(h, env.pid))] + Handoff(env, h, recorded, p, c)
      + [Close(p.fd0), Close(p.fd1)]
    ensures RequestActions(env, h, recorded, c) == Answer(env, h, recorded, c) + ReverseCloses(recorded)
  {
  }

  /** The handoff holds at most a transfer of endpoint 0 followed by the
      spawn with endpoint 1. */
  lemma HandoffShape(env: Env, h: Header, recorded: seq<Fd>, p: Pair, c: Collaborators)
    ensures var ho := Handoff(env, h, recorded, p, c);
      |ho| <= 2 && (|ho| > 0 ==> ho[0] == TransferFd(p.fd0)) &&
      (|ho| > 1 ==> ho[1] == Spawn(p.fd1, h, recorded))
  {
  }

  /** The answer of a successful pair holds the one response. */
  lemma AnswerResponseCount(env: Env, h: Header, recorded: seq<Fd>, c: Collaborators, p: Pair, m: TaCreated)
    requires IsOpenSessionQuery(h) && c.pair == Some(p)
    ensures multiset(Answer(env, h, recorded, c))[SendResponse(m)] == (if m == ResponseTo(h, env.pid) then 1 else 0)
  {
    var head := [SocketPair(c.pair), SendResponse(ResponseTo(h, env.pid))];
    var ho := Handoff(env, h, recorded, p, c);
    var ends := [Close(p.fd0), Close(p.fd1)];
    SuccessShape(env, h, recorded, c, p);
    HandoffShape(env, h, recorded, p, c);
    CountConcat(head + ho, ends, SendResponse(m));
    CountConcat(head, ho, SendResponse(m));
    assert SendResponse(m) !in ho;
  }

  /** With a socket pair, exactly one response is sent, carrying the
      launcher's own pid. */
  lemma ResponseOnce(env: Env, h: Header, recorded: seq<Fd>, c: Collaborators, p: Pair)
    requires IsOpenSessionQuery(h) && c.pair == Some(p)
    ensures var a := RequestActions(env, h, recorded, c);
      forall m :: multiset(a)[SendResponse(m)] ==
        (if m == TaCreated(CreatedTa, Response, h.sessId, env.pid) then 1 else 0)
  {
    var ans := Answer(env, h, recorded, c);
    forall m
      ensures multiset(ans + ReverseCloses(recorded))[SendResponse(m)] ==
        (if m == ResponseTo(h, env.pid) then 1 else 0)
    {
      CountConcat(ans, ReverseCloses(recorded), SendResponse(m));
      AnswerResponseCount(env, h, recorded, c, p, m);
      NoResponseInCloses(recorded, m);
    }
  }

  /** With a socket pair, the response is the second action (after the
      pair itself), so it precedes every transfer and spawn. */
  lemma ResponseFirst(env: Env, h: Header, recorded: seq<Fd>, c: Collaborators, p: Pair)
    requires IsOpenSessionQuery(h) && c.pair == Some(p)
    ensures var a := RequestActions(env, h, recorded, c);
      |a| > 1 && a[1] == SendResponse(ResponseTo(h, env.pid)) &&
      forall i :: 0 <= i < |a| && (a[i].TransferFd? || a[i].Spawn?) ==> 1 < i
  {
    SuccessShape(env, h, recorded, c, p);
  }

  /** Endpoint 0 is transferred iff the send wrote the whole response, and
      the spawn, with endpoint 1, happens iff that transfer also succeeded. */
  lemma HandoffConditions(env: Env, h: Header, recorded: seq<Fd>, c: Collaborators, p: Pair)
    requires IsOpenSessionQuery(h) && c.pair == Some(p)
    ensures TransferFd(p.fd0) in RequestActions(env, h, recorded, c) <==> c.sendCount == env.responseSize
    ensures forall a :: a in RequestActions(env, h, recorded, c) && a.TransferFd? ==> a.fd == p.fd0
    ensures Spawn(p.fd1, h, recorded) in RequestActions(env, h, recorded, c) <==>
      c.sendCount == env.responseSize && c.sendFdOk
  {
    SuccessShape(env, h, recorded, c, p);
    ReverseClosesOnlyCloses(recorded);
  }

  /** A spawn, if any, is the fourth action and immediately follows the
      transfer of endpoint 0. */
  lemma SpawnAfterTransfer(env: Env, h: Header, recorded: seq<Fd>, c: Collaborators, p: Pair)
    requires IsOpenSessionQuery(h) && c.pair == Some(p)
    ensures var a := RequestActions(env, h, recorded, c);
      forall i :: 0 <= i < |a| && a[i].Spawn? ==>
        i == 3 && a[2] == TransferFd(p.fd0) && a[i] == Spawn(p.fd1, h, recorded)
  {
    var a := RequestActions(env, h, recorded, c);
    var ans := Answer(env, h, recorded, c);
    var rc := ReverseCloses(recorded);
    var head := [SocketPair(c.pair), SendResponse(ResponseTo(h, env.pid))];
    var ho := Handoff(env, h, recorded, p, c);
    SuccessShape(env, h, recorded, c, p);
    HandoffShape(env, h, recorded, p, c);
    ReverseClosesOnlyCloses(recorded);
    assert forall k :: 0 <= k < |rc| ==> rc[k].Close?;
    forall i | 0 <= i < |a| && a[i].Spawn?
      ensures i == 3 && a[2] == TransferFd(p.fd0) && a[i] == Spawn(p.fd1, h, recorded)
    {
      if i < |ans| {
        assert a[i] == ans[i];
        if 2 <= i < 2 + |ho| {
          assert ans[i] == ho[i - 2];
        }
      }
    }
  }

  /** The answer of a successful pair closes each endpoint once and
      nothing else. */
  lemma AnswerCloseCount(env: Env, h: Header, recorded: seq<Fd>, c: Collaborators, p: Pair, x: Fd)
    requires IsOpenSessionQuery(h) && c.pair == Some(p) && p.fd0 != p.fd1
    ensures multiset(Answer(env, h, recorded, c))[Close(x)] == (if x == p.fd0 || x == p.fd1 then 1 else 0)
  {
    var pre := [SocketPair(c.pair), SendResponse(ResponseTo(h, env.pid))] + Handoff(env, h, recorded, p, c);
    var ends := [Close(p.fd0), Close(p.fd1)];
    SuccessShape(env, h, recorded, c, p);
    HandoffShape(env, h, recorded, p, c);
    CountConcat(pre, ends, Close(x));
    assert Close(x) !in pre;
  }

  /** With a socket pair, both endpoints are closed exactly once whatever
      the send, transfer and spawn did, and every other fd exactly as often
      as it was recorded. */
  lemma EndpointsClosed(env: Env, h: Header, recorded: seq<Fd>, c: Collaborators, p: Pair)
    requires IsOpenSessionQuery(h) && c.pair == Some(p)
    requires p.fd0 != p.fd1 && p.fd0 !in recorded && p.fd1 !in recorded
    ensures var a := RequestActions(env, h, recorded, c);
      multiset(a)[Close(p.fd0)] == 1 && multiset(a)[Close(p.fd1)] == 1
    ensures var a := RequestActions(env, h, recorded, c);
      forall x :: x != p.fd0 && x != p.fd1 ==> multiset(a)[Close(x)] == multiset(recorded)[x]
  {
    var ans := Answer(env, h, recorded, c);
    var rc := ReverseCloses(recorded);
    ReverseClosesCount(recorded);
    forall x
      ensures multiset(ans + rc)[Close(x)] == (if x == p.fd0 || x == p.fd1 then 1 else 0) + multiset(recorded)[x]
    {
      CountConcat(ans, rc, Close(x));
      AnswerCloseCount(env, h, recorded, c, p, x);
    }
  }

  /** With a socket pair, the two endpoint closes come right before the
      funnel. */
  lemma EndpointsBeforeFunnel(env: Env, h: Header, recorded: seq<Fd>, c: Collaborators, p: Pair)
    requires IsOpenSessionQuery(h) && c.pair == Some(p)
    ensures var a := RequestActions(env, h, recorded, c);
      |a| >= |recorded| + 2 &&
      a[|a| - |recorded| - 2] == Close(p.fd0) && a[|a| - |recorded| - 1] == Close(p.fd1)
  {
    var ans := Answer(env, h, recorded, c);
    SuccessShape(env, h, recorded, c, p);
    ReverseClosesLength(recorded);
    assert ans[|ans| - 2] == Close(p.fd0) && ans[|ans| - 1] == Close(p.fd1);
  }

  /** On every path the recorded fds are closed last, in reverse order of
      admission: recorded fd j is the (j+1)-th action from the end. */
  lemma FunnelLast(env: Env, h: Header, recorded: seq<Fd>, c: Collaborators)
    ensures var a := RequestActions(env, h, recorded, c);
      |a| >= |recorded| &&
      forall j :: 0 <= j < |recorded| ==> a[|a| - 1 - j] == Close(recorded[j])
  {
    var a := RequestActions(env, h, recorded, c);
    var ans := Answer(env, h, recorded, c);
    var rc := ReverseCloses(recorded);
    ReverseClosesLength(recorded);
    forall j | 0 <= j < |recorded|
      ensures a[|a| - 1 - j] == Close(recorded[j])
    {
      ReverseClosesAt(recorded, |recorded| - 1 - j);
      assert a[|a| - 1 - j] == rc[|recorded| - 1 - j];
    }
  }

  /** True when `x` is an endpoint of the socket pair created for the request. */
  predicate IsEndpoint(h: Header, c: Collaborators, x: Fd)
  {
    IsOpenSessionQuery(h) && c.pair.Some? && (x == c.pair.value.fd0 || x == c.pair.value.fd1)
  }

  /** On every path, a fd that is not a new endpoint is closed exactly as
      often as it was recorded. */
  lemma RequestCloses(env: Env, h: Header, recorded: seq<Fd>, c: Collaborators)
    requires c.pair.Some? ==>
      (c.pair.value.fd0 != c.pair.value.fd1 && c.pair.value.fd0 !in recorded && c.pair.value.fd1 !in recorded)
    ensures forall x :: !IsEndpoint(h, c, x) ==>
      multiset(RequestActions(env, h, recorded, c))[Close(x)] == multiset(recorded)[x]
  {
    if IsOpenSessionQuery(h) && c.pair.Some? {
      EndpointsClosed(env, h, recorded, c, c.pair.value);
    } else {
      var ans := Answer(env, h, recorded, c);
      ReverseClosesCount(recorded);
      forall x
        ensures multiset(ans + ReverseCloses(recorded))[Close(x)] == multiset(recorded)[x]
      {
        CountConcat(ans, ReverseCloses(recorded), Close(x));
      }
    }
  }

  /** On every path, with fresh endpoints, the launcher ends holding what it
      held before minus the recorded fds. */
  lemma RequestOpen(st: State, env: Env, h: Header, recorded: seq<Fd>, c: Collaborators)
    requires c.pair.Some? ==> c.pair.value.fd0 !in st.open && c.pair.value.fd1 !in st.open
    ensures HandleRequest(st, env, h, recorded, c).open == st.open - FdSet(recorded)
  {
  }
}
