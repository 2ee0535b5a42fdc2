/** The launcher main loop: per-event dispatch over the result of one wait,
    the `for(;;)` loop around it, and the imperative launcher that performs
    them step by step. */
module MainLoop {
  import opened Protocol
  import opened Signals
  import opened Decoder
  import opened Cleanup
  import opened Spawner

  /** An event on the manager socket: error or hang-up is fatal; a discarded
      receive changes nothing; otherwise the received fds are admitted and
      the request is handled. */
  function ManagerEvent(st: State, env: Env, ev: Event, c: Collaborators): Step
  {
    if ev.err || ev.hup then Step(st, Exit(ExitFailure))
    else if IsDiscarded(c.recv.status) then Step(st, Continue)
    else
      var admitted := st.(open := st.open + FdSet(c.recv.fds));
      Step(HandleRequest(admitted, env, c.recv.header, RecordedFds(c.recv.fds), c), Continue)
  }

  /** One returned event: the self-pipe (fatal on error, otherwise a signal
      check) or else the manager socket. */
  function EventStep(st: State, env: Env, ev: Event, c: Collaborators): Step
  {
    if ev.fd == env.selfPipe then
      if ev.err then Step(st, Exit(ExitFailure)) else SignalCheck(st)
    else ManagerEvent(st, env, ev, c)
  }

  /** The events of one wait, in order, up to the first exit. */
  function RunEvents(st: State, env: Env, evs: seq<Event>, cs: seq<Collaborators>): Step
    requires |cs| == |evs|
    decreases |evs|
  {
    if |evs| == 0 then Step(st, Continue)
    else
      var s := EventStep(st, env, evs[0], cs[0]);
      if s.out.Exit? then s else RunEvents(s.st, env, evs[1..], cs[1..])
  }

  /** The wait returns at most MAX_CURR_EVENTS events, each with its own
      collaborator results. */
  predicate WaitWellFormed(wr: WaitResult, cs: seq<Collaborators>)
  {
    wr.Ready? ==> |wr.events| <= MAX_CURR_EVENTS && |cs| == |wr.events|
  }

  /** One turn of the loop after the wait returned. */
  function Iteration(st: State, env: Env, wr: WaitResult, cs: seq<Collaborators>): Step
    requires WaitWellFormed(wr, cs)
  {
    match wr
    case WaitError(interrupted) => if interrupted then SignalCheck(st) else Step(st, Continue)
    case Ready(evs) => RunEvents(st, env, evs, cs)
  }

  predicate RoundsWellFormed(rounds: seq<Round>)
  {
    forall k :: 0 <= k < |rounds| ==> WaitWellFormed(rounds[k].wait, rounds[k].collab)
  }

  /** The `for(;;)` loop over a finite run of turns: signals delivered while
      waiting are added to the pending vector, then the turn is handled;
      the loop stops at the first exit. */
  function Loop(st: State, env: Env, rounds: seq<Round>): Step
    requires RoundsWellFormed(rounds)
    decreases |rounds|
  {
    if |rounds| == 0 then Step(st, Continue)
    else
      var s := Iteration(st.(sig := st.sig + rounds[0].arrived), env, rounds[0].wait, rounds[0].collab);
      if s.out.Exit? then s else Loop(s.st, env, rounds[1..])
  }

  /** The actions `st2` added to the trace of `st1`, if it only appended. */
  predicate Extends(st1: State, st2: State)
  {
    |st1.trace| <= |st2.trace| && st2.trace[..|st1.trace|] == st1.trace
  }

  // ---------------------------------------------------------------------
  // Properties of the specification

  /** A receive with status -1 or a positive status discards the message:
      nothing is sent, transferred, spawned or closed, and the loop goes on. */
  lemma NonPayloadReceive(st: State, env: Env, ev: Event, c: Collaborators)
    requires !ev.err && !ev.hup && ev.fd != env.selfPipe
    requires c.recv.status == -1 || c.recv.status > 0
    ensures EventStep(st, env, ev, c) == Step(st, Continue)
  {
  }

  /** An error on the self-pipe, or an error or hang-up on the manager
      socket, exits with failure and changes nothing else. */
  lemma FatalEvents(st: State, env: Env, ev: Event, c: Collaborators)
    ensures ev.fd == env.selfPipe && ev.err ==> EventStep(st, env, ev, c) == Step(st, Exit(ExitFailure))
    ensures ev.fd != env.selfPipe && (ev.err || ev.hup) ==>
      EventStep(st, env, ev, c) == Step(st, Exit(ExitFailure))
  {
  }

  /** A wait failing with EINTR only runs the signal check; any other wait
      failure does nothing at all and the loop goes on. */
  lemma WaitFailure(st: State, env: Env, interrupted: bool)
    ensures interrupted ==> Iteration(st, env, WaitError(interrupted), []) == SignalCheck(st)
    ensures interrupted ==> Iteration(st, env, WaitError(interrupted), []).st.trace == st.trace + [ResetSelfPipe]
    ensures !interrupted ==> Iteration(st, env, WaitError(interrupted), []) == Step(st, Continue)
  {
  }

  /** Every step only appends to the trace. */
  lemma EventStepExtends(st: State, env: Env, ev: Event, c: Collaborators)
    ensures Extends(st, EventStep(st, env, ev, c).st)
  {
  }

  lemma {:induction false} RunEventsExtends(st: State, env: Env, evs: seq<Event>, cs: seq<Collaborators>)
    requires |cs| == |evs|
    ensures Extends(st, RunEvents(st, env, evs, cs).st)
    decreases |evs|
  {
    if |evs| > 0 {
      var s := EventStep(st, env, evs[0], cs[0]);
      EventStepExtends(st, env, evs[0], cs[0]);
      if !s.out.Exit? {
        RunEventsExtends(s.st, env, evs[1..], cs[1..]);
      }
    }
  }

  /** The trace of the whole loop is append-only. */
  lemma {:induction false} LoopExtends(st: State, env: Env, rounds: seq<Round>)
    requires RoundsWellFormed(rounds)
    ensures Extends(st, Loop(st, env, rounds).st)
    decreases |rounds|
  {
    if |rounds| > 0 {
      var st0 := st.(sig := st.sig + rounds[0].arrived);
      var s := Iteration(st0, env, rounds[0].wait, rounds[0].collab);
      assert WaitWellFormed(rounds[0].wait, rounds[0].collab);
      match rounds[0].wait {
        case WaitError(_) =>
        case Ready(evs) => RunEventsExtends(st0, env, evs, rounds[0].collab);
      }
      assert Extends(st, s.st);
      if !s.out.Exit? {
        assert RoundsWellFormed(rounds[1..]) by {
          forall k | 0 <= k < |rounds[1..]|
            ensures WaitWellFormed(rounds[1..][k].wait, rounds[1..][k].collab)
          {
            assert rounds[1..][k] == rounds[k + 1];
          }
        }
        LoopExtends(s.st, env, rounds[1..]);
        var t := Loop(s.st, env, rounds[1..]).st;
        assert t.trace[..|s.st.trace|][..|st.trace|] == t.trace[..|st.trace|];
      }
    }
  }

  /** The events of one wait end in failure only because some event was an
      error on the self-pipe or an error or hang-up on the manager socket,
      and in success only because some event was a self-pipe event. */
  lemma {:induction false} RunEventsExitCause(st: State, env: Env, evs: seq<Event>, cs: seq<Collaborators>)
    requires |cs| == |evs|
    ensures RunEvents(st, env, evs, cs).out == Exit(ExitFailure) ==>
      exists k :: 0 <= k < |evs| && (evs[k].err || (evs[k].fd != env.selfPipe && evs[k].hup))
    ensures RunEvents(st, env, evs, cs).out == Exit(ExitSuccess) ==>
      exists k :: 0 <= k < |evs| && evs[k].fd == env.selfPipe
    decreases |evs|
  {
    if |evs| > 0 {
      var s := EventStep(st, env, evs[0], cs[0]);
      if !s.out.Exit? {
        RunEventsExitCause(s.st, env, evs[1..], cs[1..]);
        var r := RunEvents(s.st, env, evs[1..], cs[1..]);
        if r.out == Exit(ExitFailure) {
          var k :| 0 <= k < |evs[1..]| && (evs[1..][k].err || (evs[1..][k].fd != env.selfPipe && evs[1..][k].hup));
          assert evs[k + 1] == evs[1..][k];
        }
        if r.out == Exit(ExitSuccess) {
          var k :| 0 <= k < |evs[1..]| && evs[1..][k].fd == env.selfPipe;
          assert evs[k + 1] == evs[1..][k];
        }
      } else {
        assert evs[0].err || (evs[0].fd != env.selfPipe && evs[0].hup) || evs[0].fd == env.selfPipe;
      }
    }
  }

  /** The fds of one message are fresh: pairwise distinct, not already
      held, and distinct from the endpoints of a new socket pair. */
  predicate FreshFds(st: State, c: Collaborators)
  {
    Distinct(c.recv.fds) && FdSet(c.recv.fds) !! st.open &&
    (c.pair.Some? ==>
      var p := c.pair.value;
      p.fd0 != p.fd1 && p.fd0 !in st.open && p.fd1 !in st.open &&
      p.fd0 !in c.recv.fds && p.fd1 !in c.recv.fds)
  }

  /** Whatever the collaborators return, a processed manager event with 0
      to 4 fresh fds leaves the launcher holding exactly the fds it held
      before; with 5 or more the fds are not recorded and stay open. */
  lemma ManagerEventOpen(st: State, env: Env, ev: Event, c: Collaborators)
    requires !ev.err && !ev.hup && !IsDiscarded(c.recv.status)
    requires FreshFds(st, c)
    ensures var r := ManagerEvent(st, env, ev, c);
      r.out == Continue &&
      r.st.open == st.open + (if |c.recv.fds| > MAX_SHAREABLE_FDS then FdSet(c.recv.fds) else {})
  {
    var fds := c.recv.fds;
    var admitted := st.(open := st.open + FdSet(fds));
    FdCountClamp(fds);
    RequestOpen(admitted, env, c.recv.header, RecordedFds(fds), c);
  }

  /** Whatever the collaborators return, a processed manager event closes
      each of 0 to 4 distinct admitted fds exactly once, and none of 5 or
      more. */
  lemma ManagerEventCloses(st: State, env: Env, ev: Event, c: Collaborators)
    requires !ev.err && !ev.hup && !IsDiscarded(c.recv.status)
    requires FreshFds(st, c)
    ensures var r := ManagerEvent(st, env, ev, c);
      Extends(st, r.st) &&
      forall x :: x in c.recv.fds ==>
        multiset(r.st.trace[|st.trace|..])[Close(x)] == (if |c.recv.fds| <= MAX_SHAREABLE_FDS then 1 else 0)
  {
    var fds := c.recv.fds;
    var h := c.recv.header;
    var rec := RecordedFds(fds);
    var a := RequestActions(env, h, rec, c);
    var r := ManagerEvent(st, env, ev, c);
    assert r.st.trace == st.trace + a;
    assert r.st.trace[|st.trace|..] == a;
    RequestCloses(env, h, rec, c);
    forall x | x in fds
      ensures multiset(a)[Close(x)] == (if |fds| <= MAX_SHAREABLE_FDS then 1 else 0)
    {
      assert !IsEndpoint(h, c, x);
      if |fds| <= MAX_SHAREABLE_FDS {
        DistinctOnce(fds, x);
      }
    }
  }

  /** Scenario: a valid request for session 7 without fds, with every
      collaborator succeeding, is answered with the launcher's pid, then
      endpoint 0 is transferred, the TA spawned, both endpoints closed, and
      the loop goes on. */
  lemma ScenarioValidRequest(st: State, env: Env, ev: Event, p: Pair)
    requires ev == Event(env.commSock, false, false) && env.commSock != env.selfPipe
    ensures var h := Header(OpenSession, Query, 7);
      var c := Collaborators(RecvOutcome(0, h, []), Some(p), env.responseSize, true);
      EventStep(st, env, ev, c).out == Continue &&
      EventStep(st, env, ev, c).st.trace == st.trace +
        [SocketPair(Some(p)), SendResponse(TaCreated(CreatedTa, Response, 7, env.pid)),
         TransferFd(p.fd0), Spawn(p.fd1, h, []), Close(p.fd0), Close(p.fd1)]
  {
  }

  /** Scenario: an OPEN_SESSION message of kind RESPONSE sends nothing. */
  lemma ScenarioWrongKind(st: State, env: Env, ev: Event, sess: int)
    requires ev == Event(env.commSock, false, false) && env.commSock != env.selfPipe
    ensures var h := Header(OpenSession, Response, sess);
      var c := Collaborators(RecvOutcome(0, h, []), None, 0, false);
      EventStep(st, env, ev, c) == Step(st, Continue)
  {
  }

  /** Scenario: a failed socket pair for session 7 is answered with pid -1
      and nothing else happens; the loop goes on. */
  lemma ScenarioPairFails(st: State, env: Env, ev: Event)
    requires ev == Event(env.commSock, false, false) && env.commSock != env.selfPipe
    ensures var h := Header(OpenSession, Query, 7);
      var c := Collaborators(RecvOutcome(0, h, []), None, 0, false);
      EventStep(st, env, ev, c) ==
        Step(st.(response := TaCreated(CreatedTa, Response, 7, -1),
                 trace := st.trace + [SocketPair(None), SendResponse(TaCreated(CreatedTa, Response, 7, -1))]),
             Continue)
  {
  }

  // ---------------------------------------------------------------------
  // The imperative launcher

  /** The open-session message allocated by `com_recv_msg`; the loop writes
      its shareable fd count and fd slots in place. */
  class OpenSessionMessage {
    const header: Header
    const shareableFd: array<Fd>
    var shareableFdCount: int

    constructor (h: Header)
      ensures header == h && fresh(shareableFd)
      ensures shareableFd.Length == MAX_SHAREABLE_FDS && shareableFdCount == 0
    {
      header := h;
      shareableFd := new Fd[MAX_SHAREABLE_FDS];
      shareableFdCount := 0;
    }

    /** The fds recorded in the header. */
    ghost function Recorded(): seq<Fd>
      reads this, shareableFd
      requires 0 <= shareableFdCount <= shareableFd.Length
    {
      shareableFd[..shareableFdCount]
    }
  }

  /** The launcher process: its pending-signal vector, the fds it holds,
      the `new_ta_info` response record reused across requests and the
      trace of its actions. */
  class Launcher {
    const env: Env
    var sigVector: set<Signal>
    var open: set<Fd>
    var response: TaCreated
    var trace: seq<Action>

    ghost function Abs(): State
      reads this
    {
      State(sigVector, open, response, trace)
    }

    /** The state on entering the loop: holding the manager socket and the
        self-pipe, a zero-filled response record, nothing done yet. */
    constructor (env: Env)
      ensures this.env == env
      ensures Abs() == State({}, {env.commSock, env.selfPipe}, ZERO_RESPONSE, [])
    {
      this.env := env;
      sigVector := {};
      open := {env.commSock, env.selfPipe};
      response := ZERO_RESPONSE;
      trace := [];
    }

    method CloseFd(fd: Fd)
      modifies this
      ensures open == old(open) - {fd} && trace == old(trace) + [Close(fd)]
      ensures sigVector == old(sigVector) && response == old(response)
    {
      open := open - {fd};
      trace := trace + [Close(fd)];
    }

    /** `check_signal_status`: copy the vector, reset the self-pipe, then
        interpret the copy. */
    method CheckSignalStatus() returns (out: Outcome)
      modifies this
      ensures Step(Abs(), out) == SignalCheck(old(Abs()))
    {
      var copy := sigVector;
      sigVector := {};
      trace := trace + [ResetSelfPipe];
      if SigTerm in copy {
        return Exit(ExitSuccess);
      }
      if SigHup in copy {
        // reserved: nothing to do
      }
      if SigInt in copy {
        return Exit(ExitSuccess);
      }
      out := Continue;
    }

    /** `send_err_msg_to_manager`: mark the response as "TA not created" and
        send it; a failed send is only logged. */
    method SendErrMsgToManager()
      modifies this
      ensures response == old(response).(pid := PID_NOT_CREATED)
      ensures trace == old(trace) + [SendResponse(response)]
      ensures sigVector == old(sigVector) && open == old(open)
    {
      response := response.(pid := PID_NOT_CREATED);
      trace := trace + [SendResponse(response)];
    }

    /** The `close_fd` funnel: decrement the recorded count to zero,
        closing the fd at each new count. */
    method CloseForwardedFds(msg: OpenSessionMessage)
      requires 0 <= msg.shareableFdCount <= msg.shareableFd.Length
      modifies this, msg
      ensures msg.shareableFdCount == 0
      ensures trace == old(trace) + ReverseCloses(old(msg.Recorded()))
      ensures open == old(open) - FdSet(old(msg.Recorded()))
      ensures sigVector == old(sigVector) && response == old(response)
    {
      ghost var rec := msg.Recorded();
      while msg.shareableFdCount > 0
        invariant 0 <= msg.shareableFdCount <= |rec|
        invariant msg.shareableFd[..msg.shareableFdCount] == rec[..msg.shareableFdCount]
        invariant trace == old(trace) + ReverseCloses(rec[msg.shareableFdCount..])
        invariant open == old(open) - FdSet(rec[msg.shareableFdCount..])
        invariant sigVector == old(sigVector) && response == old(response)
        decreases msg.shareableFdCount
      {
        msg.shareableFdCount := msg.shareableFdCount - 1;
        var k := msg.shareableFdCount;
        assert rec[k..][1..] == rec[k + 1..];
        assert msg.shareableFd[k] == rec[k];
        CloseFd(msg.shareableFd[k]);
        assert FdSet(rec[k..]) == FdSet(rec[k + 1..]) + {rec[k]} by {
          assert rec[k..] == [rec[k]] + rec[k + 1..];
        }
      }
      assert rec[0..] == rec;
    }

    /** One event on the manager socket: fatal on error or hang-up, then
        the receive, and the request if the receive delivered a message. */
    method HandleManagerEvent(ev: Event, c: Collaborators) returns (out: Outcome)
      modifies this
      ensures Step(Abs(), out) == ManagerEvent(old(Abs()), env, ev, c)
    {
      if ev.err || ev.hup {
        return Exit(ExitFailure);
      }
      var status := c.recv.status;
      if status == -1 {
        return Continue;
      } else if status > 0 {
        return Continue;
      }
      var msg := ReceiveMessage(c.recv);
      ProcessRequest(msg, c);
      out := Continue;
    }

    /** Take over the message and fds delivered by `com_recv_msg`, then
        record the fds in the header when there are 1 to 4 of them. */
    method ReceiveMessage(recv: RecvOutcome) returns (msg: OpenSessionMessage)
      modifies this
      ensures fresh(msg) && fresh(msg.shareableFd) && msg.header == recv.header
      ensures 0 <= msg.shareableFdCount <= msg.shareableFd.Length
      ensures msg.Recorded() == RecordedFds(recv.fds)
      ensures open == old(open) + FdSet(recv.fds)
      ensures sigVector == old(sigVector) && response == old(response) && trace == old(trace)
    {
      open := open + FdSet(recv.fds);
      msg := new OpenSessionMessage(recv.header);
      var count := |recv.fds|;
      msg.shareableFdCount := 0;
      if count > 0 && count <= MAX_SHAREABLE_FDS {
        msg.shareableFdCount := count;
        forall j | 0 <= j < count {
          msg.shareableFd[j] := recv.fds[j];
        }
        assert msg.shareableFd[..count] == recv.fds;
      }
    }

    /** Validate the message, answer it, and release its fds through the
        funnel on every path. */
    method ProcessRequest(msg: OpenSessionMessage, c: Collaborators)
      requires 0 <= msg.shareableFdCount <= msg.shareableFd.Length
      modifies this, msg
      ensures Abs() == HandleRequest(old(Abs()), env, msg.header, old(msg.Recorded()), c)
    {
      ghost var st := Abs();
      ghost var rec := msg.Recorded();
      if msg.header.name != OpenSession || msg.header.kind != Query {
        CloseForwardedFds(msg);
        return;
      }
      response := response.(name := CreatedTa, kind := Response, sessId := msg.header.sessId);
      match c.pair {
        case None =>
          trace := trace + [SocketPair(None)];
          SendErrMsgToManager();
          assert trace == st.trace + Answer(env, msg.header, rec, c);
        case Some(p) =>
          StartTa(p, msg, c);
      }
      ghost var answered := trace;
      assert answered == st.trace + Answer(env, msg.header, rec, c);
      CloseForwardedFds(msg);
      assert trace == st.trace + (Answer(env, msg.header, rec, c) + ReverseCloses(rec));
    }

    /** The socket-pair-created branch: send the response with the
        launcher's pid, transfer endpoint 0 only after a complete send,
        spawn only after a successful transfer, then close both endpoints. */
    method StartTa(p: Pair, msg: OpenSessionMessage, c: Collaborators)
      requires IsOpenSessionQuery(msg.header) && c.pair == Some(p)
      requires 0 <= msg.shareableFdCount <= msg.shareableFd.Length
      requires response == ResponseTo(msg.header, response.pid)
      modifies this
      ensures response == ResponseTo(msg.header, env.pid)
      ensures trace == old(trace) + Answer(env, msg.header, msg.Recorded(), c)
      ensures open == (old(open) + {p.fd0, p.fd1}) - {p.fd0} - {p.fd1}
      ensures sigVector == old(sigVector)
    {
      trace := trace + [SocketPair(c.pair)];
      open := open + {p.fd0, p.fd1};
      response := response.(pid := env.pid);
      trace := trace + [SendResponse(response)];
      ghost var sent := trace;
      if c.sendCount == env.responseSize {
        trace := trace + [TransferFd(p.fd0)];
        if c.sendFdOk {
          trace := trace + [Spawn(p.fd1, msg.header, msg.shareableFd[..msg.shareableFdCount])];
        }
      }
      assert trace == sent + Handoff(env, msg.header, msg.Recorded(), p, c);
      CloseFd(p.fd0);
      CloseFd(p.fd1);
      SuccessShape(env, msg.header, msg.Recorded(), c, p);
    }

    /** The `for` loop over the events of one wait. */
    method HandleEvents(evs: seq<Event>, cs: seq<Collaborators>) returns (out: Outcome)
      requires |cs| == |evs|
      modifies this
      ensures Step(Abs(), out) == RunEvents(old(Abs()), env, evs, cs)
    {
      for i := 0 to |evs|
        invariant RunEvents(old(Abs()), env, evs, cs) == RunEvents(Abs(), env, evs[i..], cs[i..])
      {
        assert evs[i..][0] == evs[i] && evs[i..][1..] == evs[i + 1..];
        assert cs[i..][0] == cs[i] && cs[i..][1..] == cs[i + 1..];
        if evs[i].fd == env.selfPipe {
          if evs[i].err {
            return Exit(ExitFailure);
          }
          out := CheckSignalStatus();
          if out.Exit? {
            return;
          }
          continue;
        }
        out := HandleManagerEvent(evs[i], cs[i]);
        if out.Exit? {
          return;
        }
      }
      out := Continue;
    }

    /** One turn of the loop once the wait has returned. */
    method Iterate(wr: WaitResult, cs: seq<Collaborators>) returns (out: Outcome)
      requires WaitWellFormed(wr, cs)
      modifies this
      ensures Step(Abs(), out) == Iteration(old(Abs()), env, wr, cs)
    {
      match wr {
        case WaitError(interrupted) =>
          if interrupted {
            out := CheckSignalStatus();
          } else {
            // logged; the loop waits again
            out := Continue;
          }
        case Ready(evs) =>
          out := HandleEvents(evs, cs);
      }
    }

    /** The `for(;;)` loop over a finite run of turns, up to the first exit. */
    method Run(rounds: seq<Round>) returns (out: Outcome)
      requires RoundsWellFormed(rounds)
      modifies this
      ensures Step(Abs(), out) == Loop(old(Abs()), env, rounds)
    {
      for k := 0 to |rounds|
        invariant RoundsWellFormed(rounds[k..])
        invariant Loop(old(Abs()), env, rounds) == Loop(Abs(), env, rounds[k..])
      {
        assert rounds[k..][0] == rounds[k] && rounds[k..][1..] == rounds[k + 1..];
        // signals delivered while the wait had them unblocked
        sigVector := sigVector + rounds[k].arrived;
        assert WaitWellFormed(rounds[k].wait, rounds[k].collab);
        out := Iterate(rounds[k].wait, rounds[k].collab);
        if out.Exit? {
          return;
        }
      }
      out := Continue;
    }
  }
}
