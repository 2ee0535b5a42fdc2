# Launcher main loop — a Dafny model

The launcher is the privileged process that turns open-session requests from
the manager into new trusted-application (TA) processes. Its main loop waits
on two fds, the manager socket and the read end of a signal self-pipe, and
handles each returned event:

- a self-pipe event runs the signal check: reset the pipe, then exit with
  success on TERM or INT, ignore HUP;
- a manager-socket event receives one message with up to four auxiliary
  (shared-memory) fds, checks that it is an OPEN_SESSION query, creates a
  socket pair, answers with a CREATED_TA response, passes endpoint 0 to the
  manager, spawns the TA with endpoint 1, closes both endpoints, and finally
  closes every recorded auxiliary fd through one cleanup funnel.

This project models one turn of that loop, and runs of turns, over every
combination of collaborator results. The system calls stay opaque. What is
modelled is which actions happen, in what order, and which fds the launcher
still holds afterwards.

## Structure

- `protocol.dfy` (`Protocol`): fds, message names and kinds, the request
  header, the `com_msg_ta_created` response record, signals, events, wait
  results, collaborator results and the action trace (`ResetSelfPipe`,
  `SocketPair`, `SendResponse`, `TransferFd`, `Spawn`, `Close`). `State`
  holds the pending-signal vector, the set of open fds, the reused response
  record and the trace. `exit()` becomes an `Outcome`, either `Continue` or
  `Exit(code)`.
- `signals.dfy` (`Signals`): `SignalCheck`, the meaning of
  `check_signal_status`.
- `decoder.dfy` (`Decoder`): which receive statuses discard a message, the
  clamp of the received fd count (`RecordedFds`), and the
  (OPEN_SESSION, QUERY) test.
- `cleanup.dfy` (`Cleanup`): `ReverseCloses`, the actions of the `close_fd`
  funnel.
- `spawner.dfy` (`Spawner`): `RequestActions` and `HandleRequest` cover a
  decoded request: validation, socket pair, response, transfer, spawn and
  closes.
- `mainloop.dfy` (`MainLoop`): `ManagerEvent`, `EventStep`, `RunEvents`
  (the `for` over the returned events), `Iteration` (one turn after the
  wait) and `Loop` (the `for(;;)` over a finite run of turns). It also holds
  the imperative classes. `Launcher` holds the signal vector, the open-fd
  set, the response record and the trace. `OpenSessionMessage` is the
  received message, whose shareable fd count and fd slots are written in
  place. Every `Launcher` method is proved to change the state exactly as
  the matching specification function says. The properties are lemmas about
  those functions.

Collaborator results are inputs: `Collaborators` carries the receive status,
header and fds, the socket pair (or its failure), the byte count of the
response send and the outcome of `send_fd`. `Env` carries the manager socket
fd, the self-pipe fd, the launcher's own pid (`getpid()`) and
`sizeof(struct com_msg_ta_created)`.

In these points the model follows the code as written:

- Only status `-1` and positive statuses discard a message. A status of `-2`
  or lower is processed like `0`.
- A received fd count outside 1..4 records no fds at all. With five or more
  fds none is recorded and none is closed, so the launcher keeps holding
  them (`ManagerEventOpen`, `ManagerEventCloses`).
- `pid` in the success response is the launcher's own pid, and it is sent
  before the outcome of the transfer is known.

## Model

| member | source | states |
|---|---|---|
| `Signals.SignalCheckOutcome` | launcher/launcher1_mainloop.c:67-86 | The check appends exactly one self-pipe reset and clears the vector. It exits, always with success, iff TERM or INT was set in the vector read before the reset. The open fds and the response are unchanged. |
| `Signals.HangUpIgnored` | launcher/launcher1_mainloop.c:80-82 | A vector holding only HUP, or nothing, causes the reset and nothing else, and the loop goes on. |
| `MainLoop.Launcher.CheckSignalStatus` | launcher/launcher1_mainloop.c:67-86 | The method (copy the vector, reset, test TERM, HUP, INT in that order) produces exactly the state and outcome of `SignalCheck`. |
| `MainLoop.Launcher.SendErrMsgToManager` | launcher/launcher1_mainloop.c:88-97 | Sets the record's pid to -1 in place and sends that record once. The open fds and the vector are unchanged. A failed send has no further effect. |
| `Decoder.FdCountClamp` | launcher/launcher1_mainloop.c:211-216 | The recorded count is the received count when it is 1..4 and 0 otherwise. The record is all received fds or none. Five or more received fds record no fd. |
| `MainLoop.NonPayloadReceive` | launcher/launcher1_mainloop.c:196-209 | Receive status -1 or > 0 leaves the whole state unchanged: nothing is sent, transferred, spawned or closed. The loop goes on. |
| `MainLoop.OpenSessionMessage.constructor` | launcher/launcher1_mainloop.c:196-197 | The received message comes with a fresh four-slot fd array and a recorded count of 0, so that the loop fills in the count and slots itself. |
| `MainLoop.Launcher.ReceiveMessage` | launcher/launcher1_mainloop.c:196-216 | The launcher takes over the received fds. The new message's recorded fds (count and slots written in place) equal the clamp of the received fds. Nothing else changes. |
| `Spawner.InvalidRequest` | launcher/launcher1_mainloop.c:219-223 | A message that is not (OPEN_SESSION, QUERY) leads only to closes of recorded fds, each as often as it was recorded. So there is no response, no socket pair and no spawn. The stale response record is left as it was. |
| `Cleanup.ReverseClosesAt` | launcher/launcher1_mainloop.c:274-278 | The funnel performs one close per recorded fd. The k-th close is of index count-1-k, so the fds are closed in reverse order of admission. |
| `Cleanup.ReverseClosesOnlyCloses` | launcher/launcher1_mainloop.c:274-278 | The funnel performs only closes, and only of recorded fds. |
| `Cleanup.ReverseClosesCount` | launcher/launcher1_mainloop.c:274-278 | Each fd is closed by the funnel exactly as many times as it was recorded. |
| `Cleanup.ClosesEachOnce` | launcher/launcher1_mainloop.c:274-278 | With distinct recorded fds, each one is closed exactly once and nothing else is closed. |
| `MainLoop.Launcher.CloseForwardedFds` | launcher/launcher1_mainloop.c:272-279 | The decrementing loop brings the recorded count to 0. It appends the closes of `ReverseCloses` of the recorded fds and removes those fds from the open set. |
| `Spawner.PairFailureResponse` | launcher/launcher1_mainloop.c:227-236 | A failed socket pair sends exactly one response: CREATED_TA, RESPONSE, the request's session id, pid -1. |
| `Spawner.PairFailure` | launcher/launcher1_mainloop.c:227-236 | A failed socket pair gives no transfer and no spawn. The only closes are of recorded fds, since no endpoint exists. The record keeps pid -1, and the launcher ends holding what it held before minus the recorded fds. |
| `Spawner.HandoffShape` | launcher/launcher1_mainloop.c:252-267 | The handoff is at most a transfer of endpoint 0 followed by a spawn with endpoint 1. |
| `Spawner.ResponseOnce` | launcher/launcher1_mainloop.c:247-250 | With a socket pair exactly one response is sent. It is CREATED_TA, RESPONSE, with the session id echoed and pid = the launcher's own pid. |
| `Spawner.ResponseFirst` | launcher/launcher1_mainloop.c:247-254 | The response is the second action, so every transfer and every spawn comes after it. |
| `Spawner.HandoffConditions` | launcher/launcher1_mainloop.c:252-267 | Endpoint 0 is transferred iff the send returned exactly the response size. No other fd is transferred. The spawn with endpoint 1 happens iff the transfer also succeeded. |
| `Spawner.SpawnAfterTransfer` | launcher/launcher1_mainloop.c:254-261 | A spawn can only be the fourth action, right after the transfer of endpoint 0. So there is at most one spawn per request. |
| `Spawner.AnswerResponseCount` | launcher/launcher1_mainloop.c:238-271 | In the socket-pair branch, before the funnel, the only response sent is CREATED_TA, RESPONSE, session id echoed, the launcher's pid, and it is sent once. |
| `Spawner.AnswerCloseCount` | launcher/launcher1_mainloop.c:238-271 | In the socket-pair branch, before the funnel, each endpoint is closed exactly once and no other fd is closed. |
| `MainLoop.Launcher.CloseFd` | launcher/launcher1_mainloop.c:270-271 | `close()` of one fd: the fd leaves the open set and one `Close` action is appended. The vector and the response record are unchanged. |
| `Spawner.EndpointsClosed` | launcher/launcher1_mainloop.c:269-279 | Whatever the send, transfer and spawn did, each endpoint is closed exactly once over the whole request. Other fds are closed exactly as often as recorded. |
| `Spawner.EndpointsBeforeFunnel` | launcher/launcher1_mainloop.c:269-272 | The two endpoint closes, endpoint 0 then endpoint 1, come immediately before the funnel. |
| `Spawner.FunnelLast` | launcher/launcher1_mainloop.c:272-278 | On every path the recorded fds are closed last: recorded fd j is the (j+1)-th action from the end. |
| `Spawner.RequestCloses` | launcher/launcher1_mainloop.c:218-279 | On every path, every fd that is not a new endpoint is closed exactly as many times as it was recorded. |
| `Spawner.RequestOpen` | launcher/launcher1_mainloop.c:231-279 | On every path, given fresh endpoints, the launcher ends up holding what it held before minus the recorded fds. |
| `MainLoop.Launcher.ProcessRequest` | launcher/launcher1_mainloop.c:218-279 | Validation, response preparation, the pair branches and the funnel produce exactly the state of `HandleRequest`. |
| `MainLoop.Launcher.StartTa` | launcher/launcher1_mainloop.c:238-271 | In the socket-pair branch: the record's pid becomes the launcher's pid. The trace gains exactly `Answer`: the pair, the response, the conditional transfer and spawn, and both endpoint closes. Both endpoints are released. |
| `MainLoop.ManagerEventOpen` | launcher/launcher1_mainloop.c:196-279 | For a processed manager event with fresh fds, whatever the collaborators return: with 0..4 fds the launcher ends up holding exactly what it held before; with 5 or more fds it still holds all of them. The loop goes on. |
| `MainLoop.ManagerEventCloses` | launcher/launcher1_mainloop.c:196-279 | For a processed manager event with fresh distinct fds, the trace only grows, and each received fd is closed exactly once when 1..4 arrived and never when 5 or more arrived. |
| `MainLoop.Launcher.HandleManagerEvent` | launcher/launcher1_mainloop.c:190-279 | The error/hang-up exit, the receive, the discard and the request handling produce exactly the state and outcome of `ManagerEvent`. |
| `MainLoop.FatalEvents` | launcher/launcher1_mainloop.c:179-194 | An error on the self-pipe, or an error or hang-up on the manager socket, exits with failure and changes nothing. |
| `MainLoop.WaitFailure` | launcher/launcher1_mainloop.c:158-168 | A wait failing with EINTR runs only the signal check, whose only action is the reset. Any other wait failure changes nothing, and the loop goes on. |
| `MainLoop.EventStepExtends` | launcher/launcher1_mainloop.c:177-194 | Handling one event only appends to the trace. |
| `MainLoop.RunEventsExtends` | launcher/launcher1_mainloop.c:177-281 | Handling the events of one wait only appends to the trace. |
| `MainLoop.RunEventsExitCause` | launcher/launcher1_mainloop.c:177-194 | The events of one wait end in a failure exit only if some event was a self-pipe error or a manager-socket error or hang-up. They end in a success exit only if some event came from the self-pipe. |
| `MainLoop.Launcher.HandleEvents` | launcher/launcher1_mainloop.c:177-281 | The index loop over the returned events stops at the first exit. It produces exactly the state and outcome of `RunEvents`. |
| `MainLoop.Launcher.Iterate` | launcher/launcher1_mainloop.c:158-194 | A turn after the wait returned produces exactly the state and outcome of `Iteration`. |
| `MainLoop.LoopExtends` | launcher/launcher1_mainloop.c:152-282 | Across any run of turns the trace is append-only. |
| `MainLoop.Launcher.Run` | launcher/launcher1_mainloop.c:152-282 | The `for(;;)` loop over a run of turns adds each turn's delivered signals to the vector. It stops at the first exit and produces exactly the state and outcome of `Loop`. |
| `MainLoop.Launcher.constructor` | launcher/launcher1_mainloop.c:111 | On entry the launcher holds the manager socket and the self-pipe, the response record is zero-filled, and the trace is empty. |
| `MainLoop.ScenarioValidRequest` | launcher/launcher1_mainloop.c:225-271 | A valid request for session 7 with no fds, all collaborators succeeding, gives: pair, response {CREATED_TA, RESPONSE, 7, own pid}, transfer, spawn, two closes. The loop goes on. |
| `MainLoop.ScenarioWrongKind` | launcher/launcher1_mainloop.c:219-223 | {OPEN_SESSION, RESPONSE} with no fds changes nothing, and the loop goes on. |
| `MainLoop.ScenarioPairFails` | launcher/launcher1_mainloop.c:231-236 | A failed socket pair for session 7 gives: the pair attempt, then the response {CREATED_TA, RESPONSE, 7, -1}. The loop goes on. |

## Left out

- Setup before the loop is not modelled, because it is OS plumbing. This covers `calloc` of the child stack, `sigemptyset`/`sigfillset`, `init_epoll` and the two `epoll_reg_fd` calls, with their failure exits (lines 113-143).
- The `pthread_sigmask` calls in the loop are not modelled (lines 153-156 and 170-173). In particular, a failed mask change after the wait, which drops that wait's events, is not modelled.
- Signal delivery is not modelled as concurrent. Each turn takes the signals delivered while waiting as an input set. Nothing ties that set to the self-pipe event of the same turn.
- `com_recv_msg`, `com_send_msg` and `send_fd` appear only through their results and the actions they add to the trace. Their wire encoding is not modelled.
- A message discarded with status -1 or a positive status is assumed to deliver no fds, because `com_recv_msg`'s fd handling on failure is not visible here; the loop itself never closes `shm_fds` on those paths.
- `SignalCheck` assumes that `reset_signal_self_pipe` (line 70) clears the pending-signal vector. Its body is not part of this model, so the model's `sig := {}` on reset is an assumption about it.
- The numeric codes of message names and kinds, the bit values of the signals and `sizeof(struct com_msg_ta_created)` come from headers that are not part of this model. They are abstract datatypes, or the `Env` field `responseSize`.
- The child process is a single `Spawn` action carrying endpoint 1, the request header and the recorded fds. `ta_process_loop`, clone and everything that runs in the child are not modelled.
- `free`, `cleanup_launcher` under `GRACEFUL_TERMINATION` and every `OT_LOG` call are left out, because they are memory management and logging.
- `exit()` is the outcome `Exit(ExitSuccess)` or `Exit(ExitFailure)` of the turn, not process termination.
- The endless `for(;;)` is modelled as a finite run of turns ending at the first exit, or after the last given turn with `Continue`.
- Fd numbering is not modelled. The fds a collaborator returns are arbitrary integers. The fd-accounting lemmas assume they are fresh and distinct, as the kernel guarantees; the methods themselves do not require it.
