/** Values exchanged between the launcher main loop, the manager and the
    collaborators it calls (messaging, socket pair creation, the wait
    primitive, the signal bridge). */
module Protocol {

  /** A file descriptor number. */
  type Fd = int

  /** Size of the event buffer handed to the wait primitive. */
  const MAX_CURR_EVENTS: nat := 5

  /** Number of auxiliary (shared memory) fds a request may carry. */
  const MAX_SHAREABLE_FDS: nat := 4

  /** The pid value that tells the manager no TA was created. */
  const PID_NOT_CREATED: int := -1

  datatype Option<T> = None | Some(value: T)

  /** Message names; the numeric codes of the protocol header are abstracted. */
  datatype MsgName = OpenSession | CreatedTa | OtherName(code: int)

  /** Message kinds. */
  datatype MsgType = Query | Response | OtherType(code: int)

  /** The header fields of a received open-session message that the loop reads. */
  datatype Header = Header(name: MsgName, kind: MsgType, sessId: int)

  /** The `com_msg_ta_created` response record. */
  datatype TaCreated = TaCreated(name: MsgName, kind: MsgType, sessId: int, pid: int)

  /** The response record as zero-filled before the loop starts. */
  const ZERO_RESPONSE: TaCreated := TaCreated(OtherName(0), OtherType(0), 0, 0)

  /** Bits of the pending-signal vector filled by the signal bridge. */
  datatype Signal = SigTerm | SigHup | SigInt | SigOther(bit: nat)

  /** The two connected endpoints of a new socket pair: `fd0` goes to the
      manager, `fd1` to the new TA process. */
  datatype Pair = Pair(fd0: Fd, fd1: Fd)

  /** Externally visible actions of the launcher, in the order it performs them. */
  datatype Action =
    | ResetSelfPipe                                     // drain the signal bridge
    | SocketPair(created: Option<Pair>)                 // socketpair() attempted
    | SendResponse(msg: TaCreated)                      // com_send_msg of a response
    | TransferFd(fd: Fd)                                // send_fd to the manager
    | Spawn(endpoint: Fd, request: Header, fds: seq<Fd>) // ta_process_loop
    | Close(fd: Fd)                                     // close()

  datatype ExitCode = ExitSuccess | ExitFailure

  /** How handling ends: the loop goes on, or the process exits. */
  datatype Outcome = Continue | Exit(code: ExitCode)

  /** The launcher state the loop acts on: the pending-signal vector, the
      fds it holds open, the reused response record and the action trace. */
  datatype State = State(sig: set<Signal>, open: set<Fd>, response: TaCreated, trace: seq<Action>)

  /** A state together with how handling ended. */
  datatype Step = Step(st: State, out: Outcome)

  /** Fixed parameters of the process: the manager socket, the read end of
      the signal self-pipe, the launcher's own pid and the byte size of a
      `com_msg_ta_created` response. */
  datatype Env = Env(commSock: Fd, selfPipe: Fd, pid: int, responseSize: int)

  /** One event returned by the wait primitive. */
  datatype Event = Event(fd: Fd, err: bool, hup: bool)

  /** What the wait primitive returns: -1 (with or without EINTR) or a batch of events. */
  datatype WaitResult = WaitError(interrupted: bool) | Ready(events: seq<Event>)

  /** What `com_recv_msg` returns: status, header and the received fds. */
  datatype RecvOutcome = RecvOutcome(status: int, header: Header, fds: seq<Fd>)

  /** Every collaborator result one manager-socket event can depend on. */
  datatype Collaborators = Collaborators(recv: RecvOutcome, pair: Option<Pair>, sendCount: int, sendFdOk: bool)

  /** The inputs of one turn of the main loop: the signals delivered while
      waiting, the wait result and one collaborator record per event. */
  datatype Round = Round(arrived: set<Signal>, wait: WaitResult, collab: seq<Collaborators>)

  function FdSet(s: seq<Fd>): set<Fd>
  {
    set x | x in s
  }

  predicate Distinct(s: seq<Fd>)
  {
    forall i, j :: 0 <= i < j < |s| ==> s[i] != s[j]
  }
}
