/** Decoding of what `com_recv_msg` returned on the manager socket. */
module Decoder {
  import opened Protocol

  /** Status -1 (receive failure) and any positive status (nothing to
      process) discard the message; every other status goes on to decoding. */
  predicate IsDiscarded(status: int)
  {
    status == -1 || status > 0
  }

  /** The auxiliary fds recorded in the message header: all of them when
      there are 1 to 4, none otherwise. */
  function RecordedFds(fds: seq<Fd>): seq<Fd>
  {
    if 0 < |fds| <= MAX_SHAREABLE_FDS then fds else []
  }

  /** Only an OPEN_SESSION query is served. */
  predicate IsOpenSessionQuery(h: Header)
  {
    h.name == OpenSession && h.kind == Query
  }

  /** The recorded count is the received count when it is 1..4 and 0
      otherwise; five or more received fds are recorded as none at all. */
  lemma FdCountClamp(fds: seq<Fd>)
    ensures |RecordedFds(fds)| <= MAX_SHAREABLE_FDS
    ensures |RecordedFds(fds)| == (if 1 <= |fds| <= 4 then |fds| else 0)
    ensures RecordedFds(fds) == fds || RecordedFds(fds) == []
    ensures |fds| >= 5 ==> FdSet(RecordedFds(fds)) == {}
    ensures |fds| <= 4 ==> FdSet(RecordedFds(fds)) == FdSet(fds)
  {
  }
}
