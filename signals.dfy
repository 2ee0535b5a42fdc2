/** Interpretation of the pending-signal vector (`check_signal_status`). */
module Signals {
  import opened Protocol

  /** True when the vector asks the launcher to terminate. */
  predicate Terminates(sig: set<Signal>)
  {
    SigTerm in sig || SigInt in sig
  }

  /** Read the vector, reset the self-pipe (which drains the vector), then
      exit with success on TERM or INT; HUP and any other bit are ignored. */
  function SignalCheck(st: State): Step
  {
    var copy := st.sig;
    var reset := st.(sig := {}, trace := st.trace + [ResetSelfPipe]);
    if SigTerm in copy then Step(reset, Exit(ExitSuccess))
    else if SigInt in copy then Step(reset, Exit(ExitSuccess))
    else Step(reset, Continue)
  }

  /** The check always resets first, and it exits (with success) exactly
      when TERM or INT was pending before the reset. */
  lemma SignalCheckOutcome(st: State)
    ensures SignalCheck(st).st.trace == st.trace + [ResetSelfPipe]
    ensures SignalCheck(st).st.sig == {}
    ensures SignalCheck(st).st.open == st.open && SignalCheck(st).st.response == st.response
    ensures SignalCheck(st).out.Exit? <==> Terminates(st.sig)
    ensures SignalCheck(st).out.Exit? ==> SignalCheck(st).out.code == ExitSuccess
  {
  }

  /** A vector holding only HUP, or nothing, has no effect besides the reset. */
  lemma HangUpIgnored(st: State)
    requires st.sig <= {SigHup}
    ensures SignalCheck(st) == Step(st.(sig := {}, trace := st.trace + [ResetSelfPipe]), Continue)
  {
  }
}
