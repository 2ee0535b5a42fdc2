/** The `close_fd` funnel: close every recorded auxiliary fd, last recorded first. */
module Cleanup {
  import opened Protocol

  /** The close actions the funnel performs for the recorded fds `s`. */
  function ReverseCloses(s: seq<Fd>): seq<Action>
  {
    if |s| == 0 then [] else ReverseCloses(s[1..]) + [Close(s[0])]
  }

  /** The funnel closes index |s|-1 first and index 0 last. */
  lemma {:induction false} ReverseClosesAt(s: seq<Fd>, k: nat)
    requires k < |s|
    ensures |ReverseCloses(s)| == |s|
    ensures ReverseCloses(s)[k] == Close(s[|s| - 1 - k])
  {
    if k < |s| - 1 {
      ReverseClosesAt(s[1..], k);
    } else {
      ReverseClosesLength(s[1..]);
    }
  }

  lemma {:induction false} ReverseClosesLength(s: seq<Fd>)
    ensures |ReverseCloses(s)| == |s|
  {
    if |s| > 0 {
      ReverseClosesLength(s[1..]);
    }
  }

  /** The funnel does nothing but close recorded fds. */
  lemma {:induction false} ReverseClosesOnlyCloses(s: seq<Fd>)
    ensures forall a :: a in ReverseCloses(s) ==> a.Close? && a.fd in s
  {
    if |s| > 0 {
      ReverseClosesOnlyCloses(s[1..]);
    }
  }

  /** The funnel closes each fd as many times as it was recorded. */
  lemma {:induction false} ReverseClosesCount(s: seq<Fd>)
    ensures forall x :: multiset(ReverseCloses(s))[Close(x)] == multiset(s)[x]
  {
    if |s| > 0 {
      ReverseClosesCount(s[1..]);
      assert s == [s[0]] + s[1..];
    }
  }

  /** The funnel sends nothing. */
  lemma NoResponseInCloses(s: seq<Fd>, m: TaCreated)
    ensures multiset(ReverseCloses(s))[SendResponse(m)] == 0
  {
    ReverseClosesOnlyCloses(s);
  }

  /** A fd recorded once is counted once. */
  lemma {:induction false} DistinctOnce(s: seq<Fd>, x: Fd)
    requires Distinct(s) && x in s
    ensures multiset(s)[x] == 1
  {
    assert s == [s[0]] + s[1..];
    if s[0] == x {
      assert x !in s[1..];
    } else {
      DistinctOnce(s[1..], x);
    }
  }

  /** Each recorded fd of a distinct record is closed exactly once, and
      nothing else is closed. */
  lemma ClosesEachOnce(s: seq<Fd>)
    requires Distinct(s)
    ensures forall x :: multiset(ReverseCloses(s))[Close(x)] == (if x in s then 1 else 0)
  {
    ReverseClosesCount(s);
    forall x
      ensures multiset(ReverseCloses(s))[Close(x)] == (if x in s then 1 else 0)
    {
      if x in s {
        DistinctOnce(s, x);
      }
    }
  }
}
