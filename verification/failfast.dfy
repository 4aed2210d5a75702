/** A reference definition of fail-fast error reporting: a list of checks, run in
    order, where the first one that does not pass decides the error. */
module FailFast {
  import opened Wrappers

  /** One check: whether it passed, and the error reported when it did not. */
  datatype Check<E> = Check(passed: bool, error: E)

  /** Check `i` is the first one in `cs` that fails. */
  predicate FailsFirstAt<E>(cs: seq<Check<E>>, i: int) {
    0 <= i < |cs| && !cs[i].passed && forall j :: 0 <= j < i ==> cs[j].passed
  }

  /** The error of the first failing check, or None when every check passes. */
  function FirstFailure<E>(cs: seq<Check<E>>): (e: Option<E>)
    ensures e.None? <==> forall i :: 0 <= i < |cs| ==> cs[i].passed
    ensures forall i :: FailsFirstAt(cs, i) ==> e == Some(cs[i].error)
  {
    if |cs| == 0 then None
    else if !cs[0].passed then Some(cs[0].error)
    else
      var rest := FirstFailure(cs[1..]);
      assert forall i :: 1 <= i < |cs| ==> cs[i] == cs[1..][i - 1];
      assert forall i :: FailsFirstAt(cs, i) ==> FailsFirstAt(cs[1..], i - 1);
      rest
  }
}
