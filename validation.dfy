/** Form validation as the screens write it: a chain of checks, each with its message, where
    the first check that fails decides the error shown and stops the chain. */
module Validation {
  import opened Text

  datatype Check = Check(passes: bool, message: string)

  /** The message of the first check that fails; `None` when every check passes. */
  function FirstFailure(checks: seq<Check>): Option<string> {
    if checks == [] then None
    else if !checks[0].passes then Some(checks[0].message)
    else FirstFailure(checks[1..])
  }

  /** The first failing check decides the message, whatever comes after it. */
  lemma {:induction false} FirstFailureAt(checks: seq<Check>, k: nat)
    requires k < |checks| && !checks[k].passes
    requires forall j :: 0 <= j < k ==> checks[j].passes
    ensures FirstFailure(checks) == Some(checks[k].message)
    decreases k
  {
    if k > 0 {
      FirstFailureAt(checks[1..], k - 1);
    }
  }

  /** Nothing is reported exactly when every check passes. */
  lemma {:induction false} FirstFailureNone(checks: seq<Check>)
    ensures FirstFailure(checks) == None <==> forall k :: 0 <= k < |checks| ==> checks[k].passes
    decreases |checks|
  {
    if checks != [] {
      FirstFailureNone(checks[1..]);
      if checks[0].passes && FirstFailure(checks[1..]) == None {
        assert forall k :: 1 <= k < |checks| ==> checks[k].passes by {
          forall k | 1 <= k < |checks| ensures checks[k].passes {
            assert checks[k] == checks[1..][k - 1];
          }
        }
      }
    }
  }

  /** The first failing check of a concatenation is in the first part, if it has one. */
  lemma {:induction false} FirstFailureAppend(a: seq<Check>, b: seq<Check>)
    ensures FirstFailure(a + b) == if FirstFailure(a).Some? then FirstFailure(a) else FirstFailure(b)
    decreases |a|
  {
    if a == [] {
      assert a + b == b;
    } else {
      assert (a + b)[1..] == a[1..] + b;
      FirstFailureAppend(a[1..], b);
    }
  }
}
