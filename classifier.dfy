/** The quick test that decides whether a pasted text is an OOM-killer log at all. */
module Classifier {
  import opened Strings

  const TriggerMarker := "invoked oom-killer"
  const KillMarker := "Out of memory:"
  const ConstraintMarker := "oom-kill:"

  /** True exactly when one of the three markers occurs somewhere in the text. */
  predicate IsOOMLog(content: string)
    ensures IsOOMLog(content) <==> exists k ::
      StartsAt(content, k, TriggerMarker) || StartsAt(content, k, KillMarker) || StartsAt(content, k, ConstraintMarker)
  {
    Contains(content, TriggerMarker) || Contains(content, KillMarker) || Contains(content, ConstraintMarker)
  }

  /** The empty text is not an OOM log. */
  lemma EmptyIsNotOOMLog()
    ensures !IsOOMLog("")
  {
    assert !StartsAt("", 0, TriggerMarker) && !StartsAt("", 0, KillMarker) && !StartsAt("", 0, ConstraintMarker);
  }

  /** Classification is stable under surrounding text: an OOM log pasted with extra lines still is one. */
  lemma {:induction false} OOMLogInContext(pre: string, s: string, post: string)
    requires IsOOMLog(s)
    ensures IsOOMLog(pre + s + post)
  {
    if Contains(s, TriggerMarker) {
      ContainsInContext(pre, s, post, TriggerMarker);
    } else if Contains(s, KillMarker) {
      ContainsInContext(pre, s, post, KillMarker);
    } else {
      ContainsInContext(pre, s, post, ConstraintMarker);
    }
  }

  /** A text without any of the markers is not made an OOM log by removing characters from it. */
  lemma {:induction false} NotOOMLogSlice(s: string, a: nat, b: nat)
    requires a <= b <= |s| && !IsOOMLog(s)
    ensures !IsOOMLog(s[a..b])
  {
    if IsOOMLog(s[a..b]) {
      if Contains(s[a..b], TriggerMarker) {
        ContainsInSlice(s, a, b, TriggerMarker);
      } else if Contains(s[a..b], KillMarker) {
        ContainsInSlice(s, a, b, KillMarker);
      } else {
        ContainsInSlice(s, a, b, ConstraintMarker);
      }
    }
  }

  /** Each marker on its own classifies a line as an OOM log. */
  lemma MarkerExamples()
    ensures IsOOMLog("postmaster invoked oom-killer")
    ensures IsOOMLog("Out of memory: Killed process 123")
    ensures IsOOMLog("oom-kill:constraint=CONSTRAINT_NONE")
  {
    assert StartsAt("postmaster invoked oom-killer", 11, TriggerMarker);
    assert StartsAt("Out of memory: Killed process 123", 0, KillMarker);
    assert StartsAt("oom-kill:constraint=CONSTRAINT_NONE", 0, ConstraintMarker);
  }
}
