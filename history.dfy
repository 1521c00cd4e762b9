/**
 * The host's read-only lookups over the attempt's step history. The history
 * is append-only with the newest step last; every lookup scans newest-first
 * for the first step that carries `_try`.
 */
module History {
  import opened Wrappers
  import opened Steps

  /** Step i is the newest step of h carrying `_try`. */
  predicate IsLatestTry(h: seq<Step>, i: int) {
    0 <= i < |h| && h[i].HasTry() && forall j :: i < j < |h| ==> !h[j].HasTry()
  }

  /** No step of h carries `_try`. */
  predicate NoTry(h: seq<Step>) {
    forall i :: 0 <= i < |h| ==> !h[i].HasTry()
  }

  /** The index of the newest step carrying `_try`, found by scanning newest-first. */
  function LatestTry(h: seq<Step>): (r: Option<nat>)
    ensures r.None? <==> NoTry(h)
    ensures r.Some? ==> IsLatestTry(h, r.value)
  {
    if |h| == 0 then None
    else if h[|h| - 1].HasTry() then Some(|h| - 1)
    else LatestTry(h[..|h| - 1])
  }

  /** get_last_step_with_behaviour_var('_try'), with "no such step" made explicit. */
  function LastStepWithTry(h: seq<Step>): (r: Option<Step>)
    ensures r.None? <==> NoTry(h)
    ensures r.Some? ==> r.value.HasTry() && exists i :: IsLatestTry(h, i) && h[i] == r.value
  {
    match LatestTry(h)
    case None => None
    case Some(i) => Some(h[i])
  }

  /**
   * What the host hands back when no step carries `_try`: a step with an
   * empty response whose state is not `complete`.
   */
  const NoStepStandIn: Step := Step(OtherState, map[], map[])

  /** The step whose data process_submit and the hint read as the previous try. */
  function PrevStep(h: seq<Step>): (r: Step)
    ensures NoTry(h) ==> r == NoStepStandIn && r.state != Complete && r.response == map[]
    ensures !NoTry(h) ==> LastStepWithTry(h) == Some(r)
  {
    match LastStepWithTry(h)
    case None => NoStepStandIn
    case Some(s) => s
  }

  /** get_last_behaviour_var('_try', 0): the newest `_try` value, or 0. */
  function LastTryValue(h: seq<Step>): (r: int)
    ensures NoTry(h) ==> r == 0
    ensures !NoTry(h) ==> r == PrevStep(h).Tries()
  {
    match LatestTry(h)
    case None => 0
    case Some(i) => h[i].Tries()
  }

  /** Only one step can be the newest one carrying `_try`. */
  lemma LatestTryIsUnique(h: seq<Step>, i: int)
    requires IsLatestTry(h, i)
    ensures LatestTry(h) == Some(i)
  {
  }

  /** Appending a step: it becomes the newest try step exactly when it carries `_try`. */
  lemma LatestTryAfterAppend(h: seq<Step>, s: Step)
    ensures LatestTry(h + [s]) == if s.HasTry() then Some(|h|) else LatestTry(h)
  {
  }
}
