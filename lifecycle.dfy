/**
 * How one kept action shapes what the attempt does next: the invariants of
 * the try-bearing steps that kept submissions preserve, and what the
 * renderer and the extra help show right after a kept step.
 */
module Lifecycle {
  import opened Wrappers
  import opened Steps
  import opened History
  import opened Behaviour
  import opened Renderer

  /**
   * The step the host commits when process_action keeps `pending`: a help
   * request goes through process_helpme, a submit through process_submit.
   */
  function KeptStep(h: seq<Step>, q: Question, pending: Step): (r: Step)
    ensures r.HasTry() && r.response == pending.response && r.HelpMe() == pending.HelpMe()
    ensures pending.HelpMe() ==> r == HelpmeResult(h, q, pending)
    ensures !pending.HelpMe() ==> r == SubmitResult(h, q, pending)
  {
    if pending.HelpMe() then HelpmeResult(h, q, pending) else SubmitResult(h, q, pending)
  }

  /** Once a try-bearing step is `complete`, every later try-bearing step is `complete`. */
  ghost predicate CompleteIsSticky(h: seq<Step>) {
    forall i, j :: 0 <= i < j < |h| && h[i].HasTry() && h[j].HasTry() && h[i].state == Complete ==>
      h[j].state == Complete
  }

  /** `_try` never decreases along the try-bearing steps. */
  ghost predicate TriesNonDecreasing(h: seq<Step>) {
    forall i, j :: 0 <= i < j < |h| && h[i].HasTry() && h[j].HasTry() ==> h[i].Tries() <= h[j].Tries()
  }

  /** The committed step is the newest try step of the extended history. */
  lemma KeptStepIsLatest(h: seq<Step>, q: Question, pending: Step)
    ensures LastStepWithTry(h + [KeptStep(h, q, pending)]) == Some(KeptStep(h, q, pending))
    ensures PrevStep(h + [KeptStep(h, q, pending)]) == KeptStep(h, q, pending)
    ensures LastTryValue(h + [KeptStep(h, q, pending)]) == KeptStep(h, q, pending).Tries()
  {
  }

  /** A kept step never reverts a `complete` attempt. */
  lemma KeepPreservesCompleteIsSticky(h: seq<Step>, q: Question, pending: Step)
    requires CompleteIsSticky(h)
    ensures CompleteIsSticky(h + [KeptStep(h, q, pending)])
  {
  }

  /** A kept step never lowers the try counter. */
  lemma KeepPreservesTriesNonDecreasing(h: seq<Step>, q: Question, pending: Step)
    requires TriesNonDecreasing(h)
    ensures TriesNonDecreasing(h + [KeptStep(h, q, pending)])
  {
  }

  /** Right after a kept help step, the help button is not offered. */
  lemma HelpButtonHiddenAfterHelpStep(h: seq<Step>, q: Question, pending: Step)
    requires pending.HelpMe()
    ensures Controls(h + [KeptStep(h, q, pending)], q) == [SubmitButton]
  {
  }

  /**
   * Right after a kept submit, the help button is offered exactly when help
   * is configured and the new counter is not 0.
   */
  lemma HelpButtonAfterSubmit(h: seq<Step>, q: Question, pending: Step)
    requires !pending.HelpMe()
    ensures Controls(h + [KeptStep(h, q, pending)], q) ==
            if q.nbTriesBeforeHelp > 0 && LastTryValue(h) + 1 != 0 then [SubmitButton, HelpButton]
            else [SubmitButton]
  {
  }

  /**
   * Right after a kept help step: at or past the threshold the hint is
   * revealed from the response sent with the help request; below it the
   * counter did not move, so the extra help is the same tries-left message
   * as before the request.
   */
  lemma HintAfterHelpStep(h: seq<Step>, q: Question, pending: Step)
    requires pending.HelpMe()
    ensures LastTryValue(h) >= q.nbTriesBeforeHelp ==>
              ExtraHelpFor(h + [KeptStep(h, q, pending)], q) == Reveal(PrefixHint(q.answers, pending.response))
    ensures LastTryValue(h) < q.nbTriesBeforeHelp ==>
              ExtraHelpFor(h + [KeptStep(h, q, pending)], q) == ExtraHelpFor(h, q)
  {
  }

  /**
   * Right after a kept submit the hint is never revealed: below the threshold
   * the tries-left count goes down by one, and from the threshold on the
   * extra help is empty.
   */
  lemma ExtraHelpAfterSubmit(h: seq<Step>, q: Question, pending: Step)
    requires !pending.HelpMe()
    ensures !ExtraHelpFor(h + [KeptStep(h, q, pending)], q).Reveal?
    ensures LastTryValue(h) + 1 < q.nbTriesBeforeHelp ==>
              ExtraHelpFor(h + [KeptStep(h, q, pending)], q).triesLeft == q.nbTriesBeforeHelp - LastTryValue(h) - 1
    ensures LastTryValue(h) + 1 >= q.nbTriesBeforeHelp ==> ExtraHelpFor(h + [KeptStep(h, q, pending)], q) == NoHelp
  {
  }

  /** After a kept help step, feedback of a valid attempt always shows a non-empty extra-help block. */
  lemma FeedbackAfterHelpStep(attemptState: StepState, h: seq<Step>, q: Question, pending: Step)
    requires pending.HelpMe() && attemptState != Invalid
    ensures FeedbackFor(attemptState, h + [KeptStep(h, q, pending)], q) ==
            HelpBlock(Div(ExtraHelpFor(h + [KeptStep(h, q, pending)], q)))
  {
  }

  /**
   * A worked hint: answers "the", "cat", "sat" against a response that gets
   * the first slot right and the second wrong reveal "the" and a bold "cat".
   */
  lemma ExampleHint()
    ensures PrefixHint(["the", "cat", "sat"], map["p1" := "the", "p2" := "dog", "p3" := "sat"]) ==
            [Plain("the"), Bold("cat")]
  {
    var answers := ["the", "cat", "sat"];
    var resp := map["p1" := "the", "p2" := "dog", "p3" := "sat"];
    assert SlotKey(1) == "p1" && SlotKey(2) == "p2";
    assert SlotMatches(answers, resp, 0) && !SlotMatches(answers, resp, 1);
    assert MatchLength(answers, resp) == 1;
  }
}
