/**
 * The decisions of the guessit behaviour's renderer: which buttons the
 * controls hold and when feedback shows the extra help. HTML is left out.
 */
module Renderer {
  import opened Wrappers
  import opened Steps
  import opened History
  import opened Behaviour

  /** The renderer's get_graded_step: the newest step carrying `_try`, searched newest-first. */
  function GradedStep(h: seq<Step>): (r: Option<Step>)
    ensures r.None? <==> NoTry(h)
    ensures r.Some? ==> r.value.HasTry()
    ensures r == LastStepWithTry(h)
  {
    if |h| == 0 then None
    else if h[|h| - 1].HasTry() then Some(h[|h| - 1])
    else GradedStep(h[..|h| - 1])
  }

  /** The newest try step was a help request. */
  predicate HelpRequested(h: seq<Step>) {
    var g := GradedStep(h);
    g.Some? && g.value.HelpMe()
  }

  /** The buttons `controls` emits, in order. */
  datatype Control = SubmitButton | HelpButton

  /** The output of `controls`: the submit button, then the help button when it is offered. */
  function Controls(h: seq<Step>, q: Question): (r: seq<Control>)
    ensures 1 <= |r| <= 2 && r[0] == SubmitButton
    ensures HelpButton in r <==>
              q.nbTriesBeforeHelp > 0 && LastTryValue(h) != 0 &&
              (NoTry(h) || !PrevStep(h).HelpMe())
    ensures |r| == 2 <==> HelpButton in r
  {
    var prevTries := LastTryValue(h);
    var helpRequested := HelpRequested(h);
    [SubmitButton] + if q.nbTriesBeforeHelp > 0 && !helpRequested && prevTries != 0 then [HelpButton] else []
  }

  /** The output of `extra_help`: a div around the behaviour's text, or nothing when that text is empty. */
  datatype Block = NoDiv | Div(content: ExtraHelp)

  function ExtraHelpBlock(h: seq<Step>, q: Question): (r: Block)
    ensures r.NoDiv? <==> ExtraHelpFor(h, q) == NoHelp
    ensures r.Div? ==> r.content == ExtraHelpFor(h, q)
  {
    var content := ExtraHelpFor(h, q);
    if content == NoHelp then NoDiv else Div(content)
  }

  /** The output of `feedback`: the empty string, no output at all, or the extra-help block. */
  datatype Feedback = EmptyFeedback | NoFeedback | HelpBlock(block: Block)

  function FeedbackFor(attemptState: StepState, h: seq<Step>, q: Question): (r: Feedback)
    ensures attemptState == Invalid ==> r == EmptyFeedback
    ensures attemptState != Invalid ==>
              (r.HelpBlock? <==> !NoTry(h) && PrevStep(h).HelpMe()) && (!r.HelpBlock? ==> r == NoFeedback)
    ensures r.HelpBlock? ==> r.block == ExtraHelpBlock(h, q) && r.block.Div?
  {
    if attemptState == Invalid then EmptyFeedback
    else
      match GradedStep(h)
      case None => NoFeedback
      case Some(g) => if g.HelpMe() then HelpBlock(ExtraHelpBlock(h, q)) else NoFeedback
  }
}
