/**
 * The guessit question behaviour: how one learner action on an attempt is
 * turned into DISCARD or KEEP, what is stamped onto the pending step, and the
 * extra-help text derived from the attempt history.
 */
module Behaviour {
  import opened Wrappers
  import opened Steps
  import opened History

  /** The question fields the behaviour reads. */
  datatype Question = Question(nbTriesBeforeHelp: int, answers: seq<string>)

  /** question_attempt::DISCARD and question_attempt::KEEP. */
  datatype Decision = Discard | Keep

  /** What process_action did: decided itself, or handed the step to the adaptive parent. */
  datatype ActionResult = Decided(decision: Decision) | DelegatedToParent

  /** Form parameter types declared by get_expected_data. */
  datatype ParamType = ParamBool | ParamOther(name: string)

  /**
   * The step the host is building for the current action. The behaviour reads
   * its response and variables and may set its state and variables.
   */
  class PendingStep {
    const response: Response
    var state: StepState
    var vars: map<string, int>

    constructor (response: Response, vars: map<string, int>)
      ensures this.response == response && this.vars == vars && state == OtherState
    {
      this.response := response;
      this.vars := vars;
      state := OtherState;
    }

    /** The step as the host would commit it now. */
    function Snapshot(): Step
      reads this
    {
      Step(state, vars, response)
    }

    function HasBehaviourVar(name: string): bool
      reads this
    {
      name in vars
    }

    method SetState(s: StepState)
      modifies this
      ensures state == s && vars == old(vars)
    {
      state := s;
    }

    method SetBehaviourVar(name: string, value: int)
      modifies this
      ensures vars == old(vars)[name := value] && state == old(state)
    {
      vars := vars[name := value];
    }
  }

  // ---------------------------------------------------------------------------
  // Specification of a submission

  /** The response compared with the previous try: a help request compares the empty response. */
  function ComparedResponse(pending: Step): (r: Response)
    ensures pending.HelpMe() ==> r == map[]
    ensures !pending.HelpMe() ==> r == pending.response
  {
    if pending.HelpMe() then map[] else pending.response
  }

  /** DISCARD exactly when the compared response is the same as the previous try's response. */
  function SubmitDecision(h: seq<Step>, same: (Response, Response) -> bool, pending: Step): (d: Decision)
    ensures d == Discard <==> same(ComparedResponse(pending), PrevStep(h).response)
  {
    if same(ComparedResponse(pending), PrevStep(h).response) then Discard else Keep
  }

  /**
   * The `_try` value a kept submission records: a help request does not
   * advance the counter, except when the previous count is exactly the
   * threshold.
   */
  function NextTries(prevTries: int, helpRequested: bool, nbTriesBeforeHelp: int): (t: int)
    ensures prevTries <= t <= prevTries + 1
    ensures !helpRequested ==> t == prevTries + 1
    ensures helpRequested ==> (t == prevTries <==> prevTries != nbTriesBeforeHelp)
  {
    if helpRequested && prevTries != nbTriesBeforeHelp then prevTries else prevTries + 1
  }

  /** The state of a kept step: `complete` stays `complete`, anything else becomes `todo`. */
  function KeptState(prev: Step): (s: StepState)
    ensures s == Complete <==> prev.state == Complete
    ensures s == Complete || s == Todo
  {
    if prev.state == Complete then Complete else Todo
  }

  /** The pending step after process_submit keeps it. */
  function SubmitResult(h: seq<Step>, q: Question, pending: Step): (r: Step)
    ensures r.response == pending.response
    ensures r.state == KeptState(PrevStep(h))
    ensures r.HasTry() && r.Tries() == NextTries(LastTryValue(h), pending.HelpMe(), q.nbTriesBeforeHelp)
    ensures forall k :: k != TryVar ==> (k in r.vars <==> k in pending.vars)
    ensures forall k :: k != TryVar && k in pending.vars ==> r.vars[k] == pending.vars[k]
  {
    Step(KeptState(PrevStep(h)),
         pending.vars[TryVar := NextTries(LastTryValue(h), pending.HelpMe(), q.nbTriesBeforeHelp)],
         pending.response)
  }

  /** The pending step after process_helpme keeps it: the submit result stamped `_help = 1`. */
  function HelpmeResult(h: seq<Step>, q: Question, pending: Step): (r: Step)
    ensures HelpVar in r.vars && r.vars[HelpVar] == 1
    ensures r.state == SubmitResult(h, q, pending).state
    ensures r.response == pending.response
    ensures r.vars == SubmitResult(h, q, pending).vars[HelpVar := 1]
  {
    var s := SubmitResult(h, q, pending);
    if s.state != Invalid then s.(vars := s.vars[HelpVar := 1]) else s
  }

  // ---------------------------------------------------------------------------
  // The behaviour's operations

  /** get_expected_data: the parent's fields, plus `helpme` while the attempt is active. */
  function ExpectedData(parentExpected: map<string, ParamType>, active: bool): (r: map<string, ParamType>)
    ensures active ==> HelpMeVar in r && r[HelpMeVar] == ParamBool
    ensures !active ==> r == parentExpected
    ensures r.Keys == parentExpected.Keys + (if active then {HelpMeVar} else {})
    ensures forall k :: k in parentExpected && k != HelpMeVar ==> r[k] == parentExpected[k]
  {
    if active then parentExpected[HelpMeVar := ParamBool] else parentExpected
  }

  /** get_graded_step: the newest step carrying `_try`, scanning newest-first. */
  method GetGradedStep(h: seq<Step>) returns (r: Option<Step>)
    ensures r.None? <==> NoTry(h)
    ensures r == LastStepWithTry(h)
  {
    var i := |h|;
    while i > 0
      invariant 0 <= i <= |h|
      invariant forall j :: i <= j < |h| ==> !h[j].HasTry()
    {
      if h[i - 1].HasTry() {
        assert IsLatestTry(h, i - 1);
        LatestTryIsUnique(h, i - 1);
        return Some(h[i - 1]);
      }
      i := i - 1;
    }
    return None;
  }

  /** process_submit. */
  method ProcessSubmit(h: seq<Step>, q: Question, same: (Response, Response) -> bool, p: PendingStep)
    returns (d: Decision)
    modifies p
    ensures d == SubmitDecision(h, same, old(p.Snapshot()))
    ensures d == Keep ==> p.Snapshot() == SubmitResult(h, q, old(p.Snapshot()))
    ensures d == Discard ==> p.Snapshot() == old(p.Snapshot())
  {
    var response := p.response;
    var nbTriesBeforeHelp := q.nbTriesBeforeHelp;
    var helpRequested := p.HasBehaviourVar(HelpMeVar);
    if helpRequested {
      response := map[];
    }
    var prevStep := PrevStep(h);
    var prevResponse := prevStep.response;
    var prevTries := LastTryValue(h);
    if helpRequested && prevTries != nbTriesBeforeHelp {
      prevTries := prevTries - 1;
    }
    if same(response, prevResponse) {
      return Discard;
    }
    if prevStep.state == Complete {
      p.SetState(Complete);
    } else {
      p.SetState(Todo);
    }
    p.SetBehaviourVar(TryVar, prevTries + 1);
    return Keep;
  }

  /** process_helpme: process_submit, then `_help = 1` on a kept step that is not invalid. */
  method ProcessHelpme(h: seq<Step>, q: Question, same: (Response, Response) -> bool, p: PendingStep)
    returns (d: Decision)
    modifies p
    ensures d == SubmitDecision(h, same, old(p.Snapshot()))
    ensures d == Keep ==> p.Snapshot() == HelpmeResult(h, q, old(p.Snapshot()))
    ensures d == Discard ==> p.Snapshot() == old(p.Snapshot())
  {
    d := ProcessSubmit(h, q, same, p);
    if d == Keep && p.state != Invalid {
      p.SetBehaviourVar(HelpVar, 1);
    }
  }

  /**
   * process_action: a step carrying `helpme` goes to process_helpme; any
   * other step goes to the adaptive parent, which this model leaves out.
   */
  method ProcessAction(h: seq<Step>, q: Question, same: (Response, Response) -> bool, p: PendingStep)
    returns (r: ActionResult)
    modifies p
    ensures r.Decided? <==> old(p.Snapshot()).HelpMe()
    ensures r.Decided? ==> r.decision == SubmitDecision(h, same, old(p.Snapshot()))
    ensures r == Decided(Keep) ==> p.Snapshot() == HelpmeResult(h, q, old(p.Snapshot()))
    ensures r == Decided(Discard) ==> p.Snapshot() == old(p.Snapshot())
  {
    if p.HasBehaviourVar(HelpMeVar) {
      var d := ProcessHelpme(h, q, same, p);
      return Decided(d);
    } else {
      return DelegatedToParent;
    }
  }

  // ---------------------------------------------------------------------------
  // Extra help

  /** One fragment of the hint: a copied answer, or the first wrong answer in bold. */
  datatype Piece = Plain(text: string) | Bold(text: string)

  /**
   * The result of get_extra_help_if_requested: the empty string, the
   * 'moretries' or 'moretry' message with the tries left, or the hint.
   */
  datatype ExtraHelp = NoHelp | MoreTries(triesLeft: int) | MoreTry(triesLeft: int) | Reveal(pieces: seq<Piece>)

  /** Answer i equals response slot p(i+1); a missing slot does not match. */
  predicate SlotMatches(answers: seq<string>, resp: Response, i: nat)
    requires i < |answers|
  {
    SlotKey(i + 1) in resp && resp[SlotKey(i + 1)] == answers[i]
  }

  /** The end of the run of matching answers that starts at i. */
  function MatchLengthFrom(answers: seq<string>, resp: Response, i: nat): (k: nat)
    requires i <= |answers|
    ensures i <= k <= |answers|
    ensures forall j :: i <= j < k ==> SlotMatches(answers, resp, j)
    ensures k < |answers| ==> !SlotMatches(answers, resp, k)
    decreases |answers| - i
  {
    if i == |answers| || !SlotMatches(answers, resp, i) then i
    else MatchLengthFrom(answers, resp, i + 1)
  }

  /** How many leading answers the response gets right, slot by slot. */
  function MatchLength(answers: seq<string>, resp: Response): (k: nat)
    ensures k <= |answers|
    ensures forall j :: 0 <= j < k ==> SlotMatches(answers, resp, j)
    ensures k < |answers| ==> !SlotMatches(answers, resp, k)
  {
    MatchLengthFrom(answers, resp, 0)
  }

  /**
   * The hint: the matching prefix of the answers in order, then the first
   * answer that does not match in bold, and nothing after it.
   */
  function PrefixHint(answers: seq<string>, resp: Response): (r: seq<Piece>)
    ensures |r| <= |answers|
    ensures forall j :: 0 <= j < |r| ==> r[j].text == answers[j]
    ensures forall j :: 0 <= j < |r| ==> (r[j].Plain? <==> SlotMatches(answers, resp, j))
    ensures forall j :: 0 <= j < |r| - 1 ==> r[j].Plain?
    ensures |r| < |answers| ==> |r| > 0 && r[|r| - 1].Bold?
    ensures |r| == |answers| && (forall j :: 0 <= j < |r| ==> r[j].Plain?) <==>
            forall j :: 0 <= j < |answers| ==> SlotMatches(answers, resp, j)
  {
    var k := MatchLength(answers, resp);
    seq(k, j requires 0 <= j < k => Plain(answers[j])) + (if k < |answers| then [Bold(answers[k])] else [])
  }

  /** The loop of get_extra_help_if_requested that walks the answers left to right. */
  method AnswerPrefixHint(answers: seq<string>, resp: Response) returns (answerList: seq<Piece>)
    ensures answerList == PrefixHint(answers, resp)
  {
    answerList := [];
    var counter := 1;
    var i := 0;
    while i < |answers|
      invariant 0 <= i <= |answers| && counter == i + 1
      invariant i <= MatchLength(answers, resp)
      invariant answerList == seq(i, j requires 0 <= j < i => Plain(answers[j]))
    {
      var key := SlotKey(counter);
      if !(key in resp && resp[key] == answers[i]) {
        answerList := answerList + [Bold(answers[i])];
        break;
      }
      answerList := answerList + [Plain(answers[i])];
      counter := counter + 1;
      i := i + 1;
    }
  }

  /** What get_extra_help_if_requested returns for a history and a question. */
  function ExtraHelpFor(h: seq<Step>, q: Question): (r: ExtraHelp)
    ensures LastTryValue(h) < q.nbTriesBeforeHelp ==>
              (r.MoreTries? || r.MoreTry?) && r.triesLeft == q.nbTriesBeforeHelp - LastTryValue(h) &&
              r.triesLeft >= 1 && (r.MoreTries? <==> r.triesLeft > 1)
    ensures LastTryValue(h) >= q.nbTriesBeforeHelp ==>
              (r.Reveal? <==> LastStepWithTry(h).Some? && LastStepWithTry(h).value.HelpMe()) &&
              (!r.Reveal? ==> r == NoHelp)
    ensures r.Reveal? ==>
              LastStepWithTry(h).Some? && r.pieces == PrefixHint(q.answers, LastStepWithTry(h).value.response)
  {
    var prevTries := LastTryValue(h);
    if prevTries >= q.nbTriesBeforeHelp then
      match LastStepWithTry(h)
      case None => NoHelp
      case Some(g) => if g.HelpMe() then Reveal(PrefixHint(q.answers, PrevStep(h).response)) else NoHelp
    else
      var triesLeft := q.nbTriesBeforeHelp - prevTries;
      if triesLeft > 1 then MoreTries(triesLeft) else MoreTry(triesLeft)
  }

  /** get_extra_help_if_requested. */
  method GetExtraHelpIfRequested(h: seq<Step>, q: Question) returns (output: ExtraHelp)
    ensures output == ExtraHelpFor(h, q)
  {
    var nbTriesBeforeHelp := q.nbTriesBeforeHelp;
    var prevTries := LastTryValue(h);
    var gradedStep := GetGradedStep(h);
    var prevStep := PrevStep(h);
    var prevResponse := prevStep.response;
    if prevTries >= nbTriesBeforeHelp {
      if gradedStep.None? || !gradedStep.value.HelpMe() {
        return NoHelp;
      }
      var answerList := AnswerPrefixHint(q.answers, prevResponse);
      return Reveal(answerList);
    }
    var triesLeft := nbTriesBeforeHelp - prevTries;
    if triesLeft > 1 {
      return MoreTries(triesLeft);
    } else {
      return MoreTry(triesLeft);
    }
  }
}
