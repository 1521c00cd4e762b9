/**
 * The data the guessit behaviour reads and writes: the steps of one question
 * attempt, their states, their behaviour variables and their responses.
 */
module Steps {

  /** The question states the behaviour tells apart; every other state is OtherState. */
  datatype StepState = Todo | Complete | Invalid | OtherState

  /** A response maps a slot key ("p1", "p2", ...) to the submitted fragment. */
  type Response = map<string, string>

  /** Name of the cumulative try counter. */
  const TryVar: string := "_try"
  /** Name of the flag stamped on a kept help step. */
  const HelpVar: string := "_help"
  /** Name of the submitted flag that marks a help request. */
  const HelpMeVar: string := "helpme"

  /**
   * One step of the attempt: its state, its behaviour variables (having a
   * variable means its key is present) and its question-type data.
   */
  datatype Step = Step(state: StepState, vars: map<string, int>, response: Response) {

    /** has_behaviour_var('_try') */
    predicate HasTry() {
      TryVar in vars
    }

    /** has_behaviour_var('helpme') */
    predicate HelpMe() {
      HelpMeVar in vars
    }

    /** The value of `_try` on a step that has it. */
    function Tries(): int
      requires HasTry()
    {
      vars[TryVar]
    }
  }

  /** The decimal digit for d. */
  function DigitChar(d: nat): char
    requires d < 10
  {
    "0123456789"[d]
  }

  /** The decimal notation of n, as PHP writes an integer into a string. */
  function NatToString(n: nat): string
    decreases n
  {
    if n < 10 then [DigitChar(n)] else NatToString(n / 10) + [DigitChar(n % 10)]
  }

  /** The response slot key 'p' . n. */
  function SlotKey(n: nat): string {
    "p" + NatToString(n)
  }
}
