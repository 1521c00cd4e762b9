# Guess It question behaviour — a verified model

This project models the decision logic of the Moodle question behaviour
`qbehaviour_guessit` ("Guess It" with help). It covers four things:

- how one learner action on a question attempt becomes DISCARD or KEEP;
- what the behaviour stamps onto the pending step (its state, `_try` and `_help`);
- how the extra-help text comes from the attempt history (a tries-left message or an answer-prefix hint);
- when the renderer offers the help button and shows the extra help as feedback.

The attempt history is a `seq<Step>` with the newest step last. A step has a
state (`todo`, `complete`, `invalid` or any other), a map of behaviour
variables (`_try`, `_help`, `helpme`; having a variable means its key is
present) and a response map from slot key (`p1`, `p2`, …) to string. The
pending step is a class (`Behaviour.PendingStep`) with a state and a variable
map that `ProcessSubmit` and `ProcessHelpme` update in place. Their
postconditions tie the new state to the specification functions
`SubmitDecision`, `SubmitResult` and `HelpmeResult`. The lemmas in
`Lifecycle` relate a kept step to what happens next.

Modules: `Wrappers` (Option), `Steps` (steps and slot keys), `History` (the
host's newest-first lookups), `Behaviour` (behaviour.php), `Renderer`
(renderer.php), `Lifecycle` (properties across several calls).

Assumptions about the host, which is not part of this model:

- `get_last_step_with_behaviour_var('_try')` and `get_last_behaviour_var('_try', 0)` scan newest-first.
- When no step carries `_try`, the host still hands back a step. behaviour.php:83 reads its data without a check. The model uses `History.NoStepStandIn`: empty response, empty variables, a state that is not `complete`.
- `is_same_response` belongs to the question type. It is the parameter `same`, with no properties assumed.
- Whether the attempt is active (`get_state()->is_active()`) and the attempt's current state are parameters.

Where the comments or the expected behaviour of the plugin and the code disagree, this model follows the code:

- The comment at behaviour.php:88 says a help request is not discarded. The code has no such exemption. A help request compares the empty response with the previous try's response, and DISCARDs when `is_same_response` says they are the same.
- This variant does no grading. There is no fraction, no wordle try ceiling and no invalid-response gate. The kept state is `complete` exactly when the previous try step is `complete`, and `todo` otherwise.
- `_try` does not always grow by one on KEEP. A help request leaves it unchanged unless the previous count equals `nbtriesbeforehelp`. It never decreases (`Lifecycle.KeepPreservesTriesNonDecreasing`).
- The hint is unlocked by the graded step's `helpme` variable, not by `_help`.
- Below the threshold the extra help is not empty. It is the 'moretries' or 'moretry' message.

Open question: behaviour.php:85 and renderer.php:73 compare `_try` with `!==`. A `_try` reloaded from storage may be a string, and then these tests are always "not equal". The model reads both as integer comparisons and does not resolve this.

## Model

| member | source | states |
|---|---|---|
| `History.LatestTry` | behaviour.php:82-84 | the host's newest-first scan: none exactly when no step has `_try`, otherwise the index of a step with `_try` after which no step has it |
| `History.LastStepWithTry` | behaviour.php:82 | the previous try step is the newest step carrying `_try`, and is missing exactly when no step has it |
| `History.PrevStep` | behaviour.php:82-83 | the previous try step: with no step carrying `_try` it is the stand-in with an empty response and a state that is not `complete`; otherwise it is the host lookup's step |
| `History.LastTryValue` | behaviour.php:84 | the previous count is 0 when no step has `_try`, and otherwise the `_try` of the previous try step |
| `History.LatestTryAfterAppend` | behaviour.php:82-84 | after one step is appended, it is the newest try step if it carries `_try`; otherwise the answer is the one for the old history |
| `Behaviour.PendingStep.SetState` | behaviour.php:93-97 | the host's `set_state`: the state becomes the given one and the variables are unchanged |
| `Behaviour.PendingStep.SetBehaviourVar` | behaviour.php:98 | the host's `set_behaviour_var`: the variable map gains or overwrites that one key and the state is unchanged |
| `Behaviour.GetGradedStep` | behaviour.php:43-49 | the loop returns the newest step carrying `_try`, or nothing when no step has it; it agrees with the host lookup |
| `Behaviour.ExpectedData` | behaviour.php:51-57 | `helpme` is added as a boolean field only while the attempt is active; the parent's other fields are unchanged |
| `Behaviour.ComparedResponse` | behaviour.php:74-81 | a help request compares the empty response; otherwise the submitted response is compared |
| `Behaviour.SubmitDecision` | behaviour.php:88-91 | DISCARD exactly when `is_same_response(compared response, previous try's response)` holds, help request or not |
| `Behaviour.NextTries` | behaviour.php:84-98 | the counter is the previous count plus one without help; with help it stays put exactly when the previous count differs from the threshold; it never decreases and grows by at most one |
| `Behaviour.KeptState` | behaviour.php:93-97 | the kept state is `complete` exactly when the previous try step is `complete`, and `todo` otherwise; no other state is set |
| `Behaviour.SubmitResult` | behaviour.php:93-98 | a kept step has the kept state, the new `_try`, its own response, and all other variables unchanged |
| `Behaviour.HelpmeResult` | behaviour.php:107-111 | a kept help step is always stamped `_help = 1` on top of the submit result |
| `Behaviour.ProcessSubmit` | behaviour.php:68-101 | returns the decision of `SubmitDecision`; on DISCARD the pending step is untouched; on KEEP its state and variables become `SubmitResult` |
| `Behaviour.ProcessHelpme` | behaviour.php:107-113 | returns the same decision as process_submit; on KEEP the step becomes `HelpmeResult`; on DISCARD it is untouched |
| `Behaviour.ProcessAction` | behaviour.php:59-66 | routes to process_helpme exactly when the pending step has `helpme`, with that path's decision and effect |
| `Behaviour.MatchLengthFrom` | behaviour.php:134-144 | from index i, the walk passes the answers that match slot p(i+1), p(i+2), … and stops at the first one that does not match |
| `Behaviour.MatchLength` | behaviour.php:132-144 | the number of leading answers equal to their slots; the next answer, if any, does not match (a missing slot does not match) |
| `Behaviour.PrefixHint` | behaviour.php:130-146 | the hint copies the answers in order; a piece is plain exactly when its slot matches; only the last piece can be bold; nothing follows the first mismatch; none is bold exactly when every answer matches |
| `Behaviour.AnswerPrefixHint` | behaviour.php:130-146 | the loop with its early `break` builds exactly `PrefixHint` |
| `Behaviour.ExtraHelpFor` | behaviour.php:115-156 | below the threshold: the tries-left message with `nbtriesbeforehelp - prevtries` (at least 1) tries, plural exactly when more than 1; at or above it: the hint exactly when the graded step has `helpme`, otherwise the empty string; the hint is built from the graded step's response |
| `Behaviour.GetExtraHelpIfRequested` | behaviour.php:115-156 | the method returns `ExtraHelpFor` of the history and the question |
| `Renderer.GradedStep` | renderer.php:40-46 | the renderer's newest-first search returns the same step as the host lookup, and nothing when no step has `_try` |
| `Renderer.Controls` | renderer.php:55-77 | the submit button always comes first; the help button follows exactly when `nbtriesbeforehelp > 0`, prevtries ≠ 0 and the graded step lacks `helpme` |
| `Renderer.ExtraHelpBlock` | renderer.php:86-88 | the block's content is exactly the behaviour's extra help; it is absent exactly when that text is empty |
| `Renderer.FeedbackFor` | renderer.php:97-109 | empty for an invalid attempt whatever the history; otherwise the extra-help block exactly when a graded step exists and has `helpme`, and no output otherwise; that block is never empty |
| `Lifecycle.KeptStep` | behaviour.php:59-113 | the committed step carries `_try`, its own response and the same `helpme` as the pending step |
| `Lifecycle.KeptStepIsLatest` | behaviour.php:82-84 | after a kept step is appended, it is the previous try step and its `_try` is the previous count |
| `Lifecycle.KeepPreservesCompleteIsSticky` | behaviour.php:93-97 | if no `complete` try step is followed by a non-`complete` one, appending a kept step keeps it that way |
| `Lifecycle.KeepPreservesTriesNonDecreasing` | behaviour.php:84-98 | if `_try` never decreases along the try steps, appending a kept step keeps it that way |
| `Lifecycle.HelpButtonHiddenAfterHelpStep` | renderer.php:56-75 | right after a kept help step, the controls hold only the submit button |
| `Lifecycle.HelpButtonAfterSubmit` | renderer.php:56-75 | right after a kept submit, the help button is offered exactly when help is configured and the new count is not 0 |
| `Lifecycle.HintAfterHelpStep` | behaviour.php:85-148 | after a kept help step at or past the threshold, the hint is built from the response sent with the request; below the threshold, the extra help is the same as before the request |
| `Lifecycle.ExtraHelpAfterSubmit` | behaviour.php:119-155 | right after a kept submit, the hint is never revealed; while the new count `LastTryValue(h) + 1` is still below `nbtriesbeforehelp`, the tries-left count is one lower than before (once it reaches the threshold the result is the empty string) |
| `Lifecycle.FeedbackAfterHelpStep` | renderer.php:97-108 | after a kept help step, the feedback of an attempt that is not invalid is the non-empty extra-help block |
| `Lifecycle.ExampleHint` | behaviour.php:130-146 | answers "the cat sat" against "the dog sat" reveal "the" and a bold "cat" |

## Left out

- HTML and localisation: `html_writer`, the `<span>` wrapper, the `&nbsp;` after the submit button and all `get_string` lookups. Messages are tags (`MoreTries(n)`, `MoreTry(n)`). The hint is a sequence of plain and bold pieces.
- `Behaviour.PrefixHint`: does not model joining the pieces with spaces, the `<b>` markup or PHP `trim`, because the string assembly is presentation. `trim` would also strip whitespace at the outer ends of a plain first or last piece; a bold piece is wrapped in `<b>`…`</b>`, so its text is out of `trim`'s reach.
- The debug output (`echo`/`print_r` at behaviour.php:76-78 and behaviour.php:121): side effects on output only.
- `Behaviour.ProcessAction`: does not model the adaptive parent's `process_action`, because that file is not part of this model. The model only records that such a step is delegated and promises nothing about the step on that path. The parent sends a submit back to this behaviour's `process_submit`; `Lifecycle.KeptStep` assumes that routing for its non-help branch.
- `Behaviour.ExpectedData`: the parent's `get_expected_data` result is a parameter, because the adaptive behaviour is not part of this model.
- The parent's `submit_button` rendering is not modelled. Only its position before the help button is.
- `is_state_improvable` (behaviour.php:126): computed and never used.
- `summarise_action` (behaviour.php:103-105): returns nothing, so there is nothing to model.
- `is_same_response` and the host's step storage and lookups: host collaborators, kept abstract as described above.
- Grading, fractions, the wordle try ceiling and the invalid-response gate: these files do not have them.
- The `Lifecycle` invariants cover only steps kept by this behaviour. Steps written by the adaptive parent (save, finish, comment) are not modelled.
