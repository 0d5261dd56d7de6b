# llm-verify step verification, modelled in Dafny

`step_verify.py` answers a user's message with a rationale, then checks that
rationale step by step. It understands the message, generates a rationale and
an answer, and splits the rationale into sentences (`rationale_to_steps`).
It refuses rationales with too few steps (a hard assertion). It verifies
every step with a step verifier, either a judge language model or a
sequence classifier with a threshold, and each step must be "essential and
valid" (a soft check). Last, it writes a conversational response and
verifies it against the user's objective.

This project models that core as pure Dafny: datatypes, functions and lemmas.

- `char_classes.dfy` (`CharClasses`): the character classes of the
  splitting pattern: `[A-Z]`, `[a-z]`, ASCII `\w`, Python's `\s`, and `.`
  without DOTALL.
- `segmenter.dfy` (`Segmenter`): `rationale_to_steps`. The regular
  expression is a predicate on positions (`IsSplitPoint`), and `re.split` is
  a scan over those positions (`Split`). A ghost specification names the
  split positions (`Cuts`), the pieces between them and the removed
  characters. The space-count filter is `KeepSteps`.
- `segmenter_examples.dfy` (`SegmenterExamples`): the three-sentence worked
  example.
- `verifiers.dfy` (`Verifiers`): the annotation and strategy enumerations,
  the two verifiers' `verify_step`, the judge's score scaling, the chain
  rendering and the classifier's instruction and threshold rule. The judge
  call and the classifier's logit are function-typed fields of the verifier.
- `orchestrator.dfy` (`Orchestrator`): `VerifiedQA.__init__` and `forward`.
  The three generation backends are function parameters. The ordered
  thread-pool map is a sequential map. `Forward` records each soft check's
  outcome; `ForwardWithRaisingChecks` is the same round when a failed soft
  check raises, stopping at the first failing step or at the response,
  with the corrected objective check (see Findings).
- `orchestrator_examples.dfy` (`OrchestratorExamples`): a round on the
  three-sentence worked example.

Details of the code worth knowing:

- The abbreviation lookbehind is `\w\.\w.`: any word character on either
  side of the dot, and any non-newline character after it. It is not only
  lowercase letters.
- The filter counts every U+0020 character in a fragment, leading and
  trailing ones included, not only interior spaces. Other whitespace is
  not counted.
- The conversational response is generated from the task's answer
  (`answer.answer`, step_verify.py:327), not from the rationale.
- The hard assertion demands more than two steps. Its message says "atleast
  2 steps".
- The objective-level soft check never passes as written (see Findings).

## Model

| member | source | states |
|---|---|---|
| CharClasses.SpaceIsNoOtherClass | step_verify.py:135 | a `\s` character is never a word character, a letter, `.` or `?`, so the lookbehinds cannot see past a removed character |
| Segmenter.IsSplitPoint | step_verify.py:135 | a match is at a whitespace character right after `.` or `?` |
| Segmenter.NoAdjacentSplitPoints | step_verify.py:135 | the pattern never matches two adjacent characters, so of a run of whitespace after a terminator only the first is consumed |
| Segmenter.CutsFrom | step_verify.py:135-136 | the split positions are strictly increasing and in range, and a position is among them exactly when the pattern matches there |
| Segmenter.Split | step_verify.py:135-136 | `re.split` yields the text between consecutive split positions, one piece more than there are splits, and pieces interleaved with the removed characters give back the rationale exactly |
| Segmenter.RemovedAreSentenceBreaks | step_verify.py:135-136 | each removed character is a whitespace character right after `.` or `?`, and every position where the pattern matches is removed |
| Segmenter.NoSplitAfterAbbreviation | step_verify.py:135 | no split where the four characters before the whitespace match `\w\.\w.` or the three before it match `[A-Z][a-z]\.` |
| Segmenter.CountSpaces | step_verify.py:138 | `count(" ")` is at most the length, and is zero exactly when the text holds no U+0020 |
| Segmenter.TwoSpacesAt | step_verify.py:138 | two distinct U+0020 characters give `count(" ") >= 2` |
| Segmenter.KeepSteps | step_verify.py:137-139 | the comprehension keeps only pieces with at least `max_spaces` spaces, in order, each passing piece as often as it occurs and no failing piece |
| Segmenter.KeepStepsKeepsAllPassing | step_verify.py:137-139 | when every piece passes the filter, all pieces are kept unchanged |
| Segmenter.RationaleToSteps | step_verify.py:134-140 | every step has at least `max_spaces` spaces; with `max_spaces >= 1` no step is empty |
| Segmenter.RationaleToStepsSpec | step_verify.py:134-140 | the steps are the order-preserving subsequence of split pieces that pass the filter, with their multiplicities |
| Segmenter.SegmentationIdempotent | step_verify.py:134-140 | segmenting any returned step again yields exactly that step |
| Segmenter.SplitFirstSentence | step_verify.py:135-136 | a sentence of at least three characters without inner terminators, ending in `.` or `?` and then a space, is split off as the first piece, provided the character two before the terminator is not a capital letter (so `[A-Z][a-z]\.` cannot fire) |
| Segmenter.SingleSentence | step_verify.py:135-136 | a sentence with no `.` or `?` before its last character is one piece |
| SegmenterExamples.ThreeSentenceSplit | step_verify.py:135-136 | "First, gather materials. Next, assemble the frame. Then attach the engine." splits into its three sentences |
| SegmenterExamples.ThreeSentenceExample | step_verify.py:134-140 | that rationale yields exactly its three sentences as steps |
| Verifiers.JoinEnds | step_verify.py:185 | `sep.join(parts)` starts with the first part and the separator, and ends with the last part |
| Verifiers.RenderChain | step_verify.py:185 | the rendered chain starts with the first step followed by "\n  - " and ends with the last step |
| Verifiers.JoinAppend | step_verify.py:185 | joining two non-empty lists puts exactly one separator between their joins |
| Verifiers.RenderChainAppend | step_verify.py:185 | the chain rendered for the judge is the steps joined by "\n  - ", one separator before each later step |
| Verifiers.JudgeScore | step_verify.py:189 | the score is the rating times 0.2: five times the score is the rating |
| Verifiers.JudgeScoreScale | step_verify.py:189 | in exact reals, rating 0, 3 and 5 give 0.0, 0.6 and 1.0; ratings in 0..5 give scores in 0..1; the scaling is strictly increasing |
| Verifiers.VerifierType | step_verify.py:169-171 | the judge verifier reports `llm_as_a_judge`, the classifier verifier (step_verify.py:209-211) `bert_classifier`, and none reports `rm_model` |
| Verifiers.ClassifierInstruction | step_verify.py:221-225 | the instruction starts with the preamble, the objective and the indented line break, and ends with "Answer: " and the step |
| Verifiers.ClassifierInstructionShape | step_verify.py:221-225 | the instruction is the preamble, the objective, the indented line break, one line per history entry in order, then "Answer: " and the step |
| Verifiers.ClassifierAnnotation | step_verify.py:240-247 | the annotation is DOES_NOT_SEEM_RIGHT exactly when the score is at most the threshold, otherwise ESSENTIAL_AND_VALID, and never anything else |
| Verifiers.ClassifierAnnotationMonotone | step_verify.py:240-247 | a score of exactly 0.7 with the default threshold does not seem right; raising a score never turns an essential-and-valid verdict around |
| Verifiers.VerifyStep | step_verify.py:173-247 | the judge's annotation passes through unvalidated and its rating is scaled; the classifier returns its logit unchanged with the threshold annotation |
| Verifiers.ClassifierIgnoresChain | step_verify.py:213-247 | the classifier verdict does not depend on the reasoning chain |
| Orchestrator.NewVerifiedQA | step_verify.py:267-281 | without an objective verifier, the step verifier also verifies the response |
| Orchestrator.Suggests | step_verify.py:311-314 | the per-step check holds exactly when the annotation is "essential_valid", which is the value of ESSENTIAL_AND_VALID and of no other annotation |
| Orchestrator.ProcessStep | step_verify.py:304-316 | `process_step` returns the step and the verifier's score; its check holds iff the annotation is "essential_valid", for the classifier iff the score is above the threshold |
| Orchestrator.MapSteps | step_verify.py:304-320 | the ordered map yields one outcome per step, the i-th for the i-th step |
| Orchestrator.ChosenSteps | step_verify.py:316-320 | one `(step, score)` pair per outcome, in order |
| Orchestrator.Forward | step_verify.py:283-342 | the hard assertion fails exactly when there are at most two steps. Otherwise the i-th outcome is `process_step` of the i-th step, verified with the history plus the new message, and the i-th chosen step is `(steps[i], score_i)`. The response comes from the answer and is verified with the plain history. |
| Orchestrator.TooFewStepsFailsBeforeVerification | step_verify.py:295-300 | with fewer than three steps the round ends in the failed assertion, whatever the verifiers are |
| Orchestrator.AnsweredStepsAreSentences | step_verify.py:295-300 | a round that passes the hard check verifies at least three steps, each holding at least two spaces |
| Orchestrator.ClassifierStepChecks | step_verify.py:304-314 | with the classifier as step verifier, a step's soft check holds exactly when its score is above the threshold |
| Orchestrator.DefaultObjectiveVerifier | step_verify.py:279-281 | without an objective verifier, the step verifier judges the response against the history without the new message |
| Orchestrator.SuggestionsMatchVerdicts | step_verify.py:304-320 | past the hard check, a step's recorded check holds exactly when its verdict is "essential_valid", and all hold exactly when every verdict is |
| Orchestrator.EssentialStepsPass | step_verify.py:311-314 | when the step verifier finds every step essential and valid, no per-step soft check fails |
| Orchestrator.FirstFailedStep | step_verify.py:318-322 | collecting the ordered map's results raises for the first step whose check fails: all earlier steps pass, and there is none exactly when all pass |
| Orchestrator.AttemptOf | step_verify.py:297-342 | an attempt ends at the hard check, else at the first failing step, else at the response's check, and returns the chosen steps and the response only when all pass |
| Orchestrator.ForwardWithRaisingChecks | step_verify.py:283-342 | an attempt with raising checks fails the hard check iff there are at most two steps, and, with the corrected objective check (see Findings), completes iff every step's verdict and the response's verdict are "essential_valid", returning `forward`'s chosen steps and response |
| Orchestrator.FirstInvalidStepRaises | step_verify.py:304-322 | the step such an attempt stops at has a verdict that is not "essential_valid", and every earlier step's verdict is |
| Orchestrator.ObjectiveSuggestionAsWritten | step_verify.py:337-338 | the check as written compares the `(annotation, score)` pair with an enumeration member, and never holds |
| Orchestrator.ObjectiveSuggestionAsWrittenNeverHolds | step_verify.py:330-340 | the verdict `("essential_valid", 1.0)` passes the corrected check and fails the check as written |
| Orchestrator.AsWrittenAttemptStopsAtObjective | step_verify.py:330-340 | with the check as written, an attempt with raising checks that gets past the step checks stops at the response's check: every attempt the corrected check lets complete fails the check as written |
| OrchestratorExamples.ThreeSentenceSteps | step_verify.py:294-295 | a round whose rationale is the three-sentence example has exactly its three sentences as steps |
| OrchestratorExamples.RoundOnEnoughSteps | step_verify.py:294-342 | a round with more than two steps passes the hard check; with every step essential and valid no per-step check fails; with the response essential and valid too and the corrected objective check (see Findings), the attempt with raising checks completes |
| OrchestratorExamples.ThreeSentenceRoundProceeds | step_verify.py:294-342 | the three-sentence rationale passes the hard check, and with all verdicts essential and valid and the corrected objective check (see Findings), the attempt completes without a retry |
| Orchestrator.ObjectiveSuggestionCorrected | step_verify.py:337-340 | the corrected check used by `Forward`: with the classifier as objective verifier it holds exactly when the response scores above the threshold |

## Left out

- Telemetry, tracer setup and device selection (step_verify.py:25-42): process-wide I/O side effects.
- The dspy signatures and language-model calls (message understanding, the rationale-and-answer task, the conversational response, the judge): foreign network calls, modelled as function-typed parameters; `str(structured_message)` is folded into those functions.
- The tokenizer and the sequence-classification model that produce the logit (step_verify.py:231-237): a foreign model, modelled as a function from the (instruction, response) pair to a real.
- The thread pool (step_verify.py:318-322): only its ordered-map result is modelled, so worker scheduling and the pool size of 20 are not.
- The `dspy.Assert`/`dspy.Suggest` retry machinery, `Retry`, `assert_transform_module`, `backtrack_handler` and `max_backtracks=2`: this code lives inside dspy and is not shown. The model states the checks' predicates and messages and how a single attempt ends; the attempt bound and the regeneration after a failed soft check are not modelled.
- Float rounding: scores are exact reals, so `rating * 0.2` is exact, and a logit is any real. In the code `3 * 0.2` is `0.6000000000000001`, not the 0.6 that `Verifiers.JudgeScoreScale` states.
- Orchestrator.Forward: records a failed soft check and carries on to the response. This is one attempt in which suggestions are not raised. When a failed `dspy.Suggest` raises, the attempt stops instead, at the first failing step or at the response's check; `ForwardWithRaisingChecks` models that attempt. The retries between attempts are not modelled. Scores are reals, so a NaN logit cannot occur; in the code `score <= self.threshold` (step_verify.py:243) is false for NaN, which gives ESSENTIAL_AND_VALID.
- Orchestrator.ForwardWithRaisingChecks: uses the corrected objective check. As written (step_verify.py:337-338), the objective check never holds, so an attempt with raising checks never completes: one that passes every step check stops at the response's check, and dspy backtracks (`Orchestrator.AsWrittenAttemptStopsAtObjective`).
- CharClasses.IsWord: only the ASCII members of Python's Unicode `\w` are modelled; non-ASCII letters and digits are treated as non-word characters.
- The `debug` flag of the classifier verifier and every `print` call: output only.
- The Typer CLI commands `chat` and `cappy` (step_verify.py:345-410): I/O.
- The commented-out `RmVerifier` (step_verify.py:250-264): unimplemented in the source; its `rm_model` tag is kept in the strategy enumeration.
- Verifiers.VerifyStep: the judge's rating is not checked to lie in 0..5 and its annotation is not checked to be one of the six values, because the code does not check them either.

## Findings

| source | as written | input that shows it | evidently intended | confidence | as-written member | corrected member |
|---|---|---|---|---|---|---|
| step_verify.py:337-340 | the objective soft check compares the whole `(annotation, score)` pair returned by `verify_step` with `StepAnnotation.ESSENTIAL_AND_VALID`, so it is always false | a response whose verdict is `("essential_valid", 1.0)` fails the check | compare the annotation alone with "essential_valid", as the per-step check at step_verify.py:311-314 does | high, not executed | Orchestrator.ObjectiveSuggestionAsWrittenNeverHolds | Orchestrator.ObjectiveSuggestionCorrected |
