/** `VerifiedQA`: understand the message, generate a rationale and an answer,
    segment the rationale, hard-check the number of steps, verify every step
    in order, generate the conversational response and verify it against
    the user's objective. The three generation backends are functions of
    their inputs; the soft checks are the Boolean predicates handed to the
    retry machinery. */
module Orchestrator {
  import opened Segmenter
  import opened Verifiers

  datatype Option<T> = None | Some(value: T)

  /** The structured understanding of the user's message. */
  datatype MessageWithUnderstanding = MessageWithUnderstanding(
    clearRephrasingOfMessage: string,
    whyIsUserAskingThis: string,
    whatIsUserObjective: string,
    messageDecomposition: seq<string>)

  /** The task module's prediction: a rationale and an answer. */
  datatype TaskAnswer = TaskAnswer(rationale: string, answer: string)

  /** The generation backends: message understanding from the chat and the
      new message; the rationale-and-answer task from the understanding; the
      conversational response from the raw message, the understanding and
      the text given as rationale. */
  datatype Backends = Backends(
    understandMessage: (seq<string>, string) -> MessageWithUnderstanding,
    task: MessageWithUnderstanding -> TaskAnswer,
    conversational: (string, MessageWithUnderstanding, string) -> string)

  /** The configuration `VerifiedQA` keeps; it never changes after
      construction. */
  datatype VerifiedQA = VerifiedQA(stepVerifier: StepVerifier, objectiveVerifier: StepVerifier)

  /** `VerifiedQA(step_verifier, objective_verifier=None)`: without an
      objective verifier, the step verifier also verifies the response. */
  function NewVerifiedQA(stepVerifier: StepVerifier, objectiveVerifier: Option<StepVerifier> := None): (qa: VerifiedQA)
    ensures qa.stepVerifier == stepVerifier
    ensures qa.objectiveVerifier == if objectiveVerifier.Some? then objectiveVerifier.value else stepVerifier
  {
    VerifiedQA(stepVerifier, if objectiveVerifier.None? then stepVerifier else objectiveVerifier.value)
  }

  /** The hard assertion: more than this many steps are needed. */
  const MinStepsExclusive: nat := 2
  const TooFewStepsMessage: string :=
    "There should atleast be 2 steps in our rationale, or its probably not a good rationale."

  /** The soft check on a verdict: its annotation is "essential_valid", the
      value of ESSENTIAL_AND_VALID and of no other annotation. */
  predicate Suggests(v: Verdict)
    ensures Suggests(v) <==> v.annotation == "essential_valid"
    ensures Suggests(v) ==> forall a :: a != EssentialAndValid ==> v.annotation != AnnotationValue(a)
  {
    v.annotation == AnnotationValue(EssentialAndValid)
  }

  /** What `process_step` yields for one step: the step and its score, and
      whether the per-step soft check held. */
  datatype StepOutcome = StepOutcome(step: string, score: real, suggestionHolds: bool)

  function ProcessStep(v: StepVerifier, objective: string, history: seq<string>,
                       steps: seq<string>, step: string): (o: StepOutcome)
    ensures o.step == step
    ensures o.score == VerifyStep(v, objective, step, steps, history).score
    ensures o.suggestionHolds <==> VerifyStep(v, objective, step, steps, history).annotation == "essential_valid"
    ensures v.BertClassifierVerifier? ==> (o.suggestionHolds <==> o.score > v.threshold)
  {
    var verdict := VerifyStep(v, objective, step, steps, history);
    StepOutcome(step, verdict.score, Suggests(verdict))
  }

  /** The ordered map over the steps: the i-th outcome belongs to the i-th
      step, whatever order the workers finish in. */
  function MapSteps(v: StepVerifier, objective: string, history: seq<string>,
                    steps: seq<string>, pending: seq<string>): (outcomes: seq<StepOutcome>)
    ensures |outcomes| == |pending|
    ensures forall i :: 0 <= i < |pending| ==>
      outcomes[i] == ProcessStep(v, objective, history, steps, pending[i])
    decreases |pending|
  {
    if pending == [] then []
    else [ProcessStep(v, objective, history, steps, pending[0])] + MapSteps(v, objective, history, steps, pending[1..])
  }

  /** What `forward` produces: the hard assertion failing, or the verified
      steps, the response, the response's verdict and the two kinds of
      soft check. */
  datatype Forwarded =
    | AssertionFailed(message: string)
    | Answered(stepOutcomes: seq<StepOutcome>, chosenSteps: seq<(string, real)>, response: string,
               objectiveVerdict: Verdict, objectiveSuggestionHolds: bool)

  /** `chosen_steps`: each step paired with its score. */
  function ChosenSteps(outcomes: seq<StepOutcome>): (chosen: seq<(string, real)>)
    ensures |chosen| == |outcomes|
    ensures forall i :: 0 <= i < |outcomes| ==> chosen[i] == (outcomes[i].step, outcomes[i].score)
    decreases |outcomes|
  {
    if outcomes == [] then []
    else [(outcomes[0].step, outcomes[0].score)] + ChosenSteps(outcomes[1..])
  }

  /** The understanding, the task answer and the steps of one request. */
  function Understand(b: Backends, message: string, chatHistory: seq<string>): MessageWithUnderstanding {
    b.understandMessage(chatHistory, message)
  }

  function Answer(b: Backends, message: string, chatHistory: seq<string>): TaskAnswer {
    b.task(Understand(b, message, chatHistory))
  }

  function StepsOf(b: Backends, message: string, chatHistory: seq<string>): seq<string> {
    RationaleToSteps(Answer(b, message, chatHistory).rationale)
  }

  /** `forward(message, chat_history=[])`. */
  function Forward(qa: VerifiedQA, b: Backends, message: string, chatHistory: seq<string> := []): (r: Forwarded)
    ensures r.AssertionFailed? <==> |StepsOf(b, message, chatHistory)| <= MinStepsExclusive
    ensures r.AssertionFailed? ==> r.message == TooFewStepsMessage
    ensures r.Answered? ==>
      var steps := StepsOf(b, message, chatHistory);
      var objective := Understand(b, message, chatHistory).whatIsUserObjective;
      && |r.stepOutcomes| == |steps| && |r.chosenSteps| == |steps|
      && (forall i :: 0 <= i < |steps| ==>
            && r.stepOutcomes[i] == ProcessStep(qa.stepVerifier, objective, chatHistory + [message], steps, steps[i])
            && r.chosenSteps[i] == (steps[i], r.stepOutcomes[i].score))
      && r.response == b.conversational(message, Understand(b, message, chatHistory), Answer(b, message, chatHistory).answer)
      && r.objectiveVerdict == VerifyStep(qa.objectiveVerifier, objective, r.response, steps, chatHistory)
      && (r.objectiveSuggestionHolds <==> r.objectiveVerdict.annotation == "essential_valid")
  {
    var structured := b.understandMessage(chatHistory, message);
    var answer := b.task(structured);
    var steps := RationaleToSteps(answer.rationale);
    if !(|steps| > MinStepsExclusive) then
      AssertionFailed(TooFewStepsMessage)
    else
      var objective := structured.whatIsUserObjective;
      var outcomes := MapSteps(qa.stepVerifier, objective, chatHistory + [message], steps, steps);
      var response := b.conversational(message, structured, answer.answer);
      var objectiveVerdict := VerifyStep(qa.objectiveVerifier, objective, response, steps, chatHistory);
      Answered(outcomes, ChosenSteps(outcomes), response, objectiveVerdict, Suggests(objectiveVerdict))
  }

  // ---------------------------------------------------------------------
  // Properties of forward
  // ---------------------------------------------------------------------

  /** When segmentation yields too few steps, the outcome is the failed
      assertion whatever the verifiers are: no verifier is consulted. */
  lemma TooFewStepsFailsBeforeVerification(qa: VerifiedQA, other: VerifiedQA, b: Backends,
                                           message: string, chatHistory: seq<string>)
    requires |StepsOf(b, message, chatHistory)| < 3
    ensures Forward(qa, b, message, chatHistory) == AssertionFailed(TooFewStepsMessage)
    ensures Forward(qa, b, message, chatHistory) == Forward(other, b, message, chatHistory)
  {
  }

  /** Every verified step holds at least two spaces, and there are at least
      three of them. */
  lemma AnsweredStepsAreSentences(qa: VerifiedQA, b: Backends, message: string, chatHistory: seq<string>)
    requires Forward(qa, b, message, chatHistory).Answered?
    ensures |Forward(qa, b, message, chatHistory).stepOutcomes| >= 3
    ensures forall o :: o in Forward(qa, b, message, chatHistory).stepOutcomes ==> CountSpaces(o.step) >= 2
  {
    var steps := StepsOf(b, message, chatHistory);
    var outcomes := Forward(qa, b, message, chatHistory).stepOutcomes;
    var objective := Understand(b, message, chatHistory).whatIsUserObjective;
    forall i | 0 <= i < |outcomes|
      ensures CountSpaces(outcomes[i].step) >= 2
    {
      assert outcomes[i] == ProcessStep(qa.stepVerifier, objective, chatHistory + [message], steps, steps[i]);
    }
  }

  /** With the classifier as step verifier, a step's soft check holds
      exactly when its score is above the threshold. */
  lemma ClassifierStepChecks(qa: VerifiedQA, b: Backends, message: string, chatHistory: seq<string>)
    requires qa.stepVerifier.BertClassifierVerifier?
    requires Forward(qa, b, message, chatHistory).Answered?
    ensures forall o :: o in Forward(qa, b, message, chatHistory).stepOutcomes ==>
      (o.suggestionHolds <==> o.score > qa.stepVerifier.threshold)
  {
    var steps := StepsOf(b, message, chatHistory);
    var objective := Understand(b, message, chatHistory).whatIsUserObjective;
    var outcomes := Forward(qa, b, message, chatHistory).stepOutcomes;
    forall i | 0 <= i < |outcomes|
      ensures outcomes[i].suggestionHolds <==> outcomes[i].score > qa.stepVerifier.threshold
    {
      assert outcomes[i] == ProcessStep(qa.stepVerifier, objective, chatHistory + [message], steps, steps[i]);
    }
  }

  /** Without an objective verifier, the step verifier judges the response,
      against the chat history without the new message. */
  lemma DefaultObjectiveVerifier(v: StepVerifier, b: Backends, message: string, chatHistory: seq<string>)
    requires Forward(NewVerifiedQA(v), b, message, chatHistory).Answered?
    ensures var r := Forward(NewVerifiedQA(v), b, message, chatHistory);
      r.objectiveVerdict == VerifyStep(v, Understand(b, message, chatHistory).whatIsUserObjective,
                                       r.response, StepsOf(b, message, chatHistory), chatHistory)
  {
  }

  /** The step verifier finds every step of the request essential and valid. */
  predicate AllStepsEssential(qa: VerifiedQA, b: Backends, message: string, chatHistory: seq<string>) {
    var steps := StepsOf(b, message, chatHistory);
    var objective := Understand(b, message, chatHistory).whatIsUserObjective;
    forall i :: 0 <= i < |steps| ==>
      Suggests(VerifyStep(qa.stepVerifier, objective, steps[i], steps, chatHistory + [message]))
  }

  /** When every step is essential and valid, no per-step soft check fails. */
  lemma EssentialStepsPass(qa: VerifiedQA, b: Backends, message: string, chatHistory: seq<string>)
    requires Forward(qa, b, message, chatHistory).Answered?
    requires AllStepsEssential(qa, b, message, chatHistory)
    ensures forall o :: o in Forward(qa, b, message, chatHistory).stepOutcomes ==> o.suggestionHolds
  {
    SuggestionsMatchVerdicts(qa, b, message, chatHistory);
    var outcomes := Forward(qa, b, message, chatHistory).stepOutcomes;
    assert forall i :: 0 <= i < |outcomes| ==> outcomes[i].suggestionHolds;
  }

  // ---------------------------------------------------------------------
  // An attempt in which a failed soft check raises
  // ---------------------------------------------------------------------

  /** The messages of the two soft checks. */
  const StepCheckMessage: string :=
    "Each step in the thought process must be necessary for reaching an answer and be logically and factually valid."
  const ObjectiveCheckMessage: string := "The answer must meet the user's objectives."

  /** A round past the hard check records, for each step, whether its
      verdict is essential and valid; all steps pass exactly when every
      verdict is. */
  lemma SuggestionsMatchVerdicts(qa: VerifiedQA, b: Backends, message: string, chatHistory: seq<string>)
    requires Forward(qa, b, message, chatHistory).Answered?
    ensures var steps := StepsOf(b, message, chatHistory);
      var objective := Understand(b, message, chatHistory).whatIsUserObjective;
      var outcomes := Forward(qa, b, message, chatHistory).stepOutcomes;
      && |outcomes| == |steps|
      && (forall i :: 0 <= i < |steps| ==>
            (outcomes[i].suggestionHolds <==>
             Suggests(VerifyStep(qa.stepVerifier, objective, steps[i], steps, chatHistory + [message]))))
      && (AllStepsEssential(qa, b, message, chatHistory) <==>
            forall i :: 0 <= i < |outcomes| ==> outcomes[i].suggestionHolds)
  {
  }

  /** The position of the first step whose soft check fails: collecting the
      ordered map's results in order re-raises that step's error first. */
  function FirstFailedStep(outcomes: seq<StepOutcome>): (r: Option<nat>)
    ensures r.None? <==> forall i :: 0 <= i < |outcomes| ==> outcomes[i].suggestionHolds
    ensures r.Some? ==>
      && r.value < |outcomes| && !outcomes[r.value].suggestionHolds
      && forall j :: 0 <= j < r.value ==> outcomes[j].suggestionHolds
    decreases |outcomes|
  {
    if outcomes == [] then None
    else if !outcomes[0].suggestionHolds then Some(0)
    else match FirstFailedStep(outcomes[1..])
      case None => None
      case Some(k) => Some(k + 1)
  }

  /** How one attempt of `forward` ends when failed soft checks raise. */
  datatype Attempt =
    | HardCheckFailed(message: string)
    | StepCheckFailed(stepIndex: nat, message: string)
    | ObjectiveCheckFailed(message: string)
    | Completed(chosenSteps: seq<(string, real)>, response: string)

  /** One attempt of `forward` in which a failed soft check raises: the
      hard check first, then the first step (in step order) that is not
      essential and valid, then the response's check; only an attempt that
      passes all of them returns the chosen steps and the response. */
  function ForwardWithRaisingChecks(qa: VerifiedQA, b: Backends, message: string,
                                    chatHistory: seq<string> := []): (a: Attempt)
    ensures a.HardCheckFailed? <==> |StepsOf(b, message, chatHistory)| <= MinStepsExclusive
    ensures a.HardCheckFailed? ==> a.message == TooFewStepsMessage
    ensures a.StepCheckFailed? ==>
      var outcomes := Forward(qa, b, message, chatHistory).stepOutcomes;
      && Forward(qa, b, message, chatHistory).Answered?
      && a.stepIndex < |outcomes| && !outcomes[a.stepIndex].suggestionHolds
      && (forall j :: 0 <= j < a.stepIndex ==> outcomes[j].suggestionHolds)
      && a.message == StepCheckMessage
    ensures a.ObjectiveCheckFailed? ==>
      && AllStepsEssential(qa, b, message, chatHistory)
      && !Suggests(Forward(qa, b, message, chatHistory).objectiveVerdict)
      && a.message == ObjectiveCheckMessage
    ensures a.Completed? <==>
      && Forward(qa, b, message, chatHistory).Answered?
      && AllStepsEssential(qa, b, message, chatHistory)
      && Suggests(Forward(qa, b, message, chatHistory).objectiveVerdict)
    ensures a.Completed? ==>
      && a.chosenSteps == Forward(qa, b, message, chatHistory).chosenSteps
      && a.response == Forward(qa, b, message, chatHistory).response
  {
    var r := Forward(qa, b, message, chatHistory);
    if r.Answered? then
      SuggestionsMatchVerdicts(qa, b, message, chatHistory);
      AttemptOf(r)
    else
      AttemptOf(r)
  }

  /** The step an attempt with raising checks stops at is the first whose
      verdict is not essential and valid; every earlier step's verdict is. */
  lemma FirstInvalidStepRaises(qa: VerifiedQA, b: Backends, message: string, chatHistory: seq<string>)
    ensures var a := ForwardWithRaisingChecks(qa, b, message, chatHistory);
      a.StepCheckFailed? ==>
      var steps := StepsOf(b, message, chatHistory);
      var objective := Understand(b, message, chatHistory).whatIsUserObjective;
      && a.stepIndex < |steps|
      && !Suggests(VerifyStep(qa.stepVerifier, objective, steps[a.stepIndex], steps, chatHistory + [message]))
      && (forall j :: 0 <= j < a.stepIndex ==>
            Suggests(VerifyStep(qa.stepVerifier, objective, steps[j], steps, chatHistory + [message])))
  {
    var a := ForwardWithRaisingChecks(qa, b, message, chatHistory);
    if a.StepCheckFailed? {
      SuggestionsMatchVerdicts(qa, b, message, chatHistory);
    }
  }

  /** How an attempt with raising checks ends, given what the round
      computes. */
  function AttemptOf(r: Forwarded): (a: Attempt)
    ensures a.HardCheckFailed? <==> r.AssertionFailed?
    ensures a.HardCheckFailed? ==> a.message == r.message
    ensures a.StepCheckFailed? ==>
      && r.Answered?
      && a.stepIndex < |r.stepOutcomes| && !r.stepOutcomes[a.stepIndex].suggestionHolds
      && (forall j :: 0 <= j < a.stepIndex ==> r.stepOutcomes[j].suggestionHolds)
      && a.message == StepCheckMessage
    ensures a.ObjectiveCheckFailed? ==>
      && r.Answered?
      && (forall i :: 0 <= i < |r.stepOutcomes| ==> r.stepOutcomes[i].suggestionHolds)
      && !r.objectiveSuggestionHolds
      && a.message == ObjectiveCheckMessage
    ensures a.Completed? <==>
      && r.Answered?
      && (forall i :: 0 <= i < |r.stepOutcomes| ==> r.stepOutcomes[i].suggestionHolds)
      && r.objectiveSuggestionHolds
    ensures a.Completed? ==> a.chosenSteps == r.chosenSteps && a.response == r.response
  {
    if r.AssertionFailed? then HardCheckFailed(r.message)
    else
      match FirstFailedStep(r.stepOutcomes)
      case Some(k) => StepCheckFailed(k, StepCheckMessage)
      case None =>
        if r.objectiveSuggestionHolds then Completed(r.chosenSteps, r.response)
        else ObjectiveCheckFailed(ObjectiveCheckMessage)
  }

  // ---------------------------------------------------------------------
  // The objective-level soft check as written
  // ---------------------------------------------------------------------

  /** The Python values the objective check compares: a string (a string
      enumeration member is one), a float, a tuple. */
  datatype PyValue = PyStr(s: string) | PyFloat(x: real) | PyTuple(items: seq<PyValue>)

  /** `verify_step` returns the pair `(annotation, score)`. */
  function VerdictValue(v: Verdict): PyValue {
    PyTuple([PyStr(v.annotation), PyFloat(v.score)])
  }

  /** The check as written: the whole returned pair compared with the
      enumeration member `ESSENTIAL_AND_VALID`. */
  predicate ObjectiveSuggestionAsWritten(v: Verdict)
    ensures !ObjectiveSuggestionAsWritten(v)
  {
    VerdictValue(v) == PyStr(AnnotationValue(EssentialAndValid))
  }

  /** A response the verifier finds essential and valid with score 1.0
      passes the corrected check and fails the check as written. */
  lemma ObjectiveSuggestionAsWrittenNeverHolds()
    ensures Suggests(Verdict("essential_valid", 1.0)) && !ObjectiveSuggestionAsWritten(Verdict("essential_valid", 1.0))
  {
  }

  /** With the check as written, an attempt with raising checks never
      completes: one that passes the hard check and every step check stops
      at the response's check, and every attempt the corrected check lets
      complete is one the check as written stops there. */
  lemma AsWrittenAttemptStopsAtObjective(qa: VerifiedQA, b: Backends, message: string, chatHistory: seq<string>)
    requires Forward(qa, b, message, chatHistory).Answered?
    ensures !ObjectiveSuggestionAsWritten(Forward(qa, b, message, chatHistory).objectiveVerdict)
    ensures ForwardWithRaisingChecks(qa, b, message, chatHistory).Completed? ==>
      && AllStepsEssential(qa, b, message, chatHistory)
      && Suggests(Forward(qa, b, message, chatHistory).objectiveVerdict)
      && !ObjectiveSuggestionAsWritten(Forward(qa, b, message, chatHistory).objectiveVerdict)
  {
  }

  /** The corrected check, used by Forward: with the classifier as
      objective verifier it holds exactly when the response scores above
      the threshold. */
  lemma ObjectiveSuggestionCorrected(qa: VerifiedQA, b: Backends, message: string, chatHistory: seq<string>)
    requires qa.objectiveVerifier.BertClassifierVerifier?
    requires Forward(qa, b, message, chatHistory).Answered?
    ensures var r := Forward(qa, b, message, chatHistory);
      r.objectiveSuggestionHolds <==> r.objectiveVerdict.score > qa.objectiveVerifier.threshold
  {
  }
}
