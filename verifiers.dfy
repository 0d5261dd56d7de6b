/** The step-verifier strategies: the judge-model verifier and the
    classifier verifier. The judge call and the classifier model are
    foreign; each strategy holds them as a function of their inputs, so that
    what the strategy does around them can be stated exactly. */
module Verifiers {

  /** The closed set of step annotations, with their string values. */
  datatype StepAnnotation =
    | EssentialAndValid
    | Unnecessary
    | LogicallyFalse
    | NotBackedByPriorFacts
    | BadDeductiveReasoning
    | DoesNotSeemRight

  function AnnotationValue(a: StepAnnotation): string {
    match a
    case EssentialAndValid => "essential_valid"
    case Unnecessary => "unnecessary"
    case LogicallyFalse => "logically_false"
    case NotBackedByPriorFacts => "not_backed_by_prior_facts"
    case BadDeductiveReasoning => "bad_deductive_reasoning"
    case DoesNotSeemRight => "does_not_seem_right"
  }

  /** The type tag each verifier exposes. */
  datatype VerificationStrategy = LlmAsAJudge | RmModel | BertClassifier

  function StrategyValue(t: VerificationStrategy): string {
    match t
    case LlmAsAJudge => "llm_as_a_judge"
    case RmModel => "rm_model"
    case BertClassifier => "bert_classifier"
  }

  /** What `verify_step` returns: an annotation string and a score. */
  datatype Verdict = Verdict(annotation: string, score: real)

  /** The judge model's structured answer: `step_annotation`, `step_rating`. */
  datatype Judgement = Judgement(stepAnnotation: string, stepRating: int)

  /** The judge call, given the objective, the step to verify, the rendered
      reasoning chain and the chat history. */
  type Judge = (string, string, string, seq<string>) -> Judgement

  /** The sequence-classification model, given an (instruction, response)
      pair: the first logit of its output. */
  type Classifier = (string, string) -> real

  datatype StepVerifier =
    | JudgeLmVerifier(judge: Judge)
    | BertClassifierVerifier(classifier: Classifier, threshold: real)

  /** Default `threshold` of the classifier verifier. */
  const DefaultThreshold: real := 0.7

  /** The `type` property: each implemented verifier reports its own tag,
      and none reports the reward-model tag. */
  function VerifierType(v: StepVerifier): (t: VerificationStrategy)
    ensures t == LlmAsAJudge <==> v.JudgeLmVerifier?
    ensures t == BertClassifier <==> v.BertClassifierVerifier?
    ensures t != RmModel
  {
    match v
    case JudgeLmVerifier(_) => LlmAsAJudge
    case BertClassifierVerifier(_, _) => BertClassifier
  }

  // ---------------------------------------------------------------------
  // Text helpers
  // ---------------------------------------------------------------------

  /** `r.endswith(t)`. */
  predicate EndsWith(r: string, t: string) {
    |t| <= |r| && r[|r| - |t|..] == t
  }

  /** Python's `sep.join(parts)`. */
  function Join(sep: string, parts: seq<string>): string
    decreases |parts|
  {
    if parts == [] then ""
    else if |parts| == 1 then parts[0]
    else parts[0] + sep + Join(sep, parts[1..])
  }

  /** A join starts with the first part and the separator, and ends with
      the last part. */
  lemma {:induction false} JoinEnds(sep: string, parts: seq<string>)
    requires parts != []
    ensures parts[0] <= Join(sep, parts)
    ensures |parts| >= 2 ==> parts[0] + sep <= Join(sep, parts)
    ensures EndsWith(Join(sep, parts), parts[|parts| - 1])
    decreases |parts|
  {
    if |parts| >= 2 {
      var rest := Join(sep, parts[1..]);
      JoinEnds(sep, parts[1..]);
      assert parts[1..][|parts[1..]| - 1] == parts[|parts| - 1];
      assert Join(sep, parts) == (parts[0] + sep) + rest;
    }
  }

  /** Joining two non-empty lists puts one separator between their joins. */
  lemma {:induction false} JoinAppend(sep: string, xs: seq<string>, ys: seq<string>)
    requires xs != [] && ys != []
    ensures Join(sep, xs + ys) == Join(sep, xs) + sep + Join(sep, ys)
    decreases |xs|
  {
    if |xs| == 1 {
      assert xs + ys == [xs[0]] + ys;
      assert (xs + ys)[1..] == ys;
    } else {
      JoinAppend(sep, xs[1..], ys);
      assert (xs + ys)[1..] == xs[1..] + ys;
    }
  }

  // ---------------------------------------------------------------------
  // The judge-model verifier
  // ---------------------------------------------------------------------

  /** The rendering of the reasoning chain handed to the judge. */
  const ChainSeparator: string := "\n  - "

  function RenderChain(chain: seq<string>): (r: string)
    ensures chain != [] ==> chain[0] <= r
    ensures |chain| >= 2 ==> chain[0] + ChainSeparator <= r
    ensures chain != [] ==> EndsWith(r, chain[|chain| - 1])
  {
    if chain != [] then JoinEnds(ChainSeparator, chain); Join(ChainSeparator, chain)
    else Join(ChainSeparator, chain)
  }

  /** `step_rating * 0.2`, in exact arithmetic: the rating is five times
      the score. */
  function JudgeScore(rating: int): (score: real)
    ensures score * 5.0 == rating as real
  {
    rating as real * 0.2
  }

  /** Ratings 0 to 5 map onto scores 0 to 1, in the same order. */
  lemma JudgeScoreScale(rating: int, other: int)
    ensures JudgeScore(0) == 0.0 && JudgeScore(3) == 0.6 && JudgeScore(5) == 1.0
    ensures 0 <= rating <= 5 ==> 0.0 <= JudgeScore(rating) <= 1.0
    ensures rating < other <==> JudgeScore(rating) < JudgeScore(other)
  {
  }

  /** Rendering a longer chain appends the separator and the new step. */
  lemma RenderChainAppend(chain: seq<string>, step: string)
    ensures RenderChain(chain + [step]) ==
      (if chain == [] then step else RenderChain(chain) + ChainSeparator + step)
  {
    if chain == [] {
      assert chain + [step] == [step];
    } else {
      JoinAppend(ChainSeparator, chain, [step]);
    }
  }

  // ---------------------------------------------------------------------
  // The classifier verifier
  // ---------------------------------------------------------------------

  /** The fixed text before the objective, and the line break and
      indentation after it, in the instruction for the classifier. */
  const InstructionPreamble: string :=
    "Does the following answer meet the objective behind user's messages?\n\n        Objectives: "
  const InstructionIndent: string := "\n        "

  /** The instruction the classifier scores: the preamble and objective,
      then the chat history and the answer line joined by newlines. */
  function ClassifierInstruction(objective: string, step: string, chatHistory: seq<string>): (r: string)
    ensures InstructionPreamble + objective + InstructionIndent <= r
    ensures EndsWith(r, "Answer: " + step)
  {
    JoinEnds("\n", chatHistory + ["Answer: " + step]);
    InstructionPreamble + objective + InstructionIndent + Join("\n", chatHistory + ["Answer: " + step])
  }

  /** The instruction ends with one line per history entry, in order, and a
      last line holding the step after "Answer: ". */
  lemma ClassifierInstructionShape(objective: string, step: string, chatHistory: seq<string>)
    ensures ClassifierInstruction(objective, step, chatHistory) ==
      InstructionPreamble + objective + InstructionIndent
      + (if chatHistory == [] then "" else Join("\n", chatHistory) + "\n")
      + "Answer: " + step
  {
    if chatHistory == [] {
      assert chatHistory + ["Answer: " + step] == ["Answer: " + step];
    } else {
      JoinAppend("\n", chatHistory, ["Answer: " + step]);
    }
  }

  /** The threshold rule: a score at or below the threshold does not seem
      right, anything above is essential and valid; no other annotation. */
  function ClassifierAnnotation(score: real, threshold: real): (a: StepAnnotation)
    ensures a == DoesNotSeemRight || a == EssentialAndValid
    ensures a == DoesNotSeemRight <==> score <= threshold
  {
    if score <= threshold then DoesNotSeemRight else EssentialAndValid
  }

  /** With the default threshold, 0.7 itself does not seem right; and a
      higher score never turns an essential-and-valid verdict around. */
  lemma ClassifierAnnotationMonotone(score: real, higher: real, threshold: real)
    ensures ClassifierAnnotation(DefaultThreshold, DefaultThreshold) == DoesNotSeemRight
    ensures score <= higher && ClassifierAnnotation(score, threshold) == EssentialAndValid ==>
      ClassifierAnnotation(higher, threshold) == EssentialAndValid
  {
  }

  // ---------------------------------------------------------------------
  // verify_step
  // ---------------------------------------------------------------------

  /** `verify_step(objective, step_to_be_verified, reasoning_chain,
      chat_history)` of either strategy. */
  function VerifyStep(v: StepVerifier, objective: string, stepToBeVerified: string,
                      reasoningChain: seq<string>, chatHistory: seq<string>): (r: Verdict)
    ensures v.JudgeLmVerifier? ==>
      var j := v.judge(objective, stepToBeVerified, RenderChain(reasoningChain), chatHistory);
      r.annotation == j.stepAnnotation && r.score * 5.0 == j.stepRating as real
    ensures v.BertClassifierVerifier? ==>
      && r.score == v.classifier(ClassifierInstruction(objective, stepToBeVerified, chatHistory), stepToBeVerified)
      && (r.annotation == AnnotationValue(DoesNotSeemRight) || r.annotation == AnnotationValue(EssentialAndValid))
      && (r.annotation == AnnotationValue(DoesNotSeemRight) <==> r.score <= v.threshold)
  {
    match v
    case JudgeLmVerifier(judge) =>
      var judgement := judge(objective, stepToBeVerified, RenderChain(reasoningChain), chatHistory);
      Verdict(judgement.stepAnnotation, JudgeScore(judgement.stepRating))
    case BertClassifierVerifier(classifier, threshold) =>
      var score := classifier(ClassifierInstruction(objective, stepToBeVerified, chatHistory), stepToBeVerified);
      Verdict(AnnotationValue(ClassifierAnnotation(score, threshold)), score)
  }

  /** The classifier verifier ignores the reasoning chain. */
  lemma ClassifierIgnoresChain(v: StepVerifier, objective: string, step: string,
                               chain: seq<string>, other: seq<string>, chatHistory: seq<string>)
    requires v.BertClassifierVerifier?
    ensures VerifyStep(v, objective, step, chain, chatHistory) == VerifyStep(v, objective, step, other, chatHistory)
  {
  }
}
