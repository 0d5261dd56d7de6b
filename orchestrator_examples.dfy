/** A worked round of `forward` on the three-sentence rationale. */
module OrchestratorExamples {
  import opened Segmenter
  import opened Verifiers
  import opened Orchestrator
  import SegmenterExamples

  /** The rationale "First, gather materials. Next, assemble the frame. Then
      attach the engine." gives the round its three sentences as the steps,
      in order. */
  lemma ThreeSentenceSteps(b: Backends, message: string, chatHistory: seq<string>)
    requires Answer(b, message, chatHistory).rationale ==
      SegmenterExamples.Gather + " " + SegmenterExamples.Assemble + " " + SegmenterExamples.Attach
    ensures StepsOf(b, message, chatHistory) ==
      [SegmenterExamples.Gather, SegmenterExamples.Assemble, SegmenterExamples.Attach]
  {
    SegmenterExamples.ThreeSentenceExample();
  }

  /** That rationale passes the hard check. When the step verifier finds
      each of its sentences essential and valid, every per-step soft check
      holds; when the response is essential and valid too, an attempt whose
      soft checks raise completes, so the round needs no retry. */
  lemma ThreeSentenceRoundProceeds(qa: VerifiedQA, b: Backends, message: string, chatHistory: seq<string>)
    requires Answer(b, message, chatHistory).rationale ==
      SegmenterExamples.Gather + " " + SegmenterExamples.Assemble + " " + SegmenterExamples.Attach
    ensures Forward(qa, b, message, chatHistory).Answered?
    ensures AllStepsEssential(qa, b, message, chatHistory) ==>
      forall o :: o in Forward(qa, b, message, chatHistory).stepOutcomes ==> o.suggestionHolds
    ensures AllStepsEssential(qa, b, message, chatHistory) && Suggests(Forward(qa, b, message, chatHistory).objectiveVerdict) ==>
      ForwardWithRaisingChecks(qa, b, message, chatHistory).Completed?
  {
    assert |StepsOf(b, message, chatHistory)| > MinStepsExclusive by {
      ThreeSentenceSteps(b, message, chatHistory);
    }
    RoundOnEnoughSteps(qa, b, message, chatHistory);
  }

  /** Any round with more than two steps passes the hard check; with every
      step essential and valid no per-step check fails, and with the
      response essential and valid too the attempt completes. */
  lemma RoundOnEnoughSteps(qa: VerifiedQA, b: Backends, message: string, chatHistory: seq<string>)
    requires |StepsOf(b, message, chatHistory)| > MinStepsExclusive
    ensures Forward(qa, b, message, chatHistory).Answered?
    ensures AllStepsEssential(qa, b, message, chatHistory) ==>
      forall o :: o in Forward(qa, b, message, chatHistory).stepOutcomes ==> o.suggestionHolds
    ensures AllStepsEssential(qa, b, message, chatHistory) && Suggests(Forward(qa, b, message, chatHistory).objectiveVerdict) ==>
      ForwardWithRaisingChecks(qa, b, message, chatHistory).Completed?
  {
    if AllStepsEssential(qa, b, message, chatHistory) {
      EssentialStepsPass(qa, b, message, chatHistory);
    }
  }
}
