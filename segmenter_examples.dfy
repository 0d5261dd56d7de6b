/** Worked examples of the rationale segmenter. */
module SegmenterExamples {
  import opened CharClasses
  import opened Segmenter

  /** The three sentences of the worked example, each a body and a final dot. */
  const GatherBody: string := "First, gather materials"
  const AssembleBody: string := "Next, assemble the frame"
  const AttachBody: string := "Then attach the engine"
  const Gather: string := GatherBody + "."
  const Assemble: string := AssembleBody + "."
  const Attach: string := AttachBody + "."

  /** No body holds a sentence terminator, and none ends in a capital
      followed by a letter, so no lookbehind fires. */
  lemma GatherBodyIsPlain()
    ensures '.' !in GatherBody && '?' !in GatherBody
    ensures |GatherBody| >= 3 && !IsUpper(GatherBody[|GatherBody| - 2])
  {
  }

  lemma AssembleBodyIsPlain()
    ensures '.' !in AssembleBody && '?' !in AssembleBody
    ensures |AssembleBody| >= 3 && !IsUpper(AssembleBody[|AssembleBody| - 2])
  {
  }

  lemma AttachBodyIsPlain()
    ensures '.' !in AttachBody && '?' !in AttachBody
  {
  }

  /** The example rationale splits at its two sentence breaks. */
  lemma ThreeSentenceSplit()
    ensures Split(Gather + " " + Assemble + " " + Attach) == [Gather, Assemble, Attach]
  {
    var tail := Assemble + " " + Attach;
    assert Gather + " " + Assemble + " " + Attach == GatherBody + ['.'] + [' '] + tail;
    assert tail == AssembleBody + ['.'] + [' '] + Attach;
    GatherBodyIsPlain();
    AssembleBodyIsPlain();
    AttachBodyIsPlain();
    SplitFirstSentence(GatherBody, '.', tail);
    SplitFirstSentence(AssembleBody, '.', Attach);
    SingleSentence(AttachBody, '.');
  }

  lemma GatherPasses()
    ensures CountSpaces(Gather) >= DefaultMaxSpaces
  {
    TwoSpacesAt(Gather, 6, 13);
  }

  lemma AssemblePasses()
    ensures CountSpaces(Assemble) >= DefaultMaxSpaces
  {
    TwoSpacesAt(Assemble, 5, 14);
  }

  lemma AttachPasses()
    ensures CountSpaces(Attach) >= DefaultMaxSpaces
  {
    TwoSpacesAt(Attach, 4, 11);
  }

  /** Each sentence of the example holds at least the default two spaces. */
  lemma ExampleSentencesPass()
    ensures CountSpaces(Gather) >= DefaultMaxSpaces
    ensures CountSpaces(Assemble) >= DefaultMaxSpaces
    ensures CountSpaces(Attach) >= DefaultMaxSpaces
  {
    GatherPasses();
    AssemblePasses();
    AttachPasses();
  }

  /** Three split pieces that all pass the filter are the steps. */
  lemma ThreePiecesKept(s: string, g: string, a: string, t: string, maxSpaces: int)
    requires Split(s) == [g, a, t]
    requires CountSpaces(g) >= maxSpaces && CountSpaces(a) >= maxSpaces && CountSpaces(t) >= maxSpaces
    ensures RationaleToSteps(s, maxSpaces) == [g, a, t]
  {
    KeepStepsKeepsAllPassing([g, a, t], maxSpaces);
  }

  /** "First, gather materials. Next, assemble the frame. Then attach the
      engine." yields exactly its three sentences. */
  lemma ThreeSentenceExample()
    ensures RationaleToSteps(Gather + " " + Assemble + " " + Attach) == [Gather, Assemble, Attach]
  {
    ThreeSentenceSplit();
    ExampleSentencesPass();
    ThreePiecesKept(Gather + " " + Assemble + " " + Attach, Gather, Assemble, Attach, DefaultMaxSpaces);
  }
}
