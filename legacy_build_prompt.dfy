/**
 * The older prompt builder: the same blank-line join cut to 3000
 * characters, after a fixed assistant sentence, and no answer cue.
 */
module LegacyPrompt {
  import opened Text
  import opened Sequences
  import StructuredPrompt

  const MaxContextLength: int := 3000

  /** The fixed assistant sentence and the blank line after it. */
  const Preamble: string :=
    "You are a helpful assistant who only answers questions based on the provided context.\n\n"

  const ContextHeading: string := "Context:\n"

  const QuestionHeading: string := "\n\nQuestion:\n"

  /** The context: always the slice `joined[:3000]`. */
  function LegacyContext(chunks: seq<string>): (r: string)
    ensures |r| <= 3000 && |r| <= |Join("\n\n", chunks)|
    ensures r == Join("\n\n", chunks)[..|r|]
  {
    Take(Join("\n\n", chunks), MaxContextLength)
  }

  /** Both builders put the same context into the prompt: the slice and the guarded cut agree. */
  lemma SameContextAsStructured(chunks: seq<string>)
    ensures LegacyContext(chunks) == StructuredPrompt.Context(chunks)
  {
  }

  /** `build_prompt(question, chunks)` of the older module. */
  function BuildPrompt(question: string, chunks: seq<string>): (r: string)
    ensures |r| == |Preamble| + |ContextHeading| + |LegacyContext(chunks)| + |QuestionHeading| + |question|
    ensures r[..|Preamble|] == Preamble
    ensures OccursAt(r, ContextHeading, |Preamble|)
    ensures OccursAt(r, LegacyContext(chunks), |Preamble| + |ContextHeading|)
    ensures OccursAt(r, QuestionHeading, |Preamble| + |ContextHeading| + |LegacyContext(chunks)|)
    ensures r[|r| - |question|..] == question
  {
    var p := Preamble + ContextHeading + LegacyContext(chunks) + QuestionHeading + question;
    StructuredPrompt.SixParts(Preamble, ContextHeading, LegacyContext(chunks), QuestionHeading, question, "");
    assert p + "" == p;
    p
  }

  /**
   * There is no answer cue: the prompt ends with the question itself, so it
   * ends with "Answer:" only when the question does.
   */
  lemma NoAnswerCue(question: string, chunks: seq<string>)
    ensures var p := BuildPrompt(question, chunks);
      |p| >= 7 ==> (p[|p| - 7..] == "Answer:" <==> |question| >= 7 && question[|question| - 7..] == "Answer:")
  {
    var p := BuildPrompt(question, chunks);
    if |question| >= 7 {
      assert p[|p| - 7..] == p[|p| - |question|..][|question| - 7..];
    } else {
      var k := 7 - |question|;
      var q := QuestionHeading;
      assert p[|p| - 7..] == q[|q| - k..] + question;
      assert q[|q| - 1] == '\n';
      assert p[|p| - 7..][k - 1] == '\n';
    }
  }
}
