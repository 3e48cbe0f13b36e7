/**
 * The structured prompt builder: the assistant guidelines, the retrieved
 * chunks joined by blank lines and cut to a fixed number of characters,
 * the question, and an answer cue. The guidelines file is read once; its
 * content, when the file exists, is passed in.
 */
module StructuredPrompt {
  import opened Text
  import opened Outcomes

  /** The most context characters a prompt carries. */
  const MaxContextLength: nat := 3000

  /** The separator between chunks in the context. */
  const ChunkSeparator: string := "\n\n"

  /** The guidelines used when there is no guidelines file. */
  const DefaultGuidelines: string :=
    "You are a helpful assistant who only answers questions based on the provided context."

  const ContextHeading: string := "\n\nContext:\n"

  const QuestionHeading: string := "\n\nQuestion:\n"

  const AnswerCue: string := "\n\nAnswer:"

  /**
   * `GUIDELINES_TEXT`: without a file, the default sentence; with one, the
   * file content less exactly its leading and trailing whitespace.
   */
  function GuidelinesText(guidelinesFile: Option<string>): (r: string)
    ensures guidelinesFile.None? ==> r == DefaultGuidelines
    ensures guidelinesFile.Some? ==> IsStripped(r) && exists i, j ::
      && 0 <= i <= j <= |guidelinesFile.value| && r == guidelinesFile.value[i..j]
      && (forall k :: 0 <= k < i ==> IsSpace(guidelinesFile.value[k]))
      && (forall k :: j <= k < |guidelinesFile.value| ==> IsSpace(guidelinesFile.value[k]))
  {
    match guidelinesFile
    case None => DefaultGuidelines
    case Some(content) =>
      StripIsSlice(content);
      Strip(content)
  }

  /** The context section: the joined chunks, cut to `MaxContextLength` characters when longer. */
  function Context(chunks: seq<string>): (r: string)
    ensures |r| <= MaxContextLength
    ensures |r| <= |Join(ChunkSeparator, chunks)| && r == Join(ChunkSeparator, chunks)[..|r|]
    ensures |r| == if |Join(ChunkSeparator, chunks)| <= MaxContextLength then |Join(ChunkSeparator, chunks)| else MaxContextLength
  {
    var context := Join(ChunkSeparator, chunks);
    if |context| > MaxContextLength then context[..MaxContextLength] else context
  }

  /** A context that fits is the whole join, untouched. */
  lemma ContextFits(chunks: seq<string>)
    requires |Join(ChunkSeparator, chunks)| <= MaxContextLength
    ensures Context(chunks) == Join(ChunkSeparator, chunks)
  {
  }

  /** `build_prompt(question, chunks)` with the guidelines file content passed in. */
  function BuildPrompt(guidelinesFile: Option<string>, question: string, chunks: seq<string>): (r: string)
    ensures |r| == |GuidelinesText(guidelinesFile)| + |ContextHeading| + |Context(chunks)| + |QuestionHeading| + |question| + |AnswerCue|
    ensures r[..|GuidelinesText(guidelinesFile)|] == GuidelinesText(guidelinesFile)
    ensures OccursAt(r, Context(chunks), |GuidelinesText(guidelinesFile)| + |ContextHeading|)
    ensures OccursAt(r, question, |r| - |AnswerCue| - |question|)
    ensures r[|r| - |AnswerCue|..] == AnswerCue
  {
    SixParts(GuidelinesText(guidelinesFile), ContextHeading, Context(chunks), QuestionHeading, question, AnswerCue);
    GuidelinesText(guidelinesFile) + ContextHeading + Context(chunks) + QuestionHeading + question + AnswerCue
  }

  /** In a six-part concatenation every part sits where the lengths before it say. */
  lemma SixParts(g: string, h1: string, c: string, h2: string, q: string, a: string)
    ensures var p := g + h1 + c + h2 + q + a;
      && |p| == |g| + |h1| + |c| + |h2| + |q| + |a|
      && p[..|g|] == g
      && OccursAt(p, h1, |g|)
      && OccursAt(p, c, |g| + |h1|)
      && OccursAt(p, h2, |g| + |h1| + |c|)
      && OccursAt(p, q, |p| - |a| - |q|)
      && p[|p| - |a|..] == a
  {
    FrontParts(g, h1, c, h2 + q + a);
    assert g + h1 + c + (h2 + q + a) == g + h1 + c + h2 + q + a;
    BackParts(g + h1 + c, h2, q, a);
  }

  lemma FrontParts(g: string, h1: string, c: string, rest: string)
    ensures var p := g + h1 + c + rest;
      && p[..|g|] == g
      && OccursAt(p, h1, |g|)
      && OccursAt(p, c, |g| + |h1|)
  {
    var p := g + h1 + c + rest;
    assert p == g + h1 + (c + rest);
    OccursInMiddle(g, h1, c + rest);
    OccursInMiddle(g + h1, c, rest);
  }

  lemma BackParts(front: string, h2: string, q: string, a: string)
    ensures var p := front + h2 + q + a;
      && OccursAt(p, h2, |front|)
      && OccursAt(p, q, |p| - |a| - |q|)
      && p[|p| - |a|..] == a
  {
    var p := front + h2 + q + a;
    assert p == front + h2 + (q + a);
    OccursInMiddle(front, h2, q + a);
    OccursInMiddle(front + h2, q, a);
  }

  /** The headings sit between the parts: guidelines, context, question, answer cue, in that order. */
  lemma PromptParts(guidelinesFile: Option<string>, question: string, chunks: seq<string>)
    ensures var g, c, p := GuidelinesText(guidelinesFile), Context(chunks), BuildPrompt(guidelinesFile, question, chunks);
      && OccursAt(p, ContextHeading, |g|)
      && OccursAt(p, QuestionHeading, |g| + |ContextHeading| + |c|)
  {
    SixParts(GuidelinesText(guidelinesFile), ContextHeading, Context(chunks), QuestionHeading, question, AnswerCue);
  }

  /** A string ending with the answer cue ends with "Answer:". */
  lemma CueEndsWithAnswer(p: string)
    requires |p| >= |AnswerCue| && p[|p| - |AnswerCue|..] == AnswerCue
    ensures |p| >= 7 && p[|p| - 7..] == "Answer:"
  {
    assert p[|p| - 7..] == p[|p| - |AnswerCue|..][2..];
    assert AnswerCue[2..] == "Answer:";
  }

  /** The prompt ends with "Answer:" and contains the question verbatim. */
  lemma PromptEndsWithAnswerCue(guidelinesFile: Option<string>, question: string, chunks: seq<string>)
    ensures var p := BuildPrompt(guidelinesFile, question, chunks);
      |p| >= 7 && p[|p| - 7..] == "Answer:" && Contains(p, question)
  {
    var p := BuildPrompt(guidelinesFile, question, chunks);
    CueEndsWithAnswer(p);
    var k := |p| - |AnswerCue| - |question|;
    assert OccursAt(p, question, k);
  }
}
