/**
 * The older controller: no local lookup, every question runs the full
 * path and goes to the API client with the older prompt.
 */
module LegacyPipeline {
  import opened Text
  import opened Outcomes
  import opened Chunks
  import StructuredPrompt
  import VectorSearch
  import LegacyPrompt
  import LegacyModelCall
  import opened Pipeline

  /** What the older controller needs from outside: the files, the encoder, the ranker and the client. */
  datatype LegacyServices = LegacyServices(
    files: seq<SourceFile>,
    encode: seq<string> -> seq<Vector>,
    rank: seq<EmbeddedChunk> -> seq<EmbeddedChunk>,
    complete: string -> string)

  /** The older `query(user_input)`. */
  function LegacyRespond(services: LegacyServices, userInput: string): Outcome
  {
    var ranked := services.rank(TopChunks(services.files, services.encode, userInput));
    var reply := LegacyModelCall.CallModel(services.complete, userInput, RankedTexts(ranked));
    Outcome(Ok(reply.answer), [Texts(AllChunks(services.files))], reply.prompts)
  }

  /** The older `query(user_input)`, building `all_chunks` with a loop. */
  method LegacyQuery(services: LegacyServices, userInput: string) returns (outcome: Outcome)
    ensures outcome == LegacyRespond(services, userInput)
  {
    var files := services.files;
    var allChunks: seq<Chunk> := [];
    var i := 0;
    while i < |files|
      invariant 0 <= i <= |files|
      invariant allChunks == AllChunks(files[..i])
    {
      assert files[..i + 1][..i] == files[..i];
      allChunks := allChunks + FileChunks(files[i]);
      i := i + 1;
    }
    assert files[..i] == files;
    var encoded := Texts(allChunks);
    var embeddedChunks := EmbedChunks(services.encode, allChunks);
    var topChunks := VectorSearch.SearchVectors(userInput, embeddedChunks, VectorSearch.DefaultTopK);
    var rankedChunks := services.rank(topChunks);
    var reply := LegacyModelCall.CallModel(services.complete, userInput, RankedTexts(rankedChunks));
    return Outcome(Ok(reply.answer), [encoded], reply.prompts);
  }

  /**
   * Every question runs the full path: the encoder receives the chunk texts
   * of the whole corpus; with no ranked text the answer is the fallback and
   * the client is not called; otherwise the client receives the older
   * prompt over the ranked texts and the answer is its content without
   * surrounding whitespace.
   */
  lemma LegacyAlwaysFullPath(services: LegacyServices, userInput: string)
    ensures var texts := RankedTexts(services.rank(TopChunks(services.files, services.encode, userInput)));
      var outcome := LegacyRespond(services, userInput);
      && |outcome.encoded| == 1
      && Concat(outcome.encoded[0]) == Concat(FileTexts(services.files))
      && (|texts| == 0 ==> outcome.answer == Ok(LegacyModelCall.FallbackMessage) && outcome.prompts == [])
      && (|texts| > 0 ==>
            var prompt := LegacyPrompt.BuildPrompt(userInput, texts);
            outcome.prompts == [prompt] && outcome.answer == Ok(Strip(services.complete(prompt))))
  {
    AllChunksCoverFiles(services.files);
  }

  /**
   * Given the same files, encoder and ranker, the older controller and the
   * newer one's full path encode the same texts, call their model equally
   * often, and put the same context, cut from the same ranked texts, into
   * their prompts.
   */
  lemma SameRetrievalAsFullPath(legacy: LegacyServices, services: Services, userInput: string)
    requires legacy.files == services.files && legacy.encode == services.encode && legacy.rank == services.rank
    ensures LegacyRespond(legacy, userInput).encoded == FullPath(services, userInput).encoded
    ensures |LegacyRespond(legacy, userInput).prompts| == |FullPath(services, userInput).prompts|
    ensures |RankedFor(services, userInput)| > 0 ==>
      var context := StructuredPrompt.Context(RankedFor(services, userInput));
      && |LegacyRespond(legacy, userInput).prompts| == 1
      && OccursAt(LegacyRespond(legacy, userInput).prompts[0], context,
           |LegacyPrompt.Preamble| + |LegacyPrompt.ContextHeading|)
      && OccursAt(FullPath(services, userInput).prompts[0], context,
           |StructuredPrompt.GuidelinesText(services.guidelinesFile)| + |StructuredPrompt.ContextHeading|)
  {
    LegacyPrompt.SameContextAsStructured(RankedFor(services, userInput));
  }
}
