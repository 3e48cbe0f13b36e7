/**
 * The question-answering controller: try local retrieval first and answer
 * straight from it when it finds anything; otherwise chunk every source
 * file, embed the chunks, take the placeholder search's top chunks, rank
 * them and let the model answer from their texts. Loading files,
 * embedding vectors and ranking are collaborators passed in.
 */
module Pipeline {
  import opened Text
  import opened Outcomes
  import opened Chunks
  import FixedChunker
  import ChromaStore
  import PromptWrapper
  import VectorSearch
  import ModelCall
  import StructuredPrompt

  /** A loaded Markdown file: its path and its text. */
  datatype SourceFile = SourceFile(path: string, text: string)

  type Vector = seq<real>

  /** A chunk after embedding; a chunk the encoder gave no vector to has none. */
  datatype EmbeddedChunk = EmbeddedChunk(chunk: Chunk, embedding: Option<Vector>)

  /** What the controller needs from outside: the index, the files, the encoder, the ranker and the model. */
  datatype Services = Services(
    collection: ChromaStore.Search,
    files: seq<SourceFile>,
    encode: seq<string> -> seq<Vector>,
    rank: seq<EmbeddedChunk> -> seq<EmbeddedChunk>,
    backend: ModelCall.Backend,
    llm: ModelCall.Llm,
    guidelinesFile: Option<string>)

  /**
   * An answer, with the text lists handed to the encoder (one per call;
   * the full path starts with that call) and the prompts the model received.
   */
  datatype Outcome = Outcome(answer: Result<string>, encoded: seq<seq<string>>, prompts: seq<string>)

  /** The heading of an answer taken from local retrieval. */
  const LocalHeader: string := "### Local results from pro-analytics-01:\n\n"

  /** `chunk_text(path, text)` with the default window length, which never raises. */
  function FileChunks(file: SourceFile): (r: seq<Chunk>)
    ensures forall c :: c in r ==> c.source == file.path
    ensures Concat(Texts(r)) == file.text
  {
    FixedChunker.ChunkTextRoundTrip(file.path, file.text, FixedChunker.DefaultMaxLength);
    FixedChunker.ChunkText(file.path, file.text, FixedChunker.DefaultMaxLength).value
  }

  /** `all_chunks` after the loop: each file's chunks, file after file. */
  function AllChunks(files: seq<SourceFile>): seq<Chunk>
    decreases |files|
  {
    if |files| == 0 then []
    else AllChunks(files[..|files| - 1]) + FileChunks(files[|files| - 1])
  }

  function FileTexts(files: seq<SourceFile>): (r: seq<string>)
    ensures |r| == |files| && forall k :: 0 <= k < |files| ==> r[k] == files[k].text
  {
    seq(|files|, k requires 0 <= k < |files| => files[k].text)
  }

  /** Chunking the corpus loses and adds nothing: the chunk texts concatenate to the file texts. */
  lemma {:induction false} AllChunksCoverFiles(files: seq<SourceFile>)
    ensures Concat(Texts(AllChunks(files))) == Concat(FileTexts(files))
    decreases |files|
  {
    if |files| > 0 {
      var n := |files| - 1;
      AllChunksCoverFiles(files[..n]);
      TextsAppend(AllChunks(files[..n]), FileChunks(files[n]));
      ConcatAppend(Texts(AllChunks(files[..n])), Texts(FileChunks(files[n])));
      assert FileTexts(files) == FileTexts(files[..n]) + [files[n].text];
      ConcatAppend(FileTexts(files[..n]), [files[n].text]);
    }
  }

  /** Every chunk of the corpus comes from one of the files. */
  lemma {:induction false} AllChunksSources(files: seq<SourceFile>)
    ensures forall c :: c in AllChunks(files) ==> exists k :: 0 <= k < |files| && c.source == files[k].path
    decreases |files|
  {
    if |files| > 0 {
      var n := |files| - 1;
      AllChunksSources(files[..n]);
      forall c | c in AllChunks(files)
        ensures exists k :: 0 <= k < |files| && c.source == files[k].path
      {
        if c in AllChunks(files[..n]) {
          var k :| 0 <= k < n && c.source == files[..n][k].path;
          assert files[k] == files[..n][k];
        } else {
          assert c in FileChunks(files[n]);
        }
      }
    }
  }

  /** `embed_chunks`: each chunk gets the vector the encoder returns at its position. */
  function EmbedChunks(encode: seq<string> -> seq<Vector>, chunks: seq<Chunk>): (r: seq<EmbeddedChunk>)
    ensures |r| == |chunks|
    ensures forall k :: 0 <= k < |r| ==> r[k].chunk == chunks[k]
    ensures var vectors := encode(Texts(chunks));
      && (forall k :: 0 <= k < |r| && k < |vectors| ==> r[k].embedding == Some(vectors[k]))
      && (forall k :: |vectors| <= k < |r| ==> r[k].embedding == None)
  {
    var vectors := encode(Texts(chunks));
    seq(|chunks|, k requires 0 <= k < |chunks| =>
      EmbeddedChunk(chunks[k], if k < |vectors| then Some(vectors[k]) else None))
  }

  /** `[chunk["text"] for chunk in ranked_chunks]`. */
  function RankedTexts(ranked: seq<EmbeddedChunk>): (r: seq<string>)
    ensures |r| == |ranked| && forall k :: 0 <= k < |r| ==> r[k] == ranked[k].chunk.text
  {
    seq(|ranked|, k requires 0 <= k < |ranked| => ranked[k].chunk.text)
  }

  /** The chunks the placeholder search hands to the ranker. */
  function TopChunks(files: seq<SourceFile>, encode: seq<string> -> seq<Vector>, userInput: string): seq<EmbeddedChunk>
  {
    VectorSearch.SearchVectors(userInput, EmbedChunks(encode, AllChunks(files)), VectorSearch.DefaultTopK)
  }

  /** The texts of the chunks the ranker returns for a question. */
  function RankedFor(services: Services, userInput: string): seq<string>
  {
    RankedTexts(services.rank(TopChunks(services.files, services.encode, userInput)))
  }

  /**
   * The full path, from the loaded files to the model's reply: the encoder
   * receives the text of every corpus chunk; with no ranked text the answer
   * is the fallback and the model is not called; otherwise the model
   * receives the structured prompt over the ranked texts, and the answer is
   * the API's content without surrounding whitespace, or the local model's
   * output as it is.
   */
  function FullPath(services: Services, userInput: string): (r: Outcome)
    ensures r.encoded == [Texts(AllChunks(services.files))]
    ensures |RankedFor(services, userInput)| == 0 ==> r.answer == Ok(ModelCall.FallbackMessage) && r.prompts == []
    ensures |RankedFor(services, userInput)| > 0 ==>
      var prompt := StructuredPrompt.BuildPrompt(services.guidelinesFile, userInput, RankedFor(services, userInput));
      && r.prompts == [prompt]
      && (services.backend.Api? ==> r.answer == Ok(Strip(services.llm.complete(prompt))))
      && (services.backend.Local? ==> r.answer == Ok(services.llm.generate(prompt)))
  {
    var ranked := services.rank(TopChunks(services.files, services.encode, userInput));
    var reply := ModelCall.CallModel(services.backend, services.llm, services.guidelinesFile, userInput, RankedTexts(ranked));
    Outcome(Ok(reply.answer), [Texts(AllChunks(services.files))], reply.prompts)
  }

  /** `query(user_input)`. */
  function Respond(services: Services, userInput: string): Outcome
  {
    match PromptWrapper.WrapperRetrieval(services.collection, userInput)
    case Err(e) => Outcome(Err(e), [], [])
    case Ok(localChunks) =>
      if |localChunks| > 0 then
        Outcome(Ok(LocalHeader + Join(" ", localChunks)), [], [])
      else
        FullPath(services, userInput)
  }

  /** `query(user_input)`, building `all_chunks` with a loop as the controller does. */
  method Query(services: Services, userInput: string) returns (outcome: Outcome)
    ensures outcome == Respond(services, userInput)
  {
    var local := PromptWrapper.WrapperRetrieval(services.collection, userInput);
    if local.Err? {
      return Outcome(Err(local.error), [], []);
    }
    var localChunks := local.value;
    if |localChunks| > 0 {
      return Outcome(Ok(LocalHeader + Join(" ", localChunks)), [], []);
    }
    var files := services.files;
    var allChunks: seq<Chunk> := [];
    var i := 0;
    while i < |files|
      invariant 0 <= i <= |files|
      invariant allChunks == AllChunks(files[..i])
    {
      assert files[..i + 1][..i] == files[..i];
      allChunks := allChunks + FileChunks(files[i]);
      i := i + 1;
    }
    assert files[..i] == files;
    var encoded := Texts(allChunks);
    var embeddedChunks := EmbedChunks(services.encode, allChunks);
    var topChunks := VectorSearch.SearchVectors(userInput, embeddedChunks, VectorSearch.DefaultTopK);
    var rankedChunks := services.rank(topChunks);
    var reply := ModelCall.CallModel(services.backend, services.llm, services.guidelinesFile, userInput, RankedTexts(rankedChunks));
    return Outcome(Ok(reply.answer), [encoded], reply.prompts);
  }

  /**
   * When local retrieval finds anything, the answer is the local heading
   * and the chunks joined by single spaces; neither the encoder nor the
   * model is called.
   */
  lemma LocalShortCircuit(services: Services, userInput: string)
    requires PromptWrapper.WrapperRetrieval(services.collection, userInput).Ok?
    requires |PromptWrapper.WrapperRetrieval(services.collection, userInput).value| > 0
    ensures var localChunks := PromptWrapper.WrapperRetrieval(services.collection, userInput).value;
      && Respond(services, userInput).answer == Ok(LocalHeader + Join(" ", localChunks))
      && Respond(services, userInput).encoded == []
      && Respond(services, userInput).prompts == []
  {
  }

  /**
   * A question about starting a project never reaches the model: whenever
   * the focused lookup succeeds, the answer opens with the local heading
   * followed by the canned response.
   */
  lemma IntentNeverCallsModel(services: Services, userInput: string)
    requires PromptWrapper.IntentFires(userInput)
    requires ChromaStore.Retrieve(services.collection, PromptWrapper.FocusedQuery, PromptWrapper.FocusedTopK).Ok?
    ensures Respond(services, userInput).prompts == []
    ensures Respond(services, userInput).encoded == []
    ensures Respond(services, userInput).answer.Ok?
    ensures var a := Respond(services, userInput).answer.value;
      a[..|LocalHeader| + |PromptWrapper.CannedResponse|] == LocalHeader + PromptWrapper.CannedResponse
  {
    var localChunks := PromptWrapper.WrapperRetrieval(services.collection, userInput).value;
    PromptWrapper.WrapperIntentPath(services.collection, userInput);
    assert localChunks[0] == PromptWrapper.CannedResponse;
    JoinStartsWithFirst(" ", localChunks);
    PrefixBehind(LocalHeader, Join(" ", localChunks), PromptWrapper.CannedResponse);
  }

  /**
   * When local retrieval finds nothing, the full path runs: the encoder
   * receives the chunk texts of the whole corpus, which concatenate to the
   * file texts, and the answer is `call_model` over the ranked texts.
   */
  lemma FullPathTaken(services: Services, userInput: string)
    requires PromptWrapper.WrapperRetrieval(services.collection, userInput) == Ok([])
    ensures var reply := ModelCall.CallModel(services.backend, services.llm, services.guidelinesFile, userInput, RankedFor(services, userInput));
      && Respond(services, userInput).answer == Ok(reply.answer)
      && Respond(services, userInput).prompts == reply.prompts
      && |Respond(services, userInput).encoded| == 1
      && Concat(Respond(services, userInput).encoded[0]) == Concat(FileTexts(services.files))
  {
    AllChunksCoverFiles(services.files);
  }

  /**
   * The search sees the whole embedded corpus and hands on its first
   * three chunks (all of them when there are fewer), whatever the question.
   */
  lemma SearchSeesEmbeddedCorpus(files: seq<SourceFile>, encode: seq<string> -> seq<Vector>, userInput: string, other: string)
    ensures var embedded := EmbedChunks(encode, AllChunks(files));
      var top := TopChunks(files, encode, userInput);
      && |top| == (if |embedded| < 3 then |embedded| else 3)
      && top == embedded[..|top|]
      && top == TopChunks(files, encode, other)
  {
    VectorSearch.SearchIgnoresQuery(userInput, other, EmbedChunks(encode, AllChunks(files)), VectorSearch.DefaultTopK);
  }
}
