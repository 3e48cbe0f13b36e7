/**
 * The older model call: an API client only, chosen from `LLM_PROVIDER`
 * when the module loads, and the older prompt builder.
 */
module LegacyModelCall {
  import opened Text
  import opened Outcomes
  import ModelCall
  import LegacyPrompt

  /** The client chosen at load time; any other provider raises. */
  function LoadClient(llmProvider: string): (r: Result<ModelCall.Provider>)
    ensures r.Ok? <==> llmProvider == "openrouter" || llmProvider == "openai"
    ensures llmProvider == "openrouter" ==> r == Ok(ModelCall.OpenRouter)
    ensures llmProvider == "openai" ==> r == Ok(ModelCall.OpenAi)
    ensures r.Err? ==> r.error == UnsupportedLlmProvider(llmProvider)
  {
    ModelCall.LoadNoneModel(llmProvider)
  }

  /** The answer given without context, spelled with a typographic apostrophe. */
  const FallbackMessage: string :=
    ModelCall.ApologyHead + "\U{2019}" + ModelCall.ApologyTail + ModelCall.FallbackFocus

  /** `call_model(question, chunks)`, with the client's content for a prompt as `complete`. */
  function CallModel(complete: string -> string, question: string, chunks: seq<string>): (r: ModelCall.Reply)
    ensures |chunks| == 0 <==> r.prompts == []
    ensures |chunks| == 0 ==> r.answer == FallbackMessage
    ensures |chunks| > 0 ==> r.prompts == [LegacyPrompt.BuildPrompt(question, chunks)]
    ensures |chunks| > 0 ==> IsStripped(r.answer) && |r.answer| <= |complete(r.prompts[0])|
  {
    if |chunks| == 0 then ModelCall.Reply(FallbackMessage, [])
    else
      var prompt := LegacyPrompt.BuildPrompt(question, chunks);
      ModelCall.Reply(Strip(complete(prompt)), [prompt])
  }

  /** The answer is the client's content with only surrounding whitespace removed. */
  lemma AnswerFromCompletion(complete: string -> string, question: string, chunks: seq<string>)
    requires |chunks| > 0
    ensures var r := CallModel(complete, question, chunks);
      var content := complete(LegacyPrompt.BuildPrompt(question, chunks));
      exists i, j ::
        && 0 <= i <= j <= |content|
        && r.answer == content[i..j]
        && (forall k :: 0 <= k < i ==> IsSpace(content[k]))
        && (forall k :: j <= k < |content| ==> IsSpace(content[k]))
  {
    StripIsSlice(complete(LegacyPrompt.BuildPrompt(question, chunks)));
  }

  /** Two strings that differ in one character agree everywhere else. */
  lemma DifferOnlyAt(head: string, a: char, b: char, tail: string)
    ensures |head + [a] + tail| == |head + [b] + tail|
    ensures (head + [a] + tail)[|head|] == a && (head + [b] + tail)[|head|] == b
    ensures forall k :: 0 <= k < |head + [a] + tail| && k != |head| ==> (head + [a] + tail)[k] == (head + [b] + tail)[k]
  {
  }

  /** The two fallback messages differ only in the apostrophe of "can't". */
  lemma FallbacksDiffer()
    ensures |FallbackMessage| == |ModelCall.FallbackMessage|
    ensures FallbackMessage != ModelCall.FallbackMessage
    ensures FallbackMessage[12] == '\U{2019}' && ModelCall.FallbackMessage[12] == '\''
    ensures forall k :: 0 <= k < |FallbackMessage| && k != 12 ==> FallbackMessage[k] == ModelCall.FallbackMessage[k]
  {
    var rest := ModelCall.ApologyTail + ModelCall.FallbackFocus;
    assert FallbackMessage == ModelCall.ApologyHead + ['\U{2019}'] + rest;
    assert ModelCall.FallbackMessage == ModelCall.ApologyHead + ['\''] + rest;
    assert |ModelCall.ApologyHead| == 12;
    DifferOnlyAt(ModelCall.ApologyHead, '\U{2019}', '\'', rest);
  }
}
