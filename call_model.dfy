/**
 * The model call behind the full retrieval path: the back end chosen once
 * from `QUANT_MODE` and `LLM_PROVIDER`, and `call_model`, which answers
 * with a fixed message when there is no context and otherwise sends the
 * structured prompt to the chosen back end. The hosted API and the local
 * model are not modelled: each is a function from prompt to text.
 */
module ModelCall {
  import opened Text
  import opened Outcomes
  import StructuredPrompt

  /** A hosted chat API. */
  datatype Provider = OpenRouter | OpenAi

  /** A locally loaded quantized model. */
  datatype Quantization = EightBit | FourBit

  /** The back end the module loads: a client for an API, or a local model and tokenizer. */
  datatype Backend = Api(provider: Provider) | Local(quantization: Quantization)

  /** `load_none_model`: the provider must be one of the two supported APIs. */
  function LoadNoneModel(llmProvider: string): (r: Result<Provider>)
    ensures r.Ok? <==> llmProvider == "openrouter" || llmProvider == "openai"
    ensures llmProvider == "openrouter" ==> r == Ok(OpenRouter)
    ensures llmProvider == "openai" ==> r == Ok(OpenAi)
    ensures r.Err? ==> r.error == UnsupportedLlmProvider(llmProvider)
  {
    if llmProvider == "openrouter" then Ok(OpenRouter)
    else if llmProvider == "openai" then Ok(OpenAi)
    else Err(UnsupportedLlmProvider(llmProvider))
  }

  /** The `QUANT_MODE` dispatch run when the module loads. */
  function LoadBackend(quantMode: string, llmProvider: string): (r: Result<Backend>)
    ensures r.Ok? <==>
      (quantMode == "none" && (llmProvider == "openrouter" || llmProvider == "openai"))
      || quantMode == "8bit" || quantMode == "4bit"
    ensures quantMode != "none" && quantMode != "8bit" && quantMode != "4bit" ==>
      r == Err(UnsupportedQuantMode(quantMode))
    ensures r.Ok? ==> (r.value.Api? <==> quantMode == "none")
    ensures quantMode == "8bit" ==> r == Ok(Local(EightBit))
    ensures quantMode == "4bit" ==> r == Ok(Local(FourBit))
    ensures quantMode == "none" ==>
      r == (if LoadNoneModel(llmProvider).Ok? then Ok(Api(LoadNoneModel(llmProvider).value))
            else Err(UnsupportedLlmProvider(llmProvider)))
  {
    if quantMode == "none" then
      match LoadNoneModel(llmProvider)
      case Ok(provider) => Ok(Api(provider))
      case Err(e) => Err(e)
    else if quantMode == "8bit" then Ok(Local(EightBit))
    else if quantMode == "4bit" then Ok(Local(FourBit))
    else Err(UnsupportedQuantMode(quantMode))
  }

  /** The local modes load a model whatever the provider says. */
  lemma LocalModesIgnoreProvider(quantMode: string, p1: string, p2: string)
    requires quantMode != "none"
    ensures LoadBackend(quantMode, p1) == LoadBackend(quantMode, p2)
  {
  }

  /**
   * The module globals `client`, `model` and `tokenizer`: unset until the
   * dispatch runs, then a client for the API mode or a model and tokenizer
   * for the local modes.
   */
  class ModelGlobals {
    var client: Option<Provider>
    var model: Option<Quantization>
    var tokenizerLoaded: bool

    constructor ()
      ensures client == None && model == None && !tokenizerLoaded
    {
      client := None;
      model := None;
      tokenizerLoaded := false;
    }

    /** The globals hold exactly the loaded back end. */
    predicate Holds(backend: Backend)
      reads this
    {
      match backend
      case Api(provider) => client == Some(provider) && model == None && !tokenizerLoaded
      case Local(q) => client == None && model == Some(q) && tokenizerLoaded
    }

    /** The dispatch: set the globals from the chosen loader, or raise and set nothing. */
    method Load(quantMode: string, llmProvider: string) returns (r: Result<Backend>)
      modifies this
      ensures r == LoadBackend(quantMode, llmProvider)
      ensures r.Ok? ==> Holds(r.value)
      ensures r.Err? ==> client == old(client) && model == old(model) && tokenizerLoaded == old(tokenizerLoaded)
    {
      if quantMode == "none" {
        var provider := LoadNoneModel(llmProvider);
        if provider.Err? {
          return Err(provider.error);
        }
        client, model, tokenizerLoaded := Some(provider.value), None, false;
        return Ok(Api(provider.value));
      } else if quantMode == "8bit" {
        client, model, tokenizerLoaded := None, Some(EightBit), true;
        return Ok(Local(EightBit));
      } else if quantMode == "4bit" {
        client, model, tokenizerLoaded := None, Some(FourBit), true;
        return Ok(Local(FourBit));
      } else {
        return Err(UnsupportedQuantMode(quantMode));
      }
    }
  }

  /**
   * The language model: the content the API returns for a prompt, and the
   * decoded output the local model generates for a prompt.
   */
  datatype Llm = Llm(complete: string -> string, generate: string -> string)

  /** An answer, with the prompts that reached the model (none or one). */
  datatype Reply = Reply(answer: string, prompts: seq<string>)

  /** The second sentence of the answer given without context. */
  const FallbackFocus: string :=
    "My knowledge is focused on helping you set up professional Python projects "
    + "the recommended way."

  /** The first sentence of the answer given without context, up to its apostrophe. */
  const ApologyHead: string := "Sorry, I can"

  /** The first sentence of the answer given without context, after its apostrophe. */
  const ApologyTail: string := "t help with that.\n"

  /** The answer given without context. */
  const FallbackMessage: string := ApologyHead + "'" + ApologyTail + FallbackFocus

  /** `call_model(question, chunks)` for the loaded back end and the guidelines file content. */
  function CallModel(backend: Backend, llm: Llm, guidelinesFile: Option<string>, question: string, chunks: seq<string>): (r: Reply)
    ensures |chunks| == 0 <==> r.prompts == []
    ensures |chunks| == 0 ==> r.answer == FallbackMessage
    ensures |chunks| > 0 ==> r.prompts == [StructuredPrompt.BuildPrompt(guidelinesFile, question, chunks)]
    ensures |chunks| > 0 && backend.Api? ==> IsStripped(r.answer) && |r.answer| <= |llm.complete(r.prompts[0])|
  {
    if |chunks| == 0 then Reply(FallbackMessage, [])
    else
      var prompt := StructuredPrompt.BuildPrompt(guidelinesFile, question, chunks);
      match backend
      case Api(_) => Reply(Strip(llm.complete(prompt)), [prompt])
      case Local(_) => Reply(llm.generate(prompt), [prompt])
  }

  /**
   * The API answer is the returned content with only surrounding whitespace
   * removed; the local answer is the decoded output as it is.
   */
  lemma AnswerFromModel(backend: Backend, llm: Llm, guidelinesFile: Option<string>, question: string, chunks: seq<string>)
    requires |chunks| > 0
    ensures var r := CallModel(backend, llm, guidelinesFile, question, chunks);
      var prompt := StructuredPrompt.BuildPrompt(guidelinesFile, question, chunks);
      && (backend.Api? ==> exists i, j ::
            && 0 <= i <= j <= |llm.complete(prompt)|
            && r.answer == llm.complete(prompt)[i..j]
            && (forall k :: 0 <= k < i ==> IsSpace(llm.complete(prompt)[k]))
            && (forall k :: j <= k < |llm.complete(prompt)| ==> IsSpace(llm.complete(prompt)[k])))
      && (backend.Local? ==> r.answer == llm.generate(prompt))
  {
    var prompt := StructuredPrompt.BuildPrompt(guidelinesFile, question, chunks);
    StripIsSlice(llm.complete(prompt));
  }
}
