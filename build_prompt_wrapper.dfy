/**
 * The keyword intent gate in front of local retrieval: a question about
 * creating or starting a project gets a canned answer with both set-up
 * options, followed by a focused lookup; any other question goes straight
 * to the confidence-filtered lookup.
 */
module PromptWrapper {
  import opened Text
  import opened Outcomes
  import opened ChromaStore

  /** The word that opens the gate, together with one of `StartWords`. */
  const ProjectWord: string := "project"

  const StartWords: seq<string> := ["create", "init", "initialize", "start"]

  /** The focused lookup made when the gate opens. */
  const FocusedQuery: string := "project initialization"

  const FocusedTopK: int := 5

  const OptionOneHeading: string := "### Option 1: New Project"

  const OptionTwoHeading: string := "### Option 2: Existing Repo"

  const OptionOneSteps: string :=
    "\n"
    + "Create a new repository from scratch by following the steps:\n"
    + "1. Create a local folder for your project.\n"
    + "2. Initialize Git with `git init`.\n"
    + "3. Create a new repository on GitHub and connect it as a remote.\n\n"

  const OptionOne: string := OptionOneHeading + OptionOneSteps

  const OptionTwoSteps: string :=
    "\n"
    + "Clone an existing repository using:\n"
    + "`git clone <repository-url>`\n"
    + "Followed by:\n"
    + "`cd <repository-folder>`\n\n"

  const OptionTwo: string := OptionTwoHeading + OptionTwoSteps

  const CannedIntro: string := "Local results from pro-analytics-01:\n\n"

  const CannedOutro: string := "You can now proceed with either setup directly."

  /** The answer listing both ways to set up a project. */
  const CannedResponse: string := CannedIntro + OptionOne + OptionTwo + CannedOutro

  /** The lower-cased input mentions a project and a start word. */
  predicate IntentFires(userInput: string)
  {
    var lowered := Lower(userInput);
    Contains(lowered, ProjectWord) && exists w | w in StartWords :: Contains(lowered, w)
  }

  /** `wrapper_retrieval(user_input)` against the collection's answer `search`. */
  function WrapperRetrieval(search: Search, userInput: string): (r: Result<seq<string>>)
    ensures IntentFires(userInput) && r.Ok? ==> 1 <= |r.value| <= 2 && r.value[0] == CannedResponse
    ensures !IntentFires(userInput) && r.Ok? ==> |r.value| <= 1
  {
    if IntentFires(userInput) then
      match Retrieve(search, FocusedQuery, FocusedTopK)
      case Err(e) => Err(e)
      case Ok(localChunks) =>
        if |localChunks| > 0 then Ok([CannedResponse] + localChunks) else Ok([CannedResponse])
    else
      Retrieve(search, userInput, DefaultTopK)
  }

  /**
   * "initialize" adds nothing to the start words, since it contains "init":
   * the gate opens exactly when the lower-cased input contains "project" and
   * one of "create", "init" or "start".
   */
  lemma IntentFiresIff(userInput: string)
    ensures IntentFires(userInput) <==>
      var lowered := Lower(userInput);
      Contains(lowered, "project")
      && (Contains(lowered, "create") || Contains(lowered, "init") || Contains(lowered, "start"))
  {
    var lowered := Lower(userInput);
    if Contains(lowered, "initialize") {
      ContainsPrefix(lowered, "initialize", "init");
    }
    assert StartWords[0] == "create" && StartWords[1] == "init" && StartWords[3] == "start";
  }

  /** The gate ignores letter case: lower-casing the input first changes nothing. */
  lemma IntentCaseInsensitive(userInput: string)
    ensures IntentFires(Lower(userInput)) <==> IntentFires(userInput)
  {
    LowerIdempotent(userInput);
  }

  /**
   * When the gate opens, the lookup is the focused query, not the input,
   * and the answer is the canned response followed by the lookup's chunks
   * in order, one longer than the lookup.
   */
  lemma WrapperIntentPath(search: Search, userInput: string)
    requires IntentFires(userInput)
    ensures Retrieve(search, FocusedQuery, FocusedTopK).Err? ==>
      WrapperRetrieval(search, userInput) == Err(Retrieve(search, FocusedQuery, FocusedTopK).error)
    ensures Retrieve(search, FocusedQuery, FocusedTopK).Ok? ==>
      var localChunks := Retrieve(search, FocusedQuery, FocusedTopK).value;
      && WrapperRetrieval(search, userInput) == Ok([CannedResponse] + localChunks)
      && |WrapperRetrieval(search, userInput).value| == 1 + |localChunks|
  {
    var lookup := Retrieve(search, FocusedQuery, FocusedTopK);
    if lookup.Ok? && |lookup.value| == 0 {
      assert [CannedResponse] + lookup.value == [CannedResponse];
    }
  }

  /** When the gate stays shut, the answer is the plain lookup of the input with the default count. */
  lemma WrapperFallThrough(search: Search, userInput: string)
    requires !IntentFires(userInput)
    ensures WrapperRetrieval(search, userInput) == Retrieve(search, userInput, DefaultTopK)
  {
  }

  /** The canned response offers both options. */
  lemma CannedResponseOffersBoth()
    ensures Contains(CannedResponse, "### Option 1: New Project")
    ensures Contains(CannedResponse, "### Option 2: Existing Repo")
  {
    HeadingsInOrder(CannedIntro, OptionOneHeading, OptionOneSteps, OptionTwoHeading, OptionTwoSteps, CannedOutro);
    assert OccursAt(CannedResponse, OptionOneHeading, |CannedIntro|);
    assert OccursAt(CannedResponse, OptionTwoHeading, |CannedIntro| + |OptionOne|);
  }

  /** Two headed sections between an intro and an outro: each heading sits where its section starts. */
  lemma HeadingsInOrder(intro: string, h1: string, b1: string, h2: string, b2: string, outro: string)
    ensures var s := intro + (h1 + b1) + (h2 + b2) + outro;
      && OccursAt(s, h1, |intro|)
      && OccursAt(s, h2, |intro| + |h1| + |b1|)
  {
    var s := intro + (h1 + b1) + (h2 + b2) + outro;
    assert s == intro + h1 + (b1 + (h2 + b2) + outro);
    OccursInMiddle(intro, h1, b1 + (h2 + b2) + outro);
    assert s == (intro + h1 + b1) + h2 + (b2 + outro);
    OccursInMiddle(intro + h1 + b1, h2, b2 + outro);
  }
}
