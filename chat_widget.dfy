/**
 * The concierge chat widget: an append-only transcript seeded with a greeting, an
 * input field, and a loading flag that lets one request be outstanding at a time.
 */
module Chat {
  import opened Wrappers
  import opened JsBuiltins
  import opened Types
  import opened GeminiService

  const Greeting := ChatMessage(Model, "Hello! I am the Loving Homes Concierge. How may I assist you and your furry friend today?")

  /**
   * The transcript protocol: the greeting first, then user and model messages in
   * strict alternation, with a request outstanding exactly when the user spoke last.
   */
  ghost predicate Alternating(messages: seq<ChatMessage>, isLoading: bool) {
    |messages| >= 1 && messages[0] == Greeting &&
    (forall i :: 1 <= i < |messages| ==> messages[i].role == if i % 2 == 1 then User else Model) &&
    (isLoading <==> |messages| % 2 == 0)
  }

  /** With no request outstanding the model spoke last; with one outstanding the user did. */
  lemma LastSpeaker(messages: seq<ChatMessage>, isLoading: bool)
    requires Alternating(messages, isLoading)
    ensures messages[|messages| - 1].role == if isLoading then User else Model
  {
    if |messages| > 1 {
      var i := |messages| - 1;
      assert messages[i].role == if i % 2 == 1 then User else Model;
    }
  }

  class ChatWidget {
    var messages: seq<ChatMessage>
    var input: string
    var isLoading: bool

    ghost predicate Valid()
      reads this
    {
      Alternating(messages, isLoading)
    }

    /** The widget as mounted: the greeting alone, an empty input, nothing outstanding. */
    constructor ()
      ensures Valid()
      ensures messages == [Greeting] && input == "" && !isLoading
    {
      messages := [Greeting];
      input := "";
      isLoading := false;
    }

    /**
     * `handleSubmit` up to its `await`: blank input or an outstanding request changes
     * nothing and sends nothing; otherwise the untrimmed input becomes the user's
     * message, the input clears, loading starts, and that input is the request sent.
     */
    method BeginSubmit() returns (request: Option<string>)
      requires Valid()
      modifies this
      ensures Valid()
      ensures request.None? <==> Trim(old(input)) == "" || old(isLoading)
      ensures request.None? ==> messages == old(messages) && input == old(input) && isLoading == old(isLoading)
      ensures request.Some? ==>
        request.value == old(input) && messages == old(messages) + [ChatMessage(User, old(input))] &&
        input == "" && isLoading
    {
      if Trim(input) == "" || isLoading {
        return None;
      }
      var userMsg := ChatMessage(User, input);
      request := Some(input);
      messages := messages + [userMsg];
      input := "";
      isLoading := true;
    }

    /**
     * `handleSubmit` after its `await`, which runs only once an accepted submit is
     * outstanding: the reply becomes the model's message and loading ends; whatever
     * was typed meanwhile stays in the input.
     */
    method FinishSubmit(responseText: string)
      requires Valid() && isLoading
      modifies this
      ensures Valid()
      ensures messages == old(messages) + [ChatMessage(Model, responseText)]
      ensures !isLoading && input == old(input)
    {
      messages := messages + [ChatMessage(Model, responseText)];
      isLoading := false;
    }

    /**
     * The whole `handleSubmit` when nothing else happens while the reply is awaited:
     * an accepted submit appends exactly the user's message and then exactly one
     * model message carrying the concierge's reply to that input.
     */
    method HandleSubmit(ai: Option<Client>, generateContent: string -> CallOutcome)
      requires Valid()
      modifies this
      ensures Valid()
      ensures Trim(old(input)) == "" || old(isLoading) ==>
        messages == old(messages) && input == old(input) && isLoading == old(isLoading)
      ensures Trim(old(input)) != "" && !old(isLoading) ==>
        messages == old(messages) + [ChatMessage(User, old(input)),
                                     ChatMessage(Model, GenerateConciergeResponse(ai, old(input), generateContent))] &&
        input == "" && !isLoading
    {
      var request := BeginSubmit();
      if request.Some? {
        var responseText := GenerateConciergeResponse(ai, request.value, generateContent);
        FinishSubmit(responseText);
      }
    }
  }

  /**
   * Single flight: while a reply is awaited a second submit is refused, so the
   * transcript never holds two user messages in a row.
   */
  method SingleFlight(reply: string)
  {
    var w := new ChatWidget();
    w.input := "Do you offer grooming?";
    assert !IsWhiteSpace(w.input[0]);
    TrimEmptyIffBlank(w.input);
    var first := w.BeginSubmit();
    assert first == Some("Do you offer grooming?");
    w.input := "Hello?";
    var second := w.BeginSubmit();
    assert second.None? && w.messages == [Greeting, ChatMessage(User, "Do you offer grooming?")];
    w.FinishSubmit(reply);
    LastSpeaker(w.messages, w.isLoading);
    assert w.messages[|w.messages| - 1].role == Model && w.input == "Hello?";
    w.input := "   ";
    var blank := w.BeginSubmit();
    assert blank.None? by {
      assert IsBlank("   ");
      TrimEmptyIffBlank("   ");
    }
  }
}
