/**
 * The concierge service: a client is created at load time only when an API key is
 * configured, and every reply request resolves to a string, the model's text or one
 * of three fixed fallbacks.
 */
module GeminiService {
  import opened Wrappers

  /** The text-generation client, created from the configured key. */
  datatype Client = Client(apiKey: string)

  /** What one `generateContent` call does: it resolves with an optional text, or it throws. */
  datatype CallOutcome = Resolved(text: Option<string>) | Threw

  const NotConnected := "I'm having trouble connecting to my brain right now. Please try again later."
  const MissedThat := "Woof! I missed that. Could you say it again?"
  const ChasingTail := "I seem to be chasing my tail. Please try again in a moment."

  /**
   * The module-level initialisation: the key is the environment's `API_KEY`, or the
   * empty string when unset, and a client exists only for a non-empty key.
   */
  function InitClient(envApiKey: Option<string>): (ai: Option<Client>)
    ensures ai.Some? <==> envApiKey.Some? && envApiKey.value != ""
    ensures ai.Some? ==> ai.value.apiKey == envApiKey.value
  {
    var apiKey := match envApiKey case Some(k) => k case None => "";
    if apiKey != "" then Some(Client(apiKey)) else None
  }

  /** The model's text when it resolved with a non-empty one. */
  predicate RepliedWith(outcome: CallOutcome, text: string) {
    outcome.Resolved? && outcome.text == Some(text) && text != ""
  }

  /**
   * `generateConciergeResponse(userMessage)`. `generateContent` stands for the
   * external call with the fixed model and persona, applied to the user's message
   * verbatim; it is consulted only when a client exists.
   */
  function GenerateConciergeResponse(ai: Option<Client>, userMessage: string,
                                     generateContent: string -> CallOutcome): (reply: string)
    ensures ai.None? ==> reply == NotConnected
    ensures ai.Some? && generateContent(userMessage).Threw? ==> reply == ChasingTail
    ensures ai.Some? && generateContent(userMessage) in {Resolved(None), Resolved(Some(""))} ==> reply == MissedThat
    ensures ai.Some? ==> forall t :: RepliedWith(generateContent(userMessage), t) ==> reply == t
    ensures reply != ""
  {
    if ai.None? then NotConnected
    else
      match generateContent(userMessage)
      case Threw => ChasingTail
      case Resolved(text) =>
        if text.Some? && text.value != "" then text.value else MissedThat
  }

  /** Without a client the reply does not depend on the external call at all: no call is made. */
  lemma NoClientNoCall(userMessage: string, g1: string -> CallOutcome, g2: string -> CallOutcome)
    ensures GenerateConciergeResponse(None, userMessage, g1) == GenerateConciergeResponse(None, userMessage, g2)
  {
  }

  /** Every reply is the model's own non-empty text or one of the three fallbacks; no error escapes. */
  lemma ReplyIsTextOrFallback(ai: Option<Client>, userMessage: string, generateContent: string -> CallOutcome)
    ensures var reply := GenerateConciergeResponse(ai, userMessage, generateContent);
      RepliedWith(generateContent(userMessage), reply) || reply in {NotConnected, MissedThat, ChasingTail}
  {
  }
}
