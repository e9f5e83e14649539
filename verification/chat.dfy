/** The provider-neutral conversation shape and the pieces both adapters
    share: the chat message, the `model || default` choice, and the
    OpenAI-compatible streaming chunk fields both upstream SDKs deliver. */
module Chat {
  import opened Wrappers

  /** One message of a conversation. The declared roles are "user",
      "assistant" and "system"; nothing checks the role at run time, so it
      is kept as the raw string the caller sent. */
  datatype ChatMessage = ChatMessage(role: string, content: string)

  /** The three roles the message type declares. */
  predicate IsDeclaredRole(role: string) {
    role == "user" || role == "assistant" || role == "system"
  }

  /** `hint || default`: an absent or empty hint falls back to the default,
      any other hint is taken verbatim. */
  function ChooseModel(hint: Option<string>, default: string): (model: string)
    ensures hint.Some? && hint.value != "" ==> model == hint.value
    ensures hint.None? || hint.value == "" ==> model == default
  {
    match hint
    case Some(h) => if h != "" then h else default
    case None => default
  }

  /** With a non-empty default the chosen model is never empty, and it is
      the hint exactly when the hint is usable. */
  lemma ChosenModelNonEmpty(hint: Option<string>, default: string)
    requires default != ""
    ensures ChooseModel(hint, default) != ""
    ensures ChooseModel(hint, default) == hint.GetOr("") <==> hint.Some? && hint.value != ""
  {
  }

  /** JavaScript truthiness of an optional string field: present and not
      the empty string. */
  predicate Truthy(field: Option<string>) {
    field.Some? && field.value != ""
  }

  /** The `delta` object of a streamed choice: the visible text and, for
      providers that report it separately, the reasoning text. */
  datatype Delta = Delta(content: Option<string>, reasoning: Option<string>)

  /** One entry of a chunk's `choices` array; `delta` is None when the
      field is missing or null. */
  datatype Choice = Choice(delta: Option<Delta>)
}
