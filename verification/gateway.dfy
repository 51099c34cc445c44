/**
 What the estimator sees of its two foreign collaborators: the chat-completion
 call and `JSON.parse`. Both become inputs of the model.
 */
module Gateway {
  import opened Wrappers

  /**
   Outcome of one chat-completion request: the call threw (network, auth,
   bad key), it answered without message content, or it answered with text.
   */
  datatype Reply = Failed | Empty | Text(content: string)

  /** The reply carries text JavaScript treats as truthy (a non-empty string). */
  predicate HasText(reply: Reply) {
    reply.Text? && |reply.content| > 0
  }

  /** Outcome of `JSON.parse` on a reply: a syntax error, an array, or any other JSON value. */
  datatype Parsed<T> = NotJson | JsonArray(items: seq<T>) | JsonOther

  /**
   One element of a parsed weight array. An object records whether it has a
   `name` and a `carbon_kg` property; strings, numbers, booleans, nested
   arrays and `null` are all non-objects for the shape check.
   */
  datatype JsonItem = JsonObject(name: Option<string>, carbonKg: Option<real>) | JsonNonObject
}
