/**
 * What the four edge functions share: the CORS preflight answer, the error
 * text a handler reports, and the shape of a reply from the AI gateway's
 * chat-completions endpoint as far as the handlers look into it.
 */
module Http {
  import opened Wrappers

  /**
   * A handler's answer: the empty answer to a CORS preflight (`OPTIONS`), or
   * a status and a JSON body.
   */
  datatype Response<Body> = Preflight | Answer(status: int, body: Body)

  /** Every handler answers `OPTIONS` with an empty body and the CORS headers, before anything else. */
  predicate IsPreflight(verb: string) {
    verb == "OPTIONS"
  }

  /**
   * The `message` of the error a handler catches: one the handler throws
   * itself, with its text, or one thrown by code outside the model (a
   * database error, a failed `fetch`, a TypeError, a SyntaxError), whose
   * text the model does not fix.
   */
  datatype Message = Literal(text: string) | Foreign

  /**
   * The body of a reply from the AI gateway, seen through
   * `choices[0].message.content`.
   */
  datatype Completion =
    | NotJson                  // the body is not JSON: `response.json()` throws
    | NullJson                 // the body is the JSON `null`: reading `.choices` throws
    | NoMessage                // `choices`, `choices[0]` or its `message` is missing or null
    | ContentUndefined         // the message has no `content`
    | ContentNull              // `content` is `null`
    | ContentText(text: string)

  /** The outcome of the `fetch` to the AI gateway: it threw, or it gave a status and a body. */
  datatype GatewayCall = Unreachable | Replied(status: int, reply: Completion)

  /** `response.ok`. */
  predicate Ok(status: int) {
    200 <= status <= 299
  }

  /** A value of an environment variable or request field is truthy: present and not empty. */
  predicate Present(v: Option<string>) {
    v.Some? && v.value != ""
  }

  /** `v || null` for a string-valued field. */
  function OrNull(v: Option<string>): (r: Option<string>)
    ensures r.Some? <==> Present(v)
    ensures r.Some? ==> r == v
  {
    if Present(v) then v else None
  }
}
