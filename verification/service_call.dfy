/**
 * How a request from the Express server to the AI service ended. The
 * network is not modelled; each route receives this outcome as a parameter.
 */
module ServiceCall {
  import opened Wrappers
  import opened Js

  /** The outcome of one `fetch` to the AI service. */
  datatype Call =
    | Answered(data: Value)   // an OK response whose JSON body is `data`
    | NotOk(status: int)      // a response with a status outside 200-299
    | NoConnection            // the request itself failed

  /**
   * `data.response` read inside the routes' `try` blocks: the field of an
   * answered call, or `None` when the routes fall back (a non-OK status, a
   * failed request, or a `null` body whose property read throws).
   */
  function ResponseField(call: Call): (r: Option<Value>)
    ensures r.Some? <==> call.Answered? && !call.data.Null? && !call.data.Undefined?
    ensures call.Answered? && call.data.Obj? ==> r == Some(Prop(call.data, "response"))
  {
    match call
    case Answered(data) => if data.Null? || data.Undefined? then None else Some(Prop(data, "response"))
    case _ => None
  }
}
