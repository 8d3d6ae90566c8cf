/**
 * The website helper's `POST /chat` route (server/routes/websiteHelper.js):
 * the per-address rate limiter in front of it, the message checks, and the
 * call to the helper service with its fallback. The service call is a
 * parameter: what the request came back with.
 */
module HelperRoute {
  import opened Wrappers
  import opened Text
  import opened Js
  import RateLimit
  import HelperFallback
  import opened ServiceCall

  /** `req.ip || req.connection.remoteAddress || 'unknown'`, with an absent address as `""`. */
  function ClientKey(ip: string, remote: string): (k: string)
    ensures k != ""
    ensures ip != "" ==> k == ip
    ensures ip == "" && remote != "" ==> k == remote
  {
    if ip != "" then ip else if remote != "" then remote else "unknown"
  }

  /**
   * What the route sends back as `response`: the service's value, or the
   * canned answer for a message on a page (its path and product name).
   */
  datatype Response =
    | FromService(value: Value)
    | CannedFor(message: string, path: HelperFallback.Page, name: Value)

  /** The canned answer a response stands for. */
  function CannedHelp(r: Response): HelperFallback.Help
    requires r.CannedFor?
  {
    HelperFallback.Answer(HelperFallback.Words(r.message), r.path, r.name)
  }

  /**
   * The fallback answer, as a response. It throws when the page path is a
   * truthy value other than a string or an array, and when the answer chosen
   * shows a product name that cannot be turned into a string.
   */
  function Fallback(message: string, ctx: Value): (r: Result<Response, Thrown>)
    ensures r.Ok? ==> r.value.CannedFor?
    ensures r.Ok? ==> HelperFallback.GenerateFallbackResponse(message, ctx) == Ok(CannedHelp(r.value))
    ensures r.Err? <==> HelperFallback.GenerateFallbackResponse(message, ctx).Err?
  {
    match HelperFallback.PagePath(ctx)
    case Ok(path) =>
      var name := HelperFallback.ProductName(ctx);
      if HelperFallback.Renderable(HelperFallback.Answer(HelperFallback.Words(message), path, name))
      then Ok(CannedFor(message, path, name))
      else Err(TypeError)
    case Err(e) => Err(e)
  }

  /**
   * `callWebsiteHelperAI`: the service's `response` field when it answered,
   * and the fallback otherwise.
   */
  function CallHelperService(call: Call, message: string, ctx: Value): (r: Result<Response, Thrown>)
    ensures ResponseField(call).None? ==> r == Fallback(message, ctx)
    ensures ResponseField(call).Some? ==> r == Ok(FromService(ResponseField(call).value))
  {
    match ResponseField(call)
    case Some(v) => Ok(FromService(v))
    case None => Fallback(message, ctx)
  }

  /** The route's answer. */
  datatype HelperReply =
    | Replied(response: Response)
    | BadRequest
    | TooManyRequests
    | Failed

  /** The HTTP status of an answer. */
  function Status(r: HelperReply): (n: nat)
    ensures r.Replied? <==> n == 200
  {
    match r
    case Replied(_) => 200
    case BadRequest => 400
    case TooManyRequests => 429
    case Failed => 500
  }

  /**
   * The handler once the limiter lets the call through, given the body's
   * `message` and `pageContext`: a missing or falsy message and a message that
   * is only white space get 400; a message that is not a string throws on
   * `trim`; otherwise the trimmed message goes to the service with
   * `pageContext || {}`. Anything thrown becomes status 500.
   */
  function HandleRequest(message: Value, pageContext: Value, call: Call): (r: HelperReply)
    ensures r.BadRequest? <==> !Truthy(message) || (message.Str? && TrimJs(message.s) == "")
    ensures Truthy(message) && !message.Str? ==> r.Failed?
  {
    if !Truthy(message) then BadRequest
    else if !message.Str? then Failed
    else if TrimJs(message.s) == "" then BadRequest
    else Forward(call, TrimJs(message.s), Or(pageContext, Obj(map[])))
  }

  /** The handler on the request body. */
  function HandleChat(body: Value, call: Call): HelperReply {
    HandleRequest(Prop(body, "message"), Prop(body, "pageContext"), call)
  }

  /** Sends the checked message on; a throw on the way becomes status 500. */
  function Forward(call: Call, message: string, ctx: Value): (r: HelperReply)
    ensures r.Replied? <==> CallHelperService(call, message, ctx).Ok?
    ensures r.Failed? <==>
      (ResponseField(call).None? && HelperFallback.GenerateFallbackResponse(message, ctx).Err?)
  {
    match CallHelperService(call, message, ctx)
    case Ok(v) => Replied(v)
    case Err(_) => Failed
  }

  /** The route: the limiter decides first; a rejected call is answered with 429 and never reaches the handler. */
  function HelperChat(table: map<string, RateLimit.Entry>, key: string, now: int, body: Value, call: Call)
    : (r: (map<string, RateLimit.Entry>, HelperReply))
    ensures r.0 == RateLimit.Step(table, key, now, RateLimit.HelperLimits).0
    ensures r.1.TooManyRequests? <==> RateLimit.Step(table, key, now, RateLimit.HelperLimits).1 == RateLimit.Reject
    ensures !r.1.TooManyRequests? ==> r.1 == HandleChat(body, call)
  {
    var (t, d) := RateLimit.Step(table, key, now, RateLimit.HelperLimits);
    if d == RateLimit.Reject then (t, TooManyRequests) else (t, HandleChat(body, call))
  }

  /**
   * When the service fails, a price question on a product page whose product
   * name is an object with its own `toString` is answered with status 500.
   */
  lemma UnrenderableNameFails(call: Call, info: map<string, Value>)
    requires ResponseField(call).None?
    requires "name" in info && !Renders(info["name"]) && Truthy(info["name"])
    ensures Forward(call, "price", Obj(map["currentPage" := Str("/product/x"), "productInfo" := Obj(info)])) == Failed
  {
    HelperFallback.UnrenderableNameThrows("price", "/product/x", info);
  }

  /** Without a page context the path is empty, so only the general checks answer. */
  lemma NoContextGeneralHelp(words: seq<string>)
    ensures HelperFallback.PagePath(Obj(map[])) == Ok(HelperFallback.Path(""))
    ensures HelperFallback.Answer(words, HelperFallback.Path(""), Undefined) == HelperFallback.GeneralHelp(words)
  {
  }

  /**
   * When the service fails, a string message with text gets the canned
   * answer for the trimmed message; without a page context that is a
   * general-help answer.
   */
  lemma ServiceFailureFallsBack(message: string, pageContext: Value, call: Call)
    requires ResponseField(call).None?
    requires TrimJs(message) != ""
    requires !Truthy(pageContext)
    ensures HandleRequest(Str(message), pageContext, call) == Replied(CannedFor(TrimJs(message), HelperFallback.Path(""), Undefined))
    ensures CannedHelp(HandleRequest(Str(message), pageContext, call).response)
      == HelperFallback.GeneralHelp(HelperFallback.Words(TrimJs(message)))
  {
    TrimmedTextNonEmpty(message);
    NoContextGeneralHelp(HelperFallback.Words(TrimJs(message)));
    assert Or(pageContext, Obj(map[])) == Obj(map[]);
    assert HelperFallback.ProductName(Obj(map[])) == Undefined;
  }

  /** Messages that differ only in surrounding white space get the same answer. */
  lemma SurroundingSpaceIgnored(m1: string, m2: string, pageContext: Value, call: Call)
    requires TrimJs(m1) == TrimJs(m2) != ""
    ensures HandleRequest(Str(m1), pageContext, call) == HandleRequest(Str(m2), pageContext, call)
  {
    ForwardsTrimmed(m1, pageContext, call);
    ForwardsTrimmed(m2, pageContext, call);
  }

  /** A string message with text is forwarded trimmed, with `pageContext || {}`. */
  lemma ForwardsTrimmed(m: string, pageContext: Value, call: Call)
    requires TrimJs(m) != ""
    ensures HandleRequest(Str(m), pageContext, call) == Forward(call, TrimJs(m), Or(pageContext, Obj(map[])))
  {
    TrimmedTextNonEmpty(m);
  }

  /** A string whose trimmed form has text has text itself. */
  lemma TrimmedTextNonEmpty(s: string)
    requires TrimJs(s) != ""
    ensures s != ""
  {
  }

  /** A client whose window opened at `start` gets at most 10 calls through before 30 seconds are over. */
  lemma AtMostTenPerWindow(table: map<string, RateLimit.Entry>, key: string, start: int, times: seq<int>)
    requires forall i :: 0 <= i < |times| ==> times[i] - start <= 30000
    ensures var first := RateLimit.Step(table, key, start, RateLimit.HelperLimits);
      first.0[key] == RateLimit.Entry(1, start) ==> 1 + RateLimit.Run(first.0, key, times, RateLimit.HelperLimits).1 <= 10
  {
    RateLimit.AtMostLimitPerWindow(table, key, start, times, RateLimit.HelperLimits);
  }
}
