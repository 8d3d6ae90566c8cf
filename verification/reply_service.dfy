/**
 * The seller-reply service end to end (docker/bitnet-ai/app.py,
 * `generate_response` and the `/chat` endpoint). The language model itself
 * is not modelled: what it did is a `Generation` value, either no model
 * loaded, a call that raised, or the decoded output text.
 *
 * Every failure inside `generate_response` is caught and answered with the
 * canned reply; only a failure of the canned reply itself escapes, and the
 * endpoint turns that into status 500.
 */
module ReplyService {
  import opened Wrappers
  import opened Text
  import opened Py
  import SellerPrompt
  import ReplyCleaner
  import ReplyValidator
  import SellerFallback

  /** What the model call produced. */
  datatype Generation = Unavailable | Failed | Generated(output: string)

  /** The reply given: the model's cleaned text, or a canned reply. */
  datatype Reply = ModelText(text: string) | CannedText(canned: SellerFallback.Canned)

  /** The reply as text. */
  function ReplyText(r: Reply): (s: string)
    ensures r.ModelText? ==> s == r.text
  {
    match r
    case ModelText(t) => t
    case CannedText(c) => SellerFallback.Render(c)
  }

  /** The canned reply, as a reply. */
  function Fallback(message: string, info: Dict): (r: Result<Reply, Raised>)
    ensures r.Ok? ==> r.value.CannedText?
    ensures r.Err? <==> SellerFallback.FallbackResponse(message, info).Err?
  {
    match SellerFallback.FallbackResponse(message, info)
    case Ok(c) => Ok(CannedText(c))
    case Err(e) => Err(e)
  }

  /** The cleaned reply cut out of the model's output, for a prompt that was built. */
  function Candidate(output: string, prompt: string, seller: string): (r: string)
    ensures |r| <= ReplyCleaner.MaxLength + 1
  {
    ReplyCleaner.CleanStrict(SellerPrompt.ExtractReply(output, prompt, seller))
  }

  /** Whether the model's reply is used rather than the canned one, given the prompt-building outcome. */
  predicate Accepted(gen: Generation, prompt: Result<string, Raised>, seller: string) {
    gen.Generated? && prompt.Ok? && ReplyValidator.IsValidResponse(Candidate(gen.output, prompt.value, seller))
  }

  /**
   * The body of `generate_response` once the prompt has been built (or has
   * raised): a missing model, a raising prompt, a failed model call, a reply
   * the validator rejects and an empty reply all lead to the canned reply.
   */
  function Respond(gen: Generation, prompt: Result<string, Raised>, message: string, info: Dict, seller: string)
    : (r: Result<Reply, Raised>)
    ensures r.Ok? && r.value.ModelText? ==> ReplyValidator.IsValidResponse(r.value.text)
    ensures r.Err? ==> SellerFallback.FallbackResponse(message, info).Err?
  {
    match gen
    case Unavailable => Fallback(message, info)
    case Failed => Fallback(message, info)
    case Generated(output) =>
      match prompt
      case Err(_) => Fallback(message, info)
      case Ok(p) =>
        var reply := Candidate(output, p, seller);
        if !ReplyValidator.IsValidResponse(reply) then Fallback(message, info)
        else if reply != "" then Ok(ModelText(reply))
        else Fallback(message, info)
  }

  /** The service: build the prompt, then respond. */
  function GenerateResponse(gen: Generation, message: string, info: Dict, seller: string): Result<Reply, Raised> {
    Respond(gen, SellerPrompt.CreateContextPrompt(message, info, seller), message, info, seller)
  }

  /** The reply is the model's exactly when it is accepted, and the canned reply otherwise. */
  lemma ReplySource(gen: Generation, prompt: Result<string, Raised>, message: string, info: Dict, seller: string)
    ensures Accepted(gen, prompt, seller) ==>
      Respond(gen, prompt, message, info, seller) == Ok(ModelText(Candidate(gen.output, prompt.value, seller)))
    ensures !Accepted(gen, prompt, seller) ==> Respond(gen, prompt, message, info, seller) == Fallback(message, info)
  {
    if Accepted(gen, prompt, seller) {
      ReplyValidator.ValidIsLongEnough(Candidate(gen.output, prompt.value, seller));
    }
  }

  /** Whatever reply is given has text, and a model reply fits the cleaner's bound. */
  lemma ReplyNonEmpty(gen: Generation, prompt: Result<string, Raised>, message: string, info: Dict, seller: string)
    requires Respond(gen, prompt, message, info, seller).Ok?
    ensures |ReplyText(Respond(gen, prompt, message, info, seller).value)| > 0
    ensures Respond(gen, prompt, message, info, seller).value.ModelText? ==>
      |Respond(gen, prompt, message, info, seller).value.text| <= ReplyCleaner.MaxLength + 1
  {
    ReplySource(gen, prompt, message, info, seller);
    var r := Respond(gen, prompt, message, info, seller).value;
    if r.ModelText? {
      ReplyValidator.ValidIsLongEnough(r.text);
    }
  }

  /** The service raises exactly when the canned reply raises and the model's reply is not used. */
  lemma RaisesIff(gen: Generation, prompt: Result<string, Raised>, message: string, info: Dict, seller: string)
    ensures Respond(gen, prompt, message, info, seller).Err? <==>
      SellerFallback.FallbackResponse(message, info).Err? && !Accepted(gen, prompt, seller)
  {
    ReplySource(gen, prompt, message, info, seller);
  }

  /** With no model, or when product fields make the prompt raise, the canned reply is given. */
  lemma NoModelFallsBack(gen: Generation, message: string, info: Dict, seller: string)
    requires !gen.Generated? || SellerPrompt.PromptRaises(info)
    ensures GenerateResponse(gen, message, info, seller) == Fallback(message, info)
  {
  }

  /**
   * When the model echoes the prompt and continues with text holding no new
   * seller marker, the customer gets that continuation, stripped and cleaned,
   * as long as the validator accepts it.
   */
  lemma EchoedPromptReply(message: string, info: Dict, seller: string, cont: string)
    requires !SellerPrompt.PromptRaises(info)
    requires ':' !in seller
    requires !Contains(" " + cont, SellerPrompt.Marker(seller))
    requires ReplyValidator.IsValidResponse(ReplyCleaner.CleanStrict(Strip(cont)))
    ensures var prompt := SellerPrompt.CreateContextPrompt(message, info, seller).value;
      GenerateResponse(Generated(prompt + cont), message, info, seller) == Ok(ModelText(ReplyCleaner.CleanStrict(Strip(cont))))
  {
    var built := SellerPrompt.CreateContextPrompt(message, info, seller);
    SellerPrompt.ExtractAfterPrompt(message, info, seller, cont);
    EchoAccepted(built, message, info, seller, cont);
  }

  /** The step of the round trip that does not depend on the prompt's text. */
  lemma EchoAccepted(built: Result<string, Raised>, message: string, info: Dict, seller: string, cont: string)
    requires built.Ok?
    requires SellerPrompt.ExtractReply(built.value + cont, built.value, seller) == Strip(cont)
    requires ReplyValidator.IsValidResponse(ReplyCleaner.CleanStrict(Strip(cont)))
    ensures Respond(Generated(built.value + cont), built, message, info, seller)
      == Ok(ModelText(ReplyCleaner.CleanStrict(Strip(cont))))
  {
    assert Candidate(built.value + cont, built.value, seller) == ReplyCleaner.CleanStrict(Strip(cont));
    assert Accepted(Generated(built.value + cont), built, seller);
    ReplySource(Generated(built.value + cont), built, message, info, seller);
  }

  /** The endpoint's answer: the reply with confidence 0.9, or status 500. */
  datatype ChatAnswer = Answer(reply: Reply, confidence: real) | ServerError(status: nat, detail: string)

  /** The endpoint for an outcome of the service. */
  function Endpoint(outcome: Result<Reply, Raised>): (a: ChatAnswer)
    ensures a.Answer? <==> outcome.Ok?
    ensures a.Answer? ==> a.reply == outcome.value && a.confidence == 0.9
    ensures a.ServerError? ==> a.status == 500
  {
    match outcome
    case Ok(reply) => Answer(reply, 0.9)
    case Err(_) => ServerError(500, "Internal server error")
  }

  /** The `/chat` endpoint. */
  function ChatEndpoint(gen: Generation, message: string, info: Dict, seller: string): ChatAnswer {
    Endpoint(GenerateResponse(gen, message, info, seller))
  }

  /** A successful answer always carries reply text. */
  lemma AnswerHasText(gen: Generation, prompt: Result<string, Raised>, message: string, info: Dict, seller: string)
    requires Endpoint(Respond(gen, prompt, message, info, seller)).Answer?
    ensures |ReplyText(Endpoint(Respond(gen, prompt, message, info, seller)).reply)| > 0
  {
    ReplyNonEmpty(gen, prompt, message, info, seller);
  }

  /** The endpoint fails exactly for a stock question about a product whose stock is a string, when the model reply is not used. */
  lemma EndpointFailsIff(gen: Generation, prompt: Result<string, Raised>, message: string, info: Dict, seller: string)
    ensures Endpoint(Respond(gen, prompt, message, info, seller)).ServerError? <==>
      SellerFallback.Classify(message) == SellerFallback.Stock && Get(info, "stock").PyStr?
      && !Accepted(gen, prompt, seller)
  {
    RaisesIff(gen, prompt, message, info, seller);
    SellerFallback.FallbackRaisesIff(message, info);
  }
}
