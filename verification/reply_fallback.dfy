/**
 * The canned seller replies used whenever the language model is not used
 * or not trusted (docker/bitnet-ai/app.py, `_fallback_response`). The message
 * is lower-cased and stripped, then topics are tried in a fixed order; a
 * topic matches when any of its keywords occurs anywhere in the message, so
 * keywords match inside longer words.
 */
module SellerFallback {
  import opened Wrappers
  import opened Text
  import opened Py

  /** The topics, in the order they are tried; `General` is the default. */
  datatype Topic = Greeting | Price | Stock | Shipping | Quality | Returns | Comparison | Thanks | General

  /** The keywords of each topic. */
  function Keywords(t: Topic): seq<string> {
    match t
    case Greeting => ["hello", "hi", "hey", "good morning", "good afternoon"]
    case Price => ["price", "cost", "expensive", "cheap", "how much"]
    case Stock => ["stock", "available", "in stock", "out of stock"]
    case Shipping => ["shipping", "delivery", "ship", "when will it arrive"]
    case Quality => ["quality", "good", "best", "spec", "feature"]
    case Returns => ["return", "refund", "warranty", "guarantee"]
    case Comparison => ["compare", "difference", "better", "versus", "vs"]
    case Thanks => ["thank", "thanks"]
    case General => []
  }

  /** The order in which topics are tried. */
  const Priority: seq<Topic> := [Greeting, Price, Stock, Shipping, Quality, Returns, Comparison, Thanks]

  /** Whether any of `words` occurs in `text`. */
  predicate MentionsAny(text: string, words: seq<string>)
    decreases |words|
  {
    |words| > 0 && (Contains(text, words[0]) || MentionsAny(text, words[1..]))
  }

  /** `MentionsAny` holds exactly when some word of the list occurs in the text. */
  lemma {:induction false} MentionsAnyIff(text: string, words: seq<string>)
    ensures MentionsAny(text, words) <==> exists k :: 0 <= k < |words| && Contains(text, words[k])
    decreases |words|
  {
    if |words| > 0 {
      MentionsAnyIff(text, words[1..]);
      if MentionsAny(text, words[1..]) {
        var k :| 0 <= k < |words[1..]| && Contains(text, words[1..][k]);
        assert Contains(text, words[k + 1]);
      }
      if exists k :: 0 <= k < |words| && Contains(text, words[k]) {
        var k :| 0 <= k < |words| && Contains(text, words[k]);
        if k > 0 {
          assert words[1..][k - 1] == words[k];
        }
      }
    }
  }

  /** Whether `text` mentions topic `t`. */
  predicate Mentions(text: string, t: Topic) {
    MentionsAny(text, Keywords(t))
  }

  /** The text the keywords are looked for in. */
  function MessageText(message: string): string {
    Strip(Lower(message))
  }

  /** The topic the chain of checks settles on, as the source writes the chain. */
  function Classify(message: string): (r: Topic)
    ensures r != General ==> Mentions(MessageText(message), r)
    ensures r == General ==> forall k :: 0 <= k < |Priority| ==> !Mentions(MessageText(message), Priority[k])
  {
    var text := MessageText(message);
    if Mentions(text, Greeting) then Greeting
    else if Mentions(text, Price) then Price
    else if Mentions(text, Stock) then Stock
    else if Mentions(text, Shipping) then Shipping
    else if Mentions(text, Quality) then Quality
    else if Mentions(text, Returns) then Returns
    else if Mentions(text, Comparison) then Comparison
    else if Mentions(text, Thanks) then Thanks
    else General
  }

  /** The reference reading of the chain: the first topic of `order` that the text mentions. */
  function FirstMention(text: string, order: seq<Topic>): (r: Topic)
    ensures r == General || r in order
    decreases |order|
  {
    if |order| == 0 then General
    else if Mentions(text, order[0]) then order[0]
    else FirstMention(text, order[1..])
  }

  /** One step of the reference reading. */
  lemma FirstMentionCons(text: string, t: Topic, rest: seq<Topic>)
    ensures FirstMention(text, [t] + rest) == if Mentions(text, t) then t else FirstMention(text, rest)
  {
    assert ([t] + rest)[1..] == rest;
  }

  /** The chain of checks picks the first topic in priority order that the message mentions. */
  lemma ClassifyFollowsPriority(message: string)
    ensures Classify(message) == FirstMention(MessageText(message), Priority)
  {
    var text := MessageText(message);
    var p7: seq<Topic> := [Thanks];
    var p6 := [Comparison] + p7;
    var p5 := [Returns] + p6;
    var p4 := [Quality] + p5;
    var p3 := [Shipping] + p4;
    var p2 := [Stock] + p3;
    var p1 := [Price] + p2;
    assert Priority == [Greeting] + p1;
    FirstMentionCons(text, Thanks, []);
    FirstMentionCons(text, Comparison, p7);
    FirstMentionCons(text, Returns, p6);
    FirstMentionCons(text, Quality, p5);
    FirstMentionCons(text, Shipping, p4);
    FirstMentionCons(text, Stock, p3);
    FirstMentionCons(text, Price, p2);
    FirstMentionCons(text, Greeting, p1);
    assert [Thanks] + [] == p7;
  }

  /** A topic is chosen only when no topic before it in the order is mentioned. */
  lemma {:induction false} FirstMentionIsFirst(text: string, order: seq<Topic>, k: nat)
    requires k < |order|
    requires FirstMention(text, order) == order[k]
    requires forall i :: 0 <= i < |order| ==> order[i] != General
    requires forall i, j :: 0 <= i < j < |order| ==> order[i] != order[j]
    ensures Mentions(text, order[k])
    ensures forall i :: 0 <= i < k ==> !Mentions(text, order[i])
    decreases |order|
  {
    if !Mentions(text, order[0]) {
      assert k > 0;
      var rest := order[1..];
      assert FirstMention(text, rest) == rest[k - 1];
      FirstMentionIsFirst(text, rest, k - 1);
      forall i | 0 <= i < k ensures !Mentions(text, order[i]) {
        if i > 0 {
          assert order[i] == rest[i - 1];
        }
      }
    } else {
      assert order[k] == order[0];
      assert k == 0;
    }
  }

  const GreetingDefault: string := "Hello! Welcome to Componentary. How can "
    + "I assist you with your tech needs today?"
  const PriceDefault: string := "I'd be happy to discuss pricing. Which "
    + "specific product are you interested in?"
  const OutOfStock: string :=
    "This item is currently out of stock. I "
      + "can notify you when it becomes "
      + "available again. Would you like me to "
      + "do that?"
  const StockDefault: string := "Let me check our current inventory for "
    + "you. Which product are you asking about?"
  const ShippingReply: string :=
    "We offer fast shipping! Most orders "
      + "ship within 1-2 business days and "
      + "arrive within 2-5 business days. "
    + "Free shipping is available on orders "
      + "over $50."
  const QualityDefault: string :=
    "All our products are carefully selected "
      + "for quality. What specific features are "
      + "you looking for?"
  const ReturnsReply: string :=
    "We offer a 30-day return policy and "
      + "full manufacturer warranty on all "
      + "products. Your satisfaction is "
      + "guaranteed!"
  const ComparisonReply: string :=
    "I'd be happy to help you compare "
      + "products. What specific items are you "
      + "considering, and what features matter "
      + "most to you?"
  const ThanksReply: string := "You're very welcome! Is there anything "
    + "else I can help you with today?"
  const GeneralDefault: string :=
    "Thank you for contacting Componentary! "
      + "I'm here to help with any questions "
      + "about our tech products. "
    + "What can I assist you with?"

  /** The greeting for a named product. */
  function GreetingNamed(name: string): string {
    "Hello! I see you're interested in the " + name + ". How can I help you with this product today?"
  }

  const PriceIntro: string := "This product is priced at $"
  const PriceOutro: string :=
    ". It offers excellent value for its "
      + "features. Would you like to know more "
      + "about what's included?"

  /** The price reply for a known price. */
  function PriceNamed(price: string): string {
    PriceIntro + price + PriceOutro
  }

  /** The stock reply for a positive count. */
  function InStock(count: string): string {
    "Good news! This item is currently in "
      + "stock with " + count + " units available. Would you like to "
      + "place an order?"
  }

  /** The quality reply for a named product. */
  function QualityNamed(name: string): string {
    "The " + name + " is a high-quality product. Would you "
      + "like me to explain its key features and "
      + "specifications?"
  }

  /** The default reply for a named product. */
  function GeneralNamed(name: string): string {
    "Thanks for your interest in the " + name + "! How can I help you learn more about "
      + "this product?"
  }

  /** The product's name, when it is truthy. */
  function NameOf(info: Dict): Option<string> {
    if Truthy(Get(info, "name")) then Some(Str(Get(info, "name"))) else None
  }

  /** Which canned reply is given, with the product fields it embeds. */
  datatype Canned =
    | Hello(name: Option<string>)
    | Quote(price: Option<string>)
    | StockUnknown
    | Units(count: int)
    | SoldOut
    | ShippingTerms
    | QualityNote(name: Option<string>)
    | ReturnPolicy
    | CompareOffer
    | YoureWelcome
    | Closing(name: Option<string>)

  /** The text of a canned reply. */
  function Render(c: Canned): (r: string)
    ensures |r| > 0
  {
    match c
    case Hello(name) => (match name case Some(n) => GreetingNamed(n) case None => GreetingDefault)
    case Quote(price) => (match price case Some(p) => PriceNamed(p) case None => PriceDefault)
    case StockUnknown => StockDefault
    case Units(n) => InStock(IntToString(n))
    case SoldOut => OutOfStock
    case ShippingTerms => ShippingReply
    case QualityNote(name) => (match name case Some(n) => QualityNamed(n) case None => QualityDefault)
    case ReturnPolicy => ReturnsReply
    case CompareOffer => ComparisonReply
    case YoureWelcome => ThanksReply
    case Closing(name) => (match name case Some(n) => GeneralNamed(n) case None => GeneralDefault)
  }

  /** The canned reply; comparing a string stock with 0 raises. */
  function FallbackResponse(message: string, info: Dict): (r: Result<Canned, Raised>)
    ensures r.Ok? && r.value.Units? ==> r.value.count > 0 && Get(info, "stock") == PyInt(r.value.count)
    ensures r.Err? ==> Get(info, "stock").PyStr?
  {
    match Classify(message)
    case Greeting => Ok(Hello(NameOf(info)))
    case Price => Ok(Quote(if Truthy(Get(info, "price")) then Some(Str(Get(info, "price"))) else None))
    case Stock =>
      (match Get(info, "stock")
       case PyNone => Ok(StockUnknown)
       case PyInt(n) => Ok(if n > 0 then Units(n) else SoldOut)
       case PyStr(_) => Err(TypeError))
    case Shipping => Ok(ShippingTerms)
    case Quality => Ok(QualityNote(NameOf(info)))
    case Returns => Ok(ReturnPolicy)
    case Comparison => Ok(CompareOffer)
    case Thanks => Ok(YoureWelcome)
    case General => Ok(Closing(NameOf(info)))
  }

  /** The text of the canned reply, when it does not raise. */
  function FallbackText(message: string, info: Dict): (r: Result<string, Raised>)
    ensures r.Ok? ==> |r.value| > 0
    ensures r.Err? <==> FallbackResponse(message, info).Err?
  {
    match FallbackResponse(message, info)
    case Ok(c) => Ok(Render(c))
    case Err(e) => Err(e)
  }

  /** The canned reply raises exactly for a stock question about a product whose stock is a string. */
  lemma FallbackRaisesIff(message: string, info: Dict)
    ensures FallbackResponse(message, info).Err? <==> Classify(message) == Stock && Get(info, "stock").PyStr?
  {
  }

  /** A stock question reports the count exactly when stock is positive, and "out of stock" for zero or less. */
  lemma StockReply(message: string, info: Dict, n: int)
    requires Classify(message) == Stock && Get(info, "stock") == PyInt(n)
    ensures FallbackResponse(message, info) == Ok(if n > 0 then Units(n) else SoldOut)
  {
  }

  /** The in-stock reply states the count. */
  lemma UnitsShowCount(n: int)
    ensures Contains(Render(Units(n)), IntToString(n))
  {
    var count := IntToString(n);
    var head := "Good news! This item is currently in "
      + "stock with ";
    var tail := " units available. Would you like to "
      + "place an order?";
    assert Render(Units(n)) == head + count + tail;
    assert count[0..|count|] == count;
    ContainsAt(count, count, 0);
    ContainsInfix(head, count, tail, count);
  }

  /** A price question quotes the price exactly when it is truthy. */
  lemma PriceReply(message: string, info: Dict)
    requires Classify(message) == Price
    ensures FallbackResponse(message, info).Ok? && FallbackResponse(message, info).value.Quote?
    ensures FallbackResponse(message, info).value.price.Some? <==> Truthy(Get(info, "price"))
    ensures Truthy(Get(info, "price")) ==> FallbackResponse(message, info).value.price.value == Str(Get(info, "price"))
  {
  }

  /** A quoted price appears in the reply, right after "priced at $"; without one, the generic pricing reply is given. */
  lemma QuoteShowsPrice(price: Option<string>)
    ensures price.Some? ==> Render(Quote(price)) == PriceIntro + price.value + PriceOutro
    ensures price.Some? ==> Contains(Render(Quote(price)), price.value)
    ensures price.None? ==> Render(Quote(price)) == PriceDefault
  {
    if price.Some? {
      var p := price.value;
      assert p[0..|p|] == p;
      ContainsAt(p, p, 0);
      ContainsInfix(PriceIntro, p, PriceOutro, p);
    }
  }

  /** A keyword occurring in the lower-cased message is found in the stripped text too. */
  lemma KeywordSeen(message: string, word: string)
    requires Contains(Lower(message), word)
    requires |word| > 0 && !IsSpace(word[0]) && !IsSpace(word[|word| - 1])
    ensures Contains(MessageText(message), word)
  {
    ContainsIff(Lower(message), word);
    var j :| OccursAt(Lower(message), word, j);
    TrimKeepsOccurrence(Lower(message), IsSpace, word, j);
  }

  /** "hi" is a greeting keyword. */
  lemma HiGreets(message: string)
    requires Contains(Lower(message), "hi")
    ensures Classify(message) == Greeting
  {
    KeywordSeen(message, "hi");
    assert Keywords(Greeting)[1] == "hi";
  }

  /**
   * Because keywords match inside words, any message that mentions shipping
   * ("ship" holds "hi") is answered with the greeting, never the shipping reply.
   */
  lemma ShippingQuestionsGreet(message: string)
    requires Contains(Lower(message), "ship")
    ensures Classify(message) == Greeting
    ensures FallbackResponse(message, map[]) == Ok(Hello(None))
  {
    assert "ship"[1..3] == "hi";
    ContainsAt("ship", "hi", 1);
    ContainsTrans(Lower(message), "ship", "hi");
    HiGreets(message);
  }

  /** "is this in stock?" is greeted, since "this" holds "hi"; the stock count is never given. */
  lemma StockQuestionGreets(message: string, info: Dict)
    requires message == "is this in stock?"
    requires Get(info, "name") == PyStr("RTX 4090")
    ensures Classify(message) == Greeting
    ensures FallbackResponse(message, info) == Ok(Hello(Some("RTX 4090")))
  {
    assert Contains(Lower(message), "hi") by {
      var l := Lower(message);
      assert message[4] == 'h' && message[5] == 'i';
      assert l[4] == AsciiLowerChar(message[4]) && l[5] == AsciiLowerChar(message[5]);
      assert l[4..6] == "hi";
      ContainsAt(l, "hi", 4);
    }
    HiGreets(message);
    assert NameOf(info) == Some("RTX 4090");
  }
}
