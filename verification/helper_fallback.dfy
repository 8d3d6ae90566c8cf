/**
 * The website helper's canned answers (server/routes/websiteHelper.js,
 * `generateFallbackResponse`). The page the visitor is on is checked first;
 * only when no page-specific answer applies do the general keyword checks run.
 * Keywords are compared with whole words of the lower-cased message split on
 * single spaces.
 *
 * No service answers the helper's `/website-helper` request, so in the
 * deployed system this router decides every helper reply.
 */
module HelperFallback {
  import opened Wrappers
  import opened Text
  import opened Js

  const ShopWords: set<string> := {"product", "shop", "buy", "browse"}
  const NavigateWords: set<string> := {"help", "navigate", "how"}
  const SearchWords: set<string> := {"filter", "search", "find"}
  const CompareWords: set<string> := {"compare", "difference", "which"}
  const CostWords: set<string> := {"price", "cost", "buy"}
  const SpecWords: set<string> := {"spec", "detail", "feature"}
  const ReviewWords: set<string> := {"review", "rating", "quality"}
  const AccountWords: set<string> := {"account", "login", "register", "signup"}
  const ShippingWords: set<string> := {"shipping", "delivery", "order"}
  const ReturnWords: set<string> := {"return", "refund", "warranty"}
  const PaymentWords: set<string> := {"payment", "secure", "safe"}

  /** The message's words: lower-cased, split on every single space (so punctuation stays attached). */
  function Words(message: string): seq<string> {
    Split(ToLower(message), ' ')
  }

  /** One of the words is one of the keywords. */
  predicate Mentions(words: seq<string>, keys: set<string>) {
    exists i :: 0 <= i < |words| && words[i] in keys
  }

  /**
   * `pageContext.currentPage || ''` as the checks see it: a string, or an
   * array, whose `includes` is `Array.prototype.includes`.
   */
  datatype Page = Path(s: string) | Listed(items: seq<Value>)

  /**
   * `pagePath.includes(marker)`: a substring test on a string; on an array,
   * a test whether some element is the string `marker` itself.
   */
  predicate Includes(page: Page, marker: string) {
    match page
    case Path(s) => Contains(s, marker)
    case Listed(items) => Str(marker) in items
  }

  /** The home page is recognised only by an exact path; `===` never holds for an array. */
  predicate OnHome(page: Page) {
    page == Path("/") || page == Path("/home")
  }

  /** The answers the router can give. */
  datatype Help =
    | Browse | Navigate
    | FilterTips | CompareTips
    | PriceOf(name: Value) | SpecsOf(name: Value) | Reviews
    | CheckoutTips | ProfileTips | DashboardTips
    | AccountTips | ShippingTips | ReturnTips | PaymentTips
    | DefaultHelp

  /** The product page's answers, which need a product name. */
  predicate ProductPageAnswer(h: Help) {
    h.PriceOf? || h.SpecsOf? || h.Reviews?
  }

  /** The page-specific answer, in the order the pages are checked; `None` lets the general checks run. */
  function PageHelp(words: seq<string>, path: Page, name: Value): Option<Help> {
    if OnHome(path) && Mentions(words, ShopWords) then Some(Browse)
    else if OnHome(path) && Mentions(words, NavigateWords) then Some(Navigate)
    else if Includes(path, "/products") && Mentions(words, SearchWords) then Some(FilterTips)
    else if Includes(path, "/products") && Mentions(words, CompareWords) then Some(CompareTips)
    else if Includes(path, "/product/") && Truthy(name) && Mentions(words, CostWords) then Some(PriceOf(name))
    else if Includes(path, "/product/") && Truthy(name) && Mentions(words, SpecWords) then Some(SpecsOf(name))
    else if Includes(path, "/product/") && Truthy(name) && Mentions(words, ReviewWords) then Some(Reviews)
    else if Includes(path, "/checkout") then Some(CheckoutTips)
    else if Includes(path, "/profile") then Some(ProfileTips)
    else if Includes(path, "/admin") || Includes(path, "/seller") then Some(DashboardTips)
    else None
  }

  /** The general checks: account, shipping, returns, payment, then the default. */
  function GeneralHelp(words: seq<string>): Help {
    if Mentions(words, AccountWords) then AccountTips
    else if Mentions(words, ShippingWords) then ShippingTips
    else if Mentions(words, ReturnWords) then ReturnTips
    else if Mentions(words, PaymentWords) then PaymentTips
    else DefaultHelp
  }

  /** The answer for the words of a message on the page at `path`, with the product name the page reported. */
  function Answer(words: seq<string>, path: Page, name: Value): (h: Help)
    ensures ProductPageAnswer(h) ==> Includes(path, "/product/") && Truthy(name)
    ensures h.PriceOf? || h.SpecsOf? ==> h.name == name
  {
    PageHelp(words, path, name).GetOr(GeneralHelp(words))
  }

  /**
   * `pageContext.currentPage || ''`. A truthy number, boolean or object has
   * no `includes` method, so the first `includes` call, which every page
   * path other than the two home strings reaches, throws.
   */
  function PagePath(ctx: Value): (r: Result<Page, Thrown>)
    ensures r.Err? <==> Truthy(Prop(ctx, "currentPage")) && !Prop(ctx, "currentPage").Str? && !Prop(ctx, "currentPage").Arr?
    ensures !Truthy(Prop(ctx, "currentPage")) ==> r == Ok(Path(""))
    ensures Truthy(Prop(ctx, "currentPage")) && Prop(ctx, "currentPage").Str? ==> r == Ok(Path(Prop(ctx, "currentPage").s))
    ensures Prop(ctx, "currentPage").Arr? ==> r == Ok(Listed(Prop(ctx, "currentPage").items))
  {
    match Or(Prop(ctx, "currentPage"), Str(""))
    case Str(s) => Ok(Path(s))
    case Arr(items) => Ok(Listed(items))
    case _ => Err(TypeError)
  }

  /** `pageContext.productInfo?.name`. */
  function ProductName(ctx: Value): Value {
    Prop(Prop(ctx, "productInfo"), "name")
  }

  /** An answer whose text can be built: the price and spec answers render the product name into it. */
  predicate Renderable(h: Help) {
    h.PriceOf? || h.SpecsOf? ==> Renders(h.name)
  }

  /**
   * `generateFallbackResponse(message, pageContext)`, as the answer chosen.
   * It throws on a page path without `includes`, and on a price or spec
   * answer whose product name the template literal cannot turn into a string.
   */
  function GenerateFallbackResponse(message: string, ctx: Value): (r: Result<Help, Thrown>)
    ensures r.Err? <==>
      (PagePath(ctx).Err? || !Renderable(Answer(Words(message), PagePath(ctx).value, ProductName(ctx))))
    ensures r.Ok? ==> r.value == Answer(Words(message), PagePath(ctx).value, ProductName(ctx)) && Renderable(r.value)
  {
    match PagePath(ctx)
    case Ok(path) =>
      var h := Answer(Words(message), path, ProductName(ctx));
      if Renderable(h) then Ok(h) else Err(TypeError)
    case Err(e) => Err(e)
  }

  const PriceIntro: string := "For the "
  const PriceOutro: string :=
    ", you can see the current price and "
      + "availability on this page. Add it to "
      + "your cart and proceed to checkout when "
      + "you're ready to purchase."
  const SpecsIntro: string := "You're viewing the product details for "
  const SpecsOutro: string :=
    ". Scroll down to see full "
      + "specifications, customer reviews, and "
      + "related product recommendations."

  const BrowseText: string := "Welcome to Componentary! You can browse "
    + "our products by clicking 'Products' in "
    + "the navigation menu. We specialize in "
    + "PC components like graphics cards, "
    + "processors, motherboards, and more. Use "
    + "the search and filter options to find "
    + "exactly what you need."
  const NavigateText: string := "I can help you navigate Componentary! "
    + "Use the top navigation to browse "
    + "Products, or if you're a seller, you "
    + "can access your dashboard. Need to find "
    + "something specific? Try our search "
    + "feature or product filters."
  const FilterText: string := "On the products page, you can filter by "
    + "category, manufacturer, price range, "
    + "and ratings. Use the search box to find "
    + "specific items, and sort results by "
    + "price, name, or date. Each product "
    + "shows key specs and customer reviews."
  const CompareText: string := "To compare products, you can view "
    + "individual product pages to see "
    + "detailed specifications, reviews, and "
    + "ratings. Look at the technical "
    + "specifications section and customer "
    + "feedback to make informed decisions."
  const ReviewsText: string := "Customer reviews and ratings are shown "
    + "below the product description. These "
    + "provide real feedback from verified "
    + "buyers about product quality, "
    + "performance, and value."
  const CheckoutText: string := "On the checkout page, review your "
    + "items, enter shipping information, and "
    + "select your payment method. Make sure "
    + "all details are correct before "
    + "completing your order. You'll receive "
    + "an email confirmation once your order "
    + "is placed."
  const ProfileText: string := "In your profile, you can update "
    + "personal information, manage addresses, "
    + "view order history, and adjust "
    + "notification preferences. Keep your "
    + "profile updated for the best shopping "
    + "experience."
  const DashboardText: string := "This is your dashboard where you can "
    + "manage products, view orders, and "
    + "access analytics. Use the navigation "
    + "tabs to switch between different "
    + "management functions."
  const AccountText: string := "To create an account or log in, use the "
    + "buttons in the top right corner. Having "
    + "an account lets you track orders, save "
    + "favorites, and get personalized "
    + "recommendations."
  const ShippingText: string := "We offer fast shipping with most orders "
    + "shipping within 1-2 business days. You "
    + "can track your orders in your profile "
    + "under 'Order History'. Free shipping is "
    + "available on orders over $50."
  const ReturnText: string := "We have a 30-day return policy for most "
    + "items. Products come with manufacturer "
    + "warranties. You can start a return "
    + "process from your order history or "
    + "contact our support team."
  const PaymentText: string := "Componentary uses secure payment "
    + "processing. We accept major credit "
    + "cards and ensure all transactions are "
    + "encrypted and protected. Your payment "
    + "information is never stored on our "
    + "servers."
  const DefaultText: string := "I'm here to help you navigate "
    + "Componentary! I can assist with finding "
    + "products, understanding features, "
    + "account management, orders, and more. "
    + "What specific information are you "
    + "looking for?"

  /** The text of each answer that can be built. */
  function Render(h: Help): (r: string)
    requires Renderable(h)
    ensures |r| > 0
  {
    match h
    case Browse => BrowseText
    case Navigate => NavigateText
    case FilterTips => FilterText
    case CompareTips => CompareText
    case PriceOf(name) => PriceIntro + Display(name) + PriceOutro
    case SpecsOf(name) => SpecsIntro + Display(name) + SpecsOutro
    case Reviews => ReviewsText
    case CheckoutTips => CheckoutText
    case ProfileTips => ProfileText
    case DashboardTips => DashboardText
    case AccountTips => AccountText
    case ShippingTips => ShippingText
    case ReturnTips => ReturnText
    case PaymentTips => PaymentText
    case DefaultHelp => DefaultText
  }

  /** The price and spec answers show the product's name. */
  lemma NameShown(name: Value)
    requires Renders(name)
    ensures Contains(Render(PriceOf(name)), Display(name))
    ensures Contains(Render(SpecsOf(name)), Display(name))
  {
    var d := Display(name);
    assert d[0..|d|] == d;
    ContainsAt(d, d, 0);
    ContainsInfix(PriceIntro, d, PriceOutro, d);
    ContainsInfix(SpecsIntro, d, SpecsOutro, d);
  }

  /** Lower-casing keeps spaces where they are and adds none. */
  lemma LowerKeepsSpaces(s: string)
    ensures ' ' in ToLower(s) <==> ' ' in s
  {
    var l := ToLower(s);
    if ' ' in l {
      var i :| 0 <= i < |l| && l[i] == ' ';
      assert s[i] == ' ';
    }
    if ' ' in s {
      var i :| 0 <= i < |s| && s[i] == ' ';
      assert l[i] == ' ';
    }
  }

  /** A message without spaces is one word, so it matches a keyword only when it is exactly that keyword. */
  lemma SingleWordMatch(message: string, keys: set<string>)
    requires ' ' !in message
    ensures Words(message) == [ToLower(message)]
    ensures Mentions(Words(message), keys) <==> ToLower(message) in keys
  {
    LowerKeepsSpaces(message);
    SplitWithoutSeparator(ToLower(message), ' ');
    if Mentions(Words(message), keys) {
      var i :| 0 <= i < |Words(message)| && Words(message)[i] in keys;
      assert i == 0;
    }
    if ToLower(message) in keys {
      assert Words(message)[0] in keys;
    }
  }

  /**
   * "products?" on the home page is not the word "product": no home answer
   * is given and the general checks decide.
   */
  lemma PluralMissesProduct(message: string, name: Value)
    requires message == "products?"
    ensures Answer(Words(message), Path("/"), name) == GeneralHelp(Words(message))
  {
    assert ' ' !in message by {
      forall i | 0 <= i < |message| ensures message[i] != ' ' { }
    }
    assert ToLower(message) == message by {
      var l := ToLower(message);
      forall i | 0 <= i < |message| ensures l[i] == message[i] { }
    }
    SingleWordMatch(message, ShopWords);
    SingleWordMatch(message, NavigateWords);
    assert |message| == 9;
    HomeExactOnly(Words(message), Path("/"), name);
  }

  /** The two home paths are shorter than, and so contain none of, the other pages' path markers. */
  lemma HomeMatchesNoOtherPage(path: Page)
    requires OnHome(path)
    ensures !Includes(path, "/products") && !Includes(path, "/product/") && !Includes(path, "/checkout")
    ensures !Includes(path, "/profile") && !Includes(path, "/admin") && !Includes(path, "/seller")
  {
  }

  /**
   * The home answers need the exact home path; on the home page, a message
   * with no home keyword falls through to the general checks.
   */
  lemma HomeExactOnly(words: seq<string>, path: Page, name: Value)
    ensures Answer(words, path, name).Browse? || Answer(words, path, name).Navigate? ==> OnHome(path)
    ensures OnHome(path) && !Mentions(words, ShopWords) && !Mentions(words, NavigateWords) ==>
      Answer(words, path, name) == GeneralHelp(words)
  {
    if OnHome(path) {
      HomeMatchesNoOtherPage(path);
    }
  }

  /**
   * Off the home, product-list and product pages, the checkout, profile and
   * dashboard pages each get their fixed answer whatever the message says.
   */
  lemma FixedPageAnswers(words: seq<string>, path: Page, name: Value)
    requires !OnHome(path) && !Includes(path, "/products") && !Includes(path, "/product/")
    ensures Includes(path, "/checkout") ==> Answer(words, path, name) == CheckoutTips
    ensures !Includes(path, "/checkout") && Includes(path, "/profile") ==> Answer(words, path, name) == ProfileTips
    ensures (!Includes(path, "/checkout") && !Includes(path, "/profile")
      && (Includes(path, "/admin") || Includes(path, "/seller"))) ==> Answer(words, path, name) == DashboardTips
    ensures (!Includes(path, "/checkout") && !Includes(path, "/profile")
      && !Includes(path, "/admin") && !Includes(path, "/seller")) ==> Answer(words, path, name) == GeneralHelp(words)
  {
  }

  /**
   * An array page path matches a page marker only when one of its elements
   * is that marker itself: `["/checkout"]` gets the checkout answer, and
   * `["x"]`, like any array holding no marker, leaves the general checks to answer.
   */
  lemma ListedPageMatchesElements(message: string, items: seq<Value>)
    ensures var ctx := Obj(map["currentPage" := Arr(items)]);
      Str("/checkout") in items && Str("/products") !in items && Str("/product/") !in items ==>
        GenerateFallbackResponse(message, ctx) == Ok(CheckoutTips)
    ensures var ctx := Obj(map["currentPage" := Arr(items)]);
      (Str("/products") !in items && Str("/product/") !in items && Str("/checkout") !in items
        && Str("/profile") !in items && Str("/admin") !in items && Str("/seller") !in items) ==>
        GenerateFallbackResponse(message, ctx) == Ok(GeneralHelp(Words(message)))
  {
    var ctx := Obj(map["currentPage" := Arr(items)]);
    assert Prop(ctx, "currentPage") == Arr(items);
    if Str("/products") !in items && Str("/product/") !in items {
      FixedPageAnswers(Words(message), Listed(items), ProductName(ctx));
    }
  }

  /**
   * On a product page, a price question about a product whose name is an
   * object with its own `toString` throws, and so does one whose name is an
   * array holding such an object.
   */
  lemma UnrenderableNameThrows(message: string, path: string, info: map<string, Value>)
    requires message == "price" && path == "/product/x"
    requires "name" in info && !Renders(info["name"]) && Truthy(info["name"])
    ensures GenerateFallbackResponse(message, Obj(map["currentPage" := Str(path), "productInfo" := Obj(info)])).Err?
  {
    var ctx := Obj(map["currentPage" := Str(path), "productInfo" := Obj(info)]);
    assert Prop(ctx, "currentPage") == Str(path);
    assert PagePath(ctx) == Ok(Path(path));
    assert ProductName(ctx) == info["name"];
    assert ' ' !in message by {
      forall i | 0 <= i < |message| ensures message[i] != ' ' { }
    }
    assert ToLower(message) == message by {
      var l := ToLower(message);
      forall i | 0 <= i < |message| ensures l[i] == message[i] { }
    }
    SingleWordMatch(message, CostWords);
    assert Mentions(Words(message), CostWords);
    assert !OnHome(Path(path));
    assert !Contains(path, "/products") by {
      var sub := "/products";
      forall j ensures !OccursAt(path, sub, j) {
        if 0 <= j && j + |sub| <= |path| {
          assert path[j..j + |sub|][8] == path[j + 8] != sub[8];
        }
      }
      ContainsIff(path, sub);
    }
    assert Contains(path, "/product/") by {
      assert path[0..9] == "/product/";
      ContainsAt(path, "/product/", 0);
    }
    assert Answer(Words(message), Path(path), info["name"]) == PriceOf(info["name"]);
  }

  /** A general rule: the keywords that trigger it and its answer. */
  datatype Rule = Rule(keys: set<string>, help: Help)

  /** The general rules in the order they are tried. */
  const GeneralRules: seq<Rule> := [
    Rule(AccountWords, AccountTips),
    Rule(ShippingWords, ShippingTips),
    Rule(ReturnWords, ReturnTips),
    Rule(PaymentWords, PaymentTips)
  ]

  /** Reference reading of the general checks: the first rule whose keywords occur, else the default. */
  function FirstRule(rules: seq<Rule>, words: seq<string>): (h: Help)
    ensures h == DefaultHelp || exists k :: 0 <= k < |rules| && h == rules[k].help
    decreases |rules|
  {
    if rules == [] then DefaultHelp
    else if Mentions(words, rules[0].keys) then rules[0].help
    else FirstRule(rules[1..], words)
  }

  /** One step of the reference reading. */
  lemma FirstRuleCons(r: Rule, rest: seq<Rule>, words: seq<string>)
    ensures FirstRule([r] + rest, words) == if Mentions(words, r.keys) then r.help else FirstRule(rest, words)
  {
    assert ([r] + rest)[1..] == rest;
  }

  /** The general checks pick the first rule, in order, whose keywords the message contains. */
  lemma GeneralFollowsRules(words: seq<string>)
    ensures GeneralHelp(words) == FirstRule(GeneralRules, words)
  {
    var r4 := [Rule(PaymentWords, PaymentTips)];
    var r3 := [Rule(ReturnWords, ReturnTips)] + r4;
    var r2 := [Rule(ShippingWords, ShippingTips)] + r3;
    assert GeneralRules == [Rule(AccountWords, AccountTips)] + r2;
    FirstRuleCons(Rule(PaymentWords, PaymentTips), [], words);
    FirstRuleCons(Rule(ReturnWords, ReturnTips), r4, words);
    FirstRuleCons(Rule(ShippingWords, ShippingTips), r3, words);
    FirstRuleCons(Rule(AccountWords, AccountTips), r2, words);
  }

  /**
   * In a rule list with distinct answers, none of them the default, the
   * reading gives rule `k`'s answer exactly when the words trigger rule `k`
   * and no earlier rule.
   */
  lemma {:induction false} FirstRuleIsFirst(rules: seq<Rule>, words: seq<string>, k: nat)
    requires k < |rules|
    requires forall i :: 0 <= i < |rules| ==> rules[i].help != DefaultHelp
    requires forall i, j :: 0 <= i < j < |rules| ==> rules[i].help != rules[j].help
    ensures FirstRule(rules, words) == rules[k].help <==>
      Mentions(words, rules[k].keys) && forall i :: 0 <= i < k ==> !Mentions(words, rules[i].keys)
    decreases |rules|
  {
    var rest := rules[1..];
    if k == 0 {
      if !Mentions(words, rules[0].keys) {
        assert FirstRule(rules, words) == FirstRule(rest, words);
      }
    } else if Mentions(words, rules[0].keys) {
      assert rules[0].help != rules[k].help;
    } else {
      FirstRuleIsFirst(rest, words, k - 1);
      assert rest[k - 1] == rules[k];
      assert (forall i :: 0 <= i < k ==> !Mentions(words, rules[i].keys))
        <==> (forall i :: 0 <= i < k - 1 ==> !Mentions(words, rest[i].keys)) by {
        forall i | 0 <= i < k - 1 ensures rest[i] == rules[i + 1] { }
      }
    }
  }
}
