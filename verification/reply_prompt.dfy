/**
 * The prompt the seller-reply service gives the language model, and how the
 * seller's reply is cut out of the model's output (docker/bitnet-ai/app.py,
 * `create_context_prompt` and the extraction step of `generate_response`).
 *
 * Product fields of the wrong type make Python raise inside prompt building;
 * that is modelled as `Err(TypeError)`.
 */
module SellerPrompt {
  import opened Wrappers
  import opened Text
  import opened Py

  const Guidelines: string :=
    "STRICT GUIDELINES:\n"
    + "- Be helpful, professional, and knowledgeable\n"
    + "- Focus ONLY on product information, sales, and customer service\n"
    + "- Keep responses concise (1-2 sentences max)\n"
    + "- Do NOT go off-topic or discuss unrelated subjects\n"
    + "- Always stay in character as a seller\n"
    + "- Provide accurate information about "
    + "products when available"

  /** The role definition that opens every prompt. */
  function SystemPrompt(seller: string): string {
    "You are " + seller + ", a professional customer service "
    + "representative at Componentary, "
    + "an e-commerce platform specializing in PC components and technology products.\n\n"
    + Guidelines
  }

  const ContextHeader: string := "\nCURRENT PRODUCT CONTEXT:\n"

  /** Descriptions longer than this many characters are cut and marked with "...". */
  const DescriptionLimit: nat := 150

  /** The description as it is embedded: its first 150 characters and "..." when longer. */
  function ShortDescription(d: string): (r: string)
    ensures |d| <= DescriptionLimit ==> r == d
    ensures |d| > DescriptionLimit ==>
      |r| == DescriptionLimit + 3 && StartsWith(d, r[..DescriptionLimit]) && EndsWith(r, "...")
  {
    if |d| > DescriptionLimit then d[..DescriptionLimit] + "..." else d
  }

  /** The line for a plain field: present only when the field is truthy. */
  function FieldLine(info: Dict, key: string, caption: string): string {
    if Truthy(Get(info, key)) then caption + Str(Get(info, key)) + "\n" else ""
  }

  /** The description line; `len` of a truthy non-string raises. */
  function DescriptionLine(info: Dict): Result<string, Raised> {
    match Get(info, "description")
    case PyStr(d) => Ok(if d == "" then "" else "Description: " + ShortDescription(d) + "\n")
    case PyInt(i) => if i == 0 then Ok("") else Err(TypeError)
    case PyNone => Ok("")
  }

  /** The stock line: any non-`None` stock is reported; comparing a string with 0 raises. */
  function StockLine(info: Dict): Result<string, Raised> {
    match Get(info, "stock")
    case PyNone => Ok("")
    case PyInt(n) => Ok("Stock: " + (if n > 0 then "Available" else "Out of stock") + "\n")
    case PyStr(_) => Err(TypeError)
  }

  /** The product block of the prompt; empty exactly when `product_info` is empty. */
  function ProductContext(info: Dict): (r: Result<string, Raised>)
    ensures r.Err? <==> PromptRaises(info)
  {
    if info == map[] then Ok("")
    else
      match DescriptionLine(info)
      case Err(e) => Err(e)
      case Ok(desc) =>
        match StockLine(info)
        case Err(e) => Err(e)
        case Ok(stock) => Ok(ContextBlock(info, desc, stock))
  }

  /** The header, the plain fields, then the description and stock lines. */
  function ContextBlock(info: Dict, desc: string, stock: string): string {
    ContextHeader
    + FieldLine(info, "name", "Product: ")
    + FieldLine(info, "price", "Price: $")
    + FieldLine(info, "category", "Category: ")
    + desc + stock
  }

  /** Which inputs make prompt building raise. */
  predicate PromptRaises(info: Dict) {
    || (Get(info, "description").PyInt? && Get(info, "description").i != 0)
    || Get(info, "stock").PyStr?
  }

  /** The tail every prompt ends with: the customer's turn, then the seller's open turn. */
  function Turns(message: string, seller: string): string {
    "\n\nCustomer: " + message + "\n" + seller + ": "
  }

  /** A prompt assembled from its parts: the system text, the product block and the two turns. */
  function Assemble(system: string, ctx: string, message: string, seller: string): (r: string)
    ensures StartsWith(r, "\n" + system)
    ensures EndsWith(r, Turns(message, seller))
  {
    PrefixOfConcat("\n" + system, ctx, Turns(message, seller));
    SuffixOfConcat("\n" + system + ctx, Turns(message, seller));
    "\n" + system + ctx + Turns(message, seller)
  }

  /** A prompt for any system text, when the product block could be built. */
  function BuildPrompt(system: string, ctx: Result<string, Raised>, message: string, seller: string)
    : (r: Result<string, Raised>)
    ensures r.Err? <==> ctx.Err?
    ensures r.Ok? ==> StartsWith(r.value, "\n" + system) && EndsWith(r.value, Turns(message, seller))
  {
    match ctx
    case Err(e) => Err(e)
    case Ok(c) => Ok(Assemble(system, c, message, seller))
  }

  /** The whole prompt. */
  function CreateContextPrompt(message: string, info: Dict, seller: string): (r: Result<string, Raised>)
    ensures r.Err? <==> PromptRaises(info)
    ensures r.Ok? ==> StartsWith(r.value, "\n" + SystemPrompt(seller))
    ensures r.Ok? ==> EndsWith(r.value, Turns(message, seller))
  {
    BuildPrompt(SystemPrompt(seller), ProductContext(info), message, seller)
  }

  /** The product block is empty exactly for an empty `product_info`, and otherwise opens with its header. */
  lemma ContextPresentIffInfo(info: Dict)
    requires ProductContext(info).Ok?
    ensures ProductContext(info).value == "" <==> info == map[]
    ensures info != map[] ==> StartsWith(ProductContext(info).value, ContextHeader)
  {
    if info != map[] {
      var ctx := ProductContext(info).value;
      assert ctx[..|ContextHeader|] == ContextHeader;
    }
  }

  /** Whether a field counts as unset: `stock` only when `None`, the other fields when falsy. */
  predicate Unset(key: string, v: PyValue) {
    if key == "stock" then v.PyNone? else !Truthy(v)
  }

  /** Removing an unset field leaves every plain field line as it was. */
  lemma FieldLineIgnoresUnset(info: Dict, key: string, k: string, caption: string)
    requires key in info && Unset(key, info[key])
    ensures FieldLine(info, k, caption) == FieldLine(info - {key}, k, caption)
  {
    if k != key {
      assert Get(info, k) == Get(info - {key}, k);
    } else {
      assert !Truthy(Get(info, k)) by {
        if key == "stock" {
          assert Get(info, k).PyNone?;
        }
      }
    }
  }

  /** Removing an unset field leaves the description and stock lines as they were. */
  lemma LinesIgnoreUnset(info: Dict, key: string)
    requires key in info && Unset(key, info[key])
    ensures DescriptionLine(info) == DescriptionLine(info - {key})
    ensures StockLine(info) == StockLine(info - {key})
  {
    var rest := info - {key};
    assert Get(rest, key) == PyNone;
    if key != "description" {
      assert Get(info, "description") == Get(rest, "description");
    }
    if key != "stock" {
      assert Get(info, "stock") == Get(rest, "stock");
    }
  }

  /** An unset field contributes nothing: removing it leaves the prompt as it was, as long as something remains. */
  lemma UnsetFieldIgnored(info: Dict, key: string)
    requires key in info && Unset(key, info[key])
    requires info - {key} != map[]
    ensures ProductContext(info) == ProductContext(info - {key})
  {
    var rest := info - {key};
    LinesIgnoreUnset(info, key);
    FieldLineIgnoresUnset(info, key, "name", "Product: ");
    FieldLineIgnoresUnset(info, key, "price", "Price: $");
    FieldLineIgnoresUnset(info, key, "category", "Category: ");
    if DescriptionLine(info).Ok? && StockLine(info).Ok? {
      var desc := DescriptionLine(info).value;
      var stock := StockLine(info).value;
      assert ContextBlock(info, desc, stock) == ContextBlock(rest, desc, stock);
    }
  }

  /** Stock is reported as available exactly when it is a positive integer; zero and negatives read "Out of stock". */
  lemma StockReported(info: Dict, n: int)
    requires info != map[] && !PromptRaises(info)
    requires Get(info, "stock") == PyInt(n)
    ensures ProductContext(info).Ok?
    ensures EndsWith(ProductContext(info).value, "Stock: " + (if n > 0 then "Available" else "Out of stock") + "\n")
  {
    var line := "Stock: " + (if n > 0 then "Available" else "Out of stock") + "\n";
    var desc := DescriptionLine(info).value;
    assert ProductContext(info).value == ContextBlock(info, desc, line);
    SuffixOfConcat(ContextHeader + FieldLine(info, "name", "Product: ") + FieldLine(info, "price", "Price: $")
      + FieldLine(info, "category", "Category: ") + desc, line);
  }

  /** A long description appears cut to 150 characters followed by "...". */
  lemma LongDescriptionCut(info: Dict, d: string)
    requires !PromptRaises(info)
    requires Get(info, "description") == PyStr(d) && |d| > DescriptionLimit
    ensures ProductContext(info).Ok?
    ensures Contains(ProductContext(info).value, "Description: " + d[..DescriptionLimit] + "...")
  {
    assert info != map[] by {
      assert "description" in info;
    }
    var cut := "Description: " + d[..DescriptionLimit] + "...";
    var line := cut + "\n";
    assert DescriptionLine(info) == Ok(line) by {
      assert ShortDescription(d) == d[..DescriptionLimit] + "...";
      assert "Description: " + ShortDescription(d) + "\n" == line;
    }
    var head := ContextHeader + FieldLine(info, "name", "Product: ") + FieldLine(info, "price", "Price: $")
      + FieldLine(info, "category", "Category: ");
    var stock := StockLine(info).value;
    assert ProductContext(info).value == head + line + stock;
    assert line[0..|cut|] == cut;
    ContainsAt(line, cut, 0);
    ContainsInfix(head, line, stock, cut);
  }

  /** The marker that precedes the seller's turn in the model's output. */
  function Marker(seller: string): (r: string)
    ensures |r| > 0 && r[|r| - 1] == ':'
  {
    seller + ":"
  }

  /**
   * The reply cut out of the model's output: the text after the last
   * "<seller>:" when there is one, otherwise everything after the prompt,
   * stripped of surrounding whitespace.
   */
  function ExtractReply(output: string, prompt: string, seller: string): string {
    var m := Marker(seller);
    Strip(if Contains(output, m) then LastPiece(output, m) else DropPrefix(output, |prompt|))
  }

  /** The extracted reply never holds the seller's marker when the output did hold it. */
  lemma ExtractedHasNoMarker(output: string, prompt: string, seller: string)
    requires Contains(output, Marker(seller))
    ensures !Contains(ExtractReply(output, prompt, seller), Marker(seller))
  {
    var m := Marker(seller);
    LastPieceSpec(output, m);
    if Contains(ExtractReply(output, prompt, seller), m) {
      TrimContains(LastPiece(output, m), IsSpace, m);
      assert false;
    }
  }

  /** Extraction from an echoed prompt, for any system text. */
  lemma ExtractAfterAssembled(system: string, ctx: string, message: string, seller: string, cont: string)
    requires ':' !in seller
    requires !Contains(" " + cont, Marker(seller))
    ensures var prompt := Assemble(system, ctx, message, seller);
      ExtractReply(prompt + cont, prompt, seller) == Strip(cont)
  {
    var prompt := Assemble(system, ctx, message, seller);
    var m := Marker(seller);
    var before := "\n" + system + ctx + "\n\nCustomer: " + message + "\n";
    assert prompt + cont == before + m + (" " + cont);
    assert LastPiece(prompt + cont, m) == " " + cont by {
      assert m[..|m| - 1] == seller;
      LastPieceAfterMarker(before, m, " " + cont);
    }
    assert Contains(prompt + cont, m) by {
      assert OccursAt(before + m + (" " + cont), m, |before|);
      ContainsAt(prompt + cont, m, |before|);
    }
    TrimSkipsLeading(' ', cont, IsSpace);
  }

  /**
   * Round trip: when the model echoes the prompt and continues with text that
   * holds no new "<seller>:" marker, extraction returns exactly that
   * continuation, stripped. A seller name holding ':' breaks this, because
   * the marker's last character is then not unique in it.
   */
  lemma ExtractAfterPrompt(message: string, info: Dict, seller: string, cont: string)
    requires CreateContextPrompt(message, info, seller).Ok?
    requires ':' !in seller
    requires !Contains(" " + cont, Marker(seller))
    ensures var prompt := CreateContextPrompt(message, info, seller).value;
      ExtractReply(prompt + cont, prompt, seller) == Strip(cont)
  {
    ExtractAfterAssembled(SystemPrompt(seller), ProductContext(info).value, message, seller, cont);
    assert CreateContextPrompt(message, info, seller).value
      == Assemble(SystemPrompt(seller), ProductContext(info).value, message, seller);
  }
}
