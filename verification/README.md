# Componentary storefront: the chat replies, routes and page logic, in Dafny

Componentary is a storefront for PC components. This project models the part
of it where most of the decisions are made:

- **The seller reply service** (`docker/bitnet-ai/app.py`). It builds a prompt
  from the customer's message and the product's fields. It cuts the seller's
  turn out of the model's output and cleans it to at most two sentences. A
  validator then accepts or rejects the reply. A missing model, a failing
  prompt, a rejected reply and an empty reply all fall back to a canned answer
  chosen by keyword.
- **The website helper route** (`server/routes/websiteHelper.js`). It has a
  per-address rate limiter of 10 calls per 30 seconds. It checks the message,
  forwards it to the helper service, and otherwise falls back to a
  page-specific canned answer.
- **The buyer–seller chat routes** (`server/routes/chat.js`). They have a
  per-user rate limiter of 30 calls per minute. A product context is sent to
  the AI service, whose failure is answered with a fixed text. Opening a chat
  marks its messages read, and each chat has an unread count. `/send` appends
  the sender's message, plus an AI reply when the recipient is a seller.
- **The admin routes** (`server/routes/admin.js`): role promotion and demotion,
  and the revenue aggregation.
- **The two cart routers.** `server/routes/cart.js` keeps the cart in a Redis
  hash field; `routes/cart.js` keeps it in a plain key.
- **The client logic:**
  - `hasRole` and `updateUser` of the auth context;
  - the two product filter panels;
  - the query-string handling and pagination of the product and home pages;
  - the profile form;
  - the order history badges and preview;
  - the checkout submit;
  - the quantity picker and buttons of the product page.

Storage, the clock, the network and the model are parameters: the chat or user
a lookup found, `now`, whether a request answered, and what the model
generated. Integers stand for prices and amounts.

JavaScript and Python values are modelled where the code's behaviour depends on
them:

- `Js.Value` covers `undefined`, `null`, booleans, numbers, `NaN`, strings,
  arrays and objects, with truthiness, `||`, `trim`, `parseInt`, property reads
  and the keys every object inherits from `Object.prototype`. An assignment
  to `__proto__` creates no property. `Js.Renders` says when `String(v)`
  gives a string: an object with its own `toString` (never a function in
  JSON) throws, and so does an array holding such an object.
- `Py.PyValue` covers `None`, `int` and `str`. With it, `len(3)` and `"5" > 0`
  raise, as they do in the service.

Modules follow the source files:

| module | source |
|---|---|
| `SellerPrompt`, `ReplyCleaner`, `ReplyValidator`, `SellerFallback`, `ReplyService` | the reply service |
| `RateLimit`, `ServiceCall`, `HelperFallback`, `HelperRoute` | the helper route; `RateLimit` also serves the chat routes |
| `ChatRoute` | the chat routes |
| `Admin` | the admin routes |
| `Cart` | both cart routers |
| `Auth` | the auth context |
| `ProductFilters` | the older filter panel |
| `SpecFilters` | `ProductFilters_new.jsx` |
| `CatalogQuery` | the product and home pages |
| `UserProfile`, `OrderHistory`, `Checkout`, `ProductDetail` | the remaining pages |
| `Wrappers`, `Text`, `Selection`, `Js`, `Py` | shared definitions |

Some behaviour follows the code rather than the usual description of it:

- A cleaned reply can be 201 characters long: the cut keeps up to 200
  characters and then appends `'.'`.
- Cleaning is not idempotent (`ReplyCleaner.CleanNotIdempotent`).
- The canned keyword match works on substrings, so "ship" and "this" both
  contain the greeting "hi".

## Model

| member | source | states |
|---|---|---|
| SellerPrompt.ShortDescription | docker/bitnet-ai/app.py:80-83 | a description of up to 150 characters is kept whole; a longer one becomes its first 150 characters followed by "..." |
| SellerPrompt.ProductContext | docker/bitnet-ai/app.py:72-86 | building the product block raises exactly for the field values on which `len` or `> 0` raise |
| SellerPrompt.Assemble | docker/bitnet-ai/app.py:88-93 | a prompt opens with the system text and ends with the customer's turn followed by the seller's open turn |
| SellerPrompt.BuildPrompt | docker/bitnet-ai/app.py:57-95 | prompt building fails exactly when the product block failed; otherwise the prompt has the system-text start and the turns ending |
| SellerPrompt.CreateContextPrompt | docker/bitnet-ai/app.py:57-95 | the whole prompt raises exactly for the raising product fields; otherwise it starts with the seller's role definition and ends with the two turns |
| SellerPrompt.ContextPresentIffInfo | docker/bitnet-ai/app.py:72-73 | the product block is empty exactly when `product_info` is empty, and otherwise opens with its header |
| SellerPrompt.UnsetFieldIgnored | docker/bitnet-ai/app.py:74-86 | removing a falsy field (for stock, only `None`) leaves the product block unchanged |
| SellerPrompt.FieldLineIgnoresUnset | docker/bitnet-ai/app.py:74-79 | an unset field does not change any plain field line |
| SellerPrompt.LinesIgnoreUnset | docker/bitnet-ai/app.py:80-86 | an unset field does not change the description or stock lines |
| SellerPrompt.StockReported | docker/bitnet-ai/app.py:84-86 | an integer stock is reported "Available" exactly when it is positive, and "Out of stock" otherwise |
| SellerPrompt.LongDescriptionCut | docker/bitnet-ai/app.py:81-83 | a description over 150 characters appears in the prompt cut to 150 characters followed by "..." |
| SellerPrompt.ExtractedHasNoMarker | docker/bitnet-ai/app.py:136-140 | when the output holds "<seller>:", the extracted reply no longer holds it |
| SellerPrompt.ExtractAfterAssembled | docker/bitnet-ai/app.py:136-140 | extraction from an echoed assembled prompt returns the stripped continuation, whatever the system text |
| SellerPrompt.ExtractAfterPrompt | docker/bitnet-ai/app.py:97-140 | round trip: when the model echoes the prompt and continues without a new seller marker, extraction returns the continuation, stripped |
| ReplyCleaner.KeepLines | docker/bitnet-ai/app.py:168-179 | every kept line is non-empty, has no role prefix and leaks no role |
| ReplyCleaner.KeepLinesAppend | docker/bitnet-ai/app.py:168-179 | lines before any stopping line are filtered independently of what follows |
| ReplyCleaner.KeepLinesStopsAt | docker/bitnet-ai/app.py:175-176 | the filter drops the first line that leaks a role, and every line after it |
| ReplyCleaner.KeepLinesFilters | docker/bitnet-ai/app.py:168-179 | without a stopping line, every line that passes the filter is kept, stripped |
| ReplyCleaner.KeepLinesAllKept | docker/bitnet-ai/app.py:168-179 | lines that are already clean pass the filter unchanged |
| ReplyCleaner.NoRolePrefix | docker/bitnet-ai/app.py:173 | a line whose first character is none of C, U and H has no role prefix |
| ReplyCleaner.Fragment | docker/bitnet-ai/app.py:196-197 | a trailing fragment yields at most one piece, and that piece is terminated |
| ReplyCleaner.FirstTerminator | docker/bitnet-ai/app.py:187-193 | the position found is the first '.', '!' or '?' of the text, or there is none |
| ReplyCleaner.Sentences | docker/bitnet-ai/app.py:182-199 | the reference sentence split yields at most two pieces, each ending in a terminator |
| ReplyCleaner.ScanIsSentences | docker/bitnet-ai/app.py:182-199 | the character-by-character scan computes exactly the reference sentence split |
| ReplyCleaner.ScanToEnd | docker/bitnet-ai/app.py:187-197 | with no terminator left, the scan ends with the fragment of everything read |
| ReplyCleaner.ScanToTerminator | docker/bitnet-ai/app.py:187-193 | the scan reads up to the next terminator in one step and finishes that sentence |
| ReplyCleaner.ScanFirst | docker/bitnet-ai/app.py:187-193 | the scan's first sentence ends at the first terminator |
| ReplyCleaner.ScanAfterFirst | docker/bitnet-ai/app.py:187-199 | after the first sentence, the scan yields either a second sentence or the trailing fragment |
| ReplyCleaner.Truncate | docker/bitnet-ai/app.py:202-203 | a reply of up to 200 characters is kept; a longer one is cut just before the last space of its first 200 characters and gets a '.', or keeps all 200 plus '.' when they hold no space |
| ReplyCleaner.CleanStrict | docker/bitnet-ai/app.py:159-205 | an empty reply stays empty, and a cleaned reply has at most 201 characters |
| ReplyCleaner.CleanIsSentences | docker/bitnet-ai/app.py:159-205 | a cleaned reply is the length-cut join of at most two sentences of the filtered text |
| ReplyCleaner.CleanEndsWithTerminator | docker/bitnet-ai/app.py:182-205 | a non-empty cleaned reply always ends with '.', '!' or '?' |
| ReplyCleaner.SentenceStageTerminated | docker/bitnet-ai/app.py:182-199 | the sentence stage yields either nothing or a terminated text |
| ReplyCleaner.TruncateTerminated | docker/bitnet-ai/app.py:202-203 | the length cut keeps a terminated text terminated |
| ReplyCleaner.CleanOneSentence | docker/bitnet-ai/app.py:159-205 | one short, clean sentence comes back from the cleaner unchanged |
| ReplyCleaner.CleanLeakingLine | docker/bitnet-ai/app.py:175-176 | a single line that leaks a role cleans to the empty reply |
| ReplyCleaner.CleanNotIdempotent | docker/bitnet-ai/app.py:168-179 | two lines that each pass the filter are joined into one line that leaks a role, so cleaning the cleaned reply yields "" |
| ReplyValidator.Distinct | docker/bitnet-ai/app.py:226-230 | the set of distinct words holds exactly the words of the list and is no larger |
| ReplyValidator.RatioTest | docker/bitnet-ai/app.py:229 | the integer test `5u < 3t` is exactly the ratio test `u / t < 0.6` on exact fractions |
| ReplyValidator.DiverseNotRepetitive | docker/bitnet-ai/app.py:226-230 | replies of at most three words, and replies whose words all differ, are never repetitive |
| ReplyValidator.ValidIsLongEnough | docker/bitnet-ai/app.py:209-210 | an accepted reply has at least 5 characters once stripped |
| ReplyValidator.DeniedRejected | docker/bitnet-ai/app.py:215-223 | a reply holding any denylisted phrase, in any ASCII letter case, is rejected |
| ReplyValidator.ValidIgnoresCase | docker/bitnet-ai/app.py:207-232 | a reply and its ASCII-lower-cased form are judged alike |
| SellerFallback.Classify | docker/bitnet-ai/app.py:236-283 | a chosen topic is mentioned by the message; the default is chosen only when no topic is mentioned |
| SellerFallback.ClassifyFollowsPriority | docker/bitnet-ai/app.py:239-283 | the chain of checks picks the first topic in priority order that the message mentions |
| SellerFallback.FirstMentionIsFirst | docker/bitnet-ai/app.py:239-283 | a topic is chosen exactly when it is mentioned and no earlier topic is |
| SellerFallback.MentionsAnyIff | docker/bitnet-ai/app.py:239-280 | a keyword check holds exactly when some keyword of the list occurs in the text |
| SellerFallback.FallbackResponse | docker/bitnet-ai/app.py:234-286 | an in-stock answer carries the positive integer stock; the canned reply raises only when stock is a string |
| SellerFallback.FallbackText | docker/bitnet-ai/app.py:234-286 | the canned text is never empty, and it raises exactly when the canned reply raises |
| SellerFallback.FallbackRaisesIff | docker/bitnet-ai/app.py:251-258 | the canned reply raises exactly for a stock question about a product whose stock is a string |
| SellerFallback.StockReply | docker/bitnet-ai/app.py:251-258 | a stock question reports the count exactly when the stock is positive, and "out of stock" otherwise |
| SellerFallback.UnitsShowCount | docker/bitnet-ai/app.py:253-255 | the in-stock reply shows the count |
| SellerFallback.PriceReply | docker/bitnet-ai/app.py:245-248 | a price question quotes the price exactly when the price is truthy |
| SellerFallback.QuoteShowsPrice | docker/bitnet-ai/app.py:245-248 | a quoted price appears in the reply right after "priced at $"; without a price, the generic pricing reply is given |
| SellerFallback.HiGreets | docker/bitnet-ai/app.py:239-242 | any message whose lower-cased text contains "hi" is greeted |
| SellerFallback.ShippingQuestionsGreet | docker/bitnet-ai/app.py:239-262 | a message that mentions "ship" is greeted, never given the shipping reply |
| SellerFallback.StockQuestionGreets | docker/bitnet-ai/app.py:239-258 | "is this in stock?" is greeted by product name, and its stock count is never given |
| ReplyService.Fallback | docker/bitnet-ai/app.py:149-157 | the fallback reply is the canned text, and it raises exactly when the canned reply raises |
| ReplyService.Candidate | docker/bitnet-ai/app.py:136-145 | the extracted and cleaned candidate has at most 201 characters |
| ReplyService.Respond | docker/bitnet-ai/app.py:97-157 | a model reply that is given always passes the validator; the service raises only when the canned reply raises |
| ReplyService.ReplySource | docker/bitnet-ai/app.py:99-157 | the reply is the cleaned model text exactly when that text is accepted, and the canned reply otherwise |
| ReplyService.ReplyNonEmpty | docker/bitnet-ai/app.py:145-157 | every reply given has text, and a model reply fits the cleaner's 201-character bound |
| ReplyService.RaisesIff | docker/bitnet-ai/app.py:149-157 | the service raises exactly when the model reply is not used and the canned reply raises |
| ReplyService.NoModelFallsBack | docker/bitnet-ai/app.py:99-101 | with no model, or with product fields that make the prompt raise, the canned reply is given |
| ReplyService.EchoedPromptReply | docker/bitnet-ai/app.py:97-153 | when the model echoes the prompt, the customer gets the continuation, stripped and cleaned, if the validator accepts it |
| ReplyService.EchoAccepted | docker/bitnet-ai/app.py:136-153 | an accepted continuation of any built prompt is given as the model reply |
| ReplyService.Endpoint | docker/bitnet-ai/app.py:298-312 | the endpoint answers with the reply at confidence 0.9 exactly when the service returned one, and with status 500 otherwise |
| ReplyService.AnswerHasText | docker/bitnet-ai/app.py:298-312 | a successful answer always carries reply text |
| ReplyService.EndpointFailsIff | docker/bitnet-ai/app.py:251-312 | the endpoint fails exactly for a stock question about a string stock, when the model reply is not used |
| RateLimit.Step | server/routes/websiteHelper.js:108-139 | a new key, or a key whose window has expired, starts a fresh window with count 1; a key at the limit is rejected and its entry kept; otherwise the count rises by one; other keys are untouched |
| RateLimit.StepKeepsBound | server/routes/websiteHelper.js:116-137 | with a positive limit, every count stays between 1 and the limit |
| RateLimit.RunWithinWindow | server/routes/chat.js:70-92 | within one window, each call either raises the count by one or is rejected, and the window start stays |
| RateLimit.AtMostLimitPerWindow | server/routes/websiteHelper.js:124-137 | after a call that opens a window, at most `limit` calls in total pass within that window |
| RateLimit.RunLeavesOthers | server/routes/chat.js:70-92 | calls by one key never change another key's entry |
| ServiceCall.ResponseField | server/routes/chat.js:26-31 | `data.response` is available exactly when the call answered OK with a body other than null or undefined |
| HelperFallback.Answer | server/routes/websiteHelper.js:36-105 | product answers come only on a product page with a truthy product name, and they carry that name |
| HelperFallback.PagePath | server/routes/websiteHelper.js:38 | a falsy page reads as "", a string as itself and an array as its elements; any other truthy value has no `includes` and throws |
| HelperFallback.GenerateFallbackResponse | server/routes/websiteHelper.js:36-105 | the fallback throws exactly when the page path is a truthy value other than a string or an array, or when the answer chosen is the price or specification answer and the product name cannot be turned into a string; otherwise it is the answer for the message's words, the page and the name |
| HelperFallback.ListedPageMatchesElements | server/routes/websiteHelper.js:51-84 | an array page path matches a page marker only through an element equal to it: `["/checkout"]` gets the checkout answer, and an array holding no marker gets general help |
| HelperFallback.NameShown | server/routes/websiteHelper.js:60-72 | the price and specification answers show the product's name, when that name can be turned into a string |
| HelperFallback.UnrenderableNameThrows | server/routes/websiteHelper.js:60-64 | a price question on a product page whose product name is an object with its own `toString`, or an array holding one, throws |
| HelperFallback.SingleWordMatch | server/routes/websiteHelper.js:37 | a message without spaces matches a keyword only when it is exactly that keyword |
| HelperFallback.PluralMissesProduct | server/routes/websiteHelper.js:42-49 | "products?" on the home page matches no home keyword, so the general checks decide |
| HelperFallback.HomeMatchesNoOtherPage | server/routes/websiteHelper.js:42-84 | the home paths contain none of the other pages' path markers |
| HelperFallback.HomeExactOnly | server/routes/websiteHelper.js:42-49 | home answers need the exact home path; on the home page, a message without a home keyword falls to the general checks |
| HelperFallback.FixedPageAnswers | server/routes/websiteHelper.js:74-84 | the checkout, profile and dashboard pages get their fixed answer whatever the message says, in that order of precedence |
| HelperFallback.GeneralFollowsRules | server/routes/websiteHelper.js:87-104 | the general checks pick the first rule, in order, whose keywords the message contains |
| HelperFallback.FirstRuleIsFirst | server/routes/websiteHelper.js:87-104 | rule k answers exactly when its keywords occur and no earlier rule's do |
| HelperRoute.ClientKey | server/routes/websiteHelper.js:113 | the limiter key is never empty: the ip, else the remote address, else "unknown" |
| HelperRoute.Fallback | server/routes/websiteHelper.js:28-31 | the fallback response is the canned answer for the message and page, and it throws exactly when the fallback function throws |
| HelperRoute.CallHelperService | server/routes/websiteHelper.js:8-33 | the service's `response` field when it answered, and the fallback otherwise |
| HelperRoute.HandleRequest | server/routes/websiteHelper.js:142-166 | status 400 exactly for a falsy message or one that is only white space; a truthy non-string message fails with 500 |
| HelperRoute.Forward | server/routes/websiteHelper.js:155-165 | a reply is given exactly when the service call or its fallback does not throw; status 500 is sent exactly when the service gave no answer and the fallback throws |
| HelperRoute.UnrenderableNameFails | server/routes/websiteHelper.js:28-31 | when the service fails, a price question about a product whose name cannot be turned into a string is answered with status 500 |
| HelperRoute.HelperChat | server/routes/websiteHelper.js:108-142 | the limiter decides first: a rejected call gets 429 and never reaches the handler; the table is the limiter's |
| HelperRoute.AtMostTenPerWindow | server/routes/websiteHelper.js:106-137 | a client whose window has opened gets at most 10 calls through within 30 seconds |
| HelperRoute.ServiceFailureFallsBack | server/routes/websiteHelper.js:28-31 | when the service fails and there is no page context, a message with text gets the general-help answer for the trimmed message |
| HelperRoute.SurroundingSpaceIgnored | server/routes/websiteHelper.js:153 | messages that differ only in surrounding white space get the same answer |
| HelperRoute.ForwardsTrimmed | server/routes/websiteHelper.js:153-158 | a message with text is forwarded trimmed, with `pageContext \|\| {}` |
| HelperRoute.NoContextGeneralHelp | server/routes/websiteHelper.js:38-105 | without a page context, only the general checks answer |
| ChatRoute.ProductContext | server/routes/chat.js:40-58 | `{}` without a product id, for an unknown product and on a lookup error; otherwise exactly the five context fields of the product |
| ChatRoute.CallAIService | server/routes/chat.js:12-37 | the service's `response` field when the call answered, and the fixed thank-you text otherwise |
| ChatRoute.MarkRead | server/routes/chat.js:109-114 | opening a chat marks every message from someone else read and leaves the user's own messages as they were |
| ChatRoute.UnreadCount | server/routes/chat.js:216-219 | the unread count never exceeds the number of messages |
| ChatRoute.UnreadCountAppend | server/routes/chat.js:216-219 | unread counts add up over consecutive stretches of a conversation |
| ChatRoute.UnreadCountZero | server/routes/chat.js:216-219 | the count is zero exactly when no message is unread by the user |
| ChatRoute.MarkReadClearsUnread | server/routes/chat.js:109-118 | after a user opens a chat, nothing in it is unread for them |
| ChatRoute.MarkReadLowersOthers | server/routes/chat.js:109-114 | opening a chat can only lower another participant's count |
| ChatRoute.MarkReadIdempotent | server/routes/chat.js:109-114 | opening a chat twice marks nothing more |
| ChatRoute.OpenChat | server/routes/chat.js:96-122 | no chat answers with no messages; an existing chat comes back as stored with its messages marked read for the user, so nothing is unread for them |
| ChatRoute.WithUnread | server/routes/chat.js:204-231 | each of the user's chats is listed with its unread count, in order |
| ChatRoute.LastTwo | server/routes/chat.js:192 | the last two messages, or all of them when there are fewer, and they are a suffix of the chat |
| ChatRoute.Send | server/routes/chat.js:125-134 | a missing recipient, and only that, gets 404 |
| ChatRoute.AiMessage | server/routes/chat.js:170-176 | the AI's message is sent in the seller's name, marked as the AI's, and unread |
| ChatRoute.SendAppends | server/routes/chat.js:136-197 | the old messages stay; the sender's unread message comes next; a seller recipient adds exactly one AI reply, anyone else nothing |
| ChatRoute.SendToSeller | server/routes/chat.js:160-192 | for a seller recipient, the sender's message and the AI reply, in that order, are the two latest messages |
| ChatRoute.SendUnreadCounts | server/routes/chat.js:148-186 | after `/send` between two different users, the recipient has exactly one more unread message; the sender has one more only when the recipient is a seller |
| ChatRoute.SendToSelfUnread | server/routes/chat.js:148-186 | a message sent to oneself is accepted, and the user's unread count does not change |
| ChatRoute.Limited | server/routes/chat.js:66-93 | every chat route runs behind the per-user limiter: a rejected call gets 429 and the handler's answer is not given |
| ChatRoute.AtMostThirtyPerMinute | server/routes/chat.js:62-92 | a user whose window has opened gets at most 30 calls through within a minute |
| Admin.Promote | server/routes/admin.js:77-81 | a customer becomes a seller and a seller becomes an admin; any other role stays |
| Admin.Demote | server/routes/admin.js:97-101 | an admin becomes a seller and a seller becomes a customer; any other role stays |
| Admin.StepsFollowRanks | server/routes/admin.js:70-108 | promotion climbs one rank up to the top and stops there; demotion is the mirror image; roles off the ladder never change |
| Admin.DemoteUndoesPromote | server/routes/admin.js:77-101 | demoting a promoted customer or seller gives the role back |
| Admin.PromoteUndoesDemote | server/routes/admin.js:77-101 | promoting a demoted seller or admin gives the role back |
| Admin.RoundTripsFailAtTheEnds | server/routes/admin.js:77-101 | the round trips fail exactly at the ends of the ladder |
| Admin.PromoteUser | server/routes/admin.js:70-88 | an unknown user gets 404; otherwise only the role changes |
| Admin.DemoteUser | server/routes/admin.js:90-108 | an unknown user gets 404; otherwise only the role changes |
| Admin.PromoteThenDemoteUser | server/routes/admin.js:70-108 | demoting the user a promotion saved restores a customer or seller |
| Admin.CompletedOrders | server/routes/admin.js:17 | the match stage keeps only completed orders |
| Admin.Aggregate | server/routes/admin.js:16-19 | the aggregation yields no group exactly when no order is completed |
| Admin.RevenueCountsCompleted | server/routes/admin.js:16-21 | the revenue is the sum over completed orders; it is 0 without any, and an order of another status never changes it |
| Admin.RevenueIsSum | server/routes/admin.js:16-21 | the group's total, or 0 without a group, is the sum over the completed orders |
| Admin.CompletedSnoc | server/routes/admin.js:17 | one more order joins the matched orders at the end exactly when it is completed |
| Admin.ComputeRevenue | server/routes/admin.js:16-21 | a one-pass reference computation of the aggregation's total revenue, equal to it |
| Cart.CartKey | server/routes/cart.js:7 | the key is `cart:` followed by the user id |
| Cart.IndexOf | server/routes/cart.js:28 | the position found is the first line for the product, or no line is for it |
| Cart.Add | server/routes/cart.js:18-45 | an existing product keeps the cart's length; a new product is appended with its quantity, which defaults to 1 |
| Cart.Remove | server/routes/cart.js:56 | no line of the product remains |
| Cart.AddMerges | server/routes/cart.js:28-31 | adding to a product in the cart changes only its first line, whose quantity grows by the amount added |
| Cart.AddKeepsUnique | server/routes/cart.js:28-34 | adding keeps each product to one line |
| Cart.AddRaisesTotal | server/routes/cart.js:28-34 | adding raises the number of pieces by exactly the quantity added |
| Cart.RemoveKeepsOrder | server/routes/cart.js:56 | removal keeps the other lines in their order |
| Cart.RemoveKeepsOthers | server/routes/cart.js:56 | removal keeps exactly the lines of other products |
| Cart.RemoveAbsent | server/routes/cart.js:56 | removing a product that is not in the cart changes nothing |
| Cart.RemoveUndoesNewAdd | server/routes/cart.js:28-56 | removing a product just added to a cart without it gives the cart back |
| Cart.ReadHash | server/routes/cart.js:9-11 | a missing hash, or a hash without `items`, reads as the empty cart |
| Cart.WriteHash | server/routes/cart.js:37 | the written cart reads back; other keys and the hash's other fields stay |
| Cart.HashAdd | server/routes/cart.js:18-45 | the stored cart after add is the added cart |
| Cart.HashRemove | server/routes/cart.js:47-67 | the stored cart after removal is the filtered cart |
| Cart.HashClear | server/routes/cart.js:69-78 | clearing deletes the key, so the cart reads as empty; other keys stay |
| Cart.ReadPlain | routes/cart.js:9-11 | an absent value reads as the empty cart |
| Cart.WritePlain | routes/cart.js:34 | the written cart reads back; every other key stays |
| Cart.PlainAdd | routes/cart.js:18-46 | the stored cart after add is the added cart |
| Cart.PlainRemove | routes/cart.js:49-69 | the stored cart after removal is the filtered cart |
| Cart.PlainClear | routes/cart.js:72-81 | clearing deletes the key, so the cart reads as empty; other keys stay |
| Cart.OtherUsersUntouched | routes/cart.js:8-75 | one user's add, remove and clear never change another user's cart |
| Cart.StoresAgree | server/routes/cart.js:18-78 | the two routers keep the same cart: from equal reads, add, remove and clear read back equal |
| Auth.LevelOf | client/src/contexts/AuthContext.jsx:97-104 | customer 1, seller 2, admin 3, anything else 0, except an inherited key: `[object Object]` for `__proto__`, the native text of `Object` for `constructor`, and the method's own native text otherwise |
| Auth.HasRole | client/src/contexts/AuthContext.jsx:94-107 | no user has no role; ranked roles compare by rank; a ranked role and an inherited key never meet each other |
| Auth.InheritedKeysCompareAsText | client/src/contexts/AuthContext.jsx:103-106 | two inherited keys compare by text: `__lookupGetter__` meets `constructor` but not `toString` |
| Auth.NoUserNoRole | client/src/contexts/AuthContext.jsx:95 | without a user there is no role |
| Auth.HasRoleByRank | client/src/contexts/AuthContext.jsx:94-107 | for role names that are not inherited keys, `hasRole` is exactly the comparison of ranks |
| Auth.AdminAndUnknown | client/src/contexts/AuthContext.jsx:103-106 | an admin meets every requirement but an inherited key; an unknown requirement is met by every user whose role is not an inherited key |
| Auth.HasRoleMonotone | client/src/contexts/AuthContext.jsx:94-107 | a user with a role has every role ranked no higher; a user whose role is an inherited key has none |
| Auth.Spread | client/src/contexts/AuthContext.jsx:88 | spreading an object copies its fields; spreading null, undefined, booleans and numbers copies nothing |
| Auth.UpdateUser | client/src/contexts/AuthContext.jsx:87-91 | the new user has the keys of both; the update's values win, and the rest keep the user's values |
| Auth.UpdateUserIdempotent | client/src/contexts/AuthContext.jsx:87-91 | applying the same update twice changes nothing more, and an empty update keeps the user's fields |
| ProductFilters.SafeFilters | client/src/components/ProductFilters.jsx:9 | an object's properties; an array's indices and `length`; `{}` for anything else |
| ProductFilters.CurrentValues | client/src/components/ProductFilters.jsx:36-37 | an array is taken as is, a falsy value gives `[]`, a string splits on commas, and any other truthy value throws |
| ProductFilters.CheckboxChange | client/src/components/ProductFilters.jsx:35-45 | the change is emitted for its filter type as the current values toggled and joined with commas, or '' when none remain; it throws exactly when reading the current values throws |
| ProductFilters.CheckboxRoundTrip | client/src/components/ProductFilters.jsx:35-45 | on a comma-separated filter the handler emits the toggled selection joined with commas, or '' when it is empty; for a value without a comma, reading the string back gives that selection |
| ProductFilters.StrsNext | client/src/components/ProductFilters.jsx:38-42 | checking and unchecking commute with turning strings into string values |
| ProductFilters.PriceChange | client/src/components/ProductFilters.jsx:27-33 | `min` and `max` emit their bound, with a falsy value as ''; any other type emits nothing |
| ProductFilters.ToggleSection | client/src/components/ProductFilters.jsx:19-21 | the section's flag becomes the negation of its truthiness; every other flag stays |
| ProductFilters.ToggleTwice | client/src/components/ProductFilters.jsx:19-21 | toggling a boolean flag twice restores it |
| Selection.Without | client/src/components/ProductFilters_new.jsx:31-35 | `filter(v => v !== x)` leaves no copy of x and never grows the list |
| Selection.WithoutKeepsOthers | client/src/components/ProductFilters_new.jsx:31-35 | the filter keeps exactly the elements other than x |
| Selection.WithoutAppend | client/src/components/ProductFilters_new.jsx:31-35 | the filter keeps the order of what it keeps |
| Selection.UncheckUndoesCheck | client/src/components/ProductFilters_new.jsx:31-56 | unchecking a value just checked, in a list without it, gives the list back |
| Selection.CommaList | client/src/components/ProductFilters_new.jsx:4-8 | the selection read from a string is empty exactly for '', and no piece holds a comma |
| Selection.CommaRoundTrip | client/src/components/ProductFilters_new.jsx:4-8 | reading back a written selection gives the selection, unless it is the single empty value |
| Selection.CommaListJoin | client/src/components/ProductFilters_new.jsx:22-26 | writing back a read selection gives the string |
| SpecFilters.ExtractSpecs | client/src/components/ProductFilters_new.jsx:13-20 | every `spec_` key becomes a specification filter with the prefix removed, keeping its value, except `spec___proto__`, whose assignment creates nothing |
| SpecFilters.Initial | client/src/components/ProductFilters_new.jsx:4-27 | categories, manufacturers and tags are read as comma lists, the prices and minimum rating as text, and the specification filters from the `spec_` keys |
| SpecFilters.EmitSpecs | client/src/components/ProductFilters_new.jsx:87-92 | each non-empty specification filter is emitted under `spec_` plus its name |
| SpecFilters.ApplyFilters | client/src/components/ProductFilters_new.jsx:78-94 | only core keys and `spec_` keys are emitted; each core filter exactly when it is set, with its value |
| SpecFilters.ClearedEmitsNothing | client/src/components/ProductFilters_new.jsx:96-106 | clearing emits no filter at all |
| SpecFilters.SpecsRoundTrip | client/src/components/ProductFilters_new.jsx:13-20 | reading back the emitted filters gives the form's specification filters without the empty ones and without one named `__proto__` |
| SpecFilters.CoreEmission | client/src/components/ProductFilters_new.jsx:81-86 | categories, prices and tags are emitted exactly when set, lists comma-joined |
| SpecFilters.MultiSelect | client/src/components/ProductFilters_new.jsx:58-76 | only the one name changes, and it is deleted exactly when unchecking leaves nothing |
| SpecFilters.MultiSelectRoundTrip | client/src/components/ProductFilters_new.jsx:58-76 | checking puts the value at the end of the name's list; unchecking leaves the list without it |
| SpecFilters.CategoryChange | client/src/components/ProductFilters_new.jsx:31-42 | the category is added or every copy removed; checking one while specification filters exist opens section '1' |
| SpecFilters.AccordionStaysDistinct | client/src/components/ProductFilters_new.jsx:37-41 | no accordion key is ever listed twice, and clearing resets to a distinct list |
| Selection.Toggle | client/src/components/ProductFilters_new.jsx:44-56 | checking appends the value; unchecking removes every copy; every other value is kept |
| SpecFilters.ManufacturerChange | client/src/components/ProductFilters_new.jsx:44-49 | only the manufacturers change, by the checkbox rule |
| SpecFilters.TagChange | client/src/components/ProductFilters_new.jsx:51-56 | only the tags change, by the checkbox rule |
| SpecFilters.UncheckRestoresForm | client/src/components/ProductFilters_new.jsx:44-56 | unchecking a manufacturer or tag just checked gives the form back |
| CatalogQuery.GetParam | client/src/pages/ProductsPage.jsx:33-36 | `params.get(name)` is the value of the first pair with that name, and absent exactly when no pair has it |
| CatalogQuery.ParseFilters | client/src/pages/ProductsPage.jsx:24-32 | every name but the reserved ones and `__proto__` (whose assignment creates nothing) becomes a filter with the value of its last pair |
| CatalogQuery.ParamOr | client/src/pages/HomePage.jsx:31-33 | the parameter when it is present and non-empty, the fallback when it is absent |
| CatalogQuery.ParseListing | client/src/pages/HomePage.jsx:22-36 | the filters come from the query, and absent sort and search take `createdAt`, `desc` and '' |
| CatalogQuery.ClearIsEmptyQuery | client/src/pages/ProductsPage.jsx:121-127 | clearing resets to exactly what an empty query string reads as |
| CatalogQuery.PageOf | client/src/pages/HomePage.jsx:87 | the page is never 0, and it is 1 when the parameter is absent |
| CatalogQuery.DropBlank | client/src/pages/ProductsPage.jsx:66 | exactly the parameters that are not '', null or undefined remain, unchanged |
| CatalogQuery.RequestParams | client/src/pages/ProductsPage.jsx:58-66 | the request has the page and limit 12, the search term, sort field and sort order each exactly when non-empty, each non-blank filter, and no other key |
| CatalogQuery.SetFilter | client/src/pages/ProductsPage.jsx:84-94 | a blank value or an empty array deletes the filter, anything else sets it; other filters stay |
| CatalogQuery.SetFilterIdempotent | client/src/pages/ProductsPage.jsx:84-94 | setting a filter twice to the same value is setting it once |
| CatalogQuery.SetFilterIsSent | client/src/pages/ProductsPage.jsx:58-94 | a filter that was set is sent with the next request exactly when it is not blank |
| CatalogQuery.SetParam | client/src/pages/ProductsPage.jsx:97-98 | after `params.set`, the name reads back as the value and every other name reads as before |
| CatalogQuery.Unnamed | client/src/pages/ProductsPage.jsx:97-98 | the pairs without the name: it reads as absent and every other name reads as before |
| CatalogQuery.QueryEditsReadBack | client/src/pages/ProductsPage.jsx:96-119 | search and sort read back as page 1 with the new term or sort; a page change reads back as that page |
| CatalogQuery.PageAfterSet | client/src/pages/ProductsPage.jsx:96-100 | setting a nonzero page reads back as that page |
| CatalogQuery.Window | client/src/pages/ProductsPage.jsx:282-301 | exactly the pages from `max(1, current - 2)` to the last page, at most five of them, in order |
| CatalogQuery.WindowSize | client/src/pages/ProductsPage.jsx:282-301 | five pages are shown when five fit after the start; on the last of five or more pages only three are |
| CatalogQuery.CurrentPageShown | client/src/pages/ProductsPage.jsx:282-301 | the current page is always in the window when it is a real page |
| CatalogQuery.PageList | client/src/pages/HomePage.jsx:179-190 | shown exactly when not loading and there is more than one page: every page from 1, the current one active |
| CatalogQuery.OneActivePage | client/src/pages/HomePage.jsx:182-190 | exactly one page is active when the current page exists, none otherwise |
| UserProfile.PathOf | client/src/pages/UserProfilePage.jsx:77-78 | a name with a dot is read as parent and child, and a name without one is a top-level field |
| UserProfile.InputChange | client/src/pages/UserProfilePage.jsx:75-91 | a dotted name replaces the parent with a copy in which only the child is set; any other name sets its field; other fields stay |
| UserProfile.InputChangeReadBack | client/src/pages/UserProfilePage.jsx:75-91 | the field shows what was typed, and inputs at other places keep what they showed |
| UserProfile.InputChangeIdempotent | client/src/pages/UserProfilePage.jsx:75-91 | typing the same value into the same input twice is typing it once |
| UserProfile.AddressOf | client/src/pages/UserProfilePage.jsx:56-62 | each of the five address fields is the stored value when truthy, and '' otherwise |
| UserProfile.PreferencesOf | client/src/pages/UserProfilePage.jsx:63-69 | the categories and both price bounds are the stored values when truthy, and `[]`, 0 and 1000 otherwise |
| UserProfile.LoadProfile | client/src/pages/UserProfilePage.jsx:43-73 | name and email are the stored values when truthy and '' otherwise, with the address and preferences read as above; a null or undefined profile throws |
| UserProfile.ZeroMaxBecomesDefault | client/src/pages/UserProfilePage.jsx:67 | a stored maximum of 0 is falsy and comes back as 1000 |
| UserProfile.LoadProfileStable | client/src/pages/UserProfilePage.jsx:53-69 | loading the form's own contents again gives the same form |
| UserProfile.InitialIsEmptyProfile | client/src/pages/UserProfilePage.jsx:9-26 | the empty starting form is what an empty profile loads as |
| UserProfile.CategoryToggle | client/src/pages/UserProfilePage.jsx:94-103 | a listed category is removed, any other appended, and everything else kept; a string list throws exactly when it already contains the text |
| UserProfile.CategoryToggleFlips | client/src/pages/UserProfilePage.jsx:94-103 | toggling flips whether the list holds the category |
| UserProfile.CategoryToggleTwice | client/src/pages/UserProfilePage.jsx:94-103 | toggling an absent category twice gives the form back |
| UserProfile.PriceRangeChange | client/src/pages/UserProfilePage.jsx:106-117 | the named bound becomes `parseInt(value)` and everything else is kept; without preferences it throws |
| UserProfile.CheckPassword | client/src/pages/UserProfilePage.jsx:151-161 | a mismatch is reported first, then fewer than 6 characters; a passing form sends the current and new passwords |
| UserProfile.SubmitPassword | client/src/pages/UserProfilePage.jsx:151-193 | a request is made exactly when validation passes; an accepted change clears and hides the form, and anything else keeps it |
| UserProfile.ClearedFormRejected | client/src/pages/UserProfilePage.jsx:179-181 | after a successful change, submitting the cleared form is rejected as too short |
| OrderHistory.StatusColor | client/src/pages/OrderHistoryPage.jsx:44-52 | "secondary" exactly for a status that is none of the four known ones |
| OrderHistory.StatusIcon | client/src/pages/OrderHistoryPage.jsx:54-62 | the hourglass exactly for a status that is none of the four known ones |
| OrderHistory.BadgesAgree | client/src/pages/OrderHistoryPage.jsx:44-62 | two statuses share a colour exactly when they share an icon, and distinct known statuses differ |
| OrderHistory.ReviewOnlyWhenDelivered | client/src/pages/OrderHistoryPage.jsx:145 | the review button appears exactly on orders whose badge is green |
| OrderHistory.LoadOrders | client/src/pages/OrderHistoryPage.jsx:24-42 | an OK array answer lists its orders; any other answer lists none; the error shows exactly for a failed request or a non-OK status |
| OrderHistory.PreviewOf | client/src/pages/OrderHistoryPage.jsx:236-251 | at most two products, a prefix of the list, and the count of the rest, shown only beyond two |
| OrderHistory.PreviewComplete | client/src/pages/OrderHistoryPage.jsx:236-251 | the listed products are every product exactly when no count is shown |
| Checkout.Gate | client/src/pages/CheckoutPage.jsx:29-52 | the login prompt exactly when not authenticated; then the empty-cart notice exactly for an empty cart |
| Checkout.PaymentOf | client/src/pages/CheckoutPage.jsx:69-73 | an accepted method maps to itself, an inherited key finds the inherited member, and anything else becomes credit card |
| Checkout.PaymentAccepted | client/src/pages/CheckoutPage.jsx:69-87 | unless the form holds an inherited key, an order carries an accepted method, and mapping it again changes nothing |
| Checkout.ItemsOf | client/src/pages/CheckoutPage.jsx:75-79 | one order line per cart entry, in order, with its id, quantity and price |
| Checkout.AddressOf | client/src/pages/CheckoutPage.jsx:81-86 | the street, city, country and zip code come from the form's address, city, country and postal code |
| Checkout.OrderOf | client/src/pages/CheckoutPage.jsx:74-89 | the order carries the cart's lines, the cart total, the address and the mapped method, and it is always marked paid |
| Checkout.OrderKeepsCart | client/src/pages/CheckoutPage.jsx:75-97 | the order lines are worth what the cart is worth, and their products are the ids the purchase record lists |
| Checkout.Submit | client/src/pages/CheckoutPage.jsx:59-107 | step 1 only moves on; the purchase is recorded exactly when the order was placed; the cart is cleared exactly when both succeed |
| Checkout.CartKeptOnFailure | client/src/pages/CheckoutPage.jsx:61-107 | a failed order never clears the cart or records a purchase, and step 1 never places an order |
| ProductDetail.Decrement | client/src/pages/ProductDetailPage.jsx:154 | one less, never below 1 |
| ProductDetail.Increment | client/src/pages/ProductDetailPage.jsx:166 | from a valid quantity, at least 2 |
| ProductDetail.Typed | client/src/pages/ProductDetailPage.jsx:160 | at least 1: the parsed number when it is positive, 1 for unparseable input |
| ProductDetail.QuantityRoundTrips | client/src/pages/ProductDetailPage.jsx:154-166 | `-` undoes `+`, `+` undoes `-` above 1, and typing a quantity's digits gives that quantity |
| ProductDetail.Run | client/src/pages/ProductDetailPage.jsx:154-166 | any run of picker actions keeps the quantity at least 1; a run of `+` adds its length |
| ProductDetail.QuantityStaysPositive | client/src/pages/ProductDetailPage.jsx:18 | from the initial quantity, the quantity stays at least 1 whatever the visitor does |
| ProductDetail.Delete | client/src/pages/ProductDetailPage.jsx:50-64 | nothing happens without confirmation; once confirmed, the page goes home exactly when the deletion succeeded |
| ProductDetail.ChatButtonVisibility | client/src/pages/ProductDetailPage.jsx:181 | a seller never sees the chat button on their own product, and a logged-out visitor never sees it |
| Js.ParseIntRoundTrip | client/src/pages/ProductDetailPage.jsx:160 | `parseInt` reads back the decimal rendering of every integer |
| Js.Or | server/routes/websiteHelper.js:153 | `a \|\| b` is `a` when it is truthy and `b` otherwise |
| Text.JoinSplit | client/src/components/ProductFilters.jsx:37-44 | joining the pieces of a split gives the string back |
| Py.WordsOfWord | docker/bitnet-ai/app.py:226 | a string with no white space is one word, or none when empty |

## Left out

- Network, storage, the clock and the model are not modelled. The AI and
  helper services, MongoDB, Redis, `fetch`, `Date.now` and the language model
  are represented by their outcomes, which are parameters.
- Timestamps (`addedAt`, `timestamp`, `lastMessage`) are left out, and so is
  the 24-hour cart expiry, because both need a clock.
- Socket.IO cart notifications are left out: they are output only.
- Prices, amounts and stock are integers. Floating point is left out: the
  `toFixed(2)` of the revenue, and the confidence of 0.9 is kept only as the
  exact value the endpoint reports. The validator's ratio is compared exactly
  (`ReplyValidator.RatioTest` relates the two forms).
- JSON serialisation of cart entries, request bodies and the
  `URLSearchParams` `toString` used for navigation is left out. The model
  works on the parsed values and the query's name–value pairs.
- The model's tokenizer and generation settings are left out; generation is
  `Unavailable`, `Raised` or the output text.
- The random order number at checkout is left out.
- Logging is left out.
- React state, effects and rendering are left out. Each handler is modelled as
  the pure update it makes, and the pages' markup is not modelled.
- HomePage's `handleFilterChange`, `handlePageChange`, `handleSearch` and
  `handleSortChange` only set state or call `loadProducts`. They are covered
  by `CatalogQuery.RequestParams` and `CatalogQuery.PageOf`.
- Cart product ids and quantities are strings and integers. A body whose
  `quantity` is a string would concatenate in JavaScript, and that is not
  modelled.
- Strings are sequences of characters. JavaScript `length` counts UTF-16 code
  units; `Js.Length` models that where the password check uses it. Object
  spread of a string, by contrast, indexes characters.
- Auth.LevelOf: the text of an inherited member is the one V8 (Chrome,
  Node) gives, such as `function Object() { [native code] }` under
  `constructor`. Other engines lay out native source text differently, and
  their texts are not modelled.
- ReplyValidator.DeniedRejected: lower-casing is modelled for the ASCII
  letters A–Z only. Python's `lower()` and JavaScript's `toLowerCase()` fold
  the whole of Unicode, for example U+212A KELVIN SIGN to 'k', and the
  Unicode case tables are not modelled.
- ReplyValidator.ValidIgnoresCase: the same ASCII-only lower-casing applies.
  The canned keyword matches of the reply service and the website helper
  share it.
- Checkout with a `null` current user (`user.id` throws after the order was
  placed) is not modelled: the page is behind the authentication gate.
- UserProfile.SubmitPassword: the form is stated as cleared on an accepted
  change and kept otherwise. The notice shown on failure is not stated as an
  if-and-only-if.
- UserProfile.InputChangeReadBack: inputs elsewhere keep their value only when
  the other path's parent is not an array or a string. Spreading those into an
  object renumbers their elements as fields, and that case is not stated.
- The HomePage passes an object-valued `handleFilterChange(newFilters)` to the
  older filter panel, which calls `onFilterChange(filterType, value)`. Each
  component is modelled on its own, and that mismatch is not modelled.
