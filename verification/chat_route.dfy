/**
 * The buyer-seller chat routes (server/routes/chat.js): product context for
 * the AI service, the AI call with its fixed fallback, marking messages read
 * when a chat is opened, unread counts, and sending a message with the
 * seller-only AI reply. Storage is a parameter (the chat and users found) and
 * so is the outcome of the AI request; timestamps are left out.
 */
module ChatRoute {
  import opened Wrappers
  import opened Js
  import opened ServiceCall
  import RateLimit

  /** A chat message: who sent it, what it says, whether it was read, and whether the AI wrote it. */
  datatype Message = Message(sender: string, content: Value, read: bool, isAI: bool)

  /** A conversation between participants. */
  datatype Chat = Chat(participants: seq<string>, messages: seq<Message>)

  /** A stored user, as far as the routes read it. */
  datatype User = User(name: Value, role: string)

  /** The result of looking a product up by id. */
  datatype Lookup = Found(doc: map<string, Value>) | NotFound | LookupFailed

  /** The product fields handed to the AI service. */
  const ContextKeys: set<string> := {"name", "price", "category", "description", "stock"}

  /**
   * `getProductContext`: `{}` without a product id, for a product that is not
   * found, and when the lookup throws; otherwise exactly the five context
   * fields of the product.
   */
  function ProductContext(productId: Value, lookup: Lookup): (r: map<string, Value>)
    ensures !Truthy(productId) || !lookup.Found? ==> r == map[]
    ensures Truthy(productId) && lookup.Found? ==> r.Keys == ContextKeys
    ensures forall k :: k in r ==> r[k] == Get(lookup.doc, k)
  {
    if !Truthy(productId) then map[]
    else match lookup
      case Found(doc) => map k | k in ContextKeys :: Get(doc, k)
      case _ => map[]
  }

  const ThanksText: string := "Thanks for your message! I'm here to "
    + "help with any questions about our "
    + "products. How can I assist you today?"

  /** The request `callAIService` sends: the message, the product context and the seller's name. */
  datatype AiRequest = AiRequest(message: Value, productInfo: map<string, Value>, sellerName: Value)

  /** `callAIService`: the service's `response` field, or the fixed thank-you text whenever the call fails. */
  function CallAIService(call: Call): (r: Value)
    ensures ResponseField(call).Some? ==> r == ResponseField(call).value
    ensures ResponseField(call).None? ==> r == Str(ThanksText)
  {
    match ResponseField(call)
    case Some(v) => v
    case None => Str(ThanksText)
  }

  /** A message that `user` has not read yet: someone else sent it and it is unread. */
  predicate UnreadBy(m: Message, user: string) {
    m.sender != user && !m.read
  }

  /** Opening a chat marks every message from someone else as read. */
  function MarkRead(msgs: seq<Message>, user: string): (r: seq<Message>)
    ensures |r| == |msgs|
    ensures forall i :: 0 <= i < |msgs| && msgs[i].sender == user ==> r[i] == msgs[i]
    ensures forall i :: 0 <= i < |msgs| && msgs[i].sender != user ==> r[i] == msgs[i].(read := true)
    decreases |msgs|
  {
    if msgs == [] then []
    else
      var m := msgs[0];
      [if UnreadBy(m, user) then m.(read := true) else m] + MarkRead(msgs[1..], user)
  }

  /** The number of messages `user` has not read. */
  function UnreadCount(msgs: seq<Message>, user: string): (n: nat)
    ensures n <= |msgs|
    decreases |msgs|
  {
    if msgs == [] then 0
    else (if UnreadBy(msgs[0], user) then 1 else 0) + UnreadCount(msgs[1..], user)
  }

  /** Unread counts add up over consecutive stretches of a conversation. */
  lemma {:induction false} UnreadCountAppend(a: seq<Message>, b: seq<Message>, user: string)
    ensures UnreadCount(a + b, user) == UnreadCount(a, user) + UnreadCount(b, user)
    decreases |a|
  {
    if a != [] {
      UnreadCountAppend(a[1..], b, user);
      assert (a + b)[0] == a[0];
      assert (a + b)[1..] == a[1..] + b;
    } else {
      assert a + b == b;
    }
  }

  /** One more message adds one to the count exactly when it is unread by `user`. */
  lemma UnreadCountSnoc(msgs: seq<Message>, m: Message, user: string)
    ensures UnreadCount(msgs + [m], user) == UnreadCount(msgs, user) + (if UnreadBy(m, user) then 1 else 0)
  {
    UnreadCountAppend(msgs, [m], user);
  }

  /** The count is zero exactly when no message is unread by `user`. */
  lemma {:induction false} UnreadCountZero(msgs: seq<Message>, user: string)
    ensures UnreadCount(msgs, user) == 0 <==> forall i :: 0 <= i < |msgs| ==> !UnreadBy(msgs[i], user)
    decreases |msgs|
  {
    if msgs != [] {
      UnreadCountZero(msgs[1..], user);
      assert forall i :: 1 <= i < |msgs| ==> msgs[i] == msgs[1..][i - 1];
    }
  }

  /** After a user opens a chat, nothing in it is unread for them. */
  lemma {:induction false} MarkReadClearsUnread(msgs: seq<Message>, user: string)
    ensures UnreadCount(MarkRead(msgs, user), user) == 0
    decreases |msgs|
  {
    if msgs != [] {
      MarkReadClearsUnread(msgs[1..], user);
      var r := MarkRead(msgs, user);
      assert r[1..] == MarkRead(msgs[1..], user);
    }
  }

  /**
   * The read flag is shared: opening a chat can only lower another
   * participant's count (a third party's message is marked read for everyone).
   */
  lemma {:induction false} MarkReadLowersOthers(msgs: seq<Message>, user: string, other: string)
    ensures UnreadCount(MarkRead(msgs, user), other) <= UnreadCount(msgs, other)
    decreases |msgs|
  {
    if msgs != [] {
      MarkReadLowersOthers(msgs[1..], user, other);
      var r := MarkRead(msgs, user);
      assert r[1..] == MarkRead(msgs[1..], user);
    }
  }

  /** Opening a chat twice marks nothing more. */
  lemma MarkReadIdempotent(msgs: seq<Message>, user: string)
    ensures MarkRead(MarkRead(msgs, user), user) == MarkRead(msgs, user)
  {
    var r := MarkRead(msgs, user);
    var rr := MarkRead(r, user);
    assert forall i :: 0 <= i < |msgs| ==> rr[i] == r[i];
  }

  /** What `GET /:sellerId` answers: no chat yet, or the chat after marking. */
  datatype History = NoMessages | Opened(chat: Chat)

  /** `GET /:sellerId`: an existing chat is returned (and stored) with the user's incoming messages marked read. */
  function OpenChat(found: Option<Chat>, user: string): (r: History)
    ensures found.None? <==> r.NoMessages?
    ensures found.Some? ==> r.chat.participants == found.value.participants
    ensures found.Some? ==> UnreadCount(r.chat.messages, user) == 0
    ensures found.Some? ==> r.chat == found.value.(messages := MarkRead(found.value.messages, user))
  {
    match found
    case None => NoMessages
    case Some(c) =>
      MarkReadClearsUnread(c.messages, user);
      Opened(c.(messages := MarkRead(c.messages, user)))
  }

  /** `GET /`: each of the user's chats with its unread count. */
  function WithUnread(chats: seq<Chat>, user: string): (r: seq<(Chat, nat)>)
    ensures |r| == |chats|
    ensures forall i :: 0 <= i < |chats| ==> r[i].0 == chats[i] && r[i].1 == UnreadCount(chats[i].messages, user)
  {
    seq(|chats|, i requires 0 <= i < |chats| => (chats[i], UnreadCount(chats[i].messages, user)))
  }

  /** The outcome of `POST /send`. */
  datatype SendReply =
    | RecipientNotFound
    | Sent(chat: Chat, latest: seq<Message>)

  /** `chat.messages.slice(-2)`: the last two messages, or all of them when there are fewer. */
  function LastTwo(msgs: seq<Message>): (r: seq<Message>)
    ensures |r| == if |msgs| < 2 then |msgs| else 2
    ensures msgs == msgs[..|msgs| - |r|] + r
  {
    if |msgs| < 2 then msgs else msgs[|msgs| - 2..]
  }

  /**
   * `POST /send`: a missing recipient gets 404. Otherwise the chat between the
   * two (a new one with participants `[sender, recipient]` when none exists)
   * gets the sender's message, unread; when the recipient is a seller, the
   * AI's reply for the product context follows, sent in the seller's name
   * and marked as the AI's. The reply carries the last two messages.
   * `service` gives the outcome of the AI request.
   */
  function Send(found: Option<Chat>, recipient: Option<User>, senderId: string, recipientId: string,
                content: Value, productId: Value, lookup: Lookup, service: AiRequest -> Call): (r: SendReply)
    ensures recipient.None? <==> r.RecipientNotFound?
  {
    match recipient
    case None => RecipientNotFound
    case Some(user) =>
      var chat := found.GetOr(Chat([senderId, recipientId], []));
      var posted := chat.(messages := chat.messages + [Message(senderId, content, false, false)]);
      var answered :=
        if user.role == "seller" then
          var request := AiRequest(content, ProductContext(productId, lookup), user.name);
          posted.(messages := posted.messages + [Message(recipientId, CallAIService(service(request)), false, true)])
        else posted;
      Sent(answered, LastTwo(answered.messages))
  }

  /** The AI's message in the seller's name: its text is the service's answer to the message with the product's context. */
  function AiMessage(user: User, recipientId: string, content: Value, productId: Value, lookup: Lookup,
                     service: AiRequest -> Call): (m: Message)
    ensures m.sender == recipientId && m.isAI && !m.read
  {
    Message(recipientId, CallAIService(service(AiRequest(content, ProductContext(productId, lookup), user.name))), false, true)
  }

  /**
   * What `/send` does to a conversation: the old messages stay as they were;
   * the sender's unread message comes next; a seller recipient adds exactly
   * one AI message from the seller, anyone else adds nothing more.
   */
  lemma SendAppends(found: Option<Chat>, user: User, senderId: string, recipientId: string,
                    content: Value, productId: Value, lookup: Lookup, service: AiRequest -> Call)
    ensures var r := Send(found, Some(user), senderId, recipientId, content, productId, lookup, service);
      var old_ := if found.Some? then found.value.messages else [];
      var posted := Message(senderId, content, false, false);
      && (found.None? ==> r.chat.participants == [senderId, recipientId])
      && (found.Some? ==> r.chat.participants == found.value.participants)
      && (user.role == "seller" ==>
            r.chat.messages == old_ + [posted, AiMessage(user, recipientId, content, productId, lookup, service)]
            && r.latest == [posted, AiMessage(user, recipientId, content, productId, lookup, service)])
      && (user.role != "seller" ==> r.chat.messages == old_ + [posted] && r.latest == LastTwo(old_ + [posted]))
  {
    if user.role == "seller" {
      SendToSeller(found, user, senderId, recipientId, content, productId, lookup, service);
    }
  }

  /** A seller recipient: the sender's message and the AI's reply, in that order, are the two latest. */
  lemma SendToSeller(found: Option<Chat>, user: User, senderId: string, recipientId: string,
                     content: Value, productId: Value, lookup: Lookup, service: AiRequest -> Call)
    requires user.role == "seller"
    ensures var r := Send(found, Some(user), senderId, recipientId, content, productId, lookup, service);
      var old_ := if found.Some? then found.value.messages else [];
      var pair := [Message(senderId, content, false, false), AiMessage(user, recipientId, content, productId, lookup, service)];
      r.chat.messages == old_ + pair && r.latest == pair
  {
    var old_ := if found.Some? then found.value.messages else [];
    var posted := Message(senderId, content, false, false);
    var ai := AiMessage(user, recipientId, content, productId, lookup, service);
    SellerMessages(found, user, senderId, recipientId, content, productId, lookup, service);
    LastTwoOfPair(old_, posted, ai);
  }

  /** For a seller recipient, the chat gets the sender's message and then the AI's. */
  lemma SellerMessages(found: Option<Chat>, user: User, senderId: string, recipientId: string,
                       content: Value, productId: Value, lookup: Lookup, service: AiRequest -> Call)
    requires user.role == "seller"
    ensures var r := Send(found, Some(user), senderId, recipientId, content, productId, lookup, service);
      var old_ := if found.Some? then found.value.messages else [];
      r.Sent? && r.chat.messages == old_ + [Message(senderId, content, false, false)]
        + [AiMessage(user, recipientId, content, productId, lookup, service)]
      && r.latest == LastTwo(r.chat.messages)
  {
  }

  /** Two messages appended one after the other are the last two. */
  lemma LastTwoOfPair(msgs: seq<Message>, a: Message, b: Message)
    ensures msgs + [a] + [b] == msgs + [a, b]
    ensures LastTwo(msgs + [a] + [b]) == [a, b]
  {
    assert (msgs + [a] + [b])[|msgs| + 2 - 2..] == [a, b];
  }

  /**
   * After `/send`, the recipient has exactly one more unread message (the
   * sender's); the sender has one more (the AI's reply) when the recipient
   * is a seller and none otherwise.
   */
  lemma SendUnreadCounts(found: Option<Chat>, user: User, senderId: string, recipientId: string,
                         content: Value, productId: Value, lookup: Lookup, service: AiRequest -> Call)
    requires senderId != recipientId
    ensures var r := Send(found, Some(user), senderId, recipientId, content, productId, lookup, service);
      var old_ := if found.Some? then found.value.messages else [];
      && UnreadCount(r.chat.messages, recipientId) == UnreadCount(old_, recipientId) + 1
      && UnreadCount(r.chat.messages, senderId) == UnreadCount(old_, senderId) + (if user.role == "seller" then 1 else 0)
  {
    SendAppends(found, user, senderId, recipientId, content, productId, lookup, service);
    var old_ := if found.Some? then found.value.messages else [];
    var posted := Message(senderId, content, false, false);
    var ai := AiMessage(user, recipientId, content, productId, lookup, service);
    UnreadCountSnoc(old_, posted, recipientId);
    UnreadCountSnoc(old_, posted, senderId);
    if user.role == "seller" {
      assert old_ + [posted, ai] == (old_ + [posted]) + [ai];
      UnreadCountSnoc(old_ + [posted], ai, recipientId);
      UnreadCountSnoc(old_ + [posted], ai, senderId);
    }
  }

  /**
   * `/send` does not refuse a message to oneself: then every message it adds
   * is the user's own, so the user's unread count stays as it was.
   */
  lemma SendToSelfUnread(found: Option<Chat>, user: User, userId: string,
                         content: Value, productId: Value, lookup: Lookup, service: AiRequest -> Call)
    ensures var r := Send(found, Some(user), userId, userId, content, productId, lookup, service);
      var old_ := if found.Some? then found.value.messages else [];
      UnreadCount(r.chat.messages, userId) == UnreadCount(old_, userId)
  {
    SendAppends(found, user, userId, userId, content, productId, lookup, service);
    var old_ := if found.Some? then found.value.messages else [];
    var posted := Message(userId, content, false, false);
    var ai := AiMessage(user, userId, content, productId, lookup, service);
    UnreadCountSnoc(old_, posted, userId);
    if user.role == "seller" {
      assert old_ + [posted, ai] == (old_ + [posted]) + [ai];
      UnreadCountSnoc(old_ + [posted], ai, userId);
    }
  }

  /** What a chat route answers once the limiter has decided: status 429, or the handler's answer. */
  datatype Gated<T> = TooManyRequests | Handled(answer: T)

  /**
   * Every chat route runs behind `rateLimiter`, keyed by the user's id: a
   * rejected call is answered with 429 and never reaches the handler, whose
   * answer is `answer`.
   */
  function Limited<T>(table: map<string, RateLimit.Entry>, userId: string, now: int, answer: T)
    : (r: (map<string, RateLimit.Entry>, Gated<T>))
    ensures r.0 == RateLimit.Step(table, userId, now, RateLimit.ChatLimits).0
    ensures r.1.TooManyRequests? <==> RateLimit.Step(table, userId, now, RateLimit.ChatLimits).1 == RateLimit.Reject
    ensures r.1.Handled? ==> r.1.answer == answer
  {
    var (t, d) := RateLimit.Step(table, userId, now, RateLimit.ChatLimits);
    (t, if d == RateLimit.Reject then TooManyRequests else Handled(answer))
  }

  /** A user whose window opened at `start` gets at most 30 calls through before the minute is over. */
  lemma AtMostThirtyPerMinute(table: map<string, RateLimit.Entry>, userId: string, start: int, times: seq<int>)
    requires forall i :: 0 <= i < |times| ==> times[i] - start <= 60000
    ensures var first := RateLimit.Step(table, userId, start, RateLimit.ChatLimits);
      first.0[userId] == RateLimit.Entry(1, start) ==> 1 + RateLimit.Run(first.0, userId, times, RateLimit.ChatLimits).1 <= 30
  {
    RateLimit.AtMostLimitPerWindow(table, userId, start, times, RateLimit.ChatLimits);
  }
}
