/**
 * The cart routers: server/routes/cart.js keeps a user's cart as the `items`
 * field of a Redis hash, routes/cart.js keeps it as a plain string value;
 * both store the JSON of a list of line items under `cart:<user id>` and do
 * the same merge-or-append, filter and delete on it. The store is a map
 * from key to the parsed contents; the `addedAt` stamp is left out.
 */
module Cart {
  import opened Wrappers

  /** One line of a cart. */
  datatype Item = Item(productId: string, quantity: int)

  /** The key a user's cart is stored under. */
  function CartKey(userId: string): (k: string)
    ensures |k| == 5 + |userId| && k[5..] == userId
  {
    "cart:" + userId
  }

  /** `cart.find(item => item.productId === productId)`: the position of the first line for the product. */
  function IndexOf(cart: seq<Item>, productId: string): (r: Option<nat>)
    ensures r.Some? ==> r.value < |cart| && cart[r.value].productId == productId
    ensures r.Some? ==> forall j :: 0 <= j < r.value ==> cart[j].productId != productId
    ensures r.None? <==> forall j :: 0 <= j < |cart| ==> cart[j].productId != productId
    decreases |cart|
  {
    if cart == [] then None
    else if cart[0].productId == productId then Some(0)
    else match IndexOf(cart[1..], productId)
      case Some(i) => Some(i + 1)
      case None => None
  }

  /**
   * `POST /add`: the first line for the product gets the quantity added to
   * it; a product not yet in the cart is appended with the quantity, which
   * defaults to 1 when the body has none.
   */
  function Add(cart: seq<Item>, productId: string, quantity: Option<int>): (r: seq<Item>)
    ensures IndexOf(cart, productId).Some? ==> |r| == |cart|
    ensures IndexOf(cart, productId).None? ==> r == cart + [Item(productId, quantity.GetOr(1))]
  {
    var q := quantity.GetOr(1);
    match IndexOf(cart, productId)
    case Some(i) => cart[i := cart[i].(quantity := cart[i].quantity + q)]
    case None => cart + [Item(productId, q)]
  }

  /** `cart.filter(item => item.productId !== productId)`. */
  function Remove(cart: seq<Item>, productId: string): (r: seq<Item>)
    ensures |r| <= |cart|
    ensures forall i :: 0 <= i < |r| ==> r[i].productId != productId
    decreases |cart|
  {
    if cart == [] then []
    else (if cart[0].productId != productId then [cart[0]] else []) + Remove(cart[1..], productId)
  }

  /** No product has two lines. */
  predicate Unique(cart: seq<Item>) {
    forall i, j :: 0 <= i < j < |cart| ==> cart[i].productId != cart[j].productId
  }

  /** The number of pieces in a cart. */
  function Total(cart: seq<Item>): int
    decreases |cart|
  {
    if cart == [] then 0 else cart[0].quantity + Total(cart[1..])
  }

  /**
   * Adding to a product already in the cart changes only that product's line,
   * whose quantity grows by the added amount (1 when none is given).
   */
  lemma AddMerges(cart: seq<Item>, productId: string, quantity: Option<int>)
    requires IndexOf(cart, productId).Some?
    ensures var r := Add(cart, productId, quantity); var i := IndexOf(cart, productId).value;
      && r[i] == Item(productId, cart[i].quantity + quantity.GetOr(1))
      && forall j :: 0 <= j < |cart| && j != i ==> r[j] == cart[j]
  {
  }

  /** Adding keeps every product to one line. */
  lemma AddKeepsUnique(cart: seq<Item>, productId: string, quantity: Option<int>)
    requires Unique(cart)
    ensures Unique(Add(cart, productId, quantity))
  {
  }

  /** Adding raises the cart's total by exactly the added quantity. */
  lemma AddRaisesTotal(cart: seq<Item>, productId: string, quantity: Option<int>)
    ensures Total(Add(cart, productId, quantity)) == Total(cart) + quantity.GetOr(1)
  {
    var q := quantity.GetOr(1);
    match IndexOf(cart, productId)
    case Some(i) =>
      TotalUpdate(cart, i, cart[i].(quantity := cart[i].quantity + q));
    case None =>
      TotalAppend(cart, [Item(productId, q)]);
      assert Total([Item(productId, q)]) == q;
  }

  /** Replacing one line changes the total by the difference of the two quantities. */
  lemma {:induction false} TotalUpdate(cart: seq<Item>, i: nat, x: Item)
    requires i < |cart|
    ensures Total(cart[i := x]) == Total(cart) - cart[i].quantity + x.quantity
    decreases |cart|
  {
    if i > 0 {
      TotalUpdate(cart[1..], i - 1, x);
      assert cart[i := x][1..] == cart[1..][i - 1 := x];
    } else {
      assert cart[i := x][1..] == cart[1..];
    }
  }

  /** Totals add up over consecutive stretches. */
  lemma {:induction false} TotalAppend(a: seq<Item>, b: seq<Item>)
    ensures Total(a + b) == Total(a) + Total(b)
    decreases |a|
  {
    if a == [] {
      assert a + b == b;
    } else {
      TotalAppend(a[1..], b);
      assert (a + b)[0] == a[0];
      assert (a + b)[1..] == a[1..] + b;
    }
  }

  /** Removing keeps the other lines in their order: it distributes over stretches of the cart. */
  lemma {:induction false} RemoveKeepsOrder(a: seq<Item>, b: seq<Item>, productId: string)
    ensures Remove(a + b, productId) == Remove(a, productId) + Remove(b, productId)
    decreases |a|
  {
    if a == [] {
      assert a + b == b;
    } else {
      RemoveKeepsOrder(a[1..], b, productId);
      assert (a + b)[0] == a[0];
      assert (a + b)[1..] == a[1..] + b;
    }
  }

  /** Removing keeps exactly the lines of other products. */
  lemma {:induction false} RemoveKeepsOthers(cart: seq<Item>, productId: string, x: Item)
    ensures x in Remove(cart, productId) <==> x in cart && x.productId != productId
    decreases |cart|
  {
    if cart != [] {
      RemoveKeepsOthers(cart[1..], productId, x);
      assert cart == [cart[0]] + cart[1..];
    }
  }

  /** Removing a product that is not in the cart changes nothing. */
  lemma {:induction false} RemoveAbsent(cart: seq<Item>, productId: string)
    requires IndexOf(cart, productId).None?
    ensures Remove(cart, productId) == cart
    decreases |cart|
  {
    if cart != [] {
      RemoveAbsent(cart[1..], productId);
      assert cart == [cart[0]] + cart[1..];
    }
  }

  /** Removing a product just added to a cart without it gives the cart back. */
  lemma RemoveUndoesNewAdd(cart: seq<Item>, productId: string, quantity: Option<int>)
    requires IndexOf(cart, productId).None?
    ensures Remove(Add(cart, productId, quantity), productId) == cart
  {
    RemoveKeepsOrder(cart, [Item(productId, quantity.GetOr(1))], productId);
    RemoveAbsent(cart, productId);
  }

  /** server/routes/cart.js: each key holds a hash of fields; the cart is its `items` field. */
  type HashStore = map<string, map<string, seq<Item>>>

  /** Reading a cart from the hash store: a missing hash or a missing `items` field is the empty cart. */
  function ReadHash(store: HashStore, userId: string): (cart: seq<Item>)
    ensures CartKey(userId) !in store ==> cart == []
    ensures CartKey(userId) in store && "items" !in store[CartKey(userId)] ==> cart == []
  {
    var key := CartKey(userId);
    if key in store && "items" in store[key] then store[key]["items"] else []
  }

  /** Writing the `items` field of a user's hash; the hash's other fields stay. */
  function WriteHash(store: HashStore, userId: string, cart: seq<Item>): (r: HashStore)
    ensures ReadHash(r, userId) == cart
    ensures forall k :: k != CartKey(userId) ==> (k in r <==> k in store) && (k in store ==> r[k] == store[k])
    ensures forall f :: CartKey(userId) in store && f in store[CartKey(userId)] && f != "items" ==>
      CartKey(userId) in r && f in r[CartKey(userId)] && r[CartKey(userId)][f] == store[CartKey(userId)][f]
  {
    var key := CartKey(userId);
    var fields := if key in store then store[key] else map[];
    store[key := fields["items" := cart]]
  }

  /** `POST /add` on the hash store. */
  function HashAdd(store: HashStore, userId: string, productId: string, quantity: Option<int>): (r: HashStore)
    ensures ReadHash(r, userId) == Add(ReadHash(store, userId), productId, quantity)
  {
    WriteHash(store, userId, Add(ReadHash(store, userId), productId, quantity))
  }

  /** `DELETE /remove/:productId` on the hash store. */
  function HashRemove(store: HashStore, userId: string, productId: string): (r: HashStore)
    ensures ReadHash(r, userId) == Remove(ReadHash(store, userId), productId)
  {
    WriteHash(store, userId, Remove(ReadHash(store, userId), productId))
  }

  /** `DELETE /clear` on the hash store: the whole key goes, so the cart reads as empty again. */
  function HashClear(store: HashStore, userId: string): (r: HashStore)
    ensures CartKey(userId) !in r && ReadHash(r, userId) == []
    ensures forall k :: k != CartKey(userId) ==> (k in r <==> k in store) && (k in store ==> r[k] == store[k])
  {
    store - {CartKey(userId)}
  }

  /** routes/cart.js: each key holds the cart itself. */
  type PlainStore = map<string, seq<Item>>

  /** Reading a cart from the plain store: an absent value is the empty cart. */
  function ReadPlain(store: PlainStore, userId: string): (cart: seq<Item>)
    ensures CartKey(userId) !in store ==> cart == []
    ensures CartKey(userId) in store ==> cart == store[CartKey(userId)]
  {
    if CartKey(userId) in store then store[CartKey(userId)] else []
  }

  /** Writing a user's cart in the plain store; every other key stays. */
  function WritePlain(store: PlainStore, userId: string, cart: seq<Item>): (r: PlainStore)
    ensures ReadPlain(r, userId) == cart
    ensures forall k :: k != CartKey(userId) ==> (k in r <==> k in store) && (k in store ==> r[k] == store[k])
  {
    store[CartKey(userId) := cart]
  }

  /** `POST /add` on the plain store. */
  function PlainAdd(store: PlainStore, userId: string, productId: string, quantity: Option<int>): (r: PlainStore)
    ensures ReadPlain(r, userId) == Add(ReadPlain(store, userId), productId, quantity)
  {
    WritePlain(store, userId, Add(ReadPlain(store, userId), productId, quantity))
  }

  /** `DELETE /remove/:productId` on the plain store. */
  function PlainRemove(store: PlainStore, userId: string, productId: string): (r: PlainStore)
    ensures ReadPlain(r, userId) == Remove(ReadPlain(store, userId), productId)
  {
    WritePlain(store, userId, Remove(ReadPlain(store, userId), productId))
  }

  /** `DELETE /clear` on the plain store. */
  function PlainClear(store: PlainStore, userId: string): (r: PlainStore)
    ensures CartKey(userId) !in r && ReadPlain(r, userId) == []
    ensures forall k :: k != CartKey(userId) ==> (k in r <==> k in store) && (k in store ==> r[k] == store[k])
  {
    store - {CartKey(userId)}
  }

  /** Different users have different keys, so one user's cart operations never touch another's cart. */
  lemma OtherUsersUntouched(store: PlainStore, userId: string, otherId: string, productId: string, quantity: Option<int>)
    requires otherId != userId
    ensures ReadPlain(PlainAdd(store, userId, productId, quantity), otherId) == ReadPlain(store, otherId)
    ensures ReadPlain(PlainRemove(store, userId, productId), otherId) == ReadPlain(store, otherId)
    ensures ReadPlain(PlainClear(store, userId), otherId) == ReadPlain(store, otherId)
  {
    assert CartKey(otherId)[5..] != CartKey(userId)[5..];
  }

  /** The two routers keep the same cart: fed the same calls, their reads agree. */
  lemma StoresAgree(hs: HashStore, ps: PlainStore, userId: string, productId: string, quantity: Option<int>)
    requires ReadHash(hs, userId) == ReadPlain(ps, userId)
    ensures ReadHash(HashAdd(hs, userId, productId, quantity), userId) == ReadPlain(PlainAdd(ps, userId, productId, quantity), userId)
    ensures ReadHash(HashRemove(hs, userId, productId), userId) == ReadPlain(PlainRemove(ps, userId, productId), userId)
    ensures ReadHash(HashClear(hs, userId), userId) == ReadPlain(PlainClear(ps, userId), userId)
  {
  }
}
