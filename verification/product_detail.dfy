/**
 * The product page's controls (client/src/pages/ProductDetailPage.jsx):
 * the quantity picker, the delete confirmation and which buttons a visitor
 * sees. The confirmation dialog and the delete request are parameters.
 */
module ProductDetail {
  import opened Text
  import opened Js

  /** The quantity the picker starts at. */
  const InitialQuantity: int := 1

  /** The `-` button: one less, but never below 1. */
  function Decrement(q: int): (r: int)
    ensures r >= 1
    ensures q > 1 ==> r == q - 1
  {
    if q - 1 > 1 then q - 1 else 1
  }

  /** The `+` button: one more. */
  function Increment(q: int): (r: int)
    ensures q >= 1 ==> r >= 2
  {
    q + 1
  }

  /** Typing into the box: `Math.max(1, parseInt(value) || 1)`; unparseable or zero input gives 1. */
  function Typed(value: string): (r: int)
    ensures r >= 1
    ensures ParseInt(value).Num? && ParseInt(value).n >= 1 ==> r == ParseInt(value).n
    ensures !ParseInt(value).Num? ==> r == 1
  {
    var parsed := ParseIntOr(value, 1);
    if parsed > 1 then parsed else 1
  }

  /** `-` undoes `+`, and `+` undoes `-` above 1; typing a quantity's digits gives that quantity. */
  lemma QuantityRoundTrips(q: int)
    requires q >= 1
    ensures Decrement(Increment(q)) == q
    ensures q > 1 ==> Increment(Decrement(q)) == q
    ensures Typed(IntToString(q)) == q
  {
    ParseIntRoundTrip(q);
  }

  /** A use of the quantity picker. */
  datatype Action = Minus | Plus | Type(value: string)

  /** The quantity after a run of picker actions. */
  function Run(q: int, actions: seq<Action>): (r: int)
    requires q >= 1
    ensures r >= 1
    ensures (forall i :: 0 <= i < |actions| ==> actions[i].Plus?) ==> r == q + |actions|
    decreases |actions|
  {
    if actions == [] then q
    else
      var next := match actions[0]
        case Minus => Decrement(q)
        case Plus => Increment(q)
        case Type(v) => Typed(v);
      Run(next, actions[1..])
  }

  /** Whatever the visitor does, starting from the initial quantity, the quantity stays at least 1. */
  lemma QuantityStaysPositive(actions: seq<Action>)
    ensures Run(InitialQuantity, actions) >= 1
  {
  }

  /** Where a delete attempt ends. */
  datatype Deletion =
    | Kept                   // the visitor declined the confirmation: no request, no change
    | WentHome               // the product was deleted and the page navigates home
    | DeleteFailed           // the request failed: error shown, delete button enabled again

  /** `handleDelete`: nothing happens without confirmation; otherwise the request decides. */
  function Delete(confirmed: bool, deleted: bool): (d: Deletion)
    ensures d == Kept <==> !confirmed
    ensures confirmed ==> (d == WentHome <==> deleted)
  {
    if !confirmed then Kept
    else if deleted then WentHome
    else DeleteFailed
  }

  /**
   * The chat button: for a logged-in visitor whose id is not the seller's id
   * (`user?.id !== product.seller?._id`).
   */
  predicate ShowsChat(isLoggedIn: bool, user: Value, product: Value) {
    isLoggedIn && !StrictEquals(Prop(user, "id"), Prop(Prop(product, "seller"), "_id"))
  }

  /**
   * Sellers never get a chat button on their own product, visitors who are
   * not logged in never get one, and a logged-in visitor gets one on another
   * seller's product.
   */
  lemma ChatButtonVisibility(isLoggedIn: bool, user: Value, product: Value)
    ensures !isLoggedIn ==> !ShowsChat(isLoggedIn, user, product)
    ensures Prop(user, "id").Str? && Prop(user, "id") == Prop(Prop(product, "seller"), "_id") ==>
      !ShowsChat(isLoggedIn, user, product)
    ensures isLoggedIn && Prop(user, "id") != Prop(Prop(product, "seller"), "_id") ==> ShowsChat(isLoggedIn, user, product)
  {
  }

  /** The edit and delete buttons: for a logged-in admin or seller. */
  predicate ShowsManage(isLoggedIn: bool, user: Value) {
    isLoggedIn && (Prop(user, "role") == Str("admin") || Prop(user, "role") == Str("seller"))
  }
}
