/**
 * The checkout page (client/src/pages/CheckoutPage.jsx): which screen a
 * visitor sees, the two-step submit, the order record built from the cart
 * and the form, and when the cart is cleared. The order and purchase-record
 * requests are parameters: whether each one succeeded.
 */
module Checkout {
  import opened Wrappers
  import opened Js

  /** What the page renders before the form. */
  datatype Screen = LoginPrompt | EmptyCart | CheckoutForm

  /** The login check comes first, then the empty-cart check. */
  function Gate(authenticated: bool, cartLength: nat): (s: Screen)
    ensures s == LoginPrompt <==> !authenticated
    ensures s == EmptyCart <==> authenticated && cartLength == 0
    ensures s == CheckoutForm <==> authenticated && cartLength > 0
  {
    if !authenticated then LoginPrompt
    else if cartLength == 0 then EmptyCart
    else CheckoutForm
  }

  /** A cart entry as the cart context holds it; prices are whole amounts here. */
  datatype CartEntry = CartEntry(id: string, quantity: int, price: int)

  /** The checkout form's fields. */
  datatype Form = Form(
    fullName: string, email: string, address: string, city: string, postalCode: string, country: string,
    cardName: string, cardNumber: string, expDate: string, cvv: string, paymentMethod: string)

  /** The form the page starts with: every field empty, paying by credit card. */
  const InitialForm: Form := Form("", "", "", "", "", "", "", "", "", "", "credit_card")

  /** One line of the order record. */
  datatype OrderItem = OrderItem(product: string, quantity: int, price: int)

  /** The shipping address the server stores. */
  datatype Address = Address(street: string, city: string, country: string, zipCode: string)

  /**
   * The payment method an order carries: a method name, or, for a key that
   * every object literal inherits (`toString`, `__proto__`, ...), the
   * inherited member the lookup finds instead of a name.
   */
  datatype Payment = Method(name: string) | InheritedMember(key: string)

  /** The methods the server accepts. */
  const PaymentMethods: set<string> := {"credit_card", "paypal", "bank_transfer"}

  /** `paymentMethodMap[choice] || 'credit_card'`. */
  function PaymentOf(choice: string): (p: Payment)
    ensures choice in PaymentMethods ==> p == Method(choice)
    ensures choice !in PaymentMethods && !InheritedKey(choice) ==> p == Method("credit_card")
    ensures p.InheritedMember? <==> InheritedKey(choice)
  {
    if choice in PaymentMethods then Method(choice)
    else if InheritedKey(choice) then InheritedMember(choice)
    else Method("credit_card")
  }

  /** Every payment an order can carry names an accepted method, unless the form held an inherited key. */
  lemma PaymentAccepted(choice: string)
    requires !InheritedKey(choice)
    ensures PaymentOf(choice).Method? && PaymentOf(choice).name in PaymentMethods
    ensures PaymentOf(PaymentOf(choice).name) == PaymentOf(choice)
  {
  }

  /** The order record `handleSubmit` sends. */
  datatype Order = Order(items: seq<OrderItem>, totalAmount: int, shippingAddress: Address, paymentMethod: Payment, paymentStatus: string)

  /** One order line per cart entry, in order, with the entry's id, quantity and price. */
  function ItemsOf(cart: seq<CartEntry>): (items: seq<OrderItem>)
    ensures |items| == |cart|
    ensures forall i :: 0 <= i < |cart| ==> items[i] == OrderItem(cart[i].id, cart[i].quantity, cart[i].price)
  {
    seq(|cart|, i requires 0 <= i < |cart| => OrderItem(cart[i].id, cart[i].quantity, cart[i].price))
  }

  /** The form's address, city, country and postal code as the stored address. */
  function AddressOf(f: Form): (a: Address)
    ensures a.street == f.address && a.city == f.city && a.country == f.country && a.zipCode == f.postalCode
  {
    Address(f.address, f.city, f.country, f.postalCode)
  }

  /** The order placed from a cart, its total and the form; every order is recorded as paid. */
  function OrderOf(cart: seq<CartEntry>, cartTotal: int, f: Form): (o: Order)
    ensures o.items == ItemsOf(cart) && o.totalAmount == cartTotal
    ensures o.shippingAddress == AddressOf(f) && o.paymentMethod == PaymentOf(f.paymentMethod)
    ensures o.paymentStatus == "completed"
  {
    Order(ItemsOf(cart), cartTotal, AddressOf(f), PaymentOf(f.paymentMethod), "completed")
  }

  /** The value of a cart: quantity times price, summed. */
  function CartValue(cart: seq<CartEntry>): int
    decreases |cart|
  {
    if cart == [] then 0 else CartValue(cart[..|cart| - 1]) + cart[|cart| - 1].quantity * cart[|cart| - 1].price
  }

  /** The value of an order's lines. */
  function OrderValue(items: seq<OrderItem>): int
    decreases |items|
  {
    if items == [] then 0 else OrderValue(items[..|items| - 1]) + items[|items| - 1].quantity * items[|items| - 1].price
  }

  /** The product ids of the cart, as the purchase record lists them. */
  function ProductIds(cart: seq<CartEntry>): (ids: seq<string>)
    ensures |ids| == |cart| && forall i :: 0 <= i < |cart| ==> ids[i] == cart[i].id
  {
    seq(|cart|, i requires 0 <= i < |cart| => cart[i].id)
  }

  /**
   * The order lines carry the cart: their value is the cart's value, and
   * their products are the ids the purchase record lists.
   */
  lemma {:induction false} OrderKeepsCart(cart: seq<CartEntry>)
    ensures OrderValue(ItemsOf(cart)) == CartValue(cart)
    ensures forall i :: 0 <= i < |cart| ==> ItemsOf(cart)[i].product == ProductIds(cart)[i]
    decreases |cart|
  {
    if cart != [] {
      var init := cart[..|cart| - 1];
      OrderKeepsCart(init);
      assert ItemsOf(cart)[..|cart| - 1] == ItemsOf(init);
    }
  }

  /** What a submit does. */
  datatype Submission =
    | ToPayment
    | Attempt(order: Order, purchase: Option<(string, seq<string>)>, clearCart: bool, loading: bool)

  /**
   * `handleSubmit`: on step 1 it only moves to step 2. Otherwise it places
   * the order; only when that succeeds does it send the purchase record
   * (the user id and the cart's product ids), and only when both succeed is
   * the cart cleared. Loading ends either way. `placed` is whether the order
   * request answered with a success status (axios throws otherwise);
   * `recorded` is whether the purchase-record request got any answer at all,
   * since `fetch` fails only when no answer arrives and the page does not
   * look at its status.
   */
  function Submit(step: int, f: Form, cart: seq<CartEntry>, cartTotal: int, userId: string, placed: bool, recorded: bool)
    : (r: Submission)
    ensures r.ToPayment? <==> step == 1
    ensures r.Attempt? ==> r.order == OrderOf(cart, cartTotal, f) && !r.loading
    ensures r.Attempt? ==> (r.purchase.Some? <==> placed)
    ensures r.Attempt? && r.purchase.Some? ==> r.purchase.value == (userId, ProductIds(cart))
    ensures r.Attempt? ==> (r.clearCart <==> placed && recorded)
  {
    if step == 1 then ToPayment
    else
      var order := OrderOf(cart, cartTotal, f);
      var purchase := if placed then Some((userId, ProductIds(cart))) else None;
      Attempt(order, purchase, placed && recorded, false)
  }

  /** A failed order never clears the cart, and step 1 never places one. */
  lemma CartKeptOnFailure(step: int, f: Form, cart: seq<CartEntry>, cartTotal: int, userId: string, recorded: bool)
    ensures Submit(1, f, cart, cartTotal, userId, true, recorded) == ToPayment
    ensures var r := Submit(step, f, cart, cartTotal, userId, false, recorded);
      r.ToPayment? || (!r.clearCart && r.purchase.None?)
  {
  }
}
