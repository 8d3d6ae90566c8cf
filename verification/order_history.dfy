/**
 * The order history page (client/src/pages/OrderHistoryPage.jsx): how a
 * fetch outcome becomes the list of orders, the badge colour and icon of a
 * status, the two-item preview of an order's products and the review button.
 */
module OrderHistory {
  import opened Wrappers
  import opened Js

  /** The four statuses the page knows by name. */
  predicate KnownStatus(status: Value) {
    status in {Str("delivered"), Str("shipped"), Str("processing"), Str("cancelled")}
  }

  /** `getStatusColor(status)`: a Bootstrap colour per known status, `secondary` for anything else. */
  function StatusColor(status: Value): (c: string)
    ensures !KnownStatus(status) <==> c == "secondary"
  {
    if status == Str("delivered") then "success"
    else if status == Str("shipped") then "info"
    else if status == Str("processing") then "warning"
    else if status == Str("cancelled") then "danger"
    else "secondary"
  }

  /** `getStatusIcon(status)`: an icon per known status, the hourglass for anything else. */
  function StatusIcon(status: Value): (i: string)
    ensures !KnownStatus(status) <==> i == "bi-hourglass-split"
  {
    if status == Str("delivered") then "bi-check-circle-fill"
    else if status == Str("shipped") then "bi-truck"
    else if status == Str("processing") then "bi-clock-fill"
    else if status == Str("cancelled") then "bi-x-circle-fill"
    else "bi-hourglass-split"
  }

  /**
   * Colour and icon tell the same story: two statuses get the same colour
   * exactly when they get the same icon, so known statuses are told apart
   * by both and every unknown status looks like every other.
   */
  lemma BadgesAgree(s: Value, t: Value)
    ensures StatusColor(s) == StatusColor(t) <==> StatusIcon(s) == StatusIcon(t)
    ensures KnownStatus(s) && KnownStatus(t) && s != t ==> StatusColor(s) != StatusColor(t)
  {
  }

  /** `order.status === 'delivered'`: whether the details offer a review. */
  predicate OffersReview(status: Value) {
    status == Str("delivered")
  }

  /** The review button appears exactly on orders whose badge is green. */
  lemma ReviewOnlyWhenDelivered(status: Value)
    ensures OffersReview(status) <==> StatusColor(status) == "success"
  {
  }

  /** How the orders request ended: no answer, or an answer with its status and body. */
  datatype Fetch = NoAnswer | Answered(ok: bool, body: Value)

  /** The page after loading: the orders, whether the error banner shows, and the spinner off. */
  datatype Loaded = Loaded(orders: seq<Value>, failed: bool, loading: bool)

  /**
   * `fetchOrders`: an answer that is OK shows its body if it is an array and
   * no orders otherwise; a failed request or a non-OK status shows the error
   * and no orders. Loading ends either way.
   */
  function LoadOrders(f: Fetch): (r: Loaded)
    ensures !r.loading
    ensures r.failed <==> f.NoAnswer? || !f.ok
    ensures f.Answered? && f.ok && f.body.Arr? ==> r.orders == f.body.items
    ensures !(f.Answered? && f.ok && f.body.Arr?) ==> r.orders == []
  {
    match f
    case NoAnswer => Loaded([], true, false)
    case Answered(ok, body) =>
      if !ok then Loaded([], true, false)
      else Loaded(if body.Arr? then body.items else [], false, false)
  }

  /** What an order card lists: the first two products and, when there are more, how many more. */
  datatype Preview<T> = Preview(shown: seq<T>, more: Option<nat>)

  /** The number of products a card lists by name. */
  const PreviewSize: nat := 2

  /** `items.slice(0, 2)` and the `+N more items` line, shown only beyond two. */
  function PreviewOf<T>(items: seq<T>): (p: Preview<T>)
    ensures p.shown <= items && |p.shown| <= PreviewSize
    ensures p.more.Some? <==> |items| > PreviewSize
    ensures |p.shown| + (if p.more.Some? then p.more.value else 0) == |items|
  {
    if |items| > PreviewSize then Preview(items[..PreviewSize], Some(|items| - PreviewSize))
    else Preview(items, None)
  }

  /** Reading the preview back: the listed products are every product exactly when no count is shown. */
  lemma PreviewComplete<T>(items: seq<T>)
    ensures PreviewOf(items).more.None? <==> PreviewOf(items).shown == items
  {
  }
}
