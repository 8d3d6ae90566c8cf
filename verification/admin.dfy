/**
 * The admin routes (server/routes/admin.js): promoting and demoting a user's
 * role one step along customer, seller, admin, and the revenue figure of the
 * analytics route. The stored user and the stored orders are parameters;
 * amounts are whole numbers.
 */
module Admin {
  import opened Wrappers

  /** The next role up: customer becomes seller, seller becomes admin; any other role stays. */
  function Promote(role: string): (r: string)
    ensures role == "customer" ==> r == "seller"
    ensures role == "seller" ==> r == "admin"
    ensures role != "customer" && role != "seller" ==> r == role
  {
    if role == "customer" then "seller"
    else if role == "seller" then "admin"
    else role
  }

  /** The next role down: admin becomes seller, seller becomes customer; any other role stays. */
  function Demote(role: string): (r: string)
    ensures role == "admin" ==> r == "seller"
    ensures role == "seller" ==> r == "customer"
    ensures role != "admin" && role != "seller" ==> r == role
  {
    if role == "admin" then "seller"
    else if role == "seller" then "customer"
    else role
  }

  /** The rank of a role on the ladder; a role off the ladder has none. */
  function Rank(role: string): Option<nat> {
    if role == "customer" then Some(0)
    else if role == "seller" then Some(1)
    else if role == "admin" then Some(2)
    else None
  }

  /** Promoting climbs one rank below the top and stops there; demoting is the mirror image. */
  lemma {:induction false} StepsFollowRanks(role: string)
    ensures Rank(role).Some? <==> Rank(Promote(role)).Some?
    ensures Rank(role).Some? ==> Rank(Promote(role)).value == if Rank(role).value < 2 then Rank(role).value + 1 else 2
    ensures Rank(role).Some? ==> Rank(Demote(role)).value == if Rank(role).value > 0 then Rank(role).value - 1 else 0
    ensures Rank(role).None? ==> Promote(role) == role && Demote(role) == role
  {
  }

  /** Demoting a promoted customer or seller gives the role back. */
  lemma DemoteUndoesPromote(role: string)
    requires role == "customer" || role == "seller"
    ensures Demote(Promote(role)) == role
  {
  }

  /** Promoting a demoted seller or admin gives the role back. */
  lemma PromoteUndoesDemote(role: string)
    requires role == "seller" || role == "admin"
    ensures Promote(Demote(role)) == role
  {
  }

  /** The round trips fail exactly at the ends of the ladder. */
  lemma RoundTripsFailAtTheEnds()
    ensures Demote(Promote("admin")) == "seller"
    ensures Promote(Demote("customer")) == "seller"
  {
  }

  /** A stored user as the role routes see it. */
  datatype User = User(id: string, name: string, role: string)

  /** The answer of a role route: 404 for an unknown id, else the saved user. */
  datatype RoleReply = UserNotFound | Saved(user: User)

  /** `PATCH /users/:id/promote`: an unknown user gets 404 and nothing is saved; otherwise only the role changes. */
  function PromoteUser(found: Option<User>): (r: RoleReply)
    ensures found.None? <==> r.UserNotFound?
    ensures found.Some? ==> r.user == found.value.(role := Promote(found.value.role))
  {
    match found
    case None => UserNotFound
    case Some(u) => Saved(u.(role := Promote(u.role)))
  }

  /** `PATCH /users/:id/demote`: an unknown user gets 404 and nothing is saved; otherwise only the role changes. */
  function DemoteUser(found: Option<User>): (r: RoleReply)
    ensures found.None? <==> r.UserNotFound?
    ensures found.Some? ==> r.user == found.value.(role := Demote(found.value.role))
  {
    match found
    case None => UserNotFound
    case Some(u) => Saved(u.(role := Demote(u.role)))
  }

  /** Demoting the user that a promotion saved restores a customer or seller. */
  lemma PromoteThenDemoteUser(u: User)
    requires u.role == "customer" || u.role == "seller"
    ensures DemoteUser(Some(PromoteUser(Some(u)).user)) == Saved(u)
  {
  }

  /** An order as the revenue aggregation reads it. */
  datatype Order = Order(paymentStatus: string, totalAmount: int)

  /** Whether the aggregation's `$match` stage keeps the order. */
  predicate Completed(o: Order) {
    o.paymentStatus == "completed"
  }

  /** The orders that pass the `$match` stage, in order. */
  function CompletedOrders(orders: seq<Order>): (r: seq<Order>)
    ensures |r| <= |orders|
    ensures forall i :: 0 <= i < |r| ==> Completed(r[i])
    decreases |orders|
  {
    if orders == [] then []
    else (if Completed(orders[0]) then [orders[0]] else []) + CompletedOrders(orders[1..])
  }

  /** The sum of the amounts of some orders. */
  function Amounts(orders: seq<Order>): int
    decreases |orders|
  {
    if orders == [] then 0 else orders[0].totalAmount + Amounts(orders[1..])
  }

  /** The `$group` stage: no group at all when nothing matched, otherwise one with the sum. */
  function Aggregate(orders: seq<Order>): (r: Option<int>)
    ensures r.None? <==> CompletedOrders(orders) == []
  {
    var kept := CompletedOrders(orders);
    if kept == [] then None else Some(Amounts(kept))
  }

  /** `totalRevenue`: the group's total, or 0 when there is no group. */
  function TotalRevenue(orders: seq<Order>): int {
    match Aggregate(orders)
    case Some(total) => total
    case None => 0
  }

  /**
   * The revenue is the sum of the completed orders' amounts; it is 0 when
   * there are none, and orders with another status never change it.
   */
  lemma {:induction false} RevenueCountsCompleted(orders: seq<Order>, o: Order)
    ensures TotalRevenue(orders) == Amounts(CompletedOrders(orders))
    ensures (forall i :: 0 <= i < |orders| ==> !Completed(orders[i])) ==> TotalRevenue(orders) == 0
    ensures !Completed(o) ==> TotalRevenue(orders + [o]) == TotalRevenue(orders)
    ensures Completed(o) ==> TotalRevenue(orders + [o]) == TotalRevenue(orders) + o.totalAmount
  {
    NoneCompleted(orders);
    RevenueIsSum(orders);
    RevenueIsSum(orders + [o]);
    CompletedSumSnoc(orders, o);
  }

  /** Reading the group's total, or 0 without a group, is the sum over the completed orders. */
  lemma RevenueIsSum(orders: seq<Order>)
    ensures TotalRevenue(orders) == Amounts(CompletedOrders(orders))
  {
  }

  /** Without a completed order nothing passes the match stage. */
  lemma {:induction false} NoneCompleted(orders: seq<Order>)
    ensures (forall i :: 0 <= i < |orders| ==> !Completed(orders[i])) ==> CompletedOrders(orders) == []
    decreases |orders|
  {
    if orders != [] {
      NoneCompleted(orders[1..]);
      assert forall i :: 0 <= i < |orders| - 1 ==> orders[1..][i] == orders[i + 1];
    }
  }

  /** The match stage on one more order adds it at the end exactly when it is completed. */
  lemma {:induction false} CompletedSnoc(orders: seq<Order>, o: Order)
    ensures CompletedOrders(orders + [o]) == CompletedOrders(orders) + (if Completed(o) then [o] else [])
    decreases |orders|
  {
    if orders == [] {
      assert orders + [o] == [o];
      assert [o][1..] == [];
    } else {
      CompletedSnoc(orders[1..], o);
      assert (orders + [o])[0] == orders[0];
      assert (orders + [o])[1..] == orders[1..] + [o];
    }
  }

  /** Sums add up over consecutive stretches. */
  lemma {:induction false} AmountsAppend(a: seq<Order>, b: seq<Order>)
    ensures Amounts(a + b) == Amounts(a) + Amounts(b)
    decreases |a|
  {
    if a == [] {
      assert a + b == b;
    } else {
      AmountsAppend(a[1..], b);
      assert (a + b)[0] == a[0];
      assert (a + b)[1..] == a[1..] + b;
    }
  }

  /** One more order adds its amount to the completed sum exactly when it is completed. */
  lemma CompletedSumSnoc(orders: seq<Order>, o: Order)
    ensures Amounts(CompletedOrders(orders + [o])) == Amounts(CompletedOrders(orders)) + (if Completed(o) then o.totalAmount else 0)
  {
    CompletedSnoc(orders, o);
    AmountsAppend(CompletedOrders(orders), [o]);
    assert Amounts([o]) == o.totalAmount;
    assert CompletedOrders(orders) + [] == CompletedOrders(orders);
  }

  /** The revenue computed in one pass over the orders. */
  method ComputeRevenue(orders: seq<Order>) returns (total: int)
    ensures total == TotalRevenue(orders)
  {
    total := 0;
    var i := 0;
    while i < |orders|
      invariant 0 <= i <= |orders|
      invariant total == Amounts(CompletedOrders(orders[..i]))
      decreases |orders| - i
    {
      CompletedSumSnoc(orders[..i], orders[i]);
      assert orders[..i + 1] == orders[..i] + [orders[i]];
      if Completed(orders[i]) {
        total := total + orders[i].totalAmount;
      }
      i := i + 1;
    }
    assert orders[..i] == orders;
    RevenueIsSum(orders);
  }
}
