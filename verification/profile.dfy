/**
  The profile page's order history: the signed-in user's orders, each with
  its status label, per-line amounts and the order's stored total. The
  signed-in user is fixed, as on the page itself.
 */
module Profile {
  import opened Types
  import opened Seqs
  import CartStore
  import CartPage
  import OrderStatus

  /** The id of the signed-in user. */
  const CurrentUserId: string := "1"

  /** The user's orders, in stored order. */
  function UserOrders(orders: seq<Order>, userId: string): (r: seq<Order>)
    ensures multiset(r) <= multiset(orders)
    ensures forall i :: 0 <= i < |r| ==> r[i].userId == userId && r[i] in orders
    ensures forall i :: 0 <= i < |orders| && orders[i].userId == userId ==> orders[i] in r
  {
    FilterSubMultiset(orders, (o: Order) => o.userId == userId);
    Filter(orders, (o: Order) => o.userId == userId)
  }

  /** The history keeps the stored order, and another user's orders never
      appear in it. */
  lemma UserOrdersKeepOrder(a: seq<Order>, b: seq<Order>, userId: string)
    ensures UserOrders(a + b, userId) == UserOrders(a, userId) + UserOrders(b, userId)
    ensures (forall i :: 0 <= i < |b| ==> b[i].userId != userId) ==> UserOrders(a + b, userId) == UserOrders(a, userId)
  {
    FilterAppend(a, b, (o: Order) => o.userId == userId);
    if forall i :: 0 <= i < |b| ==> b[i].userId != userId {
      FilterDropsAll(b, (o: Order) => o.userId == userId);
    }
  }

  /** The "no orders yet" view shows exactly when the user has no order. */
  predicate ShowsNoOrders(orders: seq<Order>) {
    |UserOrders(orders, CurrentUserId)| == 0
  }

  lemma NoOrdersIff(orders: seq<Order>)
    ensures ShowsNoOrders(orders) <==> forall i :: 0 <= i < |orders| ==> orders[i].userId != CurrentUserId
  {
    var r := UserOrders(orders, CurrentUserId);
    if |r| > 0 {
      var k :| 0 <= k < |orders| && orders[k] == r[0];
    }
  }

  /** One row of an order card. */
  datatype OrderRow = OrderRow(id: string, status: string, lineAmounts: seq<int>, total: int)

  /** An order card: its label, each line's price × quantity, and the total
      as stored with the order. */
  function Card(o: Order): (r: OrderRow)
    ensures r.id == o.id && r.total == o.total
    ensures |r.lineAmounts| == |o.items|
    ensures forall i :: 0 <= i < |o.items| ==> r.lineAmounts[i] == CartStore.LineTotal(o.items[i])
    ensures r.status == OrderStatus.StatusText(o.status)
    ensures OrderStatus.IsKnown(o.status) ==> r.status != o.status
    ensures !OrderStatus.IsKnown(o.status) ==> r.status == o.status
  {
    OrderStatus.LabelsDistinguishStatuses(o.status, o.status);
    OrderRow(o.id, OrderStatus.StatusText(o.status), CartPage.LineSubtotals(o.items), o.total)
  }

  /** The line amounts of a card add up to the order's product total. */
  lemma CardLinesSum(o: Order)
    ensures Sum(Card(o).lineAmounts) == CartStore.Total(o.items)
  {
    CartPage.SubtotalsSum(o.items);
  }

  /** The card's total is the stored one, not recomputed: an order whose
      stored total disagrees with its lines shows that total regardless. */
  lemma CardTotalIsStored()
    ensures var p := Product("p", "n", 10, "", None, "", "c", 1, None, None, None, false, false, false);
      var o := Order("o", CurrentUserId, "c", [CartItem(p, 2)], 5, "shipped", "", 0);
      Card(o).total == 5 && Sum(Card(o).lineAmounts) == 20
  {
    var p := Product("p", "n", 10, "", None, "", "c", 1, None, None, None, false, false, false);
    var o := Order("o", CurrentUserId, "c", [CartItem(p, 2)], 5, "shipped", "", 0);
    CardLinesSum(o);
  }
}
