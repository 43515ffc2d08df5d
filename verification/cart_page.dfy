/**
  The cart page: the shipping-inclusive grand total, the per-line subtotal
  column, and the three buttons on each line. A disabled button dispatches
  nothing, which the model writes as `None`.
 */
module CartPage {
  import opened Types
  import opened CartStore
  import Seqs

  /** The fixed shipping charge, in toman. */
  const ShippingCost: int := 50000

  /** The page shows its "cart is empty" view instead of the lines. */
  predicate ShowsEmptyView(c: Cart) {
    |c.items| == 0
  }

  /** The grand total: the cached product total, plus shipping when there is
      at least one line. */
  function TotalWithShipping(c: Cart): (r: int)
    ensures Consistent(c) && ShowsEmptyView(c) ==> r == 0
    ensures Consistent(c) && !ShowsEmptyView(c) ==> r == Total(c.items) + ShippingCost
  {
    GetTotal(c) + (if |c.items| > 0 then ShippingCost else 0)
  }

  /** The "line total" column, one entry per cart line. */
  function LineSubtotals(items: seq<CartItem>): (r: seq<int>)
    ensures |r| == |items|
    ensures forall i :: 0 <= i < |items| ==> r[i] == items[i].product.price * items[i].quantity
  {
    seq(|items|, i requires 0 <= i < |items| => LineTotal(items[i]))
  }

  /** Under the cart invariant the line column adds up to the displayed product total. */
  lemma SubtotalsSumToTotal(c: Cart)
    requires Consistent(c)
    ensures Seqs.Sum(LineSubtotals(c.items)) == GetTotal(c)
  {
    SubtotalsSum(c.items);
  }

  lemma {:induction false} SubtotalsSum(items: seq<CartItem>)
    ensures Seqs.Sum(LineSubtotals(items)) == Total(items)
  {
    if |items| > 0 {
      assert LineSubtotals(items)[1..] == LineSubtotals(items[1..]);
      SubtotalsSum(items[1..]);
    }
  }

  /** The minus button: enabled only above one, it asks for one less. */
  function MinusClick(item: CartItem): (r: Option<Action>)
    ensures r.Some? <==> item.quantity > 1
    ensures r.Some? ==> r.value.UpdateQuantity? && r.value.productId == item.product.id
    ensures r.Some? ==> r.value.quantity == item.quantity - 1 && r.value.quantity >= 1
  {
    if item.quantity <= 1 then None else Some(UpdateQuantity(item.product.id, item.quantity - 1))
  }

  /** The plus button: enabled only below the stock, it asks for one more. */
  function PlusClick(item: CartItem): (r: Option<Action>)
    ensures r.Some? <==> item.quantity < item.product.stock
    ensures r.Some? ==> r.value.UpdateQuantity? && r.value.productId == item.product.id
    ensures r.Some? ==> r.value.quantity == item.quantity + 1 && r.value.quantity <= item.product.stock
  {
    if item.quantity >= item.product.stock then None else Some(UpdateQuantity(item.product.id, item.quantity + 1))
  }

  /** The trash button removes the line's product. */
  function TrashClick(item: CartItem): Action {
    RemoveFromCart(item.product.id)
  }

  /** Every line holds no more than its product's stock. */
  predicate WithinStock(items: seq<CartItem>) {
    forall i :: 0 <= i < |items| ==> items[i].quantity <= items[i].product.stock
  }

  /** Pressing minus on any line never drives a quantity below one. */
  lemma MinusKeepsPositive(c: Cart, i: int)
    requires PositiveQuantities(c.items)
    requires 0 <= i < |c.items| && MinusClick(c.items[i]).Some?
    ensures PositiveQuantities(Reduce(c, MinusClick(c.items[i]).value).items)
    ensures |Reduce(c, MinusClick(c.items[i]).value).items| == |c.items|
  {
  }

  /** Pressing plus on any line keeps every quantity within stock. */
  lemma PlusKeepsWithinStock(c: Cart, i: int)
    requires WithinStock(c.items) && UniqueIds(c.items)
    requires 0 <= i < |c.items| && PlusClick(c.items[i]).Some?
    ensures WithinStock(Reduce(c, PlusClick(c.items[i]).value).items)
  {
    var r := Reduce(c, PlusClick(c.items[i]).value).items;
    forall j | 0 <= j < |r|
      ensures r[j].quantity <= r[j].product.stock
    {
      if c.items[j].product.id == c.items[i].product.id {
        assert j == i;
      }
    }
  }

  /** The trash button removes exactly that line: the product is gone, the
      other lines stay, and the aggregates drop by that line. */
  lemma TrashRemovesLine(c: Cart, i: int)
    requires Consistent(c) && UniqueIds(c.items)
    requires 0 <= i < |c.items|
    ensures !HasId(Reduce(c, TrashClick(c.items[i])).items, c.items[i].product.id)
    ensures forall j :: 0 <= j < |c.items| && j != i ==> c.items[j] in Reduce(c, TrashClick(c.items[i])).items
    ensures GetItemCount(Reduce(c, TrashClick(c.items[i]))) == GetItemCount(c) - c.items[i].quantity
    ensures GetTotal(Reduce(c, TrashClick(c.items[i]))) == GetTotal(c) - LineTotal(c.items[i])
  {
    RemovePresentTotals(c, c.items[i].product.id, i);
  }
}
