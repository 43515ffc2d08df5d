/**
  The shopping-cart store: a reducer over five actions that keeps the cart's
  lines and two cached aggregates, `total` (the sum of price × quantity) and
  `itemCount` (the sum of quantities). Every action except loading a snapshot
  recomputes both aggregates from the lines.
 */
module CartStore {
  import opened Types
  import Seqs

  /** What one line contributes to the cart total. */
  function LineTotal(item: CartItem): int {
    item.product.price * item.quantity
  }

  /** Σ price × quantity over the lines. */
  function Total(items: seq<CartItem>): int {
    if |items| == 0 then 0 else LineTotal(items[0]) + Total(items[1..])
  }

  /** Σ quantity over the lines. */
  function Count(items: seq<CartItem>): int {
    if |items| == 0 then 0 else items[0].quantity + Count(items[1..])
  }

  /** The cached aggregates agree with the lines. */
  predicate Consistent(c: Cart) {
    c.total == Total(c.items) && c.itemCount == Count(c.items)
  }

  predicate HasId(items: seq<CartItem>, id: string) {
    exists i :: 0 <= i < |items| && items[i].product.id == id
  }

  /** No product appears on two lines. */
  predicate UniqueIds(items: seq<CartItem>) {
    forall i, j :: 0 <= i < j < |items| ==> items[i].product.id != items[j].product.id
  }

  /** Every line's quantity is at least one. */
  predicate PositiveQuantities(items: seq<CartItem>) {
    forall i :: 0 <= i < |items| ==> items[i].quantity >= 1
  }

  /** The cart the store starts with. */
  const InitialCart: Cart := Cart([], 0, 0)

  /** The quantity `addToCart` uses when the caller gives none. */
  const DefaultQuantity: int := 1

  /** A cart whose aggregates are recomputed from `items`. */
  function Tally(items: seq<CartItem>): (c: Cart)
    ensures Consistent(c) && c.items == items
  {
    Cart(items, Total(items), Count(items))
  }

  /** Every line for `id` gets quantity `f(quantity)`; every other line is kept. */
  function Requantify(items: seq<CartItem>, id: string, f: int -> int): (r: seq<CartItem>)
    ensures |r| == |items|
    ensures forall i :: 0 <= i < |items| ==>
      r[i] == (if items[i].product.id == id then CartItem(items[i].product, f(items[i].quantity)) else items[i])
  {
    if |items| == 0 then []
    else
      var head := if items[0].product.id == id then CartItem(items[0].product, f(items[0].quantity)) else items[0];
      [head] + Requantify(items[1..], id, f)
  }

  /** The lines whose product id differs from `id`, in order. */
  function Without(items: seq<CartItem>, id: string): (r: seq<CartItem>)
    ensures forall i :: 0 <= i < |r| ==> r[i].product.id != id && r[i] in items
    ensures forall i :: 0 <= i < |items| && items[i].product.id != id ==> items[i] in r
    ensures !HasId(items, id) ==> r == items
  {
    var r := Seqs.Filter(items, (item: CartItem) => item.product.id != id);
    assert !HasId(items, id) ==> r == items by {
      if !HasId(items, id) {
        Seqs.FilterKeepsAll(items, (item: CartItem) => item.product.id != id);
      }
    }
    r
  }

  /** ADD_TO_CART: merge into the lines already holding the product, else
      append a new line. Neither branch looks at stock or at the sign of `n`. */
  function Add(s: Cart, p: Product, n: int): (r: Cart)
    ensures Consistent(r)
    ensures HasId(s.items, p.id) ==>
      && |r.items| == |s.items|
      && forall i :: 0 <= i < |s.items| ==>
           r.items[i] == (if s.items[i].product.id == p.id
                          then CartItem(s.items[i].product, s.items[i].quantity + n)
                          else s.items[i])
    ensures !HasId(s.items, p.id) ==> r.items == s.items + [CartItem(p, n)]
  {
    if HasId(s.items, p.id) then Tally(Requantify(s.items, p.id, q => q + n))
    else Tally(s.items + [CartItem(p, n)])
  }

  /** REMOVE_FROM_CART: drop every line for `id`, keep the rest in order. */
  function Remove(s: Cart, id: string): (r: Cart)
    ensures Consistent(r)
    ensures !HasId(r.items, id)
    ensures forall i :: 0 <= i < |s.items| && s.items[i].product.id != id ==> s.items[i] in r.items
    ensures forall i :: 0 <= i < |r.items| ==> r.items[i] in s.items
    ensures !HasId(s.items, id) ==> r.items == s.items
  {
    Tally(Without(s.items, id))
  }

  /** UPDATE_QUANTITY: a quantity of zero or less removes the product;
      otherwise every line for `id` gets exactly quantity `q`. */
  function Update(s: Cart, id: string, q: int): (r: Cart)
    ensures Consistent(r)
    ensures q <= 0 ==> r == Remove(s, id)
    ensures q > 0 ==>
      && |r.items| == |s.items|
      && forall i :: 0 <= i < |s.items| ==>
           r.items[i] == (if s.items[i].product.id == id then CartItem(s.items[i].product, q) else s.items[i])
    ensures q > 0 && !HasId(s.items, id) ==> r.items == s.items
  {
    if q <= 0 then Remove(s, id)
    else Tally(Requantify(s.items, id, _ => q))
  }

  datatype Action =
    | AddToCart(product: Product, quantity: int)
    | RemoveFromCart(productId: string)
    | UpdateQuantity(productId: string, quantity: int)
    | ClearCart
    | LoadCart(cart: Cart)

  /** The reducer. CLEAR_CART yields the empty cart; LOAD_CART installs its
      payload as it is, aggregates included. */
  function Reduce(s: Cart, a: Action): (r: Cart)
    ensures a.ClearCart? ==> r.items == [] && r.total == 0 && r.itemCount == 0
    ensures a.LoadCart? ==> r == a.cart
    ensures !a.LoadCart? ==> Consistent(r)
  {
    match a
    case AddToCart(p, n) => Add(s, p, n)
    case RemoveFromCart(id) => Remove(s, id)
    case UpdateQuantity(id, q) => Update(s, id, q)
    case ClearCart => InitialCart
    case LoadCart(c) => c
  }

  /** The state after dispatching `actions` in order. */
  function Run(s: Cart, actions: seq<Action>): Cart
    decreases |actions|
  {
    if |actions| == 0 then s else Run(Reduce(s, actions[0]), actions[1..])
  }

  /** Every snapshot the run loads is itself consistent. */
  predicate LoadsConsistent(actions: seq<Action>) {
    forall i :: 0 <= i < |actions| && actions[i].LoadCart? ==> Consistent(actions[i].cart)
  }

  /** `addToCart(product)` without a quantity adds one. */
  function AddDefault(s: Cart, p: Product): (r: Cart)
    ensures Consistent(r) && HasId(r.items, p.id)
    ensures !HasId(s.items, p.id) ==> r.items == s.items + [CartItem(p, 1)]
    ensures HasId(s.items, p.id) ==> |r.items| == |s.items|
    ensures forall k :: 0 <= k < |s.items| && s.items[k].product.id == p.id ==>
      r.items[k] == CartItem(s.items[k].product, s.items[k].quantity + 1)
    ensures Consistent(s) && UniqueIds(s.items) ==> r.itemCount == s.itemCount + 1
    ensures Consistent(s) && !HasId(s.items, p.id) ==> r.total == s.total + p.price
    ensures Consistent(s) && UniqueIds(s.items) ==>
      forall k :: 0 <= k < |s.items| && s.items[k].product.id == p.id ==> r.total == s.total + s.items[k].product.price
  {
    var r := Reduce(s, AddToCart(p, DefaultQuantity));
    assert r == Add(s, p, 1);
    AddOne(s, p);
    r
  }

  /** Adding one of a product puts it in the cart and moves the aggregates by
      one of whichever product the matching line holds. */
  lemma AddOne(s: Cart, p: Product)
    ensures HasId(Add(s, p, 1).items, p.id)
    ensures Consistent(s) && UniqueIds(s.items) ==> Add(s, p, 1).itemCount == s.itemCount + 1
    ensures Consistent(s) && !HasId(s.items, p.id) ==> Add(s, p, 1).total == s.total + p.price
    ensures Consistent(s) && UniqueIds(s.items) ==>
      forall k :: 0 <= k < |s.items| && s.items[k].product.id == p.id ==> Add(s, p, 1).total == s.total + s.items[k].product.price
  {
    var r := Add(s, p, 1);
    if HasId(s.items, p.id) {
      var k :| 0 <= k < |s.items| && s.items[k].product.id == p.id;
      assert r.items[k].product.id == p.id;
      if Consistent(s) && UniqueIds(s.items) {
        AddPresentTotals(s, p, 1, k);
        forall j | 0 <= j < |s.items| && s.items[j].product.id == p.id
          ensures r.total == s.total + s.items[j].product.price
        {
          AddPresentTotals(s, p, 1, j);
        }
      }
    } else {
      assert r.items[|s.items|].product.id == p.id;
      if Consistent(s) {
        AddAbsentTotals(s, p, 1);
      }
    }
  }

  /** `getTotal()`: the cached total, which under the invariant is the fold. */
  function GetTotal(c: Cart): (r: int)
    ensures Consistent(c) ==> r == Total(c.items)
  {
    c.total
  }

  /** `getItemCount()`: the cached count, which under the invariant is the fold. */
  function GetItemCount(c: Cart): (r: int)
    ensures Consistent(c) ==> r == Count(c.items)
  {
    c.itemCount
  }

  /** Start-up: a missing, empty or unparsable snapshot (`None`) leaves the
      initial cart; a parsed one is loaded as it is. */
  function Rehydrate(parsed: Option<Cart>): (r: Cart)
    ensures parsed.None? ==> r == InitialCart && Consistent(r)
    ensures parsed.Some? ==> r == Reduce(InitialCart, LoadCart(parsed.value))
  {
    match parsed
    case None => InitialCart
    case Some(c) => Reduce(InitialCart, LoadCart(c))
  }

  // ----- Aggregates -----

  lemma {:induction false} TotalsAppend(items: seq<CartItem>, x: CartItem)
    ensures Total(items + [x]) == Total(items) + LineTotal(x)
    ensures Count(items + [x]) == Count(items) + x.quantity
  {
    if |items| == 0 {
      assert items + [x] == [x];
    } else {
      assert (items + [x])[1..] == items[1..] + [x];
      TotalsAppend(items[1..], x);
    }
  }

  /** Changing the quantities of lines for an id that is absent changes nothing. */
  lemma {:induction false} RequantifyAbsent(items: seq<CartItem>, id: string, f: int -> int)
    requires !HasId(items, id)
    ensures Requantify(items, id, f) == items
  {
    if |items| > 0 {
      forall i | 0 <= i < |items[1..]|
        ensures items[1..][i].product.id != id
      {
        assert items[1..][i] == items[i + 1];
      }
      RequantifyAbsent(items[1..], id, f);
    }
  }

  /** The tail of a list with unique ids has no line for the head's product. */
  lemma TailLacksHead(items: seq<CartItem>)
    requires UniqueIds(items) && |items| > 0
    ensures !HasId(items[1..], items[0].product.id)
    ensures UniqueIds(items[1..])
  {
    forall i | 0 <= i < |items[1..]|
      ensures items[1..][i].product.id != items[0].product.id
    {
      assert items[1..][i] == items[i + 1];
    }
  }

  /** With unique ids, re-quantifying the line at `k` moves each aggregate by
      exactly that line's change. */
  lemma {:induction false} RequantifyTotals(items: seq<CartItem>, id: string, f: int -> int, k: int)
    requires UniqueIds(items)
    requires 0 <= k < |items| && items[k].product.id == id
    ensures Total(Requantify(items, id, f)) == Total(items) - LineTotal(items[k]) + items[k].product.price * f(items[k].quantity)
    ensures Count(Requantify(items, id, f)) == Count(items) - items[k].quantity + f(items[k].quantity)
  {
    var r := Requantify(items, id, f);
    TailLacksHead(items);
    assert r[1..] == Requantify(items[1..], id, f);
    if k == 0 {
      RequantifyAbsent(items[1..], id, f);
    } else {
      assert items[1..][k - 1] == items[k];
      RequantifyTotals(items[1..], id, f, k - 1);
    }
  }

  /** With unique ids, removing the line at `k` takes exactly that line out
      of each aggregate. */
  lemma {:induction false} WithoutTotals(items: seq<CartItem>, id: string, k: int)
    requires UniqueIds(items)
    requires 0 <= k < |items| && items[k].product.id == id
    ensures Total(Without(items, id)) == Total(items) - LineTotal(items[k])
    ensures Count(Without(items, id)) == Count(items) - items[k].quantity
  {
    var keep := (item: CartItem) => item.product.id != id;
    assert items == [items[0]] + items[1..];
    if k == 0 {
      forall i | 0 <= i < |items[1..]|
        ensures items[1..][i].product.id != id
      {
        assert items[1..][i] == items[i + 1];
      }
      assert Without(items, id) == Seqs.Filter(items[1..], keep);
      assert Without(items[1..], id) == items[1..];
    } else {
      assert items[1..][k - 1] == items[k];
      WithoutTotals(items[1..], id, k - 1);
      assert Without(items, id) == [items[0]] + Seqs.Filter(items[1..], keep);
    }
  }

  /** Filtering out an id distributes over concatenation: the kept lines
      keep their relative order. */
  lemma WithoutAppend(a: seq<CartItem>, b: seq<CartItem>, id: string)
    ensures Without(a + b, id) == Without(a, id) + Without(b, id)
  {
    Seqs.FilterAppend(a, b, (item: CartItem) => item.product.id != id);
  }

  /** A single line is kept exactly when it is for another product. */
  lemma WithoutSingle(x: CartItem, id: string)
    ensures Without([x], id) == (if x.product.id == id then [] else [x])
  {
    var keep := (item: CartItem) => item.product.id != id;
    assert [x][1..] == [];
    assert Seqs.Filter([x][1..], keep) == [];
  }

  // ----- Properties of the transitions -----

  /** Adding a product already in the cart grows its line by `n`; nothing
      else moves. */
  lemma AddPresentTotals(s: Cart, p: Product, n: int, k: int)
    requires Consistent(s) && UniqueIds(s.items)
    requires 0 <= k < |s.items| && s.items[k].product.id == p.id
    ensures Add(s, p, n).total == s.total + s.items[k].product.price * n
    ensures Add(s, p, n).itemCount == s.itemCount + n
    ensures Add(s, p, n).items[k] == CartItem(s.items[k].product, s.items[k].quantity + n)
  {
    assert HasId(s.items, p.id);
    assert Add(s, p, n) == Tally(Requantify(s.items, p.id, q => q + n));
    GrowTotals(s, p, n, k);
  }

  /** Growing the one line of a product by `n` moves the aggregates by `n` of it. */
  lemma GrowTotals(s: Cart, p: Product, n: int, k: int)
    requires Consistent(s) && UniqueIds(s.items)
    requires 0 <= k < |s.items| && s.items[k].product.id == p.id
    ensures Tally(Requantify(s.items, p.id, q => q + n)).total == s.total + s.items[k].product.price * n
    ensures Tally(Requantify(s.items, p.id, q => q + n)).itemCount == s.itemCount + n
  {
    RequantifyTotals(s.items, p.id, q => q + n, k);
    GrowBy(Total(s.items), Total(Requantify(s.items, p.id, q => q + n)), s.items[k].product.price, s.items[k].quantity, n);
  }

  /** Adding an absent product appends one line and moves the aggregates by it. */
  lemma AddAbsentTotals(s: Cart, p: Product, n: int)
    requires Consistent(s) && !HasId(s.items, p.id)
    ensures Add(s, p, n).total == s.total + p.price * n
    ensures Add(s, p, n).itemCount == s.itemCount + n
    ensures |Add(s, p, n).items| == |s.items| + 1
  {
    TotalsAppend(s.items, CartItem(p, n));
  }

  /** Two adds of one product on an empty cart make a single merged line. */
  lemma AddTwiceMerges(p: Product, n: int, m: int)
    ensures Add(Add(InitialCart, p, n), p, m).items == [CartItem(p, n + m)]
    ensures Add(Add(InitialCart, p, n), p, m).itemCount == n + m
  {
    var once := Add(InitialCart, p, n);
    assert once.items == [CartItem(p, n)];
    assert HasId(once.items, p.id) by { assert once.items[0].product.id == p.id; }
    var twice := Add(once, p, m);
    assert twice.items == [CartItem(p, n + m)];
    assert twice.items[1..] == [];
    assert Count(twice.items) == n + m;
  }

  /** Removing a product drops its line and takes it out of the aggregates. */
  lemma RemovePresentTotals(s: Cart, id: string, k: int)
    requires Consistent(s) && UniqueIds(s.items)
    requires 0 <= k < |s.items| && s.items[k].product.id == id
    ensures Remove(s, id).total == s.total - LineTotal(s.items[k])
    ensures Remove(s, id).itemCount == s.itemCount - s.items[k].quantity
  {
    WithoutTotals(s.items, id, k);
  }

  /** With unique ids, removing the product of line `k` cuts out exactly that
      line: the lines before and after it stay, in order, once each. */
  lemma RemoveDropsLine(s: Cart, id: string, k: int)
    requires UniqueIds(s.items)
    requires 0 <= k < |s.items| && s.items[k].product.id == id
    ensures Remove(s, id).items == s.items[..k] + s.items[k + 1..]
  {
    var before, after := s.items[..k], s.items[k + 1..];
    OthersLackId(s.items, id, k);
    assert s.items == before + ([s.items[k]] + after);
    WithoutAppend(before, [s.items[k]] + after, id);
    WithoutAppend([s.items[k]], after, id);
    WithoutSingle(s.items[k], id);
  }

  /** With unique ids, no line before or after the line of `id` holds it. */
  lemma OthersLackId(items: seq<CartItem>, id: string, k: int)
    requires UniqueIds(items)
    requires 0 <= k < |items| && items[k].product.id == id
    ensures !HasId(items[..k], id) && !HasId(items[k + 1..], id)
  {
    forall i | 0 <= i < k
      ensures items[..k][i].product.id != id
    {
      assert items[..k][i] == items[i];
    }
    var after := items[k + 1..];
    forall i | 0 <= i < |after|
      ensures after[i].product.id != id
    {
      assert after[i] == items[k + 1 + i];
    }
  }

  /** Removing an absent product from a consistent cart is the identity. */
  lemma RemoveAbsentIsIdentity(s: Cart, id: string)
    requires Consistent(s) && !HasId(s.items, id)
    ensures Remove(s, id) == s
  {
  }

  /** A positive update sets the line's quantity and moves the aggregates by
      the difference. */
  lemma UpdatePresentTotals(s: Cart, id: string, q: int, k: int)
    requires Consistent(s) && UniqueIds(s.items) && q > 0
    requires 0 <= k < |s.items| && s.items[k].product.id == id
    ensures Update(s, id, q).total == s.total + s.items[k].product.price * (q - s.items[k].quantity)
    ensures Update(s, id, q).itemCount == s.itemCount + (q - s.items[k].quantity)
  {
    assert Update(s, id, q) == Tally(Requantify(s.items, id, _ => q));
    SetTotals(s, id, q, k);
  }

  /** Setting the one line of a product to `q` moves the aggregates by the difference. */
  lemma SetTotals(s: Cart, id: string, q: int, k: int)
    requires Consistent(s) && UniqueIds(s.items)
    requires 0 <= k < |s.items| && s.items[k].product.id == id
    ensures Tally(Requantify(s.items, id, _ => q)).total == s.total + s.items[k].product.price * (q - s.items[k].quantity)
    ensures Tally(Requantify(s.items, id, _ => q)).itemCount == s.itemCount + (q - s.items[k].quantity)
  {
    RequantifyTotals(s.items, id, _ => q, k);
    MoveBy(Total(s.items), Total(Requantify(s.items, id, _ => q)), s.items[k].product.price, s.items[k].quantity, q);
  }

  /** Replacing `a * q0` by `a * (q0 + n)` in a sum moves it by `a * n`. */
  lemma GrowBy(before: int, after: int, a: int, q0: int, n: int)
    requires after == before - a * q0 + a * (q0 + n)
    ensures after == before + a * n
  {
    Distribute(a, n, q0);
  }

  /** Replacing `a * q0` by `a * q1` in a sum moves it by `a * (q1 - q0)`. */
  lemma MoveBy(before: int, after: int, a: int, q0: int, q1: int)
    requires after == before - a * q0 + a * q1
    ensures after == before + a * (q1 - q0)
  {
    Distribute(a, q1, q0);
  }

  lemma Distribute(a: int, b: int, c: int)
    ensures a * b - a * c == a * (b - c)
    ensures a * (c + b) == a * c + a * b
  {
  }

  /** An update to zero or below is a remove. */
  lemma UpdateNonPositiveIsRemove(s: Cart, id: string, q: int)
    requires q <= 0
    ensures Reduce(s, UpdateQuantity(id, q)) == Reduce(s, RemoveFromCart(id))
  {
  }

  /** Clearing always gives the initial cart. */
  lemma ClearIsInitial(s: Cart)
    ensures Reduce(s, ClearCart) == InitialCart
    ensures Consistent(Reduce(s, ClearCart))
  {
  }

  /** Loading a snapshot does not recompute: an inconsistent payload stays inconsistent. */
  lemma LoadKeepsPayload(s: Cart, c: Cart)
    ensures Reduce(s, LoadCart(c)) == c
    ensures Consistent(Reduce(s, LoadCart(c))) <==> Consistent(c)
  {
  }

  /** The invariant holds after every step of any run that loads only consistent snapshots. */
  lemma {:induction false} RunKeepsConsistent(s: Cart, actions: seq<Action>)
    requires Consistent(s) && LoadsConsistent(actions)
    ensures Consistent(Run(s, actions))
    decreases |actions|
  {
    if |actions| > 0 {
      assert LoadsConsistent(actions[1..]) by {
        forall i | 0 <= i < |actions[1..]| && actions[1..][i].LoadCart?
          ensures Consistent(actions[1..][i].cart)
        {
          assert actions[1..][i] == actions[i + 1];
        }
      }
      RunKeepsConsistent(Reduce(s, actions[0]), actions[1..]);
    }
  }

  /** No add, remove, update or clear ever creates a second line for a product. */
  lemma ReduceKeepsUniqueIds(s: Cart, a: Action)
    requires UniqueIds(s.items) && !a.LoadCart?
    ensures UniqueIds(Reduce(s, a).items)
  {
    match a
    case AddToCart(p, n) =>
      if HasId(s.items, p.id) {
        RequantifyKeepsUniqueIds(s.items, p.id, q => q + n);
      } else {
        AppendKeepsUniqueIds(s.items, CartItem(p, n));
      }
    case RemoveFromCart(id) =>
      WithoutKeepsUniqueIds(s.items, id);
    case UpdateQuantity(id, q) =>
      if q <= 0 {
        WithoutKeepsUniqueIds(s.items, id);
      } else {
        RequantifyKeepsUniqueIds(s.items, id, _ => q);
      }
    case ClearCart =>
  }

  /** Changing quantities in place leaves every line's product where it was. */
  lemma RequantifyKeepsUniqueIds(items: seq<CartItem>, id: string, f: int -> int)
    requires UniqueIds(items)
    ensures UniqueIds(Requantify(items, id, f))
  {
    var r := Requantify(items, id, f);
    assert forall i :: 0 <= i < |r| ==> r[i].product == items[i].product;
  }

  /** Appending a line for a product not yet in the cart adds no duplicate. */
  lemma AppendKeepsUniqueIds(items: seq<CartItem>, x: CartItem)
    requires UniqueIds(items) && !HasId(items, x.product.id)
    ensures UniqueIds(items + [x])
  {
    var r := items + [x];
    forall i, j | 0 <= i < j < |r|
      ensures r[i].product.id != r[j].product.id
    {
      assert r[i] == items[i];
      if j < |items| {
        assert r[j] == items[j];
      }
    }
  }

  /** Filtering lines out keeps the remaining ones on distinct products. */
  lemma WithoutKeepsUniqueIds(items: seq<CartItem>, id: string)
    requires UniqueIds(items)
    ensures UniqueIds(Without(items, id))
  {
    var keep := (item: CartItem) => item.product.id != id;
    var differ := (a: CartItem, b: CartItem) => a.product.id != b.product.id;
    assert Seqs.Sorted(items, differ);
    Seqs.FilterKeepsSorted(items, keep, differ);
    assert Without(items, id) == Seqs.Filter(items, keep);
  }

  /** The worked example: two products, an update and a remove. */
  lemma ExampleScenario(a: Product, b: Product)
    requires a.id == "A" && a.price == 10000 && b.id == "B" && b.price == 5000
    ensures var s1 := Reduce(InitialCart, AddToCart(a, 2));
            var s2 := Reduce(s1, AddToCart(b, 1));
            var s3 := Reduce(s2, UpdateQuantity("A", 1));
            var s4 := Reduce(s3, RemoveFromCart("B"));
            && s1.total == 20000 && s1.itemCount == 2
            && s2.total == 25000 && s2.itemCount == 3
            && s3.total == 15000 && s3.itemCount == 2
            && s4.total == 10000 && s4.itemCount == 1
  {
    ExampleAddFirst(a);
    ExampleAddSecond(a, b);
    ExampleUpdate(a, b);
    ExampleRemove(a, b);
  }

  lemma ExampleAddFirst(a: Product)
    requires a.price == 10000
    ensures Reduce(InitialCart, AddToCart(a, 2)) == Cart([CartItem(a, 2)], 20000, 2)
  {
    AddAbsentTotals(InitialCart, a, 2);
  }

  lemma ExampleAddSecond(a: Product, b: Product)
    requires a.id == "A" && a.price == 10000 && b.id == "B" && b.price == 5000
    ensures Reduce(Cart([CartItem(a, 2)], 20000, 2), AddToCart(b, 1))
         == Cart([CartItem(a, 2), CartItem(b, 1)], 25000, 3)
  {
    var s := Cart([CartItem(a, 2)], 20000, 2);
    assert !HasId(s.items, b.id);
    AddAbsentTotals(s, b, 1);
  }

  lemma ExampleUpdate(a: Product, b: Product)
    requires a.id == "A" && a.price == 10000 && b.id == "B" && b.price == 5000
    ensures Reduce(Cart([CartItem(a, 2), CartItem(b, 1)], 25000, 3), UpdateQuantity("A", 1))
         == Cart([CartItem(a, 1), CartItem(b, 1)], 15000, 2)
  {
    var s := Cart([CartItem(a, 2), CartItem(b, 1)], 25000, 3);
    ExamplePairConsistent(a, b, 2);
    UpdatePresentTotals(s, "A", 1, 0);
    var r := Update(s, "A", 1);
    assert r.items == [CartItem(a, 1), CartItem(b, 1)];
  }

  lemma ExampleRemove(a: Product, b: Product)
    requires a.id == "A" && a.price == 10000 && b.id == "B" && b.price == 5000
    ensures var r := Reduce(Cart([CartItem(a, 1), CartItem(b, 1)], 15000, 2), RemoveFromCart("B"));
            r.total == 10000 && r.itemCount == 1
  {
    var s := Cart([CartItem(a, 1), CartItem(b, 1)], 15000, 2);
    ExamplePairConsistent(a, b, 1);
    RemovePresentTotals(s, "B", 1);
  }

  /** The two-line cart of the example is consistent and duplicate-free. */
  lemma ExamplePairConsistent(a: Product, b: Product, n: int)
    requires a.id == "A" && a.price == 10000 && b.id == "B" && b.price == 5000
    ensures Consistent(Cart([CartItem(a, n), CartItem(b, 1)], 10000 * n + 5000, n + 1))
    ensures UniqueIds([CartItem(a, n), CartItem(b, 1)])
  {
    var items := [CartItem(a, n), CartItem(b, 1)];
    assert items == [CartItem(a, n)] + [CartItem(b, 1)];
    TotalsAppend([CartItem(a, n)], CartItem(b, 1));
    assert [CartItem(a, n)][1..] == [];
    assert "A" != "B";
  }
}
