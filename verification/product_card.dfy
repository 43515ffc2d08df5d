/**
  The product card: its add-to-cart button and the corner badges. The
  compact variant has room for the "new" and "popular" badges only.
 */
module ProductCard {
  import opened Types
  import opened CartStore

  datatype Variant = Default | Compact

  datatype Badge = NewBadge | PopularBadge | FeaturedBadge

  /** The add button dispatches an add of exactly one of the card's product. */
  function AddClick(p: Product): (a: Action)
    ensures a.AddToCart? && a.product == p && a.quantity == 1
  {
    AddToCart(p, 1)
  }

  /** On a cart without duplicate lines, the add button raises the item count by one. */
  lemma AddClickAddsOne(c: Cart, p: Product)
    requires Consistent(c) && UniqueIds(c.items)
    ensures GetItemCount(Reduce(c, AddClick(p))) == GetItemCount(c) + 1
    ensures HasId(Reduce(c, AddClick(p)).items, p.id)
  {
    if HasId(c.items, p.id) {
      var k :| 0 <= k < |c.items| && c.items[k].product.id == p.id;
      AddPresentTotals(c, p, 1, k);
      assert Reduce(c, AddClick(p)).items[k].product.id == p.id;
    } else {
      AddAbsentTotals(c, p, 1);
      assert Reduce(c, AddClick(p)).items[|c.items|].product.id == p.id;
    }
  }

  /** The badges the card renders, each under its own condition, in markup order. */
  function Badges(p: Product, v: Variant): (r: seq<Badge>)
    ensures NewBadge in r <==> p.isNew
    ensures PopularBadge in r <==> p.isPopular && !p.isNew
    ensures FeaturedBadge in r <==> v == Default && p.isFeatured && !p.isNew && !p.isPopular
  {
    (if p.isNew then [NewBadge] else [])
    + (if p.isPopular && !p.isNew then [PopularBadge] else [])
    + (if v == Default && p.isFeatured && !p.isNew && !p.isPopular then [FeaturedBadge] else [])
  }

  /** The three conditions exclude one another, so a card never stacks badges. */
  lemma AtMostOneBadge(p: Product, v: Variant)
    ensures |Badges(p, v)| <= 1
    ensures |Badges(p, v)| == 0 <==> !p.isNew && !p.isPopular && (v == Compact || !p.isFeatured)
  {
  }
}
