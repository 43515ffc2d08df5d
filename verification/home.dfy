/**
  The home page: four product sections chosen from the catalogue by flag or
  category, each rendered only when it has something to show.
 */
module Home {
  import opened Types
  import opened Seqs

  /** The mystery section renders at most this many cards. */
  const MysteryShown: nat := 2

  const MysterySlug: string := "mystery"

  /** The "featured today" section. */
  function Featured(catalogue: seq<Product>): (r: seq<Product>)
    ensures multiset(r) <= multiset(catalogue)
    ensures forall i :: 0 <= i < |r| ==> r[i].isFeatured && r[i] in catalogue
    ensures forall i :: 0 <= i < |catalogue| && catalogue[i].isFeatured ==> catalogue[i] in r
  {
    FilterSubMultiset(catalogue, (p: Product) => p.isFeatured);
    Filter(catalogue, (p: Product) => p.isFeatured)
  }

  /** The "new arrivals" section. */
  function NewArrivals(catalogue: seq<Product>): (r: seq<Product>)
    ensures multiset(r) <= multiset(catalogue)
    ensures forall i :: 0 <= i < |r| ==> r[i].isNew && r[i] in catalogue
    ensures forall i :: 0 <= i < |catalogue| && catalogue[i].isNew ==> catalogue[i] in r
  {
    FilterSubMultiset(catalogue, (p: Product) => p.isNew);
    Filter(catalogue, (p: Product) => p.isNew)
  }

  /** The "most popular" section. */
  function MostPopular(catalogue: seq<Product>): (r: seq<Product>)
    ensures multiset(r) <= multiset(catalogue)
    ensures forall i :: 0 <= i < |r| ==> r[i].isPopular && r[i] in catalogue
    ensures forall i :: 0 <= i < |catalogue| && catalogue[i].isPopular ==> catalogue[i] in r
  {
    FilterSubMultiset(catalogue, (p: Product) => p.isPopular);
    Filter(catalogue, (p: Product) => p.isPopular)
  }

  /** Every product in the mystery category. */
  function Mystery(catalogue: seq<Product>): (r: seq<Product>)
    ensures multiset(r) <= multiset(catalogue)
    ensures forall i :: 0 <= i < |r| ==> r[i].category == MysterySlug && r[i] in catalogue
    ensures forall i :: 0 <= i < |catalogue| && catalogue[i].category == MysterySlug ==> catalogue[i] in r
  {
    FilterSubMultiset(catalogue, (p: Product) => p.category == MysterySlug);
    Filter(catalogue, (p: Product) => p.category == MysterySlug)
  }

  /** The mystery cards actually rendered: the first two of the category. */
  function MysteryRendered(catalogue: seq<Product>): (r: seq<Product>)
    ensures |r| == Min(MysteryShown, |Mystery(catalogue)|)
    ensures forall i :: 0 <= i < |r| ==> r[i] == Mystery(catalogue)[i] && r[i].category == MysterySlug
  {
    Take(Mystery(catalogue), MysteryShown)
  }

  /** A section's markup is produced only when its list is non-empty. */
  predicate SectionShown(section: seq<Product>) {
    |section| > 0
  }

  /** The featured section shows exactly when some catalogue product is
      featured, and so on for the other three. */
  lemma SectionsShownIff(catalogue: seq<Product>)
    ensures SectionShown(Featured(catalogue)) <==> exists i :: 0 <= i < |catalogue| && catalogue[i].isFeatured
    ensures SectionShown(NewArrivals(catalogue)) <==> exists i :: 0 <= i < |catalogue| && catalogue[i].isNew
    ensures SectionShown(MostPopular(catalogue)) <==> exists i :: 0 <= i < |catalogue| && catalogue[i].isPopular
    ensures SectionShown(Mystery(catalogue)) <==> exists i :: 0 <= i < |catalogue| && catalogue[i].category == MysterySlug
    ensures SectionShown(Mystery(catalogue)) <==> SectionShown(MysteryRendered(catalogue))
  {
    FilterNonEmptyIff(catalogue, (p: Product) => p.isFeatured);
    FilterNonEmptyIff(catalogue, (p: Product) => p.isNew);
    FilterNonEmptyIff(catalogue, (p: Product) => p.isPopular);
    FilterNonEmptyIff(catalogue, (p: Product) => p.category == MysterySlug);
  }

  /** The sections keep catalogue order: selecting from a concatenation
      selects from each part in turn. */
  lemma SectionsKeepOrder(a: seq<Product>, b: seq<Product>)
    ensures Featured(a + b) == Featured(a) + Featured(b)
    ensures NewArrivals(a + b) == NewArrivals(a) + NewArrivals(b)
    ensures MostPopular(a + b) == MostPopular(a) + MostPopular(b)
    ensures Mystery(a + b) == Mystery(a) + Mystery(b)
  {
    FilterAppend(a, b, (p: Product) => p.isFeatured);
    FilterAppend(a, b, (p: Product) => p.isNew);
    FilterAppend(a, b, (p: Product) => p.isPopular);
    FilterAppend(a, b, (p: Product) => p.category == MysterySlug);
  }
}
