/**
  The catalogue explorer: a text search over name and description, a
  category filter, and five sort modes, all driven by a small piece of page
  state. Sorting returns a new sequence; the catalogue itself is never
  reordered.
 */
module Explore {
  import opened Types
  import opened Strings
  import opened Seqs

  /** The page's search box, selected category slug and sort key. */
  datatype State = State(query: string, category: string, sortBy: string)

  const DefaultSort: string := "newest"

  /** The state on arrival: category and sort come from the URL, an absent or
      empty parameter falling back to "" and "newest". */
  function Initial(categoryParam: Option<string>, sortParam: Option<string>): (st: State)
    ensures st.query == ""
    ensures st.category == (if categoryParam.Some? then categoryParam.value else "")
    ensures st.sortBy != ""
    ensures sortParam.Some? && sortParam.value != "" ==> st.sortBy == sortParam.value
    ensures !(sortParam.Some? && sortParam.value != "") ==> st.sortBy == DefaultSort
  {
    State("",
          if categoryParam.Some? then categoryParam.value else "",
          if sortParam.Some? && sortParam.value != "" then sortParam.value else DefaultSort)
  }

  /** The lowercased name or description contains the lowercased query. */
  predicate MatchesQuery(p: Product, query: string) {
    Contains(Lower(p.name), Lower(query)) || Contains(Lower(p.description), Lower(query))
  }

  /** The search filter, applied only for a query that is not blank (though
      the untrimmed query is what is searched for). */
  function ByQuery(xs: seq<Product>, query: string): (r: seq<Product>)
    ensures multiset(r) <= multiset(xs)
    ensures forall x :: x in r <==> x in xs && (IsBlank(query) || MatchesQuery(x, query))
  {
    if IsBlank(query) then xs
    else
      var r := Filter(xs, (p: Product) => MatchesQuery(p, query));
      FilterSubMultiset(xs, (p: Product) => MatchesQuery(p, query));
      forall x | x in r ensures x in xs && MatchesQuery(x, query) {
        var i :| 0 <= i < |r| && r[i] == x;
      }
      forall x | x in xs && MatchesQuery(x, query) ensures x in r {
        var i :| 0 <= i < |xs| && xs[i] == x;
      }
      r
  }

  /** The category filter, applied only when a category is selected. */
  function ByCategory(xs: seq<Product>, category: string): (r: seq<Product>)
    ensures multiset(r) <= multiset(xs)
    ensures forall x :: x in r <==> x in xs && (category == "" || x.category == category)
  {
    if category == "" then xs
    else
      var r := Filter(xs, (p: Product) => p.category == category);
      FilterSubMultiset(xs, (p: Product) => p.category == category);
      forall x | x in r ensures x in xs && x.category == category {
        var i :| 0 <= i < |r| && r[i] == x;
      }
      forall x | x in xs && x.category == category ensures x in r {
        var i :| 0 <= i < |xs| && xs[i] == x;
      }
      r
  }

  /** The search filter, then the category filter. */
  function Search(catalogue: seq<Product>, query: string, category: string): (r: seq<Product>)
    ensures multiset(r) <= multiset(catalogue)
    ensures forall x :: x in r <==>
      && x in catalogue
      && (IsBlank(query) || MatchesQuery(x, query))
      && (category == "" || x.category == category)
  {
    ByCategory(ByQuery(catalogue, query), category)
  }

  /** The search keeps the catalogue's order: searching two runs of products
      one after the other gives the two results one after the other. */
  lemma SearchKeepsOrder(a: seq<Product>, b: seq<Product>, query: string, category: string)
    ensures Search(a + b, query, category) == Search(a, query, category) + Search(b, query, category)
  {
    var qa, qb := ByQuery(a, query), ByQuery(b, query);
    if !IsBlank(query) {
      FilterAppend(a, b, (p: Product) => MatchesQuery(p, query));
    }
    assert ByQuery(a + b, query) == qa + qb;
    if category != "" {
      FilterAppend(qa, qb, (p: Product) => p.category == category);
    }
  }

  /** "newest": new products first (comparator isNew(b) − isNew(a)). */
  predicate NewestLe(a: Product, b: Product) { a.isNew || !b.isNew }

  /** "popular": popular products first. */
  predicate PopularLe(a: Product, b: Product) { a.isPopular || !b.isPopular }

  /** "price-low": ascending price. */
  predicate PriceLowLe(a: Product, b: Product) { a.price <= b.price }

  /** "price-high": descending price. */
  predicate PriceHighLe(a: Product, b: Product) { a.price >= b.price }

  /** "name": by name, in code-point order. */
  predicate NameLe(a: Product, b: Product) { LexLe(a.name, b.name) }

  lemma ComparatorsConsistent()
    ensures TotalPreorder(NewestLe) && TotalPreorder(PopularLe)
    ensures TotalPreorder(PriceLowLe) && TotalPreorder(PriceHighLe)
    ensures TotalPreorder(NameLe)
  {
    forall a: Product, b: Product
      ensures NameLe(a, b) || NameLe(b, a)
    {
      LexLeTotal(a.name, b.name);
    }
    forall a: Product, b: Product, c: Product | NameLe(a, b) && NameLe(b, c)
      ensures NameLe(a, c)
    {
      LexLeTransitive(a.name, b.name, c.name);
    }
  }

  /** "newest" applied: a rearrangement with every new product in front. */
  function ByNewest(xs: seq<Product>): (r: seq<Product>)
    ensures multiset(r) == multiset(xs)
    ensures forall i, j :: 0 <= i < j < |r| && r[j].isNew ==> r[i].isNew
  {
    ComparatorsConsistent();
    SortBySorted(xs, NewestLe);
    SortBy(xs, NewestLe)
  }

  /** "popular" applied: a rearrangement with every popular product in front. */
  function ByPopular(xs: seq<Product>): (r: seq<Product>)
    ensures multiset(r) == multiset(xs)
    ensures forall i, j :: 0 <= i < j < |r| && r[j].isPopular ==> r[i].isPopular
  {
    ComparatorsConsistent();
    SortBySorted(xs, PopularLe);
    SortBy(xs, PopularLe)
  }

  /** "price-low" applied: a rearrangement by ascending price. */
  function ByPriceLow(xs: seq<Product>): (r: seq<Product>)
    ensures multiset(r) == multiset(xs)
    ensures forall i, j :: 0 <= i < j < |r| ==> r[i].price <= r[j].price
  {
    ComparatorsConsistent();
    SortBySorted(xs, PriceLowLe);
    SortBy(xs, PriceLowLe)
  }

  /** "price-high" applied: a rearrangement by descending price. */
  function ByPriceHigh(xs: seq<Product>): (r: seq<Product>)
    ensures multiset(r) == multiset(xs)
    ensures forall i, j :: 0 <= i < j < |r| ==> r[i].price >= r[j].price
  {
    ComparatorsConsistent();
    SortBySorted(xs, PriceHighLe);
    SortBy(xs, PriceHighLe)
  }

  /** "name" applied: a rearrangement in name order. */
  function ByName(xs: seq<Product>): (r: seq<Product>)
    ensures multiset(r) == multiset(xs)
    ensures forall i, j :: 0 <= i < j < |r| ==> LexLe(r[i].name, r[j].name)
  {
    ComparatorsConsistent();
    SortBySorted(xs, NameLe);
    SortBy(xs, NameLe)
  }

  /** The sort for a sort key; an unrecognised key leaves the order alone. */
  function SortFor(xs: seq<Product>, sortBy: string): (r: seq<Product>)
    ensures multiset(r) == multiset(xs)
    ensures forall x :: x in r <==> x in xs
    ensures sortBy == "price-low" ==> forall i, j :: 0 <= i < j < |r| ==> r[i].price <= r[j].price
    ensures sortBy == "price-high" ==> forall i, j :: 0 <= i < j < |r| ==> r[i].price >= r[j].price
    ensures sortBy == "newest" ==> forall i, j :: 0 <= i < j < |r| && r[j].isNew ==> r[i].isNew
    ensures sortBy == "popular" ==> forall i, j :: 0 <= i < j < |r| && r[j].isPopular ==> r[i].isPopular
    ensures sortBy == "name" ==> forall i, j :: 0 <= i < j < |r| ==> LexLe(r[i].name, r[j].name)
    ensures sortBy !in {"newest", "popular", "price-low", "price-high", "name"} ==> r == xs
  {
    var r := match sortBy
      case "newest" => ByNewest(xs)
      case "popular" => ByPopular(xs)
      case "price-low" => ByPriceLow(xs)
      case "price-high" => ByPriceHigh(xs)
      case "name" => ByName(xs)
      case _ => xs;
    SameMembers(r, xs);
    r
  }

  /** The result list: the search result, reordered by the sort key. */
  function FilteredProducts(catalogue: seq<Product>, st: State): (r: seq<Product>)
    ensures multiset(r) == multiset(Search(catalogue, st.query, st.category))
    ensures forall x :: x in r <==>
      && x in catalogue
      && (IsBlank(st.query) || MatchesQuery(x, st.query))
      && (st.category == "" || x.category == st.category)
    ensures st.sortBy == "price-low" ==> forall i, j :: 0 <= i < j < |r| ==> r[i].price <= r[j].price
    ensures st.sortBy == "price-high" ==> forall i, j :: 0 <= i < j < |r| ==> r[i].price >= r[j].price
    ensures st.sortBy == "newest" ==> forall i, j :: 0 <= i < j < |r| && r[j].isNew ==> r[i].isNew
    ensures st.sortBy == "popular" ==> forall i, j :: 0 <= i < j < |r| && r[j].isPopular ==> r[i].isPopular
    ensures st.sortBy == "name" ==> forall i, j :: 0 <= i < j < |r| ==> LexLe(r[i].name, r[j].name)
    ensures st.sortBy !in {"newest", "popular", "price-low", "price-high", "name"} ==>
      r == Search(catalogue, st.query, st.category)
  {
    var found := Search(catalogue, st.query, st.category);
    SortFor(found, st.sortBy)
  }

  /** "Clear filters": empty search, no category, newest first. */
  function ClearFilters(st: State): (r: State)
    ensures r.query == "" && r.category == "" && r.sortBy == DefaultSort
  {
    State("", "", DefaultSort)
  }

  /** Whether the "clear filters" control shows: a non-empty (even blank)
      query or a selected category. */
  predicate HasActiveFilters(st: State) {
    st.query != "" || st.category != ""
  }

  /** The sort key plays no part in whether filters count as active. */
  lemma ActiveFiltersIgnoreSort(st: State, sortBy: string)
    ensures HasActiveFilters(st.(sortBy := sortBy)) == HasActiveFilters(st)
    ensures !HasActiveFilters(ClearFilters(st))
  {
  }

  /** Arriving without URL parameters, or with empty ones, gives the state
      "clear filters" leads to, whatever state it is cleared from; a
      category in the URL counts as an active filter, a sort key does not. */
  lemma ArrivalMatchesCleared(st: State, categoryParam: Option<string>, sortParam: Option<string>)
    ensures Initial(None, None) == ClearFilters(st)
    ensures Initial(Some(""), Some("")) == ClearFilters(st)
    ensures HasActiveFilters(Initial(categoryParam, sortParam)) <==> categoryParam.Some? && categoryParam.value != ""
  {
  }

  /** After clearing, the list is the whole catalogue, new products first. */
  lemma ClearedShowsEverything(catalogue: seq<Product>, st: State)
    ensures multiset(FilteredProducts(catalogue, ClearFilters(st))) == multiset(catalogue)
    ensures var r := FilteredProducts(catalogue, ClearFilters(st));
      forall i, j :: 0 <= i < j < |r| && r[j].isNew ==> r[i].isNew
  {
    assert IsBlank("");
  }

  /** A whitespace-only query counts as an active filter but filters nothing. */
  lemma BlankQueryIsActiveButInert(catalogue: seq<Product>)
    ensures HasActiveFilters(State(" ", "", "none"))
    ensures FilteredProducts(catalogue, State(" ", "", "none")) == catalogue
  {
    assert Trim(" ") == "" by {
      BlankIffAllSpace(" ");
    }
  }
}
