/**
  The admin dashboard: the product list (catalogue plus products added from
  the admin form), the headline statistics, the product search, the recent
  orders strip, and the cross-tab refresh of the added products. The stored
  snapshot's JSON decoding is a parameter.
 */
module Admin {
  import opened Types
  import opened Strings
  import opened Seqs

  /** The storage key under which admin-added products are kept. */
  const ExtraProductsKey: string := "admin_extra_products"

  /** Below this stock a product is counted, and highlighted, as running low. */
  const LowStockThreshold: int := 5

  /** The dashboard's "recent orders" strip shows at most this many orders. */
  const RecentShown: nat := 5

  /** Every product the dashboard lists: the catalogue, then the added products. */
  function AllProducts(catalogue: seq<Product>, extra: seq<Product>): (r: seq<Product>)
    ensures |r| == |catalogue| + |extra|
    ensures r[..|catalogue|] == catalogue && r[|catalogue|..] == extra
  {
    catalogue + extra
  }

  predicate LowStock(p: Product) {
    p.stock < LowStockThreshold
  }

  /** The stock column is drawn in red exactly for low-stock products. */
  predicate StockHighlighted(p: Product) {
    p.stock < 5
  }

  predicate Pending(o: Order) {
    o.status == "processing"
  }

  /** The sum of the order totals. */
  function Revenue(orders: seq<Order>): int {
    if |orders| == 0 then 0 else orders[0].total + Revenue(orders[1..])
  }

  datatype Stats = Stats(
    totalProducts: nat,
    totalOrders: nat,
    totalUsers: nat,
    totalRevenue: int,
    lowStockProducts: nat,
    pendingOrders: nat
  )

  /** The six dashboard figures. */
  function ComputeStats(products: seq<Product>, orders: seq<Order>, users: seq<User>): (s: Stats)
    ensures s.totalProducts == |products| && s.totalOrders == |orders| && s.totalUsers == |users|
    ensures s.lowStockProducts <= s.totalProducts && s.pendingOrders <= s.totalOrders
    ensures s.lowStockProducts == 0 <==> forall i :: 0 <= i < |products| ==> !LowStock(products[i])
    ensures s.pendingOrders == 0 <==> forall i :: 0 <= i < |orders| ==> !Pending(orders[i])
    ensures s.lowStockProducts == CountIf(products, LowStock)
    ensures s.pendingOrders == CountIf(orders, Pending)
    ensures s.totalRevenue == Revenue(orders)
  {
    var low := Filter(products, LowStock);
    var pending := Filter(orders, Pending);
    FilterCount(products, LowStock);
    FilterCount(orders, Pending);
    assert |low| > 0 ==> low[0] in products;
    assert |pending| > 0 ==> pending[0] in orders;
    Stats(|products|, |orders|, |users|, Revenue(orders), |low|, |pending|)
  }

  /** Revenue adds up over a concatenation of order lists. */
  lemma {:induction false} RevenueAppend(a: seq<Order>, b: seq<Order>)
    ensures Revenue(a + b) == Revenue(a) + Revenue(b)
  {
    if |a| == 0 {
      assert a + b == b;
    } else {
      assert (a + b)[1..] == a[1..] + b;
      RevenueAppend(a[1..], b);
    }
  }

  /** With no negative order total, revenue is at least each single order's total. */
  lemma {:induction false} RevenueBoundsEachOrder(orders: seq<Order>, k: int)
    requires forall i :: 0 <= i < |orders| ==> orders[i].total >= 0
    requires 0 <= k < |orders|
    ensures Revenue(orders) >= orders[k].total
  {
    RevenueNonNegative(orders[1..]);
    if k > 0 {
      RevenueBoundsEachOrder(orders[1..], k - 1);
    }
  }

  lemma {:induction false} RevenueNonNegative(orders: seq<Order>)
    requires forall i :: 0 <= i < |orders| ==> orders[i].total >= 0
    ensures Revenue(orders) >= 0
  {
    if |orders| > 0 {
      RevenueNonNegative(orders[1..]);
    }
  }

  /** The red stock highlight and the low-stock count use the same threshold,
      and adding products counts their low-stock ones on top. */
  lemma LowStockAgreesWithHighlight(catalogue: seq<Product>, extra: seq<Product>, p: Product)
    ensures StockHighlighted(p) <==> LowStock(p)
    ensures ComputeStats(AllProducts(catalogue, extra), [], []).totalProducts == |catalogue| + |extra|
    ensures ComputeStats(AllProducts(catalogue, extra), [], []).lowStockProducts
         == |Filter(catalogue, LowStock)| + |Filter(extra, LowStock)|
  {
    FilterAppend(catalogue, extra, LowStock);
  }

  /** The product table's search: names containing the query, case-insensitively. */
  function SearchProducts(products: seq<Product>, query: string): (r: seq<Product>)
    ensures multiset(r) <= multiset(products)
    ensures forall i :: 0 <= i < |r| ==> r[i] in products && Contains(Lower(r[i].name), Lower(query))
    ensures forall i :: 0 <= i < |products| && Contains(Lower(products[i].name), Lower(query)) ==> products[i] in r
  {
    FilterSubMultiset(products, (p: Product) => Contains(Lower(p.name), Lower(query)));
    Filter(products, (p: Product) => Contains(Lower(p.name), Lower(query)))
  }

  /** The search keeps the table's order: searching two runs of products one
      after the other gives the two results one after the other. */
  lemma SearchKeepsOrder(a: seq<Product>, b: seq<Product>, query: string)
    ensures SearchProducts(a + b, query) == SearchProducts(a, query) + SearchProducts(b, query)
  {
    FilterAppend(a, b, (p: Product) => Contains(Lower(p.name), Lower(query)));
  }

  /** An empty search box lists every product, in order. */
  lemma EmptySearchListsAll(products: seq<Product>)
    ensures SearchProducts(products, "") == products
  {
    forall i | 0 <= i < |products|
      ensures Contains(Lower(products[i].name), Lower(""))
    {
      ContainsEmpty(Lower(products[i].name));
    }
    FilterKeepsAll(products, (p: Product) => Contains(Lower(p.name), Lower("")));
  }

  /** The "recent orders" strip: the first five orders as stored. */
  function RecentOrders(orders: seq<Order>): (r: seq<Order>)
    ensures |r| <= RecentShown && |r| <= |orders|
    ensures |r| == RecentShown || r == orders
    ensures forall i :: 0 <= i < |r| ==> r[i] == orders[i]
  {
    Take(orders, RecentShown)
  }

  /** A storage change notification from another tab. */
  datatype StorageEvent = StorageEvent(key: string, newValue: Option<string>)

  /** The added products read when the dashboard opens: a missing or empty
      entry and an unparsable one both leave the list empty. */
  function InitialExtras(raw: Option<string>, parse: string -> Option<seq<Product>>): (r: seq<Product>)
    ensures (raw.None? || raw.value == "") ==> r == []
    ensures raw.Some? && raw.value != "" && parse(raw.value).Some? ==> r == parse(raw.value).value
    ensures raw.Some? && raw.value != "" && parse(raw.value).None? ==> r == []
  {
    if raw.Some? && raw.value != "" && parse(raw.value).Some? then parse(raw.value).value else []
  }

  /** The dashboard's reaction to a storage event: only its own key matters;
      a cleared or empty entry empties the list; an unparsable one is ignored. */
  function OnStorage(prev: seq<Product>, e: StorageEvent, parse: string -> Option<seq<Product>>): (r: seq<Product>)
    ensures e.key != ExtraProductsKey ==> r == prev
    ensures e.key == ExtraProductsKey && (e.newValue.None? || e.newValue.value == "") ==> r == []
    ensures e.key == ExtraProductsKey && e.newValue.Some? && e.newValue.value != "" ==>
      r == (if parse(e.newValue.value).Some? then parse(e.newValue.value).value else prev)
  {
    if e.key != ExtraProductsKey then prev
    else if e.newValue.None? || e.newValue.value == "" then []
    else match parse(e.newValue.value)
      case Some(ps) => ps
      case None => prev
  }

  /** A storage event carrying a parsable snapshot leaves the dashboard
      exactly where a fresh load of that snapshot would. */
  lemma StorageEventMatchesReload(prev: seq<Product>, raw: string, parse: string -> Option<seq<Product>>)
    requires raw == "" || parse(raw).Some?
    ensures OnStorage(prev, StorageEvent(ExtraProductsKey, Some(raw)), parse) == InitialExtras(Some(raw), parse)
  {
  }

  // ----- The tab the dashboard opens on -----

  /** The four tabs of the dashboard's sidebar. */
  const Tabs: set<string> := {"dashboard", "products", "orders", "users"}

  const DashboardTab: string := "dashboard"

  /** The marker before a `tab` query parameter in an address. */
  const TabMarker: string := "?tab="

  /** The marker starts at index `i` of the address and `v` is all that follows it. */
  predicate TabAt(url: string, i: int, v: string) {
    0 <= i && i + |TabMarker| <= |url| && url[i..i + |TabMarker|] == TabMarker && v == url[i + |TabMarker|..]
  }

  /** The text after the first `?tab=` in an address, if there is one. */
  function TabParam(url: string): (r: Option<string>)
    ensures r.Some? ==> exists i :: TabAt(url, i, r.value)
    decreases |url|
  {
    if |url| < |TabMarker| then None
    else if url[..|TabMarker|] == TabMarker then
      assert TabAt(url, 0, url[|TabMarker|..]);
      Some(url[|TabMarker|..])
    else
      var rest := TabParam(url[1..]);
      MarkerShifts(url, rest);
      rest
  }

  /** An occurrence of the marker in the tail is one in the whole address. */
  lemma MarkerShifts(url: string, rest: Option<string>)
    requires |url| >= 1
    requires rest.Some? ==> exists i :: TabAt(url[1..], i, rest.value)
    ensures rest.Some? ==> exists i :: TabAt(url, i, rest.value)
  {
    if rest.Some? {
      var i :| TabAt(url[1..], i, rest.value);
      assert url[i + 1..i + 1 + |TabMarker|] == url[1..][i..i + |TabMarker|];
      assert url[i + 1 + |TabMarker|..] == url[1..][i + |TabMarker|..];
      assert TabAt(url, i + 1, rest.value);
    }
  }

  /** The dashboard as written starts on the dashboard tab and never reads
      its address. */
  function OpeningTabAsWritten(url: string): (t: string)
    ensures t in Tabs
  {
    DashboardTab
  }

  /** The address plays no part in the tab the dashboard as written opens on. */
  lemma AddressIgnored(u: string, v: string)
    ensures OpeningTabAsWritten(u) == OpeningTabAsWritten(v)
  {
  }

  /** The corrected dashboard: the tab the address names, when it names one
      of the four, and otherwise the dashboard tab. */
  function OpeningTab(url: string): (t: string)
    ensures t in Tabs
  {
    var param := TabParam(url);
    if param.Some? && param.value in Tabs then param.value else DashboardTab
  }

  /** An address without a query part carries no tab. */
  lemma {:induction false} NoQueryNoTab(path: string)
    requires '?' !in path
    ensures TabParam(path) == None
    decreases |path|
  {
    if |path| >= |TabMarker| {
      assert path[0] != '?';
      assert path[..|TabMarker|] != TabMarker by { assert path[..|TabMarker|][0] == path[0]; }
      NoQueryNoTab(path[1..]);
    }
  }

  /** A path followed by `?tab=` and a value carries that value. */
  lemma {:induction false} QueryTab(path: string, value: string)
    requires '?' !in path
    ensures TabParam(path + TabMarker + value) == Some(value)
    decreases |path|
  {
    var url := path + TabMarker + value;
    if |path| == 0 {
      assert url == TabMarker + value;
      assert url[..|TabMarker|] == TabMarker;
      assert url[|TabMarker|..] == value;
    } else {
      assert url[..|TabMarker|] != TabMarker by {
        assert url[..|TabMarker|][0] == path[0] && path[0] != '?';
      }
      assert url[1..] == path[1..] + TabMarker + value;
      QueryTab(path[1..], value);
    }
  }

  /** The corrected dashboard opens on the tab an address names, and on the
      dashboard tab for an address without a query part. */
  lemma OpeningTabFollowsAddress(path: string, tab: string)
    requires '?' !in path
    ensures tab in Tabs ==> OpeningTab(path + TabMarker + tab) == tab
    ensures OpeningTab(path) == DashboardTab
  {
    QueryTab(path, tab);
    NoQueryNoTab(path);
  }
}
