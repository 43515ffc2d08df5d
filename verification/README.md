# Board-game storefront: a Dafny model of its core

This project models the client-side logic of a Persian board-game web shop
built on Next.js and React. Each part is a pure Dafny function or a lemma:

- the shopping-cart store, a reducer over five actions that keeps a product total and an item count cached beside the cart lines;
- the cart page's buttons and totals, and the product card's add button and badges;
- the catalogue explorer's search, category filter and five sort modes;
- the home page's product sections;
- the blog index's featured strip and newest-first filtered list;
- the admin dashboard: merged product list, statistics, search, the cross-tab refresh of admin-added products, and the "new product" form;
- the sign-up and sign-in forms, their validation and their captcha gate;
- a product's comment box;
- the home-page carousel with its timer, dots and swipe;
- the bottom tab bar's highlighting and cart badge;
- the profile page's order history, and the order-status labels that page shares with the admin dashboard.

Browser storage, JSON decoding, the clock and the router are not modelled as
effects. A stored value is a parameter of type `Option<string>`, and decoding is
a parameter of type `string -> Option<T>`, where `None` means "would throw".
Navigation is a returned target path.

Modules and files:

| module | file | what it holds |
|---|---|---|
| `Types` | types.dfy | the shared entities: products, cart lines, carts, users, orders, categories |
| `Strings` | strings.dfy | the string operations the pages use (trim, ASCII lower-casing, substring search, split and join, decimal digits, code-point order) |
| `Seqs` | seqs.dfy | filter, take, sum, and a stable insertion sort parameterised by a comparator |
| `CartStore` | cart_store.dfy | the cart reducer and its invariant |
| `CartPage` | cart_page.dfy | the cart page |
| `ProductCard` | product_card.dfy | the product card |
| `Explore` | explore.dfy | the explorer |
| `Home` | home.dfy | the home page |
| `Blog` | blog.dfy | the blog index |
| `OrderStatus` | order_status.dfy | status labels and colours |
| `Admin` | admin.dfy | the admin dashboard |
| `NewProduct` | new_product.dfy | the new-product form |
| `Forms` | forms.dfy | error maps, captcha, password check, e-mail pattern |
| `Register` | register.dfy | the sign-up page |
| `Login` | login.dfy | the sign-in page |
| `Comments` | comments.dfy | the comment box |
| `HeroSlider` | hero_slider.dfy | the carousel |
| `BottomNav` | bottom_nav.dfy | the tab bar |
| `Profile` | profile.dfy | the order history |

## Model

| member | source | states |
|---|---|---|
| CartStore.Tally | app/context/CartContext.tsx:42-51 | the cart rebuilt from a list of lines holds exactly those lines, and its cached total and count agree with them |
| CartStore.Requantify | app/context/CartContext.tsx:37-41 | every line of the given product gets the new quantity; every other line is unchanged, in place |
| CartStore.Without | app/context/CartContext.tsx:68-70 | every line of the product is dropped; every other line is kept; an absent product leaves the lines as they are |
| CartStore.WithoutAppend | app/context/CartContext.tsx:68-70 | filtering out a product distributes over concatenation, so the kept lines keep their order and multiplicity |
| CartStore.WithoutSingle | app/context/CartContext.tsx:68-70 | a single line is kept exactly when it is for another product |
| CartStore.Add | app/context/CartContext.tsx:30-65 | adding a product already in the cart raises that line's quantity by n in place; otherwise one new line is appended; both aggregates are consistent afterwards; stock and the sign of n are not checked |
| CartStore.Remove | app/context/CartContext.tsx:67-81 | afterwards no line holds the product, every other line survives, no line is invented, and removing an absent product keeps the lines |
| CartStore.RemoveDropsLine | app/context/CartContext.tsx:67-70 | on a cart without duplicate lines, removing the product of line k leaves exactly the lines before k followed by the lines after k, in order, once each |
| CartStore.Update | app/context/CartContext.tsx:83-105 | a quantity of zero or less is exactly a remove; otherwise the product's lines get that quantity and nothing else changes |
| CartStore.Reduce | app/context/CartContext.tsx:28-116 | clearing gives the empty cart, loading installs the payload verbatim, and every other action leaves the aggregates consistent |
| CartStore.AddDefault | app/context/CartContext.tsx:147-149 | `addToCart` without a quantity puts the product in the cart, one more of it: a present line grows by one in place, an absent product gets a new line of quantity 1; the result is consistent, and on a consistent cart without duplicate lines the count rises by one and the total by the price of the product on the line |
| CartStore.AddOne | app/context/CartContext.tsx:36-51 | adding one of a product makes it present and moves count and total by one of the product on its line (or of the product itself when it was absent) |
| CartStore.GetTotal | app/context/CartContext.tsx:164 | the cached total, which on a consistent cart is Σ price × quantity |
| CartStore.GetItemCount | app/context/CartContext.tsx:163 | the cached count, which on a consistent cart is Σ quantity |
| CartStore.Rehydrate | app/context/CartContext.tsx:130-140 | with no readable snapshot the cart stays the initial cart; with one, the snapshot is loaded through the reducer |
| CartStore.TotalsAppend | app/context/CartContext.tsx:53-61 | appending a line adds its price × quantity to the total and its quantity to the count |
| CartStore.RequantifyAbsent | app/context/CartContext.tsx:92-94 | re-quantifying a product not in the cart leaves the lines unchanged |
| CartStore.TailLacksHead | app/context/CartContext.tsx:32-34 | in a cart without duplicates, the first line's product does not appear again further on |
| CartStore.RequantifyTotals | app/context/CartContext.tsx:37-49 | changing the one line of a product moves the total and the count by exactly that line's change |
| CartStore.WithoutTotals | app/context/CartContext.tsx:68-78 | dropping a product's single line lowers the total by that line's amount and the count by its quantity |
| CartStore.AddPresentTotals | app/context/CartContext.tsx:36-51 | adding n of a product already in the cart raises the total by price × n and the count by n, and updates that line in place |
| CartStore.GrowTotals | app/context/CartContext.tsx:36-51 | recomputing the aggregates after growing a product's one line by n gives the old total plus price × n and the old count plus n |
| CartStore.AddAbsentTotals | app/context/CartContext.tsx:52-64 | adding n of a new product raises the total by price × n and the count by n, and adds one line |
| CartStore.AddTwiceMerges | app/context/CartContext.tsx:30-65 | adding n and then m of a product to the empty cart gives one line of quantity n + m |
| CartStore.RemovePresentTotals | app/context/CartContext.tsx:67-81 | removing a product lowers the total by its line amount and the count by its quantity |
| CartStore.RemoveAbsentIsIdentity | app/context/CartContext.tsx:67-81 | removing a product not in a consistent cart returns the same cart |
| CartStore.UpdatePresentTotals | app/context/CartContext.tsx:92-104 | setting a product's quantity to q moves the total by price × (q − old) and the count by q − old |
| CartStore.SetTotals | app/context/CartContext.tsx:92-104 | recomputing the aggregates after setting a product's one line to q gives the old total plus price × (q − old) and the old count plus q − old |
| CartStore.UpdateNonPositiveIsRemove | app/context/CartContext.tsx:85-90 | an update to zero or less behaves exactly like the remove action |
| CartStore.ClearIsInitial | app/context/CartContext.tsx:107-108 | clearing from any cart gives the initial cart, which is consistent |
| CartStore.LoadKeepsPayload | app/context/CartContext.tsx:110-111 | loading installs the payload, and the result is consistent exactly when the payload was |
| CartStore.RunKeepsConsistent | app/context/CartContext.tsx:28-116 | from a consistent cart, any run of actions whose loaded snapshots are consistent ends consistent |
| CartStore.ReduceKeepsUniqueIds | app/context/CartContext.tsx:28-108 | no action other than loading ever puts the same product on two lines |
| CartStore.WithoutKeepsUniqueIds | app/context/CartContext.tsx:68-70 | filtering out a product keeps a duplicate-free cart duplicate-free |
| CartStore.RequantifyKeepsUniqueIds | app/context/CartContext.tsx:37-41 | changing one product's quantity in place keeps a duplicate-free cart duplicate-free |
| CartStore.AppendKeepsUniqueIds | app/context/CartContext.tsx:53 | appending a line for a product not yet in the cart keeps it duplicate-free |
| CartStore.ExampleScenario | app/context/CartContext.tsx:28-116 | a concrete run with A at 10000 and B at 5000: add two of A (20000, 2), add one of B (25000, 3), set A to one (15000, 2), remove B (10000, 1) |
| CartPage.TotalWithShipping | app/cart/page.tsx:22-24 | a consistent empty cart totals 0; a non-empty one totals its products plus the 50000 shipping charge |
| CartPage.LineSubtotals | app/cart/page.tsx:137 | one line-total entry per cart line, each its price × quantity |
| CartPage.SubtotalsSumToTotal | app/cart/page.tsx:137-154 | on a consistent cart the line-total column adds up to the displayed product total |
| CartPage.SubtotalsSum | app/cart/page.tsx:137 | the line totals of any list of lines add up to Σ price × quantity |
| CartPage.MinusClick | app/cart/page.tsx:92-96 | the minus button works exactly above quantity one, and asks for quantity − 1, which is still at least one |
| CartPage.PlusClick | app/cart/page.tsx:107-111 | the plus button works exactly below the stock, and asks for quantity + 1, which is still within stock |
| CartPage.MinusKeepsPositive | app/cart/page.tsx:92-96 | pressing minus never drives any line below one and never drops a line |
| CartPage.PlusKeepsWithinStock | app/cart/page.tsx:107-111 | on a duplicate-free cart, pressing plus keeps every line within its product's stock |
| CartPage.TrashRemovesLine | app/cart/page.tsx:121 | the trash button removes that product, keeps every other line, and lowers count and total by that line |
| ProductCard.AddClick | app/components/ProductCard.tsx:23-27 | the card's button adds exactly one of its own product |
| ProductCard.AddClickAddsOne | app/components/ProductCard.tsx:23-27 | on a consistent duplicate-free cart the button raises the item count by one, and the product is then in the cart |
| ProductCard.Badges | app/components/ProductCard.tsx:95-109 | "new" shows for new products; "popular" shows for popular products that are not new; "featured" shows only on the full card, for featured products that are neither new nor popular |
| ProductCard.AtMostOneBadge | app/components/ProductCard.tsx:49-58 | a card shows at most one badge, and none exactly when no condition holds |
| Explore.ArrivalMatchesCleared | app/explore/page.tsx:34-37 | arriving with no (or empty) parameters gives exactly the cleared state, and only a URL category makes a filter active |
| Explore.Initial | app/explore/page.tsx:34-37 | the explorer opens with an empty query, the URL's category, and the URL's sort key, or "newest" when that key is missing or empty |
| Explore.ByQuery | app/explore/page.tsx:44-51 | a non-blank query keeps exactly the products whose name or description contains it, case-insensitively; a blank one keeps everything; nothing gains a copy |
| Explore.ByCategory | app/explore/page.tsx:53-58 | a selected category keeps exactly its products; no selection keeps everything; nothing gains a copy |
| Explore.Search | app/explore/page.tsx:41-58 | a product is a result exactly when it is in the catalogue, matches the query (unless the query is blank) and is in the category (unless no category is selected); no product appears more often than in the catalogue |
| Explore.SearchKeepsOrder | app/explore/page.tsx:41-58 | the results keep the catalogue's order: searching a concatenation gives the concatenated results |
| Explore.ComparatorsConsistent | app/explore/page.tsx:61-83 | each of the five comparators is a total preorder, so sorting by it is well defined |
| Explore.ByNewest | app/explore/page.tsx:62-66 | the "newest" sort is a permutation with no old product ahead of a new one |
| Explore.ByPopular | app/explore/page.tsx:67-71 | the "popular" sort is a permutation with no unpopular product ahead of a popular one |
| Explore.ByPriceLow | app/explore/page.tsx:72-74 | the "price-low" sort is a permutation in ascending price |
| Explore.ByPriceHigh | app/explore/page.tsx:75-77 | the "price-high" sort is a permutation in descending price |
| Explore.ByName | app/explore/page.tsx:78-80 | the "name" sort is a permutation in code-point name order |
| Explore.SortFor | app/explore/page.tsx:61-83 | the result is a permutation of its input, ordered by the selected key; an unknown key leaves the order as it was |
| Explore.FilteredProducts | app/explore/page.tsx:41-86 | the list is a reordering of the search result; a product is listed exactly when it passes both filters; the list is ordered by each of the five sort keys, and an unknown key keeps the search order |
| Explore.ClearFilters | app/explore/page.tsx:88-92 | clearing empties the query and the category and resets the sort to newest |
| Explore.ActiveFiltersIgnoreSort | app/explore/page.tsx:94 | the sort key plays no part in whether filters count as active, and cleared filters are inactive |
| Explore.ClearedShowsEverything | app/explore/page.tsx:88-92 | after clearing, the list is a permutation of the whole catalogue with no old product ahead of a new one |
| Explore.BlankQueryIsActiveButInert | app/explore/page.tsx:45-51 | a whitespace-only query counts as an active filter yet filters nothing |
| Home.Featured | app/page.tsx:14 | exactly the featured catalogue products, none more often than in the catalogue |
| Home.NewArrivals | app/page.tsx:15 | exactly the new catalogue products, none more often than in the catalogue |
| Home.MostPopular | app/page.tsx:16 | exactly the popular catalogue products, none more often than in the catalogue |
| Home.Mystery | app/page.tsx:17 | exactly the catalogue products of the mystery category, none more often than in the catalogue |
| Home.MysteryRendered | app/page.tsx:140 | the first two mystery products, or all of them if fewer |
| Home.SectionsShownIff | app/page.tsx:29 | each section renders exactly when some catalogue product qualifies for it |
| Home.SectionsKeepOrder | app/page.tsx:14-17 | each section lists its products in catalogue order |
| Blog.FeaturedPosts | app/blog/page.tsx:13-16 | the first three featured posts in list order, or all of them if fewer |
| Blog.Newest | app/blog/page.tsx:18-20 | a permutation of the posts, newest first; a post is listed exactly when it is one of the posts |
| Blog.InCategory | app/blog/page.tsx:21 | a post is kept exactly when it is in the input and tagged with the category, and no more often than there; a newest-first input stays newest first |
| Blog.InCategoryKeepsOrder | app/blog/page.tsx:21 | the kept posts keep their order: filtering a concatenation gives the concatenated results |
| Blog.Matching | app/blog/page.tsx:22-29 | a post is kept exactly when it is in the input and its lower-cased title or excerpt contains the lower-cased query, and no more often than there; a newest-first input stays newest first |
| Blog.MatchingKeepsOrder | app/blog/page.tsx:22-29 | the kept posts keep their order: filtering a concatenation gives the concatenated results |
| Blog.FilteredPosts | app/blog/page.tsx:17-31 | newest first; no post is listed more often than it occurs; a post is listed exactly when it is one of the posts and passes the category filter (if one is active) and the query filter (if the query is not blank); with neither filter, a permutation of all posts |
| OrderStatus.StatusText | app/admin/page.tsx:76-89 | the four known statuses get their Persian labels; any other value is shown as it is |
| OrderStatus.StatusTone | app/admin/page.tsx:61-74 | the neutral colour is used exactly for unknown statuses; yellow exactly for processing, blue exactly for shipped, green exactly for delivered, red exactly for cancelled |
| OrderStatus.LabelsDistinguishStatuses | app/profile/page.tsx:59-72 | a status is shown verbatim exactly when it is unknown; no two known statuses share a label; known statuses are never neutral |
| Admin.AllProducts | app/admin/page.tsx:47-50 | the catalogue followed by the admin-added products |
| Admin.ComputeStats | app/admin/page.tsx:91-98 | the three totals are the list lengths; the low-stock count is the number of products with stock below 5 and the pending count the number of "processing" orders, each counted one by one; revenue is the sum of order totals |
| Seqs.FilterCount | app/admin/page.tsx:96-97 | the length of a filtered list is the number of elements that pass, counted one by one |
| Admin.RevenueAppend | app/admin/page.tsx:95 | revenue adds up over a concatenation of order lists |
| Admin.RevenueBoundsEachOrder | app/admin/page.tsx:95 | with no negative totals, revenue is at least any single order's total |
| Admin.RevenueNonNegative | app/admin/page.tsx:95 | with no negative totals, revenue is not negative |
| Admin.LowStockAgreesWithHighlight | app/admin/page.tsx:308 | the red stock highlight and the low-stock count use the same threshold, and the count over catalogue plus added products is the sum of the two parts' counts |
| Admin.SearchProducts | app/admin/page.tsx:275-278 | exactly the products whose lower-cased name contains the lower-cased query, none more often than in the table |
| Admin.SearchKeepsOrder | app/admin/page.tsx:275-278 | the results keep the table's order: searching a concatenation gives the concatenated results |
| Admin.EmptySearchListsAll | app/admin/page.tsx:275-278 | an empty search lists every product, in order |
| Admin.RecentOrders | app/admin/page.tsx:196 | the first five orders, or all of them if fewer |
| Admin.InitialExtras | app/admin/page.tsx:28-34 | a missing, empty or unreadable stored entry gives no added products; a readable one gives its list |
| Admin.OnStorage | app/admin/page.tsx:36-41 | events for other keys are ignored; a cleared or empty entry empties the list; an unreadable entry leaves the list as it was |
| Admin.TabParam | app/admin/products/new/page.tsx:65 | a found tab value is exactly what follows some `?tab=` in the address |
| Admin.OpeningTabAsWritten | app/admin/page.tsx:23 | the dashboard as written opens on one of its four tabs |
| Admin.AddressIgnored | app/admin/page.tsx:23 | the address plays no part in the tab the dashboard as written opens on |
| Admin.OpeningTab | app/admin/page.tsx:23 | the corrected dashboard opens on one of its four tabs |
| Admin.NoQueryNoTab | app/admin/page.tsx:23 | an address without `?` carries no tab |
| Admin.QueryTab | app/admin/products/new/page.tsx:65 | a path without `?` followed by `?tab=` and a value carries that value |
| Admin.OpeningTabFollowsAddress | app/admin/page.tsx:23 | the corrected dashboard opens on the tab the address names, and on the dashboard tab for an address without a query |
| NewProduct.SaveOpensDashboardTab | app/admin/products/new/page.tsx:65 | after a save the address asks for the products tab, yet the dashboard as written opens on the dashboard tab |
| NewProduct.SaveOpensProductsTab | app/admin/products/new/page.tsx:65 | with the corrected dashboard, a save lands on the products tab and the fallback address on the dashboard tab |
| Admin.StorageEventMatchesReload | app/admin/page.tsx:28-41 | an event with a readable or empty snapshot leaves the dashboard where a fresh load of that snapshot would |
| NewProduct.HandleChange | app/admin/products/new/page.tsx:35-37 | a change event sets its own field to its value and leaves every other field unchanged |
| NewProduct.FieldsDetermineForm | app/admin/products/new/page.tsx:11-24 | two forms that agree on every field are equal |
| NewProduct.EditsOverride | app/admin/products/new/page.tsx:35-37 | re-sending a field's current value changes nothing; a second edit of a field overrides the first |
| NewProduct.Optional | app/admin/products/new/page.tsx:52-54 | an optional text is absent exactly when blank, otherwise its trimmed, non-empty value |
| NewProduct.BuildProduct | app/admin/products/new/page.tsx:43-58 | the product carries the id, the trimmed name and description, the price, stock, image, category and flags as entered; the gallery, or the main image alone when the gallery is empty; optional texts absent exactly when blank and otherwise the trimmed text |
| NewProduct.ValidFormBuildsSoundProduct | app/admin/products/new/page.tsx:26-33 | a valid form builds a product with a name of two or more characters, a positive price, and a non-blank image and category; with no gallery given, the gallery is the one non-blank main image |
| NewProduct.StoreProduct | app/admin/products/new/page.tsx:60-68 | the save succeeds exactly when the stored list is missing, empty or readable and the write is accepted; then a missing or empty list becomes [p], a readable one gets p appended after its old contents, and the page navigates to /admin?tab=products, a parameter the dashboard as written ignores; otherwise nothing is saved and the page navigates to /admin |
| NewProduct.Submit | app/admin/products/new/page.tsx:39-69 | an invalid form does nothing; a valid one stores exactly the product it builds, with the read and write outcomes of `StoreProduct` |
| NewProduct.SavedProductReachesDashboard | app/admin/products/new/page.tsx:60-65 | after a save, the dashboard, reading the list back, lists the new product after the catalogue and the earlier added products |
| NewProduct.Gallery | app/admin/products/new/page.tsx:169-173 | the typed text becomes links that are non-empty and contain no line break |
| NewProduct.GalleryRoundTrip | app/admin/products/new/page.tsx:168-173 | a list of non-empty one-line links, joined for display and split back, is unchanged |
| NewProduct.GalleryBoxAsWritten | app/admin/products/new/page.tsx:168-173 | the box as written: after a keystroke it shows the derived links joined again, which yields the same links |
| NewProduct.TrailingLineBreakIsLost | app/admin/products/new/page.tsx:168-173 | after typing "a" and a line break, the box shows "a": the line break is lost |
| NewProduct.TypeInGallery | app/admin/products/new/page.tsx:168-173 | the corrected box keeps exactly the typed text and derives the same links as the box as written |
| NewProduct.KeptTextShowsWhatWasTyped | app/admin/products/new/page.tsx:168-173 | in the corrected box a trailing line break survives where the box as written drops it, and the links equal those of the typed text |
| Forms.ClearError | app/auth/register/page.tsx:35-37 | typing blanks that field's message if one shows; the other messages and the set of keys stay as they were |
| Forms.ClearErrorIdempotent | app/auth/login/page.tsx:31-33 | blanking a message twice is the same as once |
| Forms.OnCaptchaChange | app/auth/register/page.tsx:95-100 | a solved captcha blanks the captcha message; an empty or missing token changes no message; other messages stay |
| Forms.PasswordCheck | app/auth/register/page.tsx:55-59 | no message exactly when the password has six or more characters; otherwise "required" for an empty one, else "too short" |
| Forms.EmailShapeIffPattern | app/auth/register/page.tsx:51 | the computable shape check agrees with the e-mail pattern: no whitespace, a single "@" with text on both sides, and a dot after it with text on both sides |
| Forms.SplitInTwo | app/auth/register/page.tsx:51 | an address that splits into two pieces at "@" is those pieces around one "@" |
| Forms.ShapeGivesMatch | app/auth/register/page.tsx:51 | an address of the right shape matches the pattern, and the lemma names the "@" and dot positions |
| Forms.MatchGivesShape | app/auth/register/page.tsx:51 | an address matching the pattern has the right shape |
| Forms.NoAtAfter | app/auth/register/page.tsx:51 | in a match, no "@" follows the matched "@" |
| Forms.NoSpaceIn | app/auth/register/page.tsx:51 | a matching address holds no whitespace |
| Register.UsernameCheck | app/auth/register/page.tsx:43-47 | no message exactly when the name is not blank and has three or more characters, counted untrimmed; "required" for a blank name, else "too short" |
| Register.EmailCheck | app/auth/register/page.tsx:49-53 | no message exactly when the address matches the pattern; "required" for a blank address, else "invalid" |
| Register.ConfirmCheck | app/auth/register/page.tsx:61-65 | no message exactly when the confirmation is non-empty and equals the password; "required" for an empty one, else "mismatch" |
| Register.AllKeysComplete | app/auth/register/page.tsx:40-73 | the five message keys are all there are |
| Register.Validate | app/auth/register/page.tsx:40-73 | a key has a message exactly when its check fails, and the message is that check's |
| Register.ValidateFields | app/auth/register/page.tsx:43-69 | each of the five messages appears exactly under its own failure condition |
| Register.MessagesShow | app/auth/register/page.tsx:43-69 | every message produced is non-empty, so it shows |
| Register.ValidIff | app/auth/register/page.tsx:71-72 | validation yields no messages exactly when all five conditions hold |
| Register.PassesWhenAllHold | app/auth/register/page.tsx:71-72 | with all conditions met, validation yields no messages |
| Register.NoKeyPresent | app/auth/register/page.tsx:71-72 | with all conditions met, no key carries a message |
| Register.CheckPasses | app/auth/register/page.tsx:43-69 | with all conditions met, every check passes |
| Register.FailsWhenOneFails | app/auth/register/page.tsx:43-72 | when any condition fails, validation yields a message |
| Register.HandleInputChange | app/auth/register/page.tsx:31-38 | typing replaces that input's value, leaves the others, blanks that input's message, and keeps the other messages and the token |
| Register.OnRecaptchaChange | app/auth/register/page.tsx:95-100 | the token is stored; a solved captcha blanks the captcha message; otherwise the messages stay |
| Register.Submit | app/auth/register/page.tsx:75-93 | the messages become a fresh validation, and the page moves to the profile exactly when every condition holds |
| Register.EmptyFormRejected | app/auth/register/page.tsx:43-44 | submitting the fresh page does not sign up, and says the username is required |
| Register.FilledFormAccepted | app/auth/register/page.tsx:31-100 | acceptable values typed in either order, plus a solved captcha, sign up |
| Login.UsernameCheck | app/auth/login/page.tsx:39-41 | no message exactly when the name or address is not blank |
| Login.AllKeysComplete | app/auth/login/page.tsx:36-55 | the three message keys are all there are |
| Login.Validate | app/auth/login/page.tsx:36-55 | a key has a message exactly when its check fails, and the message is that check's |
| Login.ValidateFields | app/auth/login/page.tsx:39-51 | each of the three messages appears exactly under its own failure condition |
| Login.ValidIff | app/auth/login/page.tsx:53-54 | validation yields no messages exactly when the name is not blank, the password has six or more characters and the captcha is solved |
| Login.CheckPasses | app/auth/login/page.tsx:39-51 | with all conditions met, every check passes |
| Login.HandleInputChange | app/auth/login/page.tsx:27-34 | typing replaces that input's value, leaves the other, blanks that input's message, and keeps the other messages and the token |
| Login.OnRecaptchaChange | app/auth/login/page.tsx:77-82 | the token is stored; a solved captcha blanks the captcha message; otherwise the messages stay |
| Login.Submit | app/auth/login/page.tsx:57-75 | the messages become a fresh validation, and the page moves to the profile exactly when every condition holds |
| Login.TypingThenSolvingSignsIn | app/auth/login/page.tsx:27-82 | typing a non-blank name and a long enough password and then solving the captcha signs in |
| Comments.StorageKey | app/components/ProductComments.tsx:16 | the key is "comments:" followed by the product id |
| Comments.StorageKeysDistinct | app/components/ProductComments.tsx:27 | distinct products use distinct storage keys |
| Comments.Load | app/components/ProductComments.tsx:25-30 | a present, non-empty, readable entry replaces the comments; anything else leaves the whole state as it was |
| Comments.Ordered | app/components/ProductComments.tsx:41-46 | a permutation of the comments, newest first |
| Comments.SliceLength | app/components/ProductComments.tsx:48 | `slice(0, end)` keeps min(end, n) elements for a non-negative end, and drops min(−end, n) from the end for a negative one |
| Comments.Visible | app/components/ProductComments.tsx:48 | a prefix of the ordered list: the first `visibleCount` comments, or, for a negative count, all but the last −`visibleCount` |
| Comments.HasMoreIff | app/components/ProductComments.tsx:49 | "show more" appears exactly when there are more comments than are shown; otherwise every comment is shown |
| Comments.ShowMore | app/components/ProductComments.tsx:139 | three more comments are shown; the comments, inputs and error line are unchanged |
| Comments.HandleAdd | app/components/ProductComments.tsx:51-68 | a blank name or text only sets the error; otherwise the trimmed comment goes in front of the stored list, the inputs and error are cleared, and the number shown becomes the larger of two and the previous number |
| Comments.AddedCommentIsTrimmed | app/components/ProductComments.tsx:58-63 | an accepted comment's name and text are trimmed and non-empty |
| Comments.NewCommentShowsFirst | app/components/ProductComments.tsx:41-68 | a comment posted no earlier than all stored ones is the first one shown |
| Comments.VisibleHeadIsNewest | app/components/ProductComments.tsx:41-48 | a box that shows at least one comment and whose list starts with the newest shows that one first |
| Comments.OrderedPrependNewest | app/components/ProductComments.tsx:41-46 | ordering a list headed by its newest comment keeps that head in front of the ordered rest |
| Comments.ReplayKeepsInvariant | app/components/ProductComments.tsx:20-68 | from any state showing two or more, every sequence of events keeps it at two or more and never shows fewer than before |
| HeroSlider.Next | app/components/HeroSlider.tsx:55 | one slide on, wrapping from the last slide to the first |
| HeroSlider.Prev | app/components/HeroSlider.tsx:56 | one slide back, wrapping from the first slide to the last |
| HeroSlider.NextPrevInverse | app/components/HeroSlider.tsx:55-56 | back undoes forward and forward undoes back; three steps forward return to the start; a step always changes the slide |
| HeroSlider.OnTouchMove | app/components/HeroSlider.tsx:65-84 | without a touch in progress, or after a swipe, nothing changes; otherwise the slide changes exactly when the move exceeds 40 pixels and is more sideways than vertical, to the next slide for a leftward move and to the previous one for a rightward move |
| HeroSlider.Step | app/components/HeroSlider.tsx:48-90 | the timer advances one slide and a dot selects its slide, both leaving the touch record alone; a touch start records the position; a touch end forgets it |
| HeroSlider.SwipedTouchIsInert | app/components/HeroSlider.tsx:73 | once a touch has swiped, further moves change nothing |
| HeroSlider.MovesChangeAtMostOnce | app/components/HeroSlider.tsx:65-84 | any run of moves ends on the same slide, one on or one back, and only by swiping |
| HeroSlider.Gesture | app/components/HeroSlider.tsx:58-90 | a whole gesture moves at most one slide and leaves no touch recorded |
| HeroSlider.MoveWithoutTouchIgnored | app/components/HeroSlider.tsx:66 | a move with no touch in progress does nothing |
| BottomNav.AtMostOneTabActive | app/components/BottomNavigation.tsx:19-51 | no path highlights two tabs |
| BottomNav.PrefixesDisagree | app/components/BottomNavigation.tsx:19-24 | no path starts with two of the four tab prefixes, and none of them is the root |
| BottomNav.OwnLinkActive | app/components/BottomNavigation.tsx:26-51 | each tab is highlighted on its own link; the profile tab covers the sign-in pages; matching is by raw prefix, so "/explorer" highlights the explorer tab |
| BottomNav.CartBadge | app/components/BottomNavigation.tsx:44 | no badge exactly for an empty cart; "99+" above 99; otherwise at most two digits that read back as the count, one digit below ten |
| BottomNav.BadgeFits | app/components/BottomNavigation.tsx:71-74 | the badge is never more than three characters |
| Profile.UserOrders | app/profile/page.tsx:31-33 | exactly the orders of the given user, none more often than stored |
| Profile.UserOrdersKeepOrder | app/profile/page.tsx:31-33 | the history keeps the stored order, and other users' orders never enter it |
| Profile.NoOrdersIff | app/profile/page.tsx:258-274 | the "no orders" view shows exactly when the signed-in user has no order |
| Profile.Card | app/profile/page.tsx:201-248 | a card shows the order's id, the stored total, one amount per line (price × quantity), and the status label `getStatusText` gives: a Persian label for a known status, which differs from the raw status, and the raw status otherwise |
| Profile.CardLinesSum | app/profile/page.tsx:237 | the line amounts on a card add up to the order's product total |
| Profile.CardTotalIsStored | app/profile/page.tsx:248 | the total shown is the one stored: an order whose stored total disagrees with its lines still shows the stored value |
| Strings.Trim | app/explore/page.tsx:45 | the result has no whitespace at either end and is no longer than the input |
| Strings.TrimCutsEnds | app/explore/page.tsx:45 | the trimmed text is a slice of the input with only whitespace before and after it; with `Trim`'s contract this fixes it as the input without its leading and trailing whitespace |
| Strings.BlankIffAllSpace | app/explore/page.tsx:45 | a string trims to empty exactly when all its characters are whitespace |
| Strings.TrimIdempotent | app/components/ProductComments.tsx:60-61 | trimming twice is the same as once |
| Strings.ContainsIffOccurs | app/explore/page.tsx:47-50 | the computable substring search agrees with "occurs at some position" |
| Strings.SplitJoin | app/admin/products/new/page.tsx:168-172 | joining line-free pieces and splitting at the separator gives the pieces back |
| Strings.JoinSplit | app/admin/products/new/page.tsx:168-172 | splitting at a separator and joining again gives the text back |
| Strings.DecimalRoundTrip | app/components/BottomNavigation.tsx:73 | a count written in decimal reads back as the same count |
| Strings.LexLeTotal | app/explore/page.tsx:78-79 | any two names are ordered one way or the other |
| Strings.LexLeTransitive | app/explore/page.tsx:78-79 | the name order is transitive |
| Seqs.SortBySorted | app/explore/page.tsx:61-83 | sorting by a total preorder gives an ordered permutation |
| Seqs.FilterKeepsSorted | app/blog/page.tsx:21-29 | filtering an ordered list keeps it ordered |
| Seqs.FilterAppend | app/page.tsx:14-17 | filtering a concatenation filters each part in turn |
| Seqs.FilterNonEmptyIff | app/page.tsx:14-17 | a filter keeps something exactly when some element passes |
| Seqs.FilterSubMultiset | app/blog/page.tsx:21-29 | filtering adds no element and no extra copy of one |
| Seqs.SameMembers | app/explore/page.tsx:61-83 | a rearrangement holds exactly the elements of the original |

## Left out

- Browser storage is not modelled as a store. Reading is a parameter of type `Option<string>`, and a JavaScript-falsy empty string counts as absent. JSON decoding is a parameter that returns `None` where `JSON.parse` would throw. Writing back is a returned value: the stored list in `NewProduct.StoreProduct`. Whether the browser accepts the write is a boolean parameter, so a full quota is modelled only as its outcome.
- The cart's save-on-every-change effect (app/context/CartContext.tsx:143-145) and the comment box's save effect (app/components/ProductComments.tsx:32-39) are writes to storage, so they are not modelled. The cart's storage key is not modelled either.
- A decoded snapshot is taken to have the right shape. A payload that is valid JSON but not a cart, a product list or a comment list is not modelled.
- The cross-tab `storage` event is modelled as a value passed to `Admin.OnStorage`. Registering and removing the listener are not modelled.
- React rendering, memoisation, refs and Next.js routing are not modelled. Navigation is a returned target path. The simulated 1.5-second delay before redirecting after sign-in or sign-up is not modelled, nor is the `submit` error set when that delay fails.
- Timers are events: the carousel's five-second interval is `HeroSlider.Tick`.
- `Date.now()` ids and `new Date()` timestamps are parameters. Dates are whole-number timestamps, so date parsing and `Intl` formatting are not modelled.
- Touch coordinates are whole numbers rather than floating-point pixels.
- `localeCompare("fa")` in the name sort is modelled as code-point order (`Strings.LexLe`), because locale collation tables are not available to the model.
- `toLowerCase` is modelled as ASCII lower-casing (`Strings.Lower`); Unicode case mapping is not modelled.
- String lengths count characters, not UTF-16 code units.
- `Number(...)` coercion in the new-product form is not modelled: price and stock are held as integers, so non-numeric input and fractional prices are out of scope.
- The new-product page's mount effect that puts the placeholder image into an empty image field (app/admin/products/new/page.tsx:71-76) is not modelled. The initial form already holds that image, so the effect never changes anything.
- The explorer sorts in place with `.sort`. When neither filter applies, it therefore reorders the shared catalogue array, and later renders see that order. The model sorts a copy and leaves the catalogue as it was.
- The reducer's `default` branch is not modelled, because the action type admits no other action.
- `CartStore.AddDefault` states its count and total guarantees only for consistent carts (and, for a product already present, carts without duplicate lines). On other carts the reducer still runs, but the aggregates it caches are not tied to the previous ones.
- `CartStore.Reduce` does not promise consistency after `LOAD_CART`. The code installs the payload verbatim, whatever its totals say, so the cart invariant holds only for snapshots that were themselves consistent (`CartStore.RunKeepsConsistent`).
- `Explore.SortFor` states a permutation ordered by the selected key, not the order of products the key ties; the engine's `Array.prototype.sort` is stable, and so is `Seqs.SortBy`, but stability is not a proved contract.
- `Explore.ByNewest` does not state the order among products that are equally new (both new or both old); stability is not a proved contract.
- `Explore.ByPopular` does not state the order among products that are equally popular; stability is not a proved contract.
- `Explore.ByPriceLow` does not state the order among products of equal price; stability is not a proved contract.
- `Explore.ByPriceHigh` does not state the order among products of equal price; stability is not a proved contract.
- `Explore.ByName` does not state the order among products with equal names; stability is not a proved contract.
- `Blog.Newest` does not state the order among posts of the same date; stability is not a proved contract.
- `Comments.Ordered` does not state the order among comments with the same timestamp; stability is not a proved contract.
- `Comments.Load` models the code, which does not clear the comments when a product has no stored ones: a state holding another product's comments keeps them.
- `Admin.TabParam` reads the text after the first `?tab=` and nothing more: other query parameters, `&` separators and percent-decoding are not modelled.
- The data files (mock products, users, orders, blog posts) are not modelled. Every operation takes the list it reads as a parameter.
- The blog post page, the blog category page, the product page, the side menu, the top bar and the layout are outside this model.

## Findings

| source | as written | input that shows it | evidently intended | confidence | as-written member | corrected member |
|---|---|---|---|---|---|---|
| app/admin/products/new/page.tsx:168-173 | the gallery box shows `images.join("\n")`, and each change stores `value.split(/\n+/).filter(Boolean)`; a line break typed after the last link is removed before the next render | type "a", then Enter: the box holds "a\n", the links become ["a"], and the box shows "a", so the next link is appended to the first | the box keeps the typed text and derives the links from it | high, not executed | NewProduct.GalleryBoxAsWritten, NewProduct.TrailingLineBreakIsLost | NewProduct.TypeInGallery, NewProduct.KeptTextShowsWhatWasTyped |
| app/admin/page.tsx:23 | after a save the new-product page navigates to `/admin?tab=products` (app/admin/products/new/page.tsx:65), but the dashboard starts `activeTab` at `"dashboard"` and never reads the address | save a valid product: the address asks for the products tab, the dashboard tab opens | the dashboard opens on the tab the address names | medium, not executed | Admin.OpeningTabAsWritten, NewProduct.SaveOpensDashboardTab | Admin.OpeningTab, NewProduct.SaveOpensProductsTab |
