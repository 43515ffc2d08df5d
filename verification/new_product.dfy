/**
  The admin "new product" form: its initial values, field edits, the
  validity rule that enables saving, the product built on submit, and the
  append to the stored list of added products. The clock-based id and the
  JSON encoding of the stored list are parameters.
 */
module NewProduct {
  import opened Types
  import opened Strings
  import opened Seqs
  import Admin

  const PlaceholderImage: string := "/images/product-placeholder.svg"

  /** The form's fields; price and stock are held as numbers. */
  datatype Form = Form(
    name: string,
    price: int,
    image: string,
    images: seq<string>,
    description: string,
    category: string,
    stock: int,
    players: string,
    playtime: string,
    ageRating: string,
    isNew: bool,
    isPopular: bool,
    isFeatured: bool
  )

  /** The blank form: placeholder image, first catalogue category, no gallery. */
  const InitialForm: Form := Form("", 0, PlaceholderImage, [], "", Categories[0].slug, 0, "", "", "", false, false, false)

  /** The field names an edit can target. */
  datatype Field = Name | Price | Image | Images | Description | Category | Stock
                 | Players | Playtime | AgeRating | IsNew | IsPopular | IsFeatured

  /** A field's value, whatever its type. */
  datatype Value = Text(text: string) | Number(number: int) | Lines(lines: seq<string>) | Flag(flag: bool)

  function Get(f: Form, field: Field): Value {
    match field
      case Name => Text(f.name)
      case Price => Number(f.price)
      case Image => Text(f.image)
      case Images => Lines(f.images)
      case Description => Text(f.description)
      case Category => Text(f.category)
      case Stock => Number(f.stock)
      case Players => Text(f.players)
      case Playtime => Text(f.playtime)
      case AgeRating => Text(f.ageRating)
      case IsNew => Flag(f.isNew)
      case IsPopular => Flag(f.isPopular)
      case IsFeatured => Flag(f.isFeatured)
  }

  /** One input's change event: the field it belongs to and the value it carries. */
  datatype Edit =
    | SetName(text: string) | SetPrice(number: int) | SetImage(text: string)
    | SetImages(lines: seq<string>) | SetDescription(text: string) | SetCategory(text: string)
    | SetStock(number: int) | SetPlayers(text: string) | SetPlaytime(text: string)
    | SetAgeRating(text: string) | SetIsNew(flag: bool) | SetIsPopular(flag: bool)
    | SetIsFeatured(flag: bool)

  function FieldOf(e: Edit): Field {
    match e
      case SetName(_) => Name
      case SetPrice(_) => Price
      case SetImage(_) => Image
      case SetImages(_) => Images
      case SetDescription(_) => Description
      case SetCategory(_) => Field.Category
      case SetStock(_) => Stock
      case SetPlayers(_) => Players
      case SetPlaytime(_) => Playtime
      case SetAgeRating(_) => AgeRating
      case SetIsNew(_) => IsNew
      case SetIsPopular(_) => IsPopular
      case SetIsFeatured(_) => IsFeatured
  }

  function ValueOf(e: Edit): Value {
    match e
      case SetName(t) => Text(t)
      case SetPrice(n) => Number(n)
      case SetImage(t) => Text(t)
      case SetImages(ls) => Lines(ls)
      case SetDescription(t) => Text(t)
      case SetCategory(t) => Text(t)
      case SetStock(n) => Number(n)
      case SetPlayers(t) => Text(t)
      case SetPlaytime(t) => Text(t)
      case SetAgeRating(t) => Text(t)
      case SetIsNew(b) => Flag(b)
      case SetIsPopular(b) => Flag(b)
      case SetIsFeatured(b) => Flag(b)
  }

  /** A change event sets its own field and leaves every other field alone. */
  function HandleChange(f: Form, e: Edit): (r: Form)
    ensures Get(r, FieldOf(e)) == ValueOf(e)
    ensures forall field :: field != FieldOf(e) ==> Get(r, field) == Get(f, field)
  {
    match e
      case SetName(t) => f.(name := t)
      case SetPrice(n) => f.(price := n)
      case SetImage(t) => f.(image := t)
      case SetImages(ls) => f.(images := ls)
      case SetDescription(t) => f.(description := t)
      case SetCategory(t) => f.(category := t)
      case SetStock(n) => f.(stock := n)
      case SetPlayers(t) => f.(players := t)
      case SetPlaytime(t) => f.(playtime := t)
      case SetAgeRating(t) => f.(ageRating := t)
      case SetIsNew(b) => f.(isNew := b)
      case SetIsPopular(b) => f.(isPopular := b)
      case SetIsFeatured(b) => f.(isFeatured := b)
  }

  /** Two forms that agree on every field are the same form. */
  lemma {:induction false} FieldsDetermineForm(f: Form, g: Form)
    requires forall field :: Get(f, field) == Get(g, field)
    ensures f == g
  {
    assert Get(f, Name) == Get(g, Name) && Get(f, Price) == Get(g, Price);
    assert Get(f, Image) == Get(g, Image) && Get(f, Images) == Get(g, Images);
    assert Get(f, Description) == Get(g, Description) && Get(f, Field.Category) == Get(g, Field.Category);
    assert Get(f, Stock) == Get(g, Stock) && Get(f, Players) == Get(g, Players);
    assert Get(f, Playtime) == Get(g, Playtime) && Get(f, AgeRating) == Get(g, AgeRating);
    assert Get(f, IsNew) == Get(g, IsNew) && Get(f, IsPopular) == Get(g, IsPopular);
    assert Get(f, IsFeatured) == Get(g, IsFeatured);
  }

  /** Re-sending a field's current value changes nothing, and a second edit
      of the same field overrides the first. */
  lemma EditsOverride(f: Form, e1: Edit, e2: Edit)
    ensures HandleChange(f, SetName(f.name)) == f
    ensures FieldOf(e1) == FieldOf(e2) ==> HandleChange(HandleChange(f, e1), e2) == HandleChange(f, e2)
  {
    var g := HandleChange(f, SetName(f.name));
    forall field ensures Get(g, field) == Get(f, field) {}
    FieldsDetermineForm(g, f);
    if FieldOf(e1) == FieldOf(e2) {
      var a := HandleChange(HandleChange(f, e1), e2);
      var b := HandleChange(f, e2);
      forall field ensures Get(a, field) == Get(b, field) {}
      FieldsDetermineForm(a, b);
    }
  }

  /** The save button is enabled: a name of two or more characters after
      trimming, a positive price, and a non-blank image and category. */
  predicate IsValid(f: Form) {
    |Trim(f.name)| > 1 && f.price > 0 && |Trim(f.image)| > 0 && |Trim(f.category)| > 0
  }

  /** An optional text field: trimmed, or absent when blank. */
  function Optional(s: string): (r: Option<string>)
    ensures r.None? <==> IsBlank(s)
    ensures r.Some? ==> r.value == Trim(s) && IsTrimmed(r.value) && r.value != ""
  {
    if Trim(s) == "" then None else Some(Trim(s))
  }

  /** The product a submitted form becomes, under the given id. */
  function BuildProduct(f: Form, id: string): (p: Product)
    ensures p.id == id && p.price == f.price && p.stock == f.stock
    ensures p.name == Trim(f.name) && IsTrimmed(p.name)
    ensures p.description == Trim(f.description)
    ensures p.image == f.image && p.category == f.category
    ensures p.images.Some? && |p.images.value| >= 1
    ensures |f.images| > 0 ==> p.images.value == f.images
    ensures |f.images| == 0 ==> p.images.value == [f.image]
    ensures p.players.None? <==> IsBlank(f.players)
    ensures p.playtime.None? <==> IsBlank(f.playtime)
    ensures p.ageRating.None? <==> IsBlank(f.ageRating)
    ensures p.players.Some? ==> p.players.value == Trim(f.players)
    ensures p.playtime.Some? ==> p.playtime.value == Trim(f.playtime)
    ensures p.ageRating.Some? ==> p.ageRating.value == Trim(f.ageRating)
    ensures p.isNew == f.isNew && p.isPopular == f.isPopular && p.isFeatured == f.isFeatured
  {
    Product(
      id,
      Trim(f.name),
      f.price,
      f.image,
      Some(if |f.images| > 0 then f.images else [f.image]),
      Trim(f.description),
      f.category,
      f.stock,
      Optional(f.players),
      Optional(f.playtime),
      Optional(f.ageRating),
      f.isNew,
      f.isPopular,
      f.isFeatured
    )
  }

  /** A product built from a valid form has a name of at least two
      characters, a positive price and a non-blank image and category. */
  lemma ValidFormBuildsSoundProduct(f: Form, id: string)
    requires IsValid(f)
    ensures |BuildProduct(f, id).name| > 1 && BuildProduct(f, id).price > 0
    ensures !IsBlank(BuildProduct(f, id).image) && !IsBlank(BuildProduct(f, id).category)
    ensures BuildProduct(f, id).images.value[0] != "" || |f.images| > 0
    ensures |f.images| == 0 ==> BuildProduct(f, id).images == Some([f.image]) && !IsBlank(f.image)
  {
    assert |Trim(f.image)| > 0;
  }

  /** Where the page goes after the save button. */
  datatype Outcome =
    | Stay                                         // invalid form: nothing happens
    | Saved(stored: seq<Product>, target: string)  // list written back, to /admin?tab=products
    | Failed(target: string)                       // unreadable list or refused write, to /admin

  const SavedTarget: string := "/admin?tab=products"
  const FailedTarget: string := "/admin"

  /** After a save the address asks for the products tab, but the dashboard
      as written opens on its dashboard tab. */
  lemma SaveOpensDashboardTab()
    ensures SavedTarget == "/admin" + Admin.TabMarker + "products"
    ensures Admin.OpeningTabAsWritten(SavedTarget) == Admin.DashboardTab != "products"
  {
  }

  /** With the corrected dashboard, a save lands on the products tab and the
      fallback address on the dashboard tab. */
  lemma SaveOpensProductsTab()
    ensures Admin.OpeningTab(SavedTarget) == "products"
    ensures Admin.OpeningTab(FailedTarget) == Admin.DashboardTab
  {
    assert SavedTarget == "/admin" + Admin.TabMarker + "products";
    Admin.OpeningTabFollowsAddress("/admin", "products");
  }

  /** The stored list can be read: it is missing, empty, or decodes. */
  predicate Readable(raw: Option<string>, parse: string -> Option<seq<Product>>) {
    raw.None? || raw.value == "" || parse(raw.value).Some?
  }

  /** Appending a product to the stored list: a missing or empty entry
      counts as an empty list. An unreadable entry, or a write the browser
      refuses (`writeOk` false, as when the quota is exceeded), abandons the
      save and goes to /admin. */
  function StoreProduct(raw: Option<string>, parse: string -> Option<seq<Product>>, writeOk: bool, p: Product): (o: Outcome)
    ensures !o.Stay?
    ensures o.Saved? <==> Readable(raw, parse) && writeOk
    ensures o.Saved? ==> o.target == SavedTarget && |o.stored| >= 1 && o.stored[|o.stored| - 1] == p
    ensures (raw.None? || raw.value == "") && writeOk ==> o == Saved([p], SavedTarget)
    ensures o.Saved? && raw.Some? && raw.value != "" ==> o.stored[..|o.stored| - 1] == parse(raw.value).value
    ensures o.Failed? ==> o.target == FailedTarget
  {
    if !Readable(raw, parse) || !writeOk then Failed(FailedTarget)
    else if raw.None? || raw.value == "" then Saved([p], SavedTarget)
    else
      var stored := parse(raw.value).value + [p];
      assert stored[..|stored| - 1] == parse(raw.value).value;
      Saved(stored, SavedTarget)
  }

  /** The save button: an invalid form does nothing; a valid one stores the
      product it builds. */
  function Submit(f: Form, id: string, raw: Option<string>, parse: string -> Option<seq<Product>>, writeOk: bool): (o: Outcome)
    ensures !IsValid(f) <==> o.Stay?
    ensures IsValid(f) ==> o == StoreProduct(raw, parse, writeOk, BuildProduct(f, id))
  {
    if !IsValid(f) then Stay else StoreProduct(raw, parse, writeOk, BuildProduct(f, id))
  }

  /** Once saved, the dashboard, reading the list back, shows the new product
      after everything that was stored before. */
  lemma SavedProductReachesDashboard(f: Form, id: string, raw: Option<string>,
                                     parse: string -> Option<seq<Product>>, writeOk: bool,
                                     encoded: string, catalogue: seq<Product>)
    requires Submit(f, id, raw, parse, writeOk).Saved?
    requires encoded != "" && parse(encoded) == Some(Submit(f, id, raw, parse, writeOk).stored)
    ensures BuildProduct(f, id) in Admin.AllProducts(catalogue, Admin.InitialExtras(Some(encoded), parse))
    ensures |Admin.AllProducts(catalogue, Admin.InitialExtras(Some(encoded), parse))|
         == |catalogue| + |Submit(f, id, raw, parse, writeOk).stored|
    ensures Admin.AllProducts(catalogue, Admin.InitialExtras(Some(encoded), parse))
         == catalogue + Submit(f, id, raw, parse, writeOk).stored
  {
    var stored := Submit(f, id, raw, parse, writeOk).stored;
    var all := Admin.AllProducts(catalogue, Admin.InitialExtras(Some(encoded), parse));
    assert all[|catalogue| + |stored| - 1] == stored[|stored| - 1];
  }

  /** The gallery box's change handler: the text split on line breaks, with
      the empty pieces left by runs of line breaks dropped. */
  function Gallery(text: string): (r: seq<string>)
    ensures forall i :: 0 <= i < |r| ==> r[i] != "" && '\n' !in r[i]
  {
    Filter(SplitOn(text, '\n'), (l: string) => l != "")
  }

  /** A list of non-empty one-line links survives being shown in the box and read back. */
  lemma GalleryRoundTrip(links: seq<string>)
    requires forall i :: 0 <= i < |links| ==> links[i] != "" && '\n' !in links[i]
    ensures Gallery(Join(links, '\n')) == links
  {
    if |links| == 0 {
      assert SplitOn("", '\n') == [""];
      assert Filter([""], (l: string) => l != "") == [];
    } else {
      SplitJoin(links, '\n');
      FilterKeepsAll(links, (l: string) => l != "");
    }
  }

  /** What the gallery box shows after a keystroke, as written: the links
      it derived from the typed text, joined again. */
  function GalleryBoxAsWritten(typed: string): (shown: string)
    ensures Gallery(shown) == Gallery(typed)
  {
    GalleryRoundTrip(Gallery(typed));
    Join(Gallery(typed), '\n')
  }

  /** A line break typed after the last link is dropped from the box at once,
      so a new line cannot be started by pressing Enter at the end. */
  lemma TrailingLineBreakIsLost()
    ensures GalleryBoxAsWritten("a\n") == "a"
    ensures GalleryBoxAsWritten("a\n") != "a\n"
  {
    assert "\n"[1..] == "" && "a\n"[1..] == "\n";
    assert SplitOn("\n", '\n') == ["", ""];
    assert "a\n"[0] == 'a' && ['a'] + "" == "a";
    assert SplitOn("a\n", '\n') == [['a'] + ""] + ["", ""][1..];
    assert SplitOn("a\n", '\n') == ["a", ""];
    assert Filter(["", ""], (l: string) => l != "") == [];
    assert Filter(["a", ""], (l: string) => l != "") == ["a"] by {
      assert ["a", ""][1..] == [""];
      assert Filter([""], (l: string) => l != "") == [];
    }
  }

  /** The gallery box with its own text kept: it shows what was typed, and
      the form's links are derived from that text. */
  datatype GalleryBox = GalleryBox(text: string)

  function TypeInGallery(typed: string): (r: GalleryBox)
    ensures r.text == typed
    ensures Gallery(r.text) == Gallery(GalleryBoxAsWritten(typed))
  {
    GalleryBox(typed)
  }

  /** Keeping the text loses no keystroke and yields the same links as before;
      the trailing line break the box as written drops is kept. */
  lemma KeptTextShowsWhatWasTyped(typed: string)
    ensures TypeInGallery(typed).text == typed
    ensures TypeInGallery("a\n").text == "a\n" != GalleryBoxAsWritten("a\n")
    ensures Gallery(TypeInGallery(typed).text) == Gallery(typed)
  {
    TrailingLineBreakIsLost();
  }
}
