/**
  The storefront's records: products, cart lines, carts, orders, users and
  catalogue categories. Prices, stock and quantities are integers (whole
  toman); optional string fields are `Option`s and optional boolean flags are
  plain booleans, an absent flag reading as false exactly as it does in the
  storefront's conditionals.
 */
module Types {

  /** A value that may be absent: a missing storage key, an unparsable
      snapshot, an unset optional field or a null widget token. */
  datatype Option<T> = None | Some(value: T)

  datatype Product = Product(
    id: string,
    name: string,
    price: int,
    image: string,
    images: Option<seq<string>>,
    description: string,
    category: string,
    stock: int,
    players: Option<string>,
    playtime: Option<string>,
    ageRating: Option<string>,
    isNew: bool,
    isPopular: bool,
    isFeatured: bool
  )

  /** One cart line: the product record as it was when first added, and a quantity. */
  datatype CartItem = CartItem(product: Product, quantity: int)

  /** The cart: its lines in insertion order plus two cached aggregates. */
  datatype Cart = Cart(items: seq<CartItem>, total: int, itemCount: int)

  datatype User = User(
    id: string,
    username: string,
    email: string,
    registrationDate: string,
    isActive: bool
  )

  /** An order; `status` is kept as a string because stored data may hold any value. */
  datatype Order = Order(
    id: string,
    userId: string,
    customerName: string,
    items: seq<CartItem>,
    total: int,
    status: string,
    date: string,
    shippingCost: int
  )

  datatype Category = Category(id: string, name: string, slug: string)

  /** The fixed catalogue categories, in display order. */
  const Categories: seq<Category> := [
    Category("1", "استراتژی", "strategy"),
    Category("2", "پرونده جنایی", "mystery"),
    Category("3", "دورهمی", "party"),
    Category("4", "خانوادگی", "family"),
    Category("5", "کارتی", "card")
  ]
}
