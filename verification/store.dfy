/** The database the route handlers talk to, as plain values: one map or
    sequence per table. Tables whose row order a handler depends on (the line
    items a loop walks, the reviews a listing returns) are sequences; tables
    reached only by key are maps. `nextId` stands for the database's id
    generator: every inserted row takes it and it moves on. */
module Store {
  import opened Basics

  datatype Product = Product(price: int, stock: int, isActive: bool)

  datatype OrderStatus = Pending | Shipped | Delivered | Cancelled

  datatype PaymentMethod = CashOnDelivery

  datatype Order = Order(
    buyer: Id,
    addressId: Id,
    deliveryCharges: int,
    total: int,
    status: OrderStatus,
    payment: PaymentMethod)

  /** A row of `order_items`: quantity and unit price as captured when the
      order was placed. */
  datatype LineItem = LineItem(orderId: Id, productId: Id, quantity: int, price: int)

  datatype Address = Address(
    buyer: Id,
    firstName: string,
    lastName: string,
    email: Option<string>,
    addressLine: string,
    city: string,
    state: string,
    postalCode: string,
    phoneNumber: string)

  /** A row of `cart_items`, keyed by its buyer and product. */
  datatype CartKey = CartKey(buyer: Id, product: Id)

  /** A row of `reviews`; `deleted` stands for a non-null `deleted_at`. */
  datatype Review = Review(id: Id, productId: Id, buyerId: Id, rating: int, comment: string, deleted: bool)

  datatype Db = Db(
    products: map<Id, Product>,
    orders: map<Id, Order>,
    orderItems: seq<LineItem>,
    addresses: map<Id, Address>,
    cartItems: map<CartKey, int>,
    reviews: seq<Review>,
    buyerNames: map<Id, string>,
    nextId: Id)

  /** Every id already handed out is below `nextId`, so the next insert
      cannot collide with an existing row. */
  predicate Fresh(db: Db) {
    && (forall k | k in db.orders :: k < db.nextId)
    && (forall k | k in db.addresses :: k < db.nextId)
    && (forall i | 0 <= i < |db.orderItems| :: db.orderItems[i].orderId < db.nextId)
    && (forall i | 0 <= i < |db.reviews| :: db.reviews[i].id < db.nextId)
  }

  /** Every stored cart quantity is at least 1. */
  predicate PositiveCart(cart: map<CartKey, int>) {
    forall k | k in cart :: cart[k] >= 1
  }

  /** A JSON response body. */
  datatype Body =
    | Error(error: string)
    | Message(message: string)
    | MessageAndError(message: string, error: string)
    | OrderPlaced(message: string, orderId: Id)
    | ReviewList(reviews: seq<ReviewView>)
    | ProductList(products: seq<ProductView>, total: int)

  /** One review as the listing shows it. */
  datatype ReviewView = ReviewView(id: Id, buyer: string, buyerId: Id, rating: int, comment: string)

  /** One product as the catalog shows it; `rating` is the exact mean. */
  datatype ProductView = ProductView(
    id: Id,
    name: string,
    description: string,
    price: int,
    stock: int,
    category: string,
    images: seq<string>,
    rating: real)

  /** What a read-only handler returns. */
  datatype Response = Response(status: int, body: Body)

  /** What a mutating handler returns: the response and the database after it. */
  datatype Reply = Reply(status: int, body: Body, db: Db)

  /** `delete().eq('buyer_id', buyer)` on `cart_items`. */
  function DeleteBuyerRows(cart: map<CartKey, int>, buyer: Id): (r: map<CartKey, int>)
    ensures forall k :: k in r <==> k in cart && k.buyer != buyer
    ensures forall k | k in r :: r[k] == cart[k]
  {
    map k | k in cart && k.buyer != buyer :: cart[k]
  }

  function OfOrder(orderId: Id): LineItem -> bool {
    (li: LineItem) => li.orderId == orderId
  }

  /** `select … from order_items where order_id = orderId`, in table order. */
  function ItemsOf(items: seq<LineItem>, orderId: Id): (r: seq<LineItem>)
    ensures forall i | 0 <= i < |r| :: r[i].orderId == orderId && r[i] in items
    ensures forall i | 0 <= i < |items| && items[i].orderId == orderId :: items[i] in r
  {
    Filter(items, OfOrder(orderId))
  }

  /** The order's line items come back with every copy: a line item stored
      twice is returned twice, and nothing outside the order is returned. */
  lemma ItemsOfCounts(items: seq<LineItem>, orderId: Id)
    ensures multiset(ItemsOf(items, orderId)) <= multiset(items)
    ensures forall i | 0 <= i < |items| ::
      multiset(ItemsOf(items, orderId))[items[i]] == if items[i].orderId == orderId then multiset(items)[items[i]] else 0
  {
    FilterCounts(items, OfOrder(orderId));
  }

  /** Sum of the quantities of the line items that name product `p`. */
  function QuantityOf(items: seq<LineItem>, p: Id): int {
    if |items| == 0 then 0
    else (if items[0].productId == p then items[0].quantity else 0) + QuantityOf(items[1..], p)
  }

  /** Sum of price × quantity over line items. */
  function LinesTotal(items: seq<LineItem>): int {
    if |items| == 0 then 0 else items[0].price * items[0].quantity + LinesTotal(items[1..])
  }

  /** Line items of an order that does not exist yet: none. */
  lemma {:induction false} ItemsOfUnused(items: seq<LineItem>, orderId: Id)
    requires forall i | 0 <= i < |items| :: items[i].orderId < orderId
    ensures ItemsOf(items, orderId) == []
    decreases |items|
  {
    if |items| > 0 {
      ItemsOfUnused(items[1..], orderId);
      assert !OfOrder(orderId)(items[0]);
    }
  }

  /** Appending rows of a fresh order: its line items are exactly those rows. */
  lemma ItemsOfAppended(items: seq<LineItem>, added: seq<LineItem>, orderId: Id)
    requires forall i | 0 <= i < |items| :: items[i].orderId < orderId
    requires forall i | 0 <= i < |added| :: added[i].orderId == orderId
    ensures ItemsOf(items + added, orderId) == added
  {
    FilterConcat(items, added, OfOrder(orderId));
    ItemsOfUnused(items, orderId);
    FilterAll(added, OfOrder(orderId));
  }
}
