/** `POST /api/order`: a buyer places an order for a list of products.

    The address must carry every required field and the item list must be a
    non-empty array. Each item is checked against the products table in turn:
    the product must exist, be active and have at least the requested
    quantity in stock. The first item that fails answers 400 before anything
    is written. Then the address, the order (pending, cash on delivery, a
    fixed delivery charge of 250, total = 250 + Σ price × quantity) and its
    line items are inserted one after the other. The line items copy the
    prices read during validation. Finally the buyer's cart is emptied. Each
    insert can fail with its own 500, and the rows written before it stay.
    Product stock is not touched. */
module OrderPlace {
  import opened Basics
  import opened Store

  datatype AddressInput = AddressInput(
    firstName: Option<string>,
    lastName: Option<string>,
    email: Option<string>,
    addressLine: Option<string>,
    city: Option<string>,
    state: Option<string>,
    postalCode: Option<string>,
    phoneNumber: Option<string>)

  /** One requested item. The quantity is not validated beyond the stock test. */
  datatype ItemRequest = ItemRequest(productId: Id, quantity: int)

  /** `orderItems` is None when it is missing or not an array. */
  datatype PlaceRequest = PlaceRequest(address: Option<AddressInput>, orderItems: Option<seq<ItemRequest>>)

  /** Which of the four writes fail. */
  datatype PlaceFaults = PlaceFaults(saveAddress: bool, createOrder: bool, addItems: bool, clearCart: bool)

  const NoFaults := PlaceFaults(false, false, false, false)

  const DeliveryCharges := 250

  const UnauthorizedError := "Unauthorized"
  const AddressError := "Complete address details are required"
  const ItemsError := "Order items are required"
  const InvalidProductPrefix := "Invalid product: "
  const SaveAddressError := "Failed to save address"
  const CreateOrderError := "Failed to create order"
  const AddItemsError := "Failed to add order items"
  const ClearCartError := "Failed to clear cart"
  const PlacedMessage := "Order placed successfully"

  /** Every required address field is present and non-empty; email may be absent. */
  predicate CompleteAddress(address: Option<AddressInput>) {
    && address.Some?
    && Truthy(address.value.firstName, "")
    && Truthy(address.value.lastName, "")
    && Truthy(address.value.addressLine, "")
    && Truthy(address.value.city, "")
    && Truthy(address.value.state, "")
    && Truthy(address.value.postalCode, "")
    && Truthy(address.value.phoneNumber, "")
  }

  /** The per-item product check: exists, active, and `stock < quantity` is false. */
  predicate Orderable(products: map<Id, Product>, item: ItemRequest) {
    item.productId in products && products[item.productId].isActive &&
    !(products[item.productId].stock < item.quantity)
  }

  /** An item that passed the check, with the price read at that moment. */
  datatype Validated = Validated(productId: Id, quantity: int, price: int)

  /** The validation loop: every item checked in order, stopping with the id
      of the first one that fails. */
  function ValidateItems(products: map<Id, Product>, items: seq<ItemRequest>): (r: Result<seq<Validated>, Id>)
    ensures r.Ok? <==> forall i | 0 <= i < |items| :: Orderable(products, items[i])
    ensures r.Ok? ==> |r.value| == |items| && forall i | 0 <= i < |items| ::
      r.value[i] == Validated(items[i].productId, items[i].quantity, products[items[i].productId].price)
    ensures r.Err? ==> exists i | 0 <= i < |items| ::
      && items[i].productId == r.error && !Orderable(products, items[i])
      && forall j | 0 <= j < i :: Orderable(products, items[j])
    decreases |items|
  {
    if |items| == 0 then Ok([])
    else
      var item := items[0];
      if !Orderable(products, item) then Err(item.productId)
      else
        var rest := ValidateItems(products, items[1..]);
        if rest.Err? then
          var i :| 0 <= i < |items[1..]| && items[1..][i].productId == rest.error &&
            !Orderable(products, items[1..][i]) &&
            forall j | 0 <= j < i :: Orderable(products, items[1..][j]);
          assert items[i + 1] == items[1..][i];
          assert forall j | 0 <= j < i + 1 :: Orderable(products, items[j]) by {
            forall j | 0 <= j < i + 1 ensures Orderable(products, items[j]) {
              if j > 0 { assert items[j] == items[1..][j - 1]; }
            }
          }
          rest
        else
          Ok([Validated(item.productId, item.quantity, products[item.productId].price)] + rest.value)
  }

  /** Σ price × quantity over validated items. */
  function Subtotal(validated: seq<Validated>): int {
    if |validated| == 0 then 0
    else validated[0].price * validated[0].quantity + Subtotal(validated[1..])
  }

  /** The line items inserted for order `orderId`. */
  function Lines(validated: seq<Validated>, orderId: Id): (r: seq<LineItem>)
    ensures |r| == |validated|
    ensures forall i | 0 <= i < |r| ::
      r[i] == LineItem(orderId, validated[i].productId, validated[i].quantity, validated[i].price)
  {
    seq(|validated|, i requires 0 <= i < |validated| =>
      LineItem(orderId, validated[i].productId, validated[i].quantity, validated[i].price))
  }

  /** The line items carry the same Σ price × quantity as the validated items. */
  lemma {:induction false} LinesTotalMatches(validated: seq<Validated>, orderId: Id)
    ensures LinesTotal(Lines(validated, orderId)) == Subtotal(validated)
    decreases |validated|
  {
    if |validated| > 0 {
      LinesTotalMatches(validated[1..], orderId);
      assert Lines(validated, orderId)[1..] == Lines(validated[1..], orderId);
    }
  }

  /** Σ current price × requested quantity, straight from the request. */
  function RequestTotal(products: map<Id, Product>, items: seq<ItemRequest>): int
    requires forall i | 0 <= i < |items| :: items[i].productId in products
  {
    if |items| == 0 then 0
    else products[items[0].productId].price * items[0].quantity + RequestTotal(products, items[1..])
  }

  function AddressRow(buyer: Id, a: AddressInput): Address
    requires CompleteAddress(Some(a))
  {
    Address(buyer, a.firstName.value, a.lastName.value,
      if Truthy(a.email, "") then Some(a.email.value) else None,
      a.addressLine.value, a.city.value, a.state.value, a.postalCode.value, a.phoneNumber.value)
  }

  /** The handler: session and request in, status, body and database out. */
  function PlaceOrder(session: Option<Id>, req: PlaceRequest, faults: PlaceFaults, db: Db): (r: Reply)
    ensures r.db.products == db.products && r.db.reviews == db.reviews && r.db.buyerNames == db.buyerNames
    ensures !Truthy(session, 0) ==> r == Reply(401, Error(UnauthorizedError), db)
    ensures r.status == 400 || r.status == 401 ==> r.db == db
    ensures r.status == 201 <==>
      && Truthy(session, 0) && CompleteAddress(req.address)
      && req.orderItems.Some? && |req.orderItems.value| > 0
      && (forall i | 0 <= i < |req.orderItems.value| :: Orderable(db.products, req.orderItems.value[i]))
      && faults == NoFaults
  {
    if !Truthy(session, 0) then Reply(401, Error(UnauthorizedError), db)
    else if !CompleteAddress(req.address) then Reply(400, Error(AddressError), db)
    else if req.orderItems.None? || |req.orderItems.value| == 0 then Reply(400, Error(ItemsError), db)
    else
      var buyer := session.value;
      match ValidateItems(db.products, req.orderItems.value)
      case Err(bad) => Reply(400, Error(InvalidProductPrefix + NatToString(bad)), db)
      case Ok(validated) =>
        if faults.saveAddress then Reply(500, Error(SaveAddressError), db)
        else
          var addressId := db.nextId;
          var db1 := db.(addresses := db.addresses[addressId := AddressRow(buyer, req.address.value)],
                         nextId := addressId + 1);
          if faults.createOrder then Reply(500, Error(CreateOrderError), db1)
          else
            var orderId := db1.nextId;
            var order := Order(buyer, addressId, DeliveryCharges, DeliveryCharges + Subtotal(validated),
                               Pending, CashOnDelivery);
            var db2 := db1.(orders := db1.orders[orderId := order], nextId := orderId + 1);
            if faults.addItems then Reply(500, Error(AddItemsError), db2)
            else
              var db3 := db2.(orderItems := db2.orderItems + Lines(validated, orderId));
              if faults.clearCart then Reply(500, Error(ClearCartError), db3)
              else
                var db4 := db3.(cartItems := DeleteBuyerRows(db3.cartItems, buyer));
                Reply(201, OrderPlaced(PlacedMessage, orderId), db4)
  }

  // ---------------------------------------------------------------------------
  // Lemmas

  /** The order total is the delivery charge plus Σ current price × quantity
      over the requested items. */
  lemma {:induction false} SubtotalIsRequestTotal(products: map<Id, Product>, items: seq<ItemRequest>)
    requires forall i | 0 <= i < |items| :: Orderable(products, items[i])
    ensures ValidateItems(products, items).Ok?
    ensures Subtotal(ValidateItems(products, items).value) == RequestTotal(products, items)
    decreases |items|
  {
    if |items| > 0 {
      SubtotalIsRequestTotal(products, items[1..]);
      var vs := ValidateItems(products, items).value;
      assert vs[1..] == ValidateItems(products, items[1..]).value;
    }
  }

  /** What a successful placement writes: a pending cash-on-delivery order
      with delivery charge 250 and total 250 + Σ price × quantity, one line
      item per requested item carrying its quantity and the price read during
      validation, the address, and a cart with none of the buyer's rows while
      every other buyer's rows stay. */
  lemma PlacedOrderContents(buyer: Id, req: PlaceRequest, db: Db)
    requires buyer != 0
    ensures var r := PlaceOrder(Some(buyer), req, NoFaults, db);
      r.status == 201 ==>
        var items := req.orderItems.value;
        var orderId := db.nextId + 1;
        && r.body == OrderPlaced(PlacedMessage, orderId)
        && r.db.nextId == db.nextId + 2
        && r.db.addresses == db.addresses[db.nextId := AddressRow(buyer, req.address.value)]
        && r.db.orders == db.orders[orderId := Order(buyer, db.nextId, DeliveryCharges,
             DeliveryCharges + RequestTotal(db.products, items), Pending, CashOnDelivery)]
        && |r.db.orderItems| == |db.orderItems| + |items|
        && r.db.orderItems[..|db.orderItems|] == db.orderItems
        && (forall i | 0 <= i < |items| ::
             r.db.orderItems[|db.orderItems| + i] ==
               LineItem(orderId, items[i].productId, items[i].quantity, db.products[items[i].productId].price))
        && r.db.cartItems == DeleteBuyerRows(db.cartItems, buyer)
  {
    var r := PlaceOrder(Some(buyer), req, NoFaults, db);
    if r.status == 201 {
      SubtotalIsRequestTotal(db.products, req.orderItems.value);
    }
  }

  /** A missing or incomplete address, or a missing or empty item list, is
      400 and nothing is written. An absent email is stored as null. */
  lemma ValidationErrors(buyer: Id, req: PlaceRequest, faults: PlaceFaults, db: Db)
    requires buyer != 0
    ensures !CompleteAddress(req.address) ==>
      PlaceOrder(Some(buyer), req, faults, db) == Reply(400, Error(AddressError), db)
    ensures CompleteAddress(req.address) && (req.orderItems.None? || req.orderItems.value == []) ==>
      PlaceOrder(Some(buyer), req, faults, db) == Reply(400, Error(ItemsError), db)
    ensures CompleteAddress(req.address) && req.address.value.email.None? ==>
      AddressRow(buyer, req.address.value).email.None?
  {
  }

  /** An item whose product is missing, inactive or short of stock gets
      "Invalid product: <id>" (the first such item's id) before any insert. */
  lemma InvalidProductRejected(buyer: Id, req: PlaceRequest, faults: PlaceFaults, db: Db, k: nat)
    requires buyer != 0 && CompleteAddress(req.address) && req.orderItems.Some?
    requires k < |req.orderItems.value| && !Orderable(db.products, req.orderItems.value[k])
    ensures var r := PlaceOrder(Some(buyer), req, faults, db);
      && r.status == 400 && r.db == db
      && exists i | 0 <= i <= k ::
           r.body == Error(InvalidProductPrefix + NatToString(req.orderItems.value[i].productId))
  {
  }

  /** A placement that fails at a later write keeps the rows written before it. */
  lemma LateFailureKeepsEarlierRows(buyer: Id, req: PlaceRequest, faults: PlaceFaults, db: Db)
    requires buyer != 0 && !faults.saveAddress
    ensures var r := PlaceOrder(Some(buyer), req, faults, db);
      r.status == 500 ==> r.db.nextId >= db.nextId + 1 && db.nextId in r.db.addresses
  {
  }

  /** Placement keeps ids fresh. */
  lemma PlaceKeepsFresh(session: Option<Id>, req: PlaceRequest, faults: PlaceFaults, db: Db)
    requires Fresh(db)
    ensures Fresh(PlaceOrder(session, req, faults, db).db)
  {
  }

  /** The stored order's total is the delivery charge plus Σ price × quantity
      over the line items stored for it. */
  lemma PlacedTotalMatchesLines(buyer: Id, req: PlaceRequest, db: Db)
    requires buyer != 0 && Fresh(db)
    ensures var r := PlaceOrder(Some(buyer), req, NoFaults, db);
      r.status == 201 ==>
        var orderId := r.body.orderId;
        && orderId in r.db.orders
        && r.db.orders[orderId].total ==
             DeliveryCharges + LinesTotal(ItemsOf(r.db.orderItems, orderId))
  {
    var r := PlaceOrder(Some(buyer), req, NoFaults, db);
    if r.status == 201 {
      var validated := ValidateItems(db.products, req.orderItems.value).value;
      var orderId := db.nextId + 1;
      assert r.body.orderId == orderId;
      assert r.db.orderItems == db.orderItems + Lines(validated, orderId);
      assert r.db.orders[orderId].total == DeliveryCharges + Subtotal(validated);
      ItemsOfAppended(db.orderItems, Lines(validated, orderId), orderId);
      LinesTotalMatches(validated, orderId);
    }
  }
}
