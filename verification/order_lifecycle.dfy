/** An order's life across the two handlers: placed by `POST /api/order`
    and then cancelled by `POST /api/order/cancel`. Placement reads stock
    but never lowers it, while cancellation adds every line item's quantity
    back. An order placed and then cancelled therefore leaves each product's
    stock higher than before by the quantity that was ordered. */
module OrderLifecycle {
  import opened Basics
  import opened Store
  import OrderPlace
  import OrderCancel

  /** Σ requested quantity of product `p` over the request's items. */
  function RequestedQuantity(items: seq<OrderPlace.ItemRequest>, p: Id): int {
    if |items| == 0 then 0
    else (if items[0].productId == p then items[0].quantity else 0) + RequestedQuantity(items[1..], p)
  }

  /** The line items stored for a validated request name each product with
      the quantity the request asked for. */
  lemma {:induction false} LinesQuantity(products: map<Id, Product>, items: seq<OrderPlace.ItemRequest>, orderId: Id, p: Id)
    requires forall i | 0 <= i < |items| :: OrderPlace.Orderable(products, items[i])
    ensures OrderPlace.ValidateItems(products, items).Ok?
    ensures QuantityOf(OrderPlace.Lines(OrderPlace.ValidateItems(products, items).value, orderId), p) ==
      RequestedQuantity(items, p)
    decreases |items|
  {
    if |items| > 0 {
      LinesQuantity(products, items[1..], orderId, p);
      var vs := OrderPlace.ValidateItems(products, items).value;
      assert vs[1..] == OrderPlace.ValidateItems(products, items[1..]).value;
      assert OrderPlace.Lines(vs, orderId)[1..] == OrderPlace.Lines(vs[1..], orderId);
    }
  }

  /** What a successful placement leaves behind: a pending order of the
      buyer under a fresh id whose line items are exactly the validated
      request's lines, each naming a stored product, and the products table
      untouched. */
  lemma PlacedOrderRows(buyer: Id, req: OrderPlace.PlaceRequest, db: Db)
    requires buyer != 0 && Fresh(db)
    requires OrderPlace.PlaceOrder(Some(buyer), req, OrderPlace.NoFaults, db).status == 201
    ensures var placed := OrderPlace.PlaceOrder(Some(buyer), req, OrderPlace.NoFaults, db);
      var orderId := placed.body.orderId;
      && req.orderItems.Some?
      && (forall i | 0 <= i < |req.orderItems.value| :: OrderPlace.Orderable(db.products, req.orderItems.value[i]))
      && orderId == db.nextId + 1
      && orderId in placed.db.orders
      && placed.db.orders[orderId].buyer == buyer
      && placed.db.orders[orderId].status == Pending
      && placed.db.products == db.products
      && var lines := OrderPlace.Lines(OrderPlace.ValidateItems(db.products, req.orderItems.value).value, orderId);
         && ItemsOf(placed.db.orderItems, orderId) == lines
         && forall i | 0 <= i < |lines| :: lines[i].productId in db.products
  {
    var placed := OrderPlace.PlaceOrder(Some(buyer), req, OrderPlace.NoFaults, db);
    var items := req.orderItems.value;
    var validated := OrderPlace.ValidateItems(db.products, items).value;
    var orderId := db.nextId + 1;
    var lines := OrderPlace.Lines(validated, orderId);
    assert placed.body.orderId == orderId;
    assert placed.db.orderItems == db.orderItems + lines;
    assert placed.db.orders[orderId] ==
      Order(buyer, db.nextId, OrderPlace.DeliveryCharges, placed.db.orders[orderId].total, Pending, CashOnDelivery);
    ItemsOfAppended(db.orderItems, lines, orderId);
    forall i | 0 <= i < |lines|
      ensures lines[i].productId in db.products
    {
      assert lines[i].productId == items[i].productId;
      assert OrderPlace.Orderable(db.products, items[i]);
    }
  }

  /** Placing an order and cancelling it straight away succeeds, marks the
      order cancelled, and raises every product's stock by the quantity the
      request asked for: the stock placement never took is given back anyway. */
  lemma PlaceThenCancelRaisesStock(buyer: Id, req: OrderPlace.PlaceRequest, db: Db)
    requires buyer != 0 && Fresh(db)
    ensures var placed := OrderPlace.PlaceOrder(Some(buyer), req, OrderPlace.NoFaults, db);
      placed.status == 201 ==>
        var orderId := placed.body.orderId;
        var cancelled := OrderCancel.CancelOrder(Some(buyer), Some(orderId), OrderCancel.NoFaults, placed.db);
        && cancelled.status == 200
        && cancelled.db.orders[orderId].status == Cancelled
        && cancelled.db.products.Keys == db.products.Keys
        && forall p | p in db.products ::
             cancelled.db.products[p].stock == db.products[p].stock + RequestedQuantity(req.orderItems.value, p)
  {
    var placed := OrderPlace.PlaceOrder(Some(buyer), req, OrderPlace.NoFaults, db);
    if placed.status == 201 {
      PlacedOrderRows(buyer, req, db);
      var items := req.orderItems.value;
      var orderId := placed.body.orderId;
      var cancelled := OrderCancel.CancelOrder(Some(buyer), Some(orderId), OrderCancel.NoFaults, placed.db);
      assert cancelled.status == 200;
      forall p | p in db.products
        ensures cancelled.db.products[p].stock == db.products[p].stock + RequestedQuantity(items, p)
      {
        LinesQuantity(db.products, items, orderId, p);
      }
    }
  }
}
