/** `POST /api/order/cancel`: a buyer cancels one of their own pending orders
    and the stock of every product on it is given back.

    The checks run in order (session, order id, ownership, status) and each
    one answers without touching the database. After them the handler writes
    the new status, reads the order's line items and walks them, reading and
    rewriting one product's stock per item. Nothing is wrapped in a
    transaction: when a later step fails the response is 500, and the status
    change and the restocks already written stay in place. */
module OrderCancel {
  import opened Basics
  import opened Store

  /** Which database calls fail. `restockFails` holds the positions, in the
      fetched line-item list, whose product fetch or stock write fails. */
  datatype CancelFaults = CancelFaults(
    fetchOrder: bool,
    updateOrder: bool,
    fetchItems: bool,
    restockFails: set<nat>)

  const NoFaults := CancelFaults(false, false, false, {})

  const UnauthorizedError := "Unauthorized"
  const MissingIdError := "Order ID is required"
  const NotFoundError := "Order not found"
  const NotPendingError := "Only pending orders can be canceled"
  const CancelledMessage := "Order cancelled successfully"
  const InternalError := "Internal server error"

  /** The order exists and belongs to `buyer` (the `.eq('id').eq('buyer_id')`
      lookup finds it). */
  predicate Owns(db: Db, buyer: Id, orderId: Id) {
    orderId in db.orders && db.orders[orderId].buyer == buyer
  }

  /** Adds one line item's quantity to its product's stock; a line item whose
      product does not exist adds nothing. */
  function AddOne(products: map<Id, Product>, item: LineItem): (r: map<Id, Product>)
    ensures r.Keys == products.Keys
  {
    if item.productId in products then
      products[item.productId := products[item.productId].(stock := products[item.productId].stock + item.quantity)]
    else products
  }

  /** The restock every line item asks for, with no failures: the reference
      the loop is measured against. */
  function AddQuantities(products: map<Id, Product>, items: seq<LineItem>): map<Id, Product>
    decreases |items|
  {
    if |items| == 0 then products else AddQuantities(AddOne(products, items[0]), items[1..])
  }

  /** Every product's stock rises by the total quantity the line items name
      for it; nothing else about any product changes and no product appears. */
  lemma {:induction false} AddQuantitiesStock(products: map<Id, Product>, items: seq<LineItem>)
    ensures AddQuantities(products, items).Keys == products.Keys
    ensures forall p | p in products ::
      AddQuantities(products, items)[p] == products[p].(stock := products[p].stock + QuantityOf(items, p))
    decreases |items|
  {
    if |items| > 0 {
      AddQuantitiesStock(AddOne(products, items[0]), items[1..]);
    }
  }

  /** Line `j` of the loop goes through: its product is found and the stock
      write succeeds. */
  predicate LineRestocks(keys: set<Id>, items: seq<LineItem>, fails: set<nat>, j: nat)
    requires j < |items|
  {
    items[j].productId in keys && j !in fails
  }

  /** `stop` is the position the loop reached: `|items|` when every line went
      through, otherwise the first line that failed. */
  datatype Restocked = Restocked(ok: bool, products: map<Id, Product>, stop: nat)

  /** The loop from line `i` on, over the stock map as it stands at line `i`. */
  function RestockFrom(products: map<Id, Product>, items: seq<LineItem>, fails: set<nat>, i: nat): (r: Restocked)
    requires i <= |items|
    ensures i <= r.stop <= |items|
    ensures r.ok <==> r.stop == |items|
    ensures forall j | i <= j < r.stop :: LineRestocks(products.Keys, items, fails, j)
    ensures !r.ok ==> !LineRestocks(products.Keys, items, fails, r.stop)
    ensures r.products == AddQuantities(products, items[i..r.stop])
    decreases |items| - i
  {
    if i == |items| then Restocked(true, products, i)
    else if !LineRestocks(products.Keys, items, fails, i) then Restocked(false, products, i)
    else
      var rest := RestockFrom(AddOne(products, items[i]), items, fails, i + 1);
      assert items[i..rest.stop][0] == items[i] && items[i..rest.stop][1..] == items[i + 1..rest.stop];
      rest
  }

  /** The restock loop as written: for each line item, fetch the product (a
      missing product is an error), write back stock + quantity, and stop at
      the first error. The writes before the failing line stay. */
  function Restock(products: map<Id, Product>, items: seq<LineItem>, fails: set<nat>): (r: Restocked)
    ensures r.stop <= |items|
    ensures r.ok <==> forall j | 0 <= j < |items| :: LineRestocks(products.Keys, items, fails, j)
    ensures r.ok ==> r.products == AddQuantities(products, items)
    ensures !r.ok ==>
      && r.stop < |items|
      && (forall j | 0 <= j < r.stop :: LineRestocks(products.Keys, items, fails, j))
      && !LineRestocks(products.Keys, items, fails, r.stop)
      && r.products == AddQuantities(products, items[..r.stop])
  {
    var r := RestockFrom(products, items, fails, 0);
    assert items[0..r.stop] == items[..r.stop];
    assert items[..|items|] == items;
    r
  }

  /** The order row after a successful status update. */
  function CancelledOrders(db: Db, orderId: Id): map<Id, Order>
    requires orderId in db.orders
  {
    db.orders[orderId := db.orders[orderId].(status := Cancelled)]
  }

  /** The handler: session and request in, status, body and database out. */
  function CancelOrder(session: Option<Id>, orderId: Option<Id>, faults: CancelFaults, db: Db): (r: Reply)
    ensures r.db == db.(orders := r.db.orders, products := r.db.products)
    ensures r.status == 200 <==>
      && Truthy(session, 0) && Truthy(orderId, 0)
      && !faults.fetchOrder && Owns(db, session.value, orderId.value)
      && db.orders[orderId.value].status == Pending
      && !faults.updateOrder && !faults.fetchItems
      && var items := ItemsOf(db.orderItems, orderId.value);
         forall j | 0 <= j < |items| :: LineRestocks(db.products.Keys, items, faults.restockFails, j)
    ensures r.status == 200 ==>
      && r.body == Message(CancelledMessage)
      && r.db.orders == CancelledOrders(db, orderId.value)
      && r.db.products.Keys == db.products.Keys
      && forall p | p in db.products ::
           r.db.products[p] == db.products[p].(stock := db.products[p].stock +
             QuantityOf(ItemsOf(db.orderItems, orderId.value), p))
  {
    if !Truthy(session, 0) then Reply(401, Error(UnauthorizedError), db)
    else if !Truthy(orderId, 0) then Reply(400, Error(MissingIdError), db)
    else
      var buyer, id := session.value, orderId.value;
      if faults.fetchOrder || !Owns(db, buyer, id) then Reply(404, Error(NotFoundError), db)
      else if db.orders[id].status != Pending then Reply(400, Error(NotPendingError), db)
      else if faults.updateOrder then Reply(500, Error(InternalError), db)
      else
        var cancelled := db.(orders := CancelledOrders(db, id));
        if faults.fetchItems then Reply(500, Error(InternalError), cancelled)
        else
          var items := ItemsOf(db.orderItems, id);
          var restocked := Restock(db.products, items, faults.restockFails);
          var after := cancelled.(products := restocked.products);
          if restocked.ok then
            AddQuantitiesStock(db.products, items);
            Reply(200, Message(CancelledMessage), after)
          else Reply(500, Error(InternalError), after)
  }

  // ---------------------------------------------------------------------------
  // Lemmas

  /** Without a session user id the answer is 401 and nothing changes. */
  lemma NoSessionIsUnauthorized(orderId: Option<Id>, faults: CancelFaults, db: Db)
    ensures CancelOrder(None, orderId, faults, db) == Reply(401, Error(UnauthorizedError), db)
    ensures CancelOrder(Some(0), orderId, faults, db) == Reply(401, Error(UnauthorizedError), db)
  {
  }

  /** A missing order id is 400; an order that does not exist or is someone
      else's is 404, the same answer in both cases; neither changes anything. */
  lemma RejectsMissingOrForeignOrder(buyer: Id, orderId: Option<Id>, faults: CancelFaults, db: Db)
    requires buyer != 0
    ensures !Truthy(orderId, 0) ==>
      CancelOrder(Some(buyer), orderId, faults, db) == Reply(400, Error(MissingIdError), db)
    ensures Truthy(orderId, 0) && !Owns(db, buyer, orderId.value) ==>
      CancelOrder(Some(buyer), orderId, faults, db) == Reply(404, Error(NotFoundError), db)
  {
  }

  /** An owned order that is not pending is refused with 400 and nothing changes. */
  lemma OnlyPendingCancels(buyer: Id, orderId: Id, faults: CancelFaults, db: Db)
    requires buyer != 0 && orderId != 0 && !faults.fetchOrder
    requires Owns(db, buyer, orderId) && db.orders[orderId].status != Pending
    ensures CancelOrder(Some(buyer), Some(orderId), faults, db) == Reply(400, Error(NotPendingError), db)
  {
  }

  /** The first line of the restock loop that fails is line `k`. */
  predicate FirstFailure(keys: set<Id>, items: seq<LineItem>, fails: set<nat>, k: nat) {
    && k < |items|
    && (forall j | 0 <= j < k :: LineRestocks(keys, items, fails, j))
    && !LineRestocks(keys, items, fails, k)
  }

  /** A failure after the status update is a 500 with no rollback: the order
      stays cancelled, and when the loop stops at its first failing line `k`
      the restocks of lines 0..k-1 stay written while no later line is
      restocked. A failed fetch of the line items restocks nothing. */
  lemma FailureKeepsPartialWrites(buyer: Id, orderId: Id, faults: CancelFaults, db: Db)
    requires buyer != 0 && orderId != 0 && !faults.fetchOrder && !faults.updateOrder
    requires Owns(db, buyer, orderId) && db.orders[orderId].status == Pending
    ensures var r := CancelOrder(Some(buyer), Some(orderId), faults, db);
      var items := ItemsOf(db.orderItems, orderId);
      r.status == 500 ==>
        && r.body == Error(InternalError)
        && r.db.orders == CancelledOrders(db, orderId)
        && (faults.fetchItems ==> r.db.products == db.products)
        && (!faults.fetchItems ==>
              exists k: nat | FirstFailure(db.products.Keys, items, faults.restockFails, k) ::
                r.db.products == AddQuantities(db.products, items[..k]))
  {
    var r := CancelOrder(Some(buyer), Some(orderId), faults, db);
    var items := ItemsOf(db.orderItems, orderId);
    if r.status == 500 && !faults.fetchItems {
      var k := Restock(db.products, items, faults.restockFails).stop;
      assert FirstFailure(db.products.Keys, items, faults.restockFails, k);
    }
  }

  /** No rollback, concretely: an order of 3 units of product 7 and 2 units of
      product 8 whose second stock write fails ends with a 500, the order
      cancelled, product 7 restocked from 5 to 8 and product 8 left at 4. */
  lemma PartialRestockExample(db: Db)
    requires db.orders == map[1 := Order(42, 9, 250, 1750, Pending, CashOnDelivery)]
    requires db.orderItems == [LineItem(1, 7, 3, 250), LineItem(1, 8, 2, 500)]
    requires db.products == map[7 := Product(250, 5, true), 8 := Product(500, 4, true)]
    ensures var r := CancelOrder(Some(42), Some(1), CancelFaults(false, false, false, {1}), db);
      && r.status == 500
      && r.db.orders[1].status == Cancelled
      && r.db.products[7].stock == 8
      && r.db.products[8].stock == 4
  {
    var items := ItemsOf(db.orderItems, 1);
    assert items == db.orderItems by {
      FilterAll(db.orderItems, OfOrder(1));
    }
    var rs := Restock(db.products, items, {1});
    assert LineRestocks(db.products.Keys, items, {1}, 0);
    assert !LineRestocks(db.products.Keys, items, {1}, 1);
    assert !rs.ok;
    assert rs.stop == 1;
    assert items[..1] == [LineItem(1, 7, 3, 250)];
    AddQuantitiesStock(db.products, items[..1]);
  }

  /** A failure of the status update itself changes nothing. */
  lemma FailedUpdateChangesNothing(buyer: Id, orderId: Id, faults: CancelFaults, db: Db)
    requires buyer != 0 && orderId != 0 && !faults.fetchOrder && faults.updateOrder
    requires Owns(db, buyer, orderId) && db.orders[orderId].status == Pending
    ensures CancelOrder(Some(buyer), Some(orderId), faults, db) == Reply(500, Error(InternalError), db)
  {
  }

  /** A second cancellation of the same order is refused with 400 and does
      not restock again. */
  lemma CancelTwiceRestocksOnce(buyer: Id, orderId: Id, faults: CancelFaults, db: Db)
    requires buyer != 0 && orderId != 0 && !faults.fetchOrder
    ensures var first := CancelOrder(Some(buyer), Some(orderId), NoFaults, db);
      first.status == 200 ==>
        CancelOrder(Some(buyer), Some(orderId), faults, first.db) ==
          Reply(400, Error(NotPendingError), first.db)
  {
  }

  /** The worked example: order 1 with one line item of 3 units of product 7,
      whose stock is 5, ends cancelled with product 7 at stock 8. */
  lemma CancelExample(db: Db)
    requires db.orders == map[1 := Order(42, 9, 250, 1000, Pending, CashOnDelivery)]
    requires db.orderItems == [LineItem(1, 7, 3, 250)]
    requires db.products == map[7 := Product(250, 5, true)]
    ensures var r := CancelOrder(Some(42), Some(1), NoFaults, db);
      r.status == 200 && r.db.orders[1].status == Cancelled && r.db.products[7].stock == 8
  {
    assert ItemsOf(db.orderItems, 1) == [LineItem(1, 7, 3, 250)];
  }
}
