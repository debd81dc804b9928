/** `POST /api/cart`: the server-side cart, one `cart_items` row per
    (buyer, product) holding a quantity, changed by five actions.

    The actions that read the buyer's row first (addProduct, addStock,
    removeStock) use a single-row fetch, which reports "no rows" as an error
    with code PGRST116. addProduct tolerates that error and inserts; addStock
    and removeStock rethrow it, so a missing row becomes a 500. Every thrown
    error is answered with 500 "Error processing request" carrying the
    error's message. */
module CartApi {
  import opened Basics
  import opened Store

  /** `action` and `product_id` from the request body. */
  datatype CartRequest = CartRequest(action: Option<string>, productId: Option<Id>)

  /** Failures of the single-row fetch other than "no rows", and of the
      write that follows, each with the database's error message. */
  datatype CartFaults = CartFaults(fetch: Option<string>, write: Option<string>)

  const NoFaults := CartFaults(None, None)

  const UnauthorizedMessage := "Unauthorized: No valid session"
  const InvalidRequestMessage := "Invalid request data"
  const MissingProductMessage := "Product ID is required"
  const InvalidActionMessage := "Invalid action"
  const ProcessingErrorMessage := "Error processing request"
  const AddedMessage := "Product added to cart"
  const IncrementedMessage := "Stock incremented"
  const DecrementedMessage := "Stock decremented"
  const RemovedMessage := "Product removed"
  const ClearedMessage := "Cart cleared"

  /** PostgREST's error for a single-row fetch that found no row (code PGRST116). */
  const NoRowsMessage := "JSON object requested, multiple (or no) rows returned"

  /** The error of a single-row fetch: no row (PGRST116), or any other failure. */
  datatype FetchError = NoRows | Failed(message: string)

  function ErrorMessage(e: FetchError): string {
    match e
    case NoRows => NoRowsMessage
    case Failed(m) => m
  }

  /** `select('id, quantity').eq('buyer_id').eq('product_id').single()`. */
  function FetchRow(cart: map<CartKey, int>, key: CartKey, fault: Option<string>): (r: Result<int, FetchError>)
    ensures r.Ok? <==> fault.None? && key in cart
    ensures r.Ok? ==> r.value == cart[key]
    ensures r == Err(NoRows) <==> fault.None? && key !in cart
    ensures fault.Some? ==> r == Err(Failed(fault.value))
  {
    if fault.Some? then Err(Failed(fault.value))
    else if key in cart then Ok(cart[key])
    else Err(NoRows)
  }

  predicate NeedsProduct(action: string) {
    action in {"addProduct", "addStock", "removeStock", "removeProduct"}
  }

  predicate KnownAction(action: string) {
    NeedsProduct(action) || action == "clearCart"
  }

  function Thrown(message: string, db: Db): Reply {
    Reply(500, MessageAndError(ProcessingErrorMessage, message), db)
  }

  function Done(message: string, db: Db, cart: map<CartKey, int>): Reply {
    Reply(200, Message(message), db.(cartItems := cart))
  }

  /** The dispatcher. */
  function HandleCart(session: Option<Id>, req: CartRequest, faults: CartFaults, db: Db): (r: Reply)
    ensures r.db == db.(cartItems := r.db.cartItems)
    ensures r.status != 200 ==> r.db == db
    ensures PositiveCart(db.cartItems) ==> PositiveCart(r.db.cartItems)
    ensures r.status == 200 ==> Truthy(session, 0) && Truthy(req.action, "") && KnownAction(req.action.value)
    ensures r.status == 200 && req.action.value != "clearCart" ==>
      Truthy(req.productId, 0) &&
      forall k | k in db.cartItems || k in r.db.cartItems ::
        k != CartKey(session.value, req.productId.value) ==>
          k in db.cartItems && k in r.db.cartItems && r.db.cartItems[k] == db.cartItems[k]
  {
    if !Truthy(session, 0) then Reply(401, Message(UnauthorizedMessage), db)
    else if !Truthy(req.action, "") then Reply(400, Message(InvalidRequestMessage), db)
    else
      var buyer, action, cart := session.value, req.action.value, db.cartItems;
      if !KnownAction(action) then Reply(400, Message(InvalidActionMessage), db)
      else if action == "clearCart" then
        if faults.write.Some? then Thrown(faults.write.value, db)
        else Done(ClearedMessage, db, DeleteBuyerRows(cart, buyer))
      else if !Truthy(req.productId, 0) then Reply(400, Message(MissingProductMessage), db)
      else
        var key := CartKey(buyer, req.productId.value);
        if action == "removeProduct" then
          if faults.write.Some? then Thrown(faults.write.value, db)
          else Done(RemovedMessage, db, cart - {key})
        else
          var fetched := FetchRow(cart, key, faults.fetch);
          if action == "addProduct" then
            if fetched.Err? && fetched.error != NoRows then Thrown(ErrorMessage(fetched.error), db)
            else if faults.write.Some? then Thrown(faults.write.value, db)
            else if fetched.Ok? then Done(AddedMessage, db, cart[key := fetched.value + 1])
            else Done(AddedMessage, db, cart[key := 1])
          else if fetched.Err? then Thrown(ErrorMessage(fetched.error), db)
          else if faults.write.Some? then Thrown(faults.write.value, db)
          else if action == "addStock" then Done(IncrementedMessage, db, cart[key := fetched.value + 1])
          else if fetched.value > 1 then Done(DecrementedMessage, db, cart[key := fetched.value - 1])
          else Done(DecrementedMessage, db, cart - {key})
  }

  function Request(action: string, product: Id): CartRequest {
    CartRequest(Some(action), Some(product))
  }

  // ---------------------------------------------------------------------------
  // Lemmas

  /** The request-level errors, each with its own status and message, and
      none of them touching the database. */
  lemma RequestErrors(session: Option<Id>, req: CartRequest, faults: CartFaults, db: Db)
    ensures !Truthy(session, 0) ==>
      HandleCart(session, req, faults, db) == Reply(401, Message(UnauthorizedMessage), db)
    ensures Truthy(session, 0) && !Truthy(req.action, "") ==>
      HandleCart(session, req, faults, db) == Reply(400, Message(InvalidRequestMessage), db)
    ensures Truthy(session, 0) && Truthy(req.action, "") && !KnownAction(req.action.value) ==>
      HandleCart(session, req, faults, db) == Reply(400, Message(InvalidActionMessage), db)
    ensures (Truthy(session, 0) && Truthy(req.action, "") && NeedsProduct(req.action.value) &&
             !Truthy(req.productId, 0)) ==>
      HandleCart(session, req, faults, db) == Reply(400, Message(MissingProductMessage), db)
  {
  }

  /** clearCart needs no product id and deletes exactly the caller's rows. */
  lemma ClearCartDeletesOwnRows(buyer: Id, productId: Option<Id>, db: Db)
    requires buyer != 0
    ensures var r := HandleCart(Some(buyer), CartRequest(Some("clearCart"), productId), NoFaults, db);
      && r.status == 200
      && (forall k :: k in r.db.cartItems <==> k in db.cartItems && k.buyer != buyer)
      && (forall k | k in r.db.cartItems :: r.db.cartItems[k] == db.cartItems[k])
  {
  }

  /** addProduct adds one unit to an existing row or creates the row with 1. */
  lemma AddProductEffect(buyer: Id, product: Id, db: Db)
    requires buyer != 0 && product != 0
    ensures var r := HandleCart(Some(buyer), Request("addProduct", product), NoFaults, db);
      var key := CartKey(buyer, product);
      && r.status == 200 && key in r.db.cartItems
      && r.db.cartItems[key] == (if key in db.cartItems then db.cartItems[key] + 1 else 1)
  {
  }

  /** addStock on a row that does not exist propagates the "no rows" error
      as a 500 and changes nothing; on an existing row it adds one unit. */
  lemma AddStockEffect(buyer: Id, product: Id, db: Db)
    requires buyer != 0 && product != 0
    ensures var r := HandleCart(Some(buyer), Request("addStock", product), NoFaults, db);
      var key := CartKey(buyer, product);
      && (key !in db.cartItems ==> r == Reply(500, MessageAndError(ProcessingErrorMessage, NoRowsMessage), db))
      && (key in db.cartItems ==> r.status == 200 && r.db.cartItems == db.cartItems[key := db.cartItems[key] + 1])
  {
  }

  /** removeStock lowers a quantity above 1 and deletes a row at 1. */
  lemma RemoveStockEffect(buyer: Id, product: Id, db: Db)
    requires buyer != 0 && product != 0
    ensures var r := HandleCart(Some(buyer), Request("removeStock", product), NoFaults, db);
      var key := CartKey(buyer, product);
      && (key !in db.cartItems ==> r.status == 500 && r.db == db)
      && (key in db.cartItems && db.cartItems[key] > 1 ==> r.status == 200 && r.db.cartItems[key] == db.cartItems[key] - 1)
      && (key in db.cartItems && db.cartItems[key] <= 1 ==> r.status == 200 && key !in r.db.cartItems)
  {
  }

  /** removeProduct deletes only the caller's row for that product, whether
      or not it existed. */
  lemma RemoveProductEffect(buyer: Id, product: Id, db: Db)
    requires buyer != 0 && product != 0
    ensures var r := HandleCart(Some(buyer), Request("removeProduct", product), NoFaults, db);
      r.status == 200 && r.db.cartItems == db.cartItems - {CartKey(buyer, product)}
  {
  }

  /** removeStock undoes addProduct on a cart whose quantities are positive. */
  lemma RemoveStockUndoesAddProduct(buyer: Id, product: Id, db: Db)
    requires buyer != 0 && product != 0 && PositiveCart(db.cartItems)
    ensures var added := HandleCart(Some(buyer), Request("addProduct", product), NoFaults, db);
      HandleCart(Some(buyer), Request("removeStock", product), NoFaults, added.db).db == db
  {
    var key := CartKey(buyer, product);
    var added := HandleCart(Some(buyer), Request("addProduct", product), NoFaults, db);
    if key in db.cartItems {
      assert added.db.cartItems[key := added.db.cartItems[key] - 1] == db.cartItems;
    } else {
      assert added.db.cartItems - {key} == db.cartItems;
    }
  }
}
