/** The client-side cart kept by the React cart context: a list of
    `{id, price, quantity}` items and the pure updates the provider applies to
    it. Every operation is a function from the previous cart to the next one. */
module CartContext {
  import opened Basics

  datatype CartItem = CartItem(id: Id, price: int, quantity: int)

  type Cart = seq<CartItem>

  /** No product id occurs twice in the cart. */
  predicate UniqueIds(cart: Cart) {
    forall i, j | 0 <= i < j < |cart| :: cart[i].id != cart[j].id
  }

  /** Every item has a positive quantity. */
  predicate PositiveQuantities(cart: Cart) {
    forall i | 0 <= i < |cart| :: cart[i].quantity > 0
  }

  /** The invariant every mutating operation keeps. */
  predicate Valid(cart: Cart) {
    UniqueIds(cart) && PositiveQuantities(cart)
  }

  /** Number of items carrying product id `p`. */
  function Occurrences(cart: Cart, p: Id): nat {
    if |cart| == 0 then 0
    else (if cart[0].id == p then 1 else 0) + Occurrences(cart[1..], p)
  }

  /** `cart.some(product => product.id === p)`. */
  function IsProductInCart(cart: Cart, p: Id): (r: bool)
    ensures r <==> exists i | 0 <= i < |cart| :: cart[i].id == p
  {
    |cart| > 0 && (cart[0].id == p || IsProductInCart(cart[1..], p))
  }

  /** The quantity of the first item with id `p`, or 0 when there is none. */
  function GetProductQuantity(cart: Cart, p: Id): (r: int)
    ensures !IsProductInCart(cart, p) ==> r == 0
    ensures UniqueIds(cart) ==>
      forall i | 0 <= i < |cart| && cart[i].id == p :: r == cart[i].quantity
  {
    if |cart| == 0 then 0
    else if cart[0].id == p then cart[0].quantity
    else GetProductQuantity(cart[1..], p)
  }

  /** Adds `delta` to the quantity of every item with id `p` (the `map` step
      shared by addProduct, addStock and removeStock). */
  function Bump(cart: Cart, p: Id, delta: int): (r: Cart)
    ensures |r| == |cart|
    ensures forall i | 0 <= i < |cart| ::
      r[i].id == cart[i].id && r[i].price == cart[i].price &&
      r[i].quantity == cart[i].quantity + (if cart[i].id == p then delta else 0)
  {
    if |cart| == 0 then []
    else
      var head := if cart[0].id == p then cart[0].(quantity := cart[0].quantity + delta) else cart[0];
      [head] + Bump(cart[1..], p, delta)
  }

  /** addProduct: a product already in the cart gets one more unit (the
      quantity carried by `product` is ignored); a new product is appended
      with quantity 1. */
  function AddProduct(cart: Cart, product: CartItem): (r: Cart)
    ensures !IsProductInCart(cart, product.id) ==>
      |r| == |cart| + 1 && r[..|cart|] == cart &&
      r[|cart|] == CartItem(product.id, product.price, 1)
    ensures IsProductInCart(cart, product.id) ==>
      |r| == |cart| &&
      forall i | 0 <= i < |cart| ::
        r[i].id == cart[i].id && r[i].price == cart[i].price &&
        r[i].quantity == cart[i].quantity + (if cart[i].id == product.id then 1 else 0)
  {
    if IsProductInCart(cart, product.id) then Bump(cart, product.id, 1)
    else cart + [product.(quantity := 1)]
  }

  /** addStock: one more unit of product `p`; nothing happens when `p` is absent. */
  function AddStock(cart: Cart, p: Id): (r: Cart)
    ensures !IsProductInCart(cart, p) ==> r == cart
    ensures |r| == |cart|
    ensures forall i | 0 <= i < |cart| ::
      r[i].id == cart[i].id && r[i].price == cart[i].price &&
      r[i].quantity == cart[i].quantity + (if cart[i].id == p then 1 else 0)
  {
    var r := Bump(cart, p, 1);
    if !IsProductInCart(cart, p) then
      assert forall i | 0 <= i < |cart| :: r[i] == cart[i];
      r
    else r
  }

  function HasPositiveQuantity(item: CartItem): bool {
    item.quantity > 0
  }

  /** removeStock: one unit fewer of product `p`, then every item whose
      quantity is no longer positive is dropped. */
  function RemoveStock(cart: Cart, p: Id): (r: Cart)
    ensures PositiveQuantities(r)
    ensures IsSubsequence(r, Bump(cart, p, -1))
    ensures forall i | 0 <= i < |cart| && Bump(cart, p, -1)[i].quantity > 0 :: Bump(cart, p, -1)[i] in r
  {
    var r := Filter(Bump(cart, p, -1), HasPositiveQuantity);
    FilterIsSubsequence(Bump(cart, p, -1), HasPositiveQuantity);
    r
  }

  function OtherProduct(p: Id): CartItem -> bool {
    (item: CartItem) => item.id != p
  }

  /** removeProduct: every item with id `p` is dropped. */
  function RemoveProduct(cart: Cart, p: Id): (r: Cart)
    ensures !IsProductInCart(r, p)
    ensures forall i | 0 <= i < |cart| && cart[i].id != p :: cart[i] in r
    ensures IsSubsequence(r, cart)
    ensures forall i | 0 <= i < |cart| && cart[i].id != p :: multiset(r)[cart[i]] == multiset(cart)[cart[i]]
  {
    FilterIsSubsequence(cart, OtherProduct(p));
    FilterCounts(cart, OtherProduct(p));
    Filter(cart, OtherProduct(p))
  }

  /** clearCart. */
  function ClearCart(): (r: Cart)
    ensures forall p :: !IsProductInCart(r, p)
  {
    []
  }

  /** getTotalItems: `reduce` summing the quantities. */
  function TotalItems(cart: Cart): int {
    if |cart| == 0 then 0 else cart[0].quantity + TotalItems(cart[1..])
  }

  /** getTotalPrice: `reduce` summing quantity × price. */
  function TotalPrice(cart: Cart): int {
    if |cart| == 0 then 0 else cart[0].quantity * cart[0].price + TotalPrice(cart[1..])
  }

  /** The price of the (first) item with id `p`, or 0 when there is none. */
  function PriceOf(cart: Cart, p: Id): int {
    if |cart| == 0 then 0
    else if cart[0].id == p then cart[0].price
    else PriceOf(cart[1..], p)
  }

  // ---------------------------------------------------------------------------
  // Lemmas

  lemma {:induction false} UniqueTail(cart: Cart)
    requires |cart| > 0 && UniqueIds(cart)
    ensures UniqueIds(cart[1..])
    ensures !IsProductInCart(cart[1..], cart[0].id)
  {
    var t := cart[1..];
    forall i, j | 0 <= i < j < |t|
      ensures t[i].id != t[j].id
    {
      assert t[i] == cart[i + 1] && t[j] == cart[j + 1];
    }
    forall i | 0 <= i < |t|
      ensures t[i].id != cart[0].id
    {
      assert t[i] == cart[i + 1];
    }
  }

  /** With unique ids a product occurs once if it is in the cart, else never. */
  lemma {:induction false} OccurrencesUnique(cart: Cart, p: Id)
    requires UniqueIds(cart)
    ensures Occurrences(cart, p) == if IsProductInCart(cart, p) then 1 else 0
    decreases |cart|
  {
    if |cart| > 0 {
      UniqueTail(cart);
      OccurrencesUnique(cart[1..], p);
    }
  }

  /** Changing the quantity of the items with id `p` by `delta` changes the
      item total by `delta` for each such item. */
  lemma {:induction false} TotalItemsBump(cart: Cart, p: Id, delta: int)
    ensures TotalItems(Bump(cart, p, delta)) == TotalItems(cart) + delta * Occurrences(cart, p)
    decreases |cart|
  {
    if |cart| > 0 {
      TotalItemsBump(cart[1..], p, delta);
      assert Bump(cart, p, delta)[1..] == Bump(cart[1..], p, delta);
    }
  }

  lemma {:induction false} TotalPriceBump(cart: Cart, p: Id, delta: int)
    requires UniqueIds(cart)
    ensures TotalPrice(Bump(cart, p, delta)) ==
      TotalPrice(cart) + (if IsProductInCart(cart, p) then delta * PriceOf(cart, p) else 0)
    decreases |cart|
  {
    if |cart| > 0 {
      UniqueTail(cart);
      TotalPriceBump(cart[1..], p, delta);
      assert Bump(cart, p, delta)[1..] == Bump(cart[1..], p, delta);
    }
  }

  lemma {:induction false} TotalItemsAppend(cart: Cart, item: CartItem)
    ensures TotalItems(cart + [item]) == TotalItems(cart) + item.quantity
    decreases |cart|
  {
    if |cart| > 0 {
      TotalItemsAppend(cart[1..], item);
      assert (cart + [item])[1..] == cart[1..] + [item];
    }
  }

  lemma {:induction false} TotalPriceAppend(cart: Cart, item: CartItem)
    ensures TotalPrice(cart + [item]) == TotalPrice(cart) + item.quantity * item.price
    decreases |cart|
  {
    if |cart| > 0 {
      TotalPriceAppend(cart[1..], item);
      assert (cart + [item])[1..] == cart[1..] + [item];
    }
  }

  /** addProduct always puts exactly one more unit in a cart with unique ids. */
  lemma AddProductTotalItems(cart: Cart, product: CartItem)
    requires UniqueIds(cart)
    ensures TotalItems(AddProduct(cart, product)) == TotalItems(cart) + 1
  {
    if IsProductInCart(cart, product.id) {
      TotalItemsBump(cart, product.id, 1);
      OccurrencesUnique(cart, product.id);
    } else {
      TotalItemsAppend(cart, product.(quantity := 1));
    }
  }

  /** addStock raises the total price by the unit price of `p` when `p` is in
      the cart, and leaves it alone otherwise. */
  lemma AddStockTotalPrice(cart: Cart, p: Id)
    requires UniqueIds(cart)
    ensures TotalPrice(AddStock(cart, p)) ==
      TotalPrice(cart) + (if IsProductInCart(cart, p) then PriceOf(cart, p) else 0)
  {
    TotalPriceBump(cart, p, 1);
  }

  /** addProduct of a new product raises the total price by its price. */
  lemma AddNewProductTotalPrice(cart: Cart, product: CartItem)
    requires !IsProductInCart(cart, product.id)
    ensures TotalPrice(AddProduct(cart, product)) == TotalPrice(cart) + product.price
  {
    TotalPriceAppend(cart, product.(quantity := 1));
  }

  /** getProductQuantity(p) is 0 exactly when isProductInCart(p) is false,
      and positive otherwise. */
  lemma {:induction false} QuantityZeroIffAbsent(cart: Cart, p: Id)
    requires PositiveQuantities(cart)
    ensures GetProductQuantity(cart, p) == 0 <==> !IsProductInCart(cart, p)
    ensures IsProductInCart(cart, p) ==> GetProductQuantity(cart, p) > 0
    decreases |cart|
  {
    if |cart| > 0 && cart[0].id != p {
      assert PositiveQuantities(cart[1..]) by {
        forall i | 0 <= i < |cart[1..]| ensures cart[1..][i].quantity > 0 {
          assert cart[1..][i] == cart[i + 1];
        }
      }
      QuantityZeroIffAbsent(cart[1..], p);
    }
  }

  /** A subsequence of a cart with unique ids has unique ids. */
  lemma {:induction false} SubsequenceUnique(a: Cart, b: Cart)
    requires IsSubsequence(a, b) && UniqueIds(b)
    ensures UniqueIds(a)
    ensures forall i | 0 <= i < |a| :: a[i] in b
    decreases |b|
  {
    if |a| > 0 {
      UniqueTail(b);
      if a[0] == b[0] && IsSubsequence(a[1..], b[1..]) {
        SubsequenceUnique(a[1..], b[1..]);
        forall i, j | 0 <= i < j < |a|
          ensures a[i].id != a[j].id
        {
          assert a[j] == a[1..][j - 1];
          if i > 0 {
            assert a[i] == a[1..][i - 1];
          }
        }
        forall i | 0 <= i < |a|
          ensures a[i] in b
        {
          if i > 0 {
            assert a[i] == a[1..][i - 1];
          }
        }
      } else {
        SubsequenceUnique(a, b[1..]);
      }
    }
  }

  /** Every mutating operation keeps ids unique and quantities positive. */
  lemma AddProductValid(cart: Cart, product: CartItem)
    requires Valid(cart)
    ensures Valid(AddProduct(cart, product))
  {
  }

  lemma AddStockValid(cart: Cart, p: Id)
    requires Valid(cart)
    ensures Valid(AddStock(cart, p))
  {
  }

  lemma RemoveStockValid(cart: Cart, p: Id)
    requires Valid(cart)
    ensures Valid(RemoveStock(cart, p))
  {
    SubsequenceUnique(RemoveStock(cart, p), Bump(cart, p, -1));
  }

  lemma RemoveProductValid(cart: Cart, p: Id)
    requires Valid(cart)
    ensures Valid(RemoveProduct(cart, p))
  {
    SubsequenceUnique(RemoveProduct(cart, p), cart);
  }

  /** removeStock, spelled out: nothing changes when `p` is absent; otherwise
      the item at `p`'s position loses one unit, and is removed when that was
      its last unit, every other item staying where it was. */
  lemma RemoveStockEffect(cart: Cart, p: Id, k: nat)
    requires Valid(cart)
    requires k < |cart| && cart[k].id == p
    ensures cart[k].quantity > 1 ==>
      RemoveStock(cart, p) == cart[k := cart[k].(quantity := cart[k].quantity - 1)]
    ensures cart[k].quantity == 1 ==>
      RemoveStock(cart, p) == cart[..k] + cart[k + 1..]
  {
    var b := Bump(cart, p, -1);
    var lowered := cart[k := cart[k].(quantity := cart[k].quantity - 1)];
    assert b == lowered;
    if cart[k].quantity > 1 {
      FilterAll(b, HasPositiveQuantity);
    } else {
      assert b == cart[..k] + [b[k]] + cart[k + 1..];
      FilterConcat(cart[..k] + [b[k]], cart[k + 1..], HasPositiveQuantity);
      FilterConcat(cart[..k], [b[k]], HasPositiveQuantity);
      FilterAll(cart[..k], HasPositiveQuantity);
      FilterAll(cart[k + 1..], HasPositiveQuantity);
    }
  }

  lemma RemoveStockAbsent(cart: Cart, p: Id)
    requires Valid(cart) && !IsProductInCart(cart, p)
    ensures RemoveStock(cart, p) == cart
  {
    assert Bump(cart, p, -1) == cart;
    FilterAll(cart, HasPositiveQuantity);
  }

  /** removeStock undoes addStock on a valid cart. */
  lemma RemoveStockUndoesAddStock(cart: Cart, p: Id)
    requires Valid(cart)
    ensures RemoveStock(AddStock(cart, p), p) == cart
  {
    var up := AddStock(cart, p);
    assert Bump(up, p, -1) == cart;
    FilterAll(cart, HasPositiveQuantity);
  }
}
