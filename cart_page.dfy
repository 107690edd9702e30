/** The cart page (src/pages/CartPage.tsx): the order summary computed from the cart, and the
    quantity and remove handlers. The checkout page reuses the same summary. */
module CartPage {
  import opened Types
  import opened AppContext
  import Lists

  /** Orders strictly above this subtotal ship free. */
  const FreeShippingAbove := 499
  const ShippingFee := 50

  /** Every cart line names a product in the catalogue (the page asserts the lookup succeeds). */
  ghost predicate Resolves(products: seq<Product>, cart: seq<CartItem>) {
    forall i :: 0 <= i < |cart| ==> FindProduct(products, cart[i].productId).Some?
  }

  /** `product.price * item.quantity` for the line's product. */
  function LineTotal(products: seq<Product>, item: CartItem): int
    requires FindProduct(products, item.productId).Some?
  {
    FindProduct(products, item.productId).value.price * item.quantity
  }

  /** The sum of the line totals. */
  function Subtotal(products: seq<Product>, cart: seq<CartItem>): int
    requires Resolves(products, cart)
  {
    if cart == [] then 0
    else Subtotal(products, cart[..|cart| - 1]) + LineTotal(products, cart[|cart| - 1])
  }

  /** Free above the threshold, the flat fee otherwise. */
  function Shipping(subtotal: int): (r: nat)
    ensures r == 0 || r == ShippingFee
    ensures r == 0 <==> subtotal > FreeShippingAbove
  {
    if subtotal > FreeShippingAbove then 0 else ShippingFee
  }

  /** `subtotal + shipping + tax`; the rounded 18% tax is supplied by the caller. */
  function Total(subtotal: int, tax: int): (r: int)
    ensures subtotal + tax <= r <= subtotal + tax + ShippingFee
    ensures r == subtotal + tax <==> subtotal > FreeShippingAbove
  {
    subtotal + Shipping(subtotal) + tax
  }

  /** The free-shipping hint as the page writes it: shown below 499, asking for `499 - subtotal`. */
  function HintAsWritten(subtotal: int): (r: Option<int>)
    ensures r.Some? <==> subtotal < FreeShippingAbove
    ensures r.Some? ==> r.value > 0
  {
    if subtotal < FreeShippingAbove then Some(FreeShippingAbove - subtotal) else None
  }

  /** Adding the amount the hint asks for reaches exactly 499, which is still charged, and a
      subtotal of exactly 499 is charged without any hint. */
  lemma HintAsWrittenFallsShort(subtotal: int)
    requires subtotal < FreeShippingAbove
    ensures Shipping(subtotal + HintAsWritten(subtotal).value) == ShippingFee
    ensures HintAsWritten(FreeShippingAbove).None? && Shipping(FreeShippingAbove) == ShippingFee
  {
  }

  /** The hint the page evidently means: shown exactly when shipping is charged, asking for the
      least whole amount that makes shipping free. */
  function FreeShippingHint(subtotal: int): (r: Option<int>)
    ensures r.Some? <==> Shipping(subtotal) > 0
    ensures r.Some? ==> r.value > 0 && Shipping(subtotal + r.value) == 0
                        && Shipping(subtotal + r.value - 1) > 0
  {
    if subtotal <= FreeShippingAbove then Some(FreeShippingAbove + 1 - subtotal) else None
  }

  /** The order summary shown beside the cart. */
  datatype Summary = Summary(subtotal: int, shipping: nat, tax: int, total: int, hint: Option<int>)

  /** The summary as the page renders it, with the page's own hint. */
  function CartSummary(products: seq<Product>, cart: seq<CartItem>, tax: int): (r: Summary)
    requires Resolves(products, cart)
    ensures r.subtotal == Subtotal(products, cart) && r.tax == tax
    ensures r.shipping == Shipping(r.subtotal) && r.hint == HintAsWritten(r.subtotal)
    ensures r.total == r.subtotal + r.shipping + r.tax
    ensures r.hint.Some? ==> r.shipping == ShippingFee && r.subtotal + r.hint.value == FreeShippingAbove
    ensures r.shipping == 0 ==> r.hint.None?
  {
    var sub := Subtotal(products, cart);
    Summary(sub, Shipping(sub), tax, Total(sub, tax), HintAsWritten(sub))
  }

  // ---------------------------------------------------------------- subtotal and the reducer

  lemma {:induction false} SubtotalConcat(products: seq<Product>, a: seq<CartItem>, b: seq<CartItem>)
    requires Resolves(products, a) && Resolves(products, b)
    ensures Resolves(products, a + b)
    ensures Subtotal(products, a + b) == Subtotal(products, a) + Subtotal(products, b)
  {
    if b == [] {
      assert a + b == a;
    } else {
      var b' := b[..|b| - 1];
      assert (a + b)[..|a + b| - 1] == a + b';
      SubtotalConcat(products, a, b');
    }
  }

  lemma SubtotalSingle(products: seq<Product>, e: CartItem)
    requires FindProduct(products, e.productId).Some?
    ensures Resolves(products, [e]) && Subtotal(products, [e]) == LineTotal(products, e)
  {
    assert [e][..0] == [];
  }

  /** Replacing one line by a line for the same product changes the subtotal by the difference
      of the two line totals. */
  lemma SubtotalReplace(products: seq<Product>, cart: seq<CartItem>, j: nat, e: CartItem)
    requires Resolves(products, cart) && j < |cart| && e.productId == cart[j].productId
    ensures Resolves(products, cart[j := e])
    ensures Subtotal(products, cart[j := e])
            == Subtotal(products, cart) - LineTotal(products, cart[j]) + LineTotal(products, e)
  {
    var pre, post := cart[..j], cart[j + 1..];
    assert cart == pre + [cart[j]] + post;
    assert cart[j := e] == pre + [e] + post;
    assert Resolves(products, pre) && Resolves(products, post);
    SubtotalSingle(products, cart[j]);
    SubtotalSingle(products, e);
    SubtotalConcat(products, pre, [cart[j]]);
    SubtotalConcat(products, pre + [cart[j]], post);
    SubtotalConcat(products, pre, [e]);
    SubtotalConcat(products, pre + [e], post);
  }

  lemma Distribute(p: int, a: int, b: int)
    ensures p * (a + b) == p * a + p * b
  {
  }

  lemma LineTotalMerge(products: seq<Product>, x: CartItem, item: CartItem)
    requires FindProduct(products, x.productId).Some? && item.productId == x.productId
    ensures LineTotal(products, x.(quantity := x.quantity + item.quantity))
            == LineTotal(products, x) + LineTotal(products, item)
  {
    var price := FindProduct(products, x.productId).value.price;
    Distribute(price, x.quantity, item.quantity);
  }

  /** ADD_TO_CART raises the subtotal by exactly the added line's price times quantity, whether
      it merges into an existing line or appends a new one. */
  lemma SubtotalAfterAdd(products: seq<Product>, cart: seq<CartItem>, item: CartItem)
    requires Resolves(products, cart) && FindProduct(products, item.productId).Some?
    requires DistinctEntryIds(cart)
    ensures Resolves(products, CartAdd(cart, item))
    ensures Subtotal(products, CartAdd(cart, item)) == Subtotal(products, cart) + LineTotal(products, item)
  {
    var j := ProductIndex(cart, item.productId);
    if j < |cart| {
      var e := cart[j].(quantity := cart[j].quantity + item.quantity);
      MergeTouchesOneLine(cart, j, item.quantity);
      assert CartAdd(cart, item) == cart[j := e];
      SubtotalReplace(products, cart, j, e);
      LineTotalMerge(products, cart[j], item);
      assert Subtotal(products, cart[j := e]) == Subtotal(products, cart) + LineTotal(products, item);
    } else {
      assert CartAdd(cart, item) == cart + [item];
      SubtotalSingle(products, item);
      SubtotalConcat(products, cart, [item]);
    }
  }

  /** Deleting position i lowers the subtotal by that line's total. */
  lemma SubtotalDelete(products: seq<Product>, cart: seq<CartItem>, i: nat)
    requires Resolves(products, cart) && i < |cart|
    ensures Resolves(products, cart[..i] + cart[i + 1..])
    ensures Subtotal(products, cart[..i] + cart[i + 1..])
            == Subtotal(products, cart) - LineTotal(products, cart[i])
  {
    var pre, post := cart[..i], cart[i + 1..];
    assert cart == pre + [cart[i]] + post;
    assert Resolves(products, pre) && Resolves(products, post);
    SubtotalSingle(products, cart[i]);
    SubtotalConcat(products, pre, [cart[i]]);
    SubtotalConcat(products, pre + [cart[i]], post);
    SubtotalConcat(products, pre, post);
  }

  /** REMOVE_FROM_CART of a line's entry id lowers the subtotal by that line's total. */
  lemma SubtotalAfterRemove(products: seq<Product>, cart: seq<CartItem>, i: nat)
    requires Resolves(products, cart) && i < |cart| && DistinctEntryIds(cart)
    ensures Resolves(products, CartRemove(cart, cart[i].id))
    ensures Subtotal(products, CartRemove(cart, cart[i].id))
            == Subtotal(products, cart) - LineTotal(products, cart[i])
  {
    var id := cart[i].id;
    assert forall k :: 0 <= k < |cart| && k != i ==> cart[k].id != id;
    Lists.FilterDropsOne(cart, i, (e: CartItem) => e.id != id);
    SubtotalDelete(products, cart, i);
  }

  /** UPDATE_CART_QUANTITY on a line's entry id replaces that line's total. */
  lemma SubtotalAfterSetQuantity(products: seq<Product>, cart: seq<CartItem>, i: nat, q: int)
    requires Resolves(products, cart) && i < |cart| && DistinctEntryIds(cart)
    ensures Resolves(products, CartSetQuantity(cart, cart[i].id, q))
    ensures Subtotal(products, CartSetQuantity(cart, cart[i].id, q))
            == Subtotal(products, cart) - LineTotal(products, cart[i])
               + FindProduct(products, cart[i].productId).value.price * q
  {
    assert CartSetQuantity(cart, cart[i].id, q) == cart[i := cart[i].(quantity := q)];
    SubtotalReplace(products, cart, i, cart[i].(quantity := q));
  }

  // ---------------------------------------------------------------- deleting a product

  /** DELETE_PRODUCT filters the catalogue and keeps the cart, so a cart line for the deleted
      product no longer resolves and the page's lookup for it fails. */
  lemma DeleteStrandsCartLine(s: State, i: nat)
    requires i < |s.cart|
    ensures var t := Reduce(s, DeleteProduct(s.cart[i].productId));
      t.cart == s.cart && FindProduct(t.products, s.cart[i].productId).None?
      && !Resolves(t.products, t.cart)
  {
    var id := s.cart[i].productId;
    var ps := Reduce(s, DeleteProduct(id)).products;
    assert forall k :: 0 <= k < |ps| ==> ps[k].id != id;
  }

  /** Deleting a product together with its cart lines, as the pages need. */
  function DeleteWithCart(s: State, id: string): (t: State)
    ensures t.(cart := s.cart) == Reduce(s, DeleteProduct(id))
    ensures forall k :: 0 <= k < |t.cart| ==> t.cart[k] in s.cart && t.cart[k].productId != id
  {
    s.(products := ProductsDelete(s.products, id),
       cart := Lists.Filter(s.cart, (e: CartItem) => e.productId != id))
  }

  lemma StillFound(ps: seq<Product>, id: string, pid: string)
    requires FindProduct(ps, pid).Some? && pid != id
    ensures FindProduct(ProductsDelete(ps, id), pid).Some?
  {
    var q := FindProduct(ps, pid).value;
    Lists.FilterKeepsPassing(ps, (x: Product) => x.id != id, q);
    var j :| 0 <= j < |ProductsDelete(ps, id)| && ProductsDelete(ps, id)[j] == q;
  }

  /** The corrected deletion keeps every remaining cart line resolvable, drops exactly the lines
      of the deleted product, and leaves no line for it. */
  lemma DeleteWithCartResolves(s: State, id: string)
    requires Resolves(s.products, s.cart)
    ensures var t := DeleteWithCart(s, id);
      && Resolves(t.products, t.cart)
      && !InCart(t.cart, id)
      && (forall e :: e in s.cart && e.productId != id ==> e in t.cart)
  {
    var keep := (e: CartItem) => e.productId != id;
    var c := Lists.Filter(s.cart, keep);
    forall k | 0 <= k < |c| ensures FindProduct(ProductsDelete(s.products, id), c[k].productId).Some? {
      var m :| 0 <= m < |s.cart| && s.cart[m] == c[k];
      StillFound(s.products, id, s.cart[m].productId);
    }
    forall e | e in s.cart && e.productId != id ensures e in c {
      Lists.FilterKeepsPassing(s.cart, keep, e);
    }
  }

  // ---------------------------------------------------------------- handlers

  /** `handleUpdateQuantity`: a quantity of zero or less removes the line, any other sets it. */
  function UpdateQuantityActions(itemId: string, quantity: int): (r: seq<Action>)
    ensures |r| == 1
    ensures r[0].RemoveFromCart? <==> quantity <= 0
  {
    if quantity <= 0 then [RemoveFromCart(itemId)] else [UpdateCartQuantity(itemId, quantity)]
  }

  /** `handleRemoveItem`. */
  function RemoveItemActions(itemId: string): (r: seq<Action>)
    ensures r == [RemoveFromCart(itemId)]
  {
    [RemoveFromCart(itemId)]
  }

  /** The quantity handler changes the cart alone. At a quantity of at most zero it keeps, in
      order, exactly the lines with another entry id; otherwise every line with that entry id
      holds the new quantity and nothing moves. */
  lemma UpdateQuantityEffect(s: State, itemId: string, quantity: int)
    ensures var t := ReduceAll(s, UpdateQuantityActions(itemId, quantity));
      t == s.(cart := t.cart)
    ensures var c := ReduceAll(s, UpdateQuantityActions(itemId, quantity)).cart;
      && (quantity <= 0 ==>
            && c == CartRemove(s.cart, itemId) && Lists.Subseq(c, s.cart)
            && (forall k :: 0 <= k < |c| ==> c[k].id != itemId)
            && (forall e :: e in s.cart && e.id != itemId ==> e in c))
      && (quantity > 0 ==> |c| == |s.cart| && forall k :: 0 <= k < |c| ==>
            c[k] == if s.cart[k].id == itemId then s.cart[k].(quantity := quantity) else s.cart[k])
  {
    DispatchCart(s, UpdateQuantityActions(itemId, quantity)[0]);
    if quantity <= 0 {
      RemoveFromCartFilters(s, itemId);
      Lists.FilterSubseq(s.cart, (e: CartItem) => e.id != itemId);
    }
  }

  /** The minus button on a line holding one unit deletes that line. */
  lemma DecrementFromOneRemoves(s: State, i: nat)
    requires i < |s.cart| && s.cart[i].quantity == 1 && DistinctEntryIds(s.cart)
    ensures ReduceAll(s, UpdateQuantityActions(s.cart[i].id, s.cart[i].quantity - 1)).cart
            == s.cart[..i] + s.cart[i + 1..]
  {
    ReduceAllOne(s, RemoveFromCart(s.cart[i].id));
    RemoveFromCartFilters(s, s.cart[i].id);
  }

  method HandleUpdateQuantity(store: Store, itemId: string, quantity: int)
    modifies store
    ensures store.state == ReduceAll(old(store.state), UpdateQuantityActions(itemId, quantity))
  {
    store.DispatchAll(UpdateQuantityActions(itemId, quantity));
  }

  method HandleRemoveItem(store: Store, itemId: string)
    modifies store
    ensures store.state == ReduceAll(old(store.state), RemoveItemActions(itemId))
  {
    store.DispatchAll(RemoveItemActions(itemId));
  }
}
