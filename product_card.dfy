/** The product card (src/components/ProductCard.tsx): add, remove and wishlist buttons and the
    picture it shows. */
module ProductCard {
  import opened Types
  import opened AppContext
  import Lists

  /** The line a card adds: entry id `<productId>-<now>`, one unit, no size. */
  function CardEntry(p: Product, now: string): (e: CartItem)
    ensures e.productId == p.id && e.quantity == 1 && e.size.None?
  {
    CartItem(p.id + "-" + now, p.id, 1, None, Some(p.description))
  }

  /** `handleAddToCart`: one ADD_TO_CART for one unit of this product. */
  function AddActions(p: Product, now: string): (r: seq<Action>)
    ensures |r| == 1 && r[0].AddToCart? && r[0].item.productId == p.id && r[0].item.quantity == 1
  {
    [AddToCart(CardEntry(p, now))]
  }

  /** The add button is offered for in-stock products that are not yet in the cart. */
  predicate AddOffered(p: Product, cart: seq<CartItem>) {
    p.inStock && !InCart(cart, p.id)
  }

  /** Adding from a card puts the product in the cart and touches nothing but the cart. When the
      button is offered this appends a new line of one unit; otherwise the first line for the
      product gains one unit. One line per product is preserved. */
  lemma AddEffect(s: State, p: Product, now: string)
    ensures var t := ReduceAll(s, AddActions(p, now));
      var j := ProductIndex(s.cart, p.id);
      && t == s.(cart := t.cart)
      && InCart(t.cart, p.id)
      && (AddOffered(p, s.cart) ==> t.cart == s.cart + [CardEntry(p, now)])
      && (j < |s.cart| ==> |t.cart| == |s.cart| && t.cart[j].quantity == s.cart[j].quantity + 1)
      && (DistinctProducts(s.cart) ==> DistinctProducts(t.cart))
  {
    var e := CardEntry(p, now);
    var c := CartAdd(s.cart, e);
    assert AddActions(p, now) == [AddToCart(e)];
    DispatchCart(s, AddToCart(e));
    assert Reduce(s, AddToCart(e)).cart == c;
    if DistinctProducts(s.cart) { CartAddKeepsDistinct(s.cart, e); }
    if InCart(s.cart, p.id) {
      AddToCartMerges(s, e);
      var j := ProductIndex(s.cart, p.id);
      assert c[j].productId == p.id;
    } else {
      AddToCartAppends(s, e);
      assert c[|s.cart|] == e;
    }
  }

  /** `handleRemoveFromCart`: REMOVE_FROM_CART with the entry id of the first line for the
      product, or nothing when there is none. */
  function RemoveActions(cart: seq<CartItem>, productId: string): (r: seq<Action>)
    ensures |r| <= 1
    ensures r == [] <==> !InCart(cart, productId)
    ensures r != [] ==> r == [RemoveFromCart(cart[ProductIndex(cart, productId)].id)]
  {
    ProductIndexFound(cart, productId);
    var i := ProductIndex(cart, productId);
    if i < |cart| then [RemoveFromCart(cart[i].id)] else []
  }

  /** Removing drops the first line for the product (and only it, when entry ids are distinct);
      with no such line the cart is unchanged. Nothing but the cart changes. With one line per
      product the product is then out of the cart. */
  lemma RemoveEffect(s: State, productId: string)
    ensures var t := ReduceAll(s, RemoveActions(s.cart, productId));
      var i := ProductIndex(s.cart, productId);
      && t == s.(cart := t.cart)
      && (!InCart(s.cart, productId) ==> t.cart == s.cart)
      && (InCart(s.cart, productId) && DistinctEntryIds(s.cart) ==>
            t.cart == s.cart[..i] + s.cart[i + 1..])
      && (DistinctProducts(s.cart) ==> !InCart(t.cart, productId))
  {
    ProductIndexFound(s.cart, productId);
    var i := ProductIndex(s.cart, productId);
    if i < |s.cart| {
      var a := RemoveFromCart(s.cart[i].id);
      assert RemoveActions(s.cart, productId) == [a];
      DispatchCart(s, a);
      RemoveFromCartFilters(s, s.cart[i].id);
      if DistinctProducts(s.cart) {
        RemovedProductGone(s.cart, i);
      }
    } else {
      assert RemoveActions(s.cart, productId) == [];
    }
  }

  /** Deleting the entry id of a product's line leaves no line for that product, when the cart
      holds one line per product, whatever the entry ids. */
  lemma RemovedProductGone(cart: seq<CartItem>, i: nat)
    requires i < |cart| && DistinctProducts(cart)
    ensures !InCart(CartRemove(cart, cart[i].id), cart[i].productId)
  {
    var c := CartRemove(cart, cart[i].id);
    forall k | 0 <= k < |c| ensures c[k].productId != cart[i].productId {
      var m :| 0 <= m < |cart| && cart[m] == c[k];
      if m != i {
        assert cart[m].productId != cart[i].productId;
      }
    }
  }

  /** `handleWishlistToggle`: REMOVE_FROM_WISHLIST when the id is listed, ADD_TO_WISHLIST
      otherwise. */
  function WishlistToggleActions(wishlist: seq<string>, productId: string): (r: seq<Action>)
    ensures |r| == 1
    ensures productId in wishlist <==> r[0] == RemoveFromWishlist(productId)
    ensures productId !in wishlist <==> r[0] == AddToWishlist(productId)
  {
    if productId in wishlist then [RemoveFromWishlist(productId)] else [AddToWishlist(productId)]
  }

  /** The toggle flips the product's membership, keeps every other id's membership, keeps the
      wishlist duplicate-free and changes nothing else. */
  lemma WishlistToggleFlips(s: State, productId: string)
    ensures var t := ReduceAll(s, WishlistToggleActions(s.wishlist, productId));
      && t == s.(wishlist := t.wishlist)
      && (productId in t.wishlist <==> productId !in s.wishlist)
      && (forall x :: x != productId ==> (x in t.wishlist <==> x in s.wishlist))
      && (Lists.Distinct(s.wishlist) ==> Lists.Distinct(t.wishlist))
  {
    var a := WishlistToggleActions(s.wishlist, productId)[0];
    ReduceAllOne(s, a);
    WishlistActions(s, productId);
    if productId in s.wishlist && Lists.Distinct(s.wishlist) {
      Lists.FilterDistinct(s.wishlist, (y: string) => y != productId);
    }
  }

  /** `getCurrentImage`: the second picture while hovering when there are at least two, else
      the first picture, falling back to the main image when there is none or it is blank. */
  function CurrentImage(p: Product, hovering: bool): (r: string)
    ensures r in p.images || r == p.image
    ensures p.image != "" && (forall i :: 0 <= i < |p.images| ==> p.images[i] != "") ==> r != ""
  {
    if hovering && |p.images| > 1 then p.images[1]
    else if |p.images| > 0 && p.images[0] != "" then p.images[0]
    else p.image
  }

  /** For a product whose gallery is its main image followed by additional images (as the
      admin form builds it), the card shows the main image, and on hover the first additional
      image when there is one. */
  lemma CurrentImageOfGallery(p: Product, hovering: bool, additional: seq<string>)
    requires p.image != "" && p.images == [p.image] + additional
    ensures !hovering || additional == [] ==> CurrentImage(p, hovering) == p.image
    ensures hovering && additional != [] ==> CurrentImage(p, hovering) == additional[0]
  {
    assert p.images[0] == p.image;
    if additional != [] { assert p.images[1] == additional[0]; }
  }

  method HandleAddToCart(store: Store, p: Product, now: string)
    modifies store
    ensures store.state == ReduceAll(old(store.state), AddActions(p, now))
  {
    store.DispatchAll(AddActions(p, now));
  }

  method HandleRemoveFromCart(store: Store, p: Product)
    modifies store
    ensures store.state == ReduceAll(old(store.state), RemoveActions(old(store.state).cart, p.id))
  {
    store.DispatchAll(RemoveActions(store.state.cart, p.id));
  }

  method HandleWishlistToggle(store: Store, p: Product)
    modifies store
    ensures store.state == ReduceAll(old(store.state), WishlistToggleActions(old(store.state).wishlist, p.id))
  {
    store.DispatchAll(WishlistToggleActions(store.state.wishlist, p.id));
  }
}
