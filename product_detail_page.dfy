/** The product detail page (src/pages/ProductDetailPage.tsx): its gallery, cart and wishlist
    buttons, the quantity it shows and the related-product lists. */
module ProductDetailPage {
  import opened Types
  import opened AppContext
  import Lists
  import ProductCard
  import Carousel

  /** The page keeps a quantity state that starts at 1 and that no control changes. */
  const DetailQuantity := 1
  const RelatedSize := 4
  const OthersSize := 8

  /** `productImages`: the gallery, or the main image alone when the gallery is empty. */
  function ProductImages(p: Product): (r: seq<string>)
    ensures |r| >= 1
    ensures r == p.images || r == [p.image]
    ensures p.image in r || r == p.images
  {
    if |p.images| > 0 then p.images else [p.image]
  }

  /** When the page mounts, `currentImageIndex` starts on the first picture of the (never empty)
      gallery. Moving to another product keeps the index. */
  method NewGallery(p: Product) returns (c: Carousel.Index)
    ensures fresh(c) && c.Valid() && c.count == |ProductImages(p)| && c.current == 0
  {
    c := new Carousel.Index(|ProductImages(p)|);
  }

  /** The line the page adds: entry id `<productId>-<size>-<now>`, the page's quantity and the
      selected size (blank when none is chosen). */
  function DetailEntry(p: Product, selectedSize: string, now: string): (e: CartItem)
    ensures e.productId == p.id && e.quantity == DetailQuantity && e.size == Some(selectedSize)
  {
    CartItem(p.id + "-" + selectedSize + "-" + now, p.id, DetailQuantity, Some(selectedSize), Some(p.description))
  }

  /** `handleAddToCart`: when the product is in the cart, remove its first line; otherwise add
      it. */
  function CartToggleActions(cart: seq<CartItem>, p: Product, selectedSize: string, now: string)
    : (r: seq<Action>)
    ensures |r| == 1
    ensures r[0].RemoveFromCart? <==> InCart(cart, p.id)
  {
    if InCart(cart, p.id) then ProductCard.RemoveActions(cart, p.id)
    else [AddToCart(DetailEntry(p, selectedSize, now))]
  }

  /** With one line per product, the cart button flips whether the product is in the cart: it
      appends the new line, or deletes the product's line (exactly that line when entry ids
      are distinct). Nothing but the cart changes and one line per product is kept. */
  lemma CartToggleFlips(s: State, p: Product, selectedSize: string, now: string)
    requires DistinctProducts(s.cart)
    ensures var t := ReduceAll(s, CartToggleActions(s.cart, p, selectedSize, now));
      var i := ProductIndex(s.cart, p.id);
      && t == s.(cart := t.cart)
      && (InCart(t.cart, p.id) <==> !InCart(s.cart, p.id))
      && (!InCart(s.cart, p.id) ==> t.cart == s.cart + [DetailEntry(p, selectedSize, now)])
      && (InCart(s.cart, p.id) && DistinctEntryIds(s.cart) ==>
            t.cart == s.cart[..i] + s.cart[i + 1..])
      && DistinctProducts(t.cart)
  {
    var acts := CartToggleActions(s.cart, p, selectedSize, now);
    ReduceAllOne(s, acts[0]);
    ReduceKeepsProductsDistinct(s, acts[0]);
    if InCart(s.cart, p.id) {
      ProductCard.RemoveEffect(s, p.id);
    } else {
      var e := DetailEntry(p, selectedSize, now);
      AddToCartAppends(s, e);
      assert (s.cart + [e])[|s.cart|] == e;
    }
  }

  /** The add button's `disabled` condition. `product.sizes` counts as present even when it is
      an empty list. */
  predicate AddDisabled(p: Product, selectedSize: string, inCart: bool) {
    !p.inStock || (p.sizes.Some? && selectedSize == "" && !inCart)
  }

  /** When the button is enabled for a product that is not in the cart, the product is in
      stock, and a product with sizes is added with a chosen, non-blank size. */
  lemma EnabledAddHasSize(s: State, p: Product, selectedSize: string, now: string)
    requires !AddDisabled(p, selectedSize, InCart(s.cart, p.id)) && !InCart(s.cart, p.id)
    ensures p.inStock
    ensures var r := CartToggleActions(s.cart, p, selectedSize, now);
      && r[0].AddToCart?
      && (p.sizes.Some? ==> r[0].item.size.Some? && r[0].item.size.value != "")
  {
  }

  /** `cartQuantity`: the quantity of the first line for the product, or 0. */
  function CartQuantity(cart: seq<CartItem>, productId: string): (r: int)
    ensures !InCart(cart, productId) ==> r == 0
  {
    ProductIndexFound(cart, productId);
    var i := ProductIndex(cart, productId);
    if i < |cart| then cart[i].quantity else 0
  }

  /** ADD_TO_CART raises the shown quantity by the added amount, starting from 0 for a product
      not yet in the cart. */
  lemma CartQuantityAfterAdd(cart: seq<CartItem>, item: CartItem)
    ensures CartQuantity(CartAdd(cart, item), item.productId) == CartQuantity(cart, item.productId) + item.quantity
  {
    var i := ProductIndex(cart, item.productId);
    var c := CartAdd(cart, item);
    if i < |cart| {
      assert ProductIds(c) == ProductIds(cart);
      assert forall k :: 0 <= k < |c| ==> c[k].productId == cart[k].productId;
      assert ProductIndex(c, item.productId) == i by { ProductIndexSame(cart, c, item.productId); }
    } else {
      assert c == cart + [item];
      assert ProductIndex(c, item.productId) == |cart| by {
        assert c[|cart|].productId == item.productId;
      }
    }
  }

  lemma {:induction false} ProductIndexSame(a: seq<CartItem>, b: seq<CartItem>, pid: string)
    requires |a| == |b| && forall k :: 0 <= k < |a| ==> a[k].productId == b[k].productId
    ensures ProductIndex(a, pid) == ProductIndex(b, pid)
  {
    if a != [] && a[0].productId != pid { ProductIndexSame(a[1..], b[1..], pid); }
  }

  function RelatedTest(p: Product): Product -> bool {
    (q: Product) => q.id != p.id && q.category == p.category
  }

  function OtherTest(p: Product): Product -> bool {
    (q: Product) => q.id != p.id
  }

  /** `relatedProducts`: products of exactly the same category, other than this one. */
  function RelatedProducts(products: seq<Product>, p: Product): (r: seq<Product>)
    ensures |r| <= RelatedSize
  {
    Lists.Take(Lists.Filter(products, RelatedTest(p)), RelatedSize)
  }

  /** `allOtherProducts`: products other than this one. */
  function AllOtherProducts(products: seq<Product>, p: Product): (r: seq<Product>)
    ensures |r| <= OthersSize
  {
    Lists.Take(Lists.Filter(products, OtherTest(p)), OthersSize)
  }

  /** Related products: in catalogue order, never this product, always of its exact category,
      and all such products when there are at most four. */
  lemma RelatedSelected(products: seq<Product>, p: Product)
    ensures var r := RelatedProducts(products, p);
      && Lists.Subseq(r, products)
      && (forall i :: 0 <= i < |r| ==> r[i].id != p.id && r[i].category == p.category)
      && (|Lists.Filter(products, RelatedTest(p))| <= RelatedSize ==>
            forall q :: q in products && q.id != p.id && q.category == p.category ==> q in r)
  {
    Lists.TakeFilter(products, RelatedTest(p), RelatedSize);
  }

  /** The other products: in catalogue order, never this product, and all of them when there
      are at most eight. */
  lemma OthersSelected(products: seq<Product>, p: Product)
    ensures var r := AllOtherProducts(products, p);
      && Lists.Subseq(r, products)
      && (forall i :: 0 <= i < |r| ==> r[i].id != p.id)
      && (|Lists.Filter(products, OtherTest(p))| <= OthersSize ==>
            forall q :: q in products && q.id != p.id ==> q in r)
  {
    Lists.TakeFilter(products, OtherTest(p), OthersSize);
  }

  method HandleAddToCart(store: Store, p: Product, selectedSize: string, now: string)
    modifies store
    ensures store.state
            == ReduceAll(old(store.state), CartToggleActions(old(store.state).cart, p, selectedSize, now))
  {
    store.DispatchAll(CartToggleActions(store.state.cart, p, selectedSize, now));
  }

  method HandleWishlistToggle(store: Store, p: Product)
    modifies store
    ensures store.state
            == ReduceAll(old(store.state), ProductCard.WishlistToggleActions(old(store.state).wishlist, p.id))
  {
    store.DispatchAll(ProductCard.WishlistToggleActions(store.state.wishlist, p.id));
  }
}
