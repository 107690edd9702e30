/** The wishlist page (src/pages/WishlistPage.tsx). */
module WishlistPage {
  import opened Types
  import opened AppContext
  import Lists

  function WishedTest(wishlist: seq<string>): Product -> bool {
    (p: Product) => p.id in wishlist
  }

  /** `wishlistProducts`: the catalogue products whose id is on the wishlist. */
  function WishlistProducts(products: seq<Product>, wishlist: seq<string>): (r: seq<Product>)
    ensures |r| <= |products|
  {
    Lists.Filter(products, WishedTest(wishlist))
  }

  /** The shown products follow catalogue order, not wishlist order; each is wished for, and
      every wished-for catalogue product is shown. A wishlist id with no product is not shown. */
  lemma WishlistProductsExactly(products: seq<Product>, wishlist: seq<string>)
    ensures var r := WishlistProducts(products, wishlist);
      && Lists.Subseq(r, products)
      && (forall i :: 0 <= i < |r| ==> r[i].id in wishlist)
      && (forall p :: p in products && p.id in wishlist ==> p in r)
      && (forall id :: id in wishlist && (forall k :: 0 <= k < |products| ==> products[k].id != id) ==>
            forall i :: 0 <= i < |r| ==> r[i].id != id)
  {
    Lists.FilterSubseq(products, WishedTest(wishlist));
    forall p | p in products && p.id in wishlist ensures p in WishlistProducts(products, wishlist) {
      Lists.FilterKeepsPassing(products, WishedTest(wishlist), p);
    }
  }

  /** `handleClearWishlist`: CLEAR_WISHLIST only when confirmed. */
  function ClearActions(confirmed: bool): (r: seq<Action>)
    ensures confirmed <==> r == [ClearWishlist]
    ensures !confirmed <==> r == []
  {
    if confirmed then [ClearWishlist] else []
  }

  /** A confirmed clear empties the wishlist and nothing else; a refused one changes nothing. */
  lemma ClearEffect(s: State, confirmed: bool)
    ensures confirmed ==> ReduceAll(s, ClearActions(confirmed)) == s.(wishlist := [])
    ensures !confirmed ==> ReduceAll(s, ClearActions(confirmed)) == s
  {
    if confirmed { ReduceAllOne(s, ClearWishlist); }
  }

  /** The word after the count: singular for exactly one product. */
  function CountLabel(n: nat): (r: string)
    ensures r == "item" <==> n == 1
    ensures r == "items" <==> n != 1
  {
    if n == 1 then "item" else "items"
  }

  method HandleClearWishlist(store: Store, confirmed: bool)
    modifies store
    ensures store.state == ReduceAll(old(store.state), ClearActions(confirmed))
  {
    store.DispatchAll(ClearActions(confirmed));
  }
}
