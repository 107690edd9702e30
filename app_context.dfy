/** The application store (src/context/AppContext.tsx): the state record, the closed set of
    actions, the pure reducer, the store object that applies dispatched actions, and the
    start-up load that rebuilds the state from what was saved. */
module AppContext {
  import opened Types
  import Lists

  datatype State = State(
    products: seq<Product>,
    users: seq<User>,
    orders: seq<Order>,
    categories: seq<Category>,
    cart: seq<CartItem>,
    wishlist: seq<string>,
    currentUser: Option<User>,
    searchQuery: string,
    selectedCategory: string)

  const InitialState := State([], [], [], [], [], [], None, "", "all")

  datatype Action =
    | SetProducts(products: seq<Product>)
    | AddProduct(product: Product)
    | UpdateProduct(product: Product)
    | DeleteProduct(productId: string)
    | SetUsers(users: seq<User>)
    | AddUser(user: User)
    | SetOrders(orders: seq<Order>)
    | AddOrder(order: Order)
    | UpdateOrder(order: Order)
    | SetCategories(categories: seq<Category>)
    | AddToCart(item: CartItem)
    | RemoveFromCart(itemId: string)
    | UpdateCartQuantity(itemId: string, quantity: int)
    | ClearCart
    | AddToWishlist(wishId: string)
    | RemoveFromWishlist(wishId: string)
    | ClearWishlist
    | SetCurrentUser(current: Option<User>)
    | SetSearchQuery(query: string)
    | SetSelectedCategory(category: string)
    | Unrecognized(tag: string)

  // ---------------------------------------------------------------- cart helpers

  /** `cart.findIndex(item => item.productId === pid)`, with |cart| for "not found". */
  function ProductIndex(cart: seq<CartItem>, pid: string): (i: nat)
    ensures i <= |cart|
    ensures i < |cart| ==> cart[i].productId == pid
    ensures forall k :: 0 <= k < i ==> cart[k].productId != pid
  {
    Lists.FindIndex(cart, (e: CartItem) => e.productId == pid)
  }

  predicate InCart(cart: seq<CartItem>, pid: string) {
    exists k :: 0 <= k < |cart| && cart[k].productId == pid
  }

  lemma ProductIndexFound(cart: seq<CartItem>, pid: string)
    ensures InCart(cart, pid) <==> ProductIndex(cart, pid) < |cart|
  {
  }

  function ProductIds(cart: seq<CartItem>): (r: seq<string>)
    ensures |r| == |cart|
    ensures forall k :: 0 <= k < |cart| ==> r[k] == cart[k].productId
  {
    seq(|cart|, k requires 0 <= k < |cart| => cart[k].productId)
  }

  lemma InCartIds(cart: seq<CartItem>, pid: string)
    ensures InCart(cart, pid) <==> pid in ProductIds(cart)
  {
    if pid in ProductIds(cart) {
      var k :| 0 <= k < |cart| && ProductIds(cart)[k] == pid;
    }
  }

  /** No two cart lines refer to the same product. */
  predicate DistinctProducts(cart: seq<CartItem>) {
    forall i, j :: 0 <= i < j < |cart| ==> cart[i].productId != cart[j].productId
  }

  /** No two cart lines share an entry id. */
  predicate DistinctEntryIds(cart: seq<CartItem>) {
    forall i, j :: 0 <= i < j < |cart| ==> cart[i].id != cart[j].id
  }

  /** The quantity of every line whose entry id is `id` grows by q. */
  function AddQuantity(cart: seq<CartItem>, id: string, q: int): seq<CartItem> {
    seq(|cart|, k requires 0 <= k < |cart| =>
      if cart[k].id == id then cart[k].(quantity := cart[k].quantity + q) else cart[k])
  }

  /** ADD_TO_CART: merge into the first line for the same product, else append. */
  function CartAdd(cart: seq<CartItem>, item: CartItem): seq<CartItem> {
    var i := ProductIndex(cart, item.productId);
    if i < |cart| then AddQuantity(cart, cart[i].id, item.quantity) else cart + [item]
  }

  /** REMOVE_FROM_CART: drop every line with that entry id. */
  function CartRemove(cart: seq<CartItem>, id: string): seq<CartItem> {
    Lists.Filter(cart, (e: CartItem) => e.id != id)
  }

  /** UPDATE_CART_QUANTITY: overwrite the quantity of the lines with that entry id. */
  function CartSetQuantity(cart: seq<CartItem>, id: string, q: int): seq<CartItem> {
    seq(|cart|, k requires 0 <= k < |cart| =>
      if cart[k].id == id then cart[k].(quantity := q) else cart[k])
  }

  function WishlistRemove(ws: seq<string>, id: string): seq<string> {
    Lists.Filter(ws, (x: string) => x != id)
  }

  function ProductsReplace(ps: seq<Product>, p: Product): seq<Product> {
    seq(|ps|, k requires 0 <= k < |ps| => if ps[k].id == p.id then p else ps[k])
  }

  function ProductsDelete(ps: seq<Product>, id: string): seq<Product> {
    Lists.Filter(ps, (p: Product) => p.id != id)
  }

  function OrdersReplace(os: seq<Order>, o: Order): seq<Order> {
    seq(|os|, k requires 0 <= k < |os| => if os[k].id == o.id then o else os[k])
  }

  // ---------------------------------------------------------------- the reducer

  /** `appReducer`: the next state for one action. */
  function Reduce(s: State, a: Action): State {
    match a
    case SetProducts(ps) => s.(products := ps)
    case AddProduct(p) => s.(products := s.products + [p])
    case UpdateProduct(p) => s.(products := ProductsReplace(s.products, p))
    case DeleteProduct(id) => s.(products := ProductsDelete(s.products, id))
    case SetUsers(us) => s.(users := us)
    case AddUser(u) => s.(users := s.users + [u])
    case SetOrders(os) => s.(orders := os)
    case AddOrder(o) => s.(orders := s.orders + [o])
    case UpdateOrder(o) => s.(orders := OrdersReplace(s.orders, o))
    case SetCategories(cs) => s.(categories := cs)
    case AddToCart(item) => s.(cart := CartAdd(s.cart, item))
    case RemoveFromCart(id) => s.(cart := CartRemove(s.cart, id))
    case UpdateCartQuantity(id, q) => s.(cart := CartSetQuantity(s.cart, id, q))
    case ClearCart => s.(cart := [])
    case AddToWishlist(id) => if id in s.wishlist then s else s.(wishlist := s.wishlist + [id])
    case RemoveFromWishlist(id) => s.(wishlist := WishlistRemove(s.wishlist, id))
    case ClearWishlist => s.(wishlist := [])
    case SetCurrentUser(u) => s.(currentUser := u)
    case SetSearchQuery(q) => s.(searchQuery := q)
    case SetSelectedCategory(c) => s.(selectedCategory := c)
    case Unrecognized(_) => s
  }

  /** The state after dispatching the actions in order. */
  function ReduceAll(s: State, actions: seq<Action>): State {
    if actions == [] then s
    else Reduce(ReduceAll(s, actions[..|actions| - 1]), actions[|actions| - 1])
  }

  lemma {:induction false} ReduceAllConcat(s: State, a: seq<Action>, b: seq<Action>)
    ensures ReduceAll(s, a + b) == ReduceAll(ReduceAll(s, a), b)
  {
    if b == [] {
      assert a + b == a;
    } else {
      var b' := b[..|b| - 1];
      assert (a + b)[..|a + b| - 1] == a + b';
      ReduceAllConcat(s, a, b');
    }
  }

  lemma ReduceAllOne(s: State, a: Action)
    ensures ReduceAll(s, [a]) == Reduce(s, a)
  {
    assert [a][..0] == [];
  }

  lemma ReduceAllTwo(s: State, a: Action, b: Action)
    ensures ReduceAll(s, [a, b]) == Reduce(Reduce(s, a), b)
  {
    assert [a, b][..1] == [a];
    ReduceAllOne(s, a);
  }

  /** Dispatching one cart action changes the cart alone. */
  lemma DispatchCart(s: State, a: Action)
    requires IsCartAction(a)
    ensures ReduceAll(s, [a]) == s.(cart := Reduce(s, a).cart)
  {
    ReduceAllOne(s, a);
  }

  /** Dispatching one wishlist action changes the wishlist alone. */
  lemma DispatchWishlist(s: State, a: Action)
    requires IsWishlistAction(a)
    ensures ReduceAll(s, [a]) == s.(wishlist := Reduce(s, a).wishlist)
  {
    ReduceAllOne(s, a);
  }

  // ---------------------------------------------------------------- properties

  predicate IsProductsAction(a: Action) {
    a.SetProducts? || a.AddProduct? || a.UpdateProduct? || a.DeleteProduct?
  }
  predicate IsUsersAction(a: Action) { a.SetUsers? || a.AddUser? }
  predicate IsOrdersAction(a: Action) { a.SetOrders? || a.AddOrder? || a.UpdateOrder? }
  predicate IsCartAction(a: Action) {
    a.AddToCart? || a.RemoveFromCart? || a.UpdateCartQuantity? || a.ClearCart?
  }
  predicate IsWishlistAction(a: Action) {
    a.AddToWishlist? || a.RemoveFromWishlist? || a.ClearWishlist?
  }

  /** Each action changes only the field it names; an unrecognised action changes nothing. */
  lemma ReduceFrame(s: State, a: Action)
    ensures !IsProductsAction(a) ==> Reduce(s, a).products == s.products
    ensures !IsUsersAction(a) ==> Reduce(s, a).users == s.users
    ensures !IsOrdersAction(a) ==> Reduce(s, a).orders == s.orders
    ensures !a.SetCategories? ==> Reduce(s, a).categories == s.categories
    ensures !IsCartAction(a) ==> Reduce(s, a).cart == s.cart
    ensures !IsWishlistAction(a) ==> Reduce(s, a).wishlist == s.wishlist
    ensures !a.SetCurrentUser? ==> Reduce(s, a).currentUser == s.currentUser
    ensures !a.SetSearchQuery? ==> Reduce(s, a).searchQuery == s.searchQuery
    ensures !a.SetSelectedCategory? ==> Reduce(s, a).selectedCategory == s.selectedCategory
    ensures a.Unrecognized? ==> Reduce(s, a) == s
  {
  }

  /** ADD_TO_CART for a product already in the cart: same length, the quantity is added to the
      first line for that product (and to any line sharing its entry id), nothing else moves. */
  lemma AddToCartMerges(s: State, item: CartItem)
    requires InCart(s.cart, item.productId)
    ensures var j := ProductIndex(s.cart, item.productId);
      var c := Reduce(s, AddToCart(item)).cart;
      && j < |s.cart|
      && |c| == |s.cart|
      && c[j] == s.cart[j].(quantity := s.cart[j].quantity + item.quantity)
      && (forall k :: 0 <= k < |c| && s.cart[k].id != s.cart[j].id ==> c[k] == s.cart[k])
      && (DistinctEntryIds(s.cart) ==>
            c == s.cart[j := s.cart[j].(quantity := s.cart[j].quantity + item.quantity)])
      && ProductIds(c) == ProductIds(s.cart)
  {
    var j := ProductIndex(s.cart, item.productId);
    var c := Reduce(s, AddToCart(item)).cart;
    if DistinctEntryIds(s.cart) {
      assert forall k :: 0 <= k < |c| && k != j ==> s.cart[k].id != s.cart[j].id;
    }
  }

  /** ADD_TO_CART for a product not yet in the cart appends the payload as the last line. */
  lemma AddToCartAppends(s: State, item: CartItem)
    requires !InCart(s.cart, item.productId)
    ensures Reduce(s, AddToCart(item)).cart == s.cart + [item]
  {
    ProductIndexFound(s.cart, item.productId);
  }

  /** Adding the same product twice to a cart that lacks it yields one line whose quantity is
      the sum of the two requests. */
  lemma AddSameProductTwice(s: State, first: CartItem, second: CartItem)
    requires !InCart(s.cart, first.productId)
    requires second.productId == first.productId
    requires forall k :: 0 <= k < |s.cart| ==> s.cart[k].id != first.id
    ensures Reduce(Reduce(s, AddToCart(first)), AddToCart(second)).cart
            == s.cart + [first.(quantity := first.quantity + second.quantity)]
  {
    AddToCartAppends(s, first);
    var c1 := Reduce(s, AddToCart(first)).cart;
    var n := |s.cart|;
    assert c1[n].productId == second.productId;
    assert forall k :: 0 <= k < n ==> c1[k] == s.cart[k];
    var i := ProductIndex(c1, second.productId);
    assert i == n;
  }

  /** REMOVE_FROM_CART keeps exactly the lines with another entry id, in order; an absent id
      leaves the cart as it was; with distinct entry ids it deletes that one position. */
  lemma RemoveFromCartFilters(s: State, id: string)
    ensures var c := Reduce(s, RemoveFromCart(id)).cart;
      && (forall k :: 0 <= k < |c| ==> c[k].id != id && c[k] in s.cart)
      && (forall e :: e in s.cart && e.id != id ==> e in c)
      && ((forall k :: 0 <= k < |s.cart| ==> s.cart[k].id != id) ==> c == s.cart)
      && (forall i :: 0 <= i < |s.cart| && s.cart[i].id == id && DistinctEntryIds(s.cart) ==>
            c == s.cart[..i] + s.cart[i + 1..])
  {
    var keep := (e: CartItem) => e.id != id;
    forall e | e in s.cart && e.id != id ensures e in CartRemove(s.cart, id) {
      Lists.FilterKeepsPassing(s.cart, keep, e);
    }
    if forall k :: 0 <= k < |s.cart| ==> s.cart[k].id != id {
      Lists.FilterKeepsAll(s.cart, keep);
    }
    forall i | 0 <= i < |s.cart| && s.cart[i].id == id && DistinctEntryIds(s.cart)
      ensures CartRemove(s.cart, id) == s.cart[..i] + s.cart[i + 1..]
    {
      Lists.FilterDropsOne(s.cart, i, keep);
    }
  }

  /** UPDATE_CART_QUANTITY stores the given number, even zero or a negative one, on the lines
      with that entry id; length, order and every other line are unchanged. */
  lemma UpdateCartQuantitySets(s: State, id: string, q: int)
    ensures var c := Reduce(s, UpdateCartQuantity(id, q)).cart;
      && |c| == |s.cart|
      && (forall k :: 0 <= k < |c| ==>
            c[k] == if s.cart[k].id == id then s.cart[k].(quantity := q) else s.cart[k])
      && ProductIds(c) == ProductIds(s.cart)
  {
  }

  lemma {:induction false} FilterKeepsDistinctProducts(cart: seq<CartItem>, keep: CartItem -> bool)
    requires DistinctProducts(cart)
    ensures DistinctProducts(Lists.Filter(cart, keep))
  {
    if cart != [] {
      var t := cart[1..];
      FilterKeepsDistinctProducts(t, keep);
      var r := Lists.Filter(t, keep);
      forall k | 0 <= k < |r| ensures r[k].productId != cart[0].productId {
        var m :| 0 <= m < |t| && t[m] == r[k];
        assert t[m] == cart[m + 1];
      }
    }
  }

  /** If no two cart lines share a product before an action, none do afterwards. */
  lemma ReduceKeepsProductsDistinct(s: State, a: Action)
    requires DistinctProducts(s.cart)
    ensures DistinctProducts(Reduce(s, a).cart)
  {
    var c := Reduce(s, a).cart;
    if a.AddToCart? {
      CartAddKeepsDistinct(s.cart, a.item);
    } else if a.RemoveFromCart? {
      FilterKeepsDistinctProducts(s.cart, (e: CartItem) => e.id != a.itemId);
    } else if a.UpdateCartQuantity? {
      SameProductsKeepDistinct(s.cart, c);
    } else if a.ClearCart? {
      assert c == [];
    } else {
      ReduceFrame(s, a);
      assert c == s.cart;
    }
  }

  lemma CartAddKeepsDistinct(cart: seq<CartItem>, item: CartItem)
    requires DistinctProducts(cart)
    ensures DistinctProducts(CartAdd(cart, item))
  {
    var i := ProductIndex(cart, item.productId);
    if i < |cart| {
      SameProductsKeepDistinct(cart, AddQuantity(cart, cart[i].id, item.quantity));
    } else {
      var c := cart + [item];
      forall j, k | 0 <= j < k < |c| ensures c[j].productId != c[k].productId {
        assert c[j] == cart[j];
      }
    }
  }

  lemma SameProductsKeepDistinct(a: seq<CartItem>, b: seq<CartItem>)
    requires DistinctProducts(a)
    requires |b| == |a| && forall k :: 0 <= k < |a| ==> b[k].productId == a[k].productId
    ensures DistinctProducts(b)
  {
  }

  lemma {:induction false} ReduceAllKeepsProductsDistinct(s: State, actions: seq<Action>)
    requires DistinctProducts(s.cart)
    ensures DistinctProducts(ReduceAll(s, actions).cart)
  {
    if actions != [] {
      ReduceAllKeepsProductsDistinct(s, actions[..|actions| - 1]);
      ReduceKeepsProductsDistinct(ReduceAll(s, actions[..|actions| - 1]), actions[|actions| - 1]);
    }
  }

  /** ADD_TO_WISHLIST of a present id returns the very same state, so it is idempotent and
      keeps the wishlist free of duplicates; REMOVE_FROM_WISHLIST drops every occurrence. */
  lemma WishlistActions(s: State, id: string)
    ensures id in s.wishlist ==> Reduce(s, AddToWishlist(id)) == s
    ensures Reduce(Reduce(s, AddToWishlist(id)), AddToWishlist(id)) == Reduce(s, AddToWishlist(id))
    ensures id in Reduce(s, AddToWishlist(id)).wishlist
    ensures Lists.Distinct(s.wishlist) ==> Lists.Distinct(Reduce(s, AddToWishlist(id)).wishlist)
    ensures id !in Reduce(s, RemoveFromWishlist(id)).wishlist
    ensures forall x :: x in s.wishlist && x != id ==> x in Reduce(s, RemoveFromWishlist(id)).wishlist
  {
    forall x | x in s.wishlist && x != id ensures x in WishlistRemove(s.wishlist, id) {
      Lists.FilterKeepsPassing(s.wishlist, (y: string) => y != id, x);
    }
  }

  /** UPDATE_PRODUCT and UPDATE_ORDER replace the entries carrying the payload's id and keep
      the length; an unknown id changes nothing. DELETE_PRODUCT removes every entry with the id. */
  lemma UpdateAndDeleteById(s: State, p: Product, o: Order, id: string)
    ensures var ps := Reduce(s, UpdateProduct(p)).products;
      && |ps| == |s.products|
      && (forall k :: 0 <= k < |ps| ==> ps[k] == if s.products[k].id == p.id then p else s.products[k])
      && ((forall k :: 0 <= k < |s.products| ==> s.products[k].id != p.id) ==> ps == s.products)
    ensures var os := Reduce(s, UpdateOrder(o)).orders;
      && |os| == |s.orders|
      && (forall k :: 0 <= k < |os| ==> os[k] == if s.orders[k].id == o.id then o else s.orders[k])
      && ((forall k :: 0 <= k < |s.orders| ==> s.orders[k].id != o.id) ==> os == s.orders)
    ensures var ds := Reduce(s, DeleteProduct(id)).products;
      && (forall k :: 0 <= k < |ds| ==> ds[k].id != id && ds[k] in s.products)
      && (forall q :: q in s.products && q.id != id ==> q in ds)
  {
    forall q | q in s.products && q.id != id ensures q in ProductsDelete(s.products, id) {
      Lists.FilterKeepsPassing(s.products, (x: Product) => x.id != id, q);
    }
  }

  // ---------------------------------------------------------------- replay on load

  /** The cart after ADD_TO_CART of each item in turn. */
  function CartReplay(cart: seq<CartItem>, items: seq<CartItem>): seq<CartItem> {
    if items == [] then cart
    else CartAdd(CartReplay(cart, items[..|items| - 1]), items[|items| - 1])
  }

  /** The wishlist after ADD_TO_WISHLIST of each id in turn. */
  function WishlistReplay(ws: seq<string>, ids: seq<string>): seq<string> {
    if ids == [] then ws
    else
      var w := WishlistReplay(ws, ids[..|ids| - 1]);
      var x := ids[|ids| - 1];
      if x in w then w else w + [x]
  }

  /** Replaying saved product ids onto a duplicate-free wishlist yields the old list followed
      by each new id once, in first-appearance order. */
  lemma {:induction false} WishlistReplayDedups(ws: seq<string>, ids: seq<string>)
    requires Lists.Distinct(ws)
    ensures WishlistReplay(ws, ids) == Lists.Dedup(ws + ids)
  {
    if ids == [] {
      assert ws + ids == ws;
      Lists.DedupOfDistinct(ws);
    } else {
      var p := ids[..|ids| - 1];
      WishlistReplayDedups(ws, p);
      var all := ws + ids;
      assert all[..|all| - 1] == ws + p;
      assert all[|all| - 1] == ids[|ids| - 1];
    }
  }

  /** Replaying saved cart lines keeps product ids distinct, keeps every product already in the
      cart, and leaves every replayed product in the cart. */
  lemma {:induction false} CartReplayCovers(cart: seq<CartItem>, items: seq<CartItem>)
    requires DistinctProducts(cart)
    ensures DistinctProducts(CartReplay(cart, items))
    ensures forall pid :: InCart(cart, pid) ==> InCart(CartReplay(cart, items), pid)
    ensures forall i :: 0 <= i < |items| ==> InCart(CartReplay(cart, items), items[i].productId)
  {
    if items != [] {
      var p := items[..|items| - 1];
      var x := items[|items| - 1];
      CartReplayCovers(cart, p);
      var r0 := CartReplay(cart, p);
      var r := CartReplay(cart, items);
      CartAddKeepsDistinct(r0, x);
      CartAddProductIds(r0, x);
      forall pid | InCart(r0, pid) || pid == x.productId ensures InCart(r, pid) {
        InCartIds(r0, pid);
        InCartIds(r, pid);
      }
      forall i | 0 <= i < |items| ensures InCart(r, items[i].productId) {
        if i < |p| { assert items[i] == p[i]; }
      }
    }
  }

  /** With distinct entry ids, merging into line j touches that line only. */
  lemma MergeTouchesOneLine(cart: seq<CartItem>, j: nat, q: int)
    requires j < |cart| && DistinctEntryIds(cart)
    ensures AddQuantity(cart, cart[j].id, q) == cart[j := cart[j].(quantity := cart[j].quantity + q)]
  {
    assert forall k :: 0 <= k < |cart| && k != j ==> cart[k].id != cart[j].id;
  }

  /** The units of a product over all cart lines. */
  function Units(cart: seq<CartItem>, pid: string): int {
    if cart == [] then 0
    else Units(cart[..|cart| - 1], pid)
         + (if cart[|cart| - 1].productId == pid then cart[|cart| - 1].quantity else 0)
  }

  lemma {:induction false} UnitsConcat(a: seq<CartItem>, b: seq<CartItem>, pid: string)
    ensures Units(a + b, pid) == Units(a, pid) + Units(b, pid)
  {
    if b == [] {
      assert a + b == a;
    } else {
      assert (a + b)[..|a + b| - 1] == a + b[..|b| - 1];
      UnitsConcat(a, b[..|b| - 1], pid);
    }
  }

  /** Changing the quantity of one line changes its product's units by the difference. */
  lemma {:induction false} UnitsUpdate(c: seq<CartItem>, j: nat, x: CartItem, pid: string)
    requires j < |c| && x.productId == c[j].productId
    ensures Units(c[j := x], pid)
            == Units(c, pid) + (if pid == x.productId then x.quantity - c[j].quantity else 0)
  {
    var n := |c| - 1;
    if j == n {
      assert c[j := x][..n] == c[..n];
    } else {
      assert c[j := x][..n] == c[..n][j := x];
      UnitsUpdate(c[..n], j, x, pid);
    }
  }

  /** With distinct entry ids, ADD_TO_CART adds the item's quantity to its product's units and
      leaves every other product's units alone. */
  lemma CartAddUnits(cart: seq<CartItem>, item: CartItem, pid: string)
    requires DistinctEntryIds(cart)
    ensures Units(CartAdd(cart, item), pid)
            == Units(cart, pid) + (if pid == item.productId then item.quantity else 0)
  {
    var i := ProductIndex(cart, item.productId);
    if i < |cart| {
      MergeTouchesOneLine(cart, i, item.quantity);
      UnitsUpdate(cart, i, cart[i].(quantity := cart[i].quantity + item.quantity), pid);
    } else {
      UnitsConcat(cart, [item], pid);
      assert [item][..0] == [];
    }
  }

  function EntryIds(cart: seq<CartItem>): (r: seq<string>)
    ensures |r| == |cart|
    ensures forall k :: 0 <= k < |cart| ==> r[k] == cart[k].id
  {
    seq(|cart|, k requires 0 <= k < |cart| => cart[k].id)
  }

  /** When the cart and the replayed lines carry distinct entry ids, the replay keeps entry ids
      distinct and uses no entry id from elsewhere. */
  lemma {:induction false} CartReplayIds(cart: seq<CartItem>, items: seq<CartItem>)
    requires DistinctEntryIds(cart + items)
    ensures DistinctEntryIds(CartReplay(cart, items))
    ensures forall k :: 0 <= k < |CartReplay(cart, items)| ==>
              CartReplay(cart, items)[k].id in EntryIds(cart + items)
  {
    if items == [] {
      assert cart + items == cart;
    } else {
      var p := items[..|items| - 1];
      var x := items[|items| - 1];
      var all := cart + items;
      assert all[..|all| - 1] == cart + p;
      assert all[|all| - 1] == x;
      CartReplayIds(cart, p);
      var r0 := CartReplay(cart, p);
      var r := CartReplay(cart, items);
      forall k | 0 <= k < |r0| ensures r0[k].id in EntryIds(all) && r0[k].id != x.id {
        var m :| 0 <= m < |cart + p| && EntryIds(cart + p)[m] == r0[k].id;
        assert all[m] == (cart + p)[m];
        assert EntryIds(all)[m] == r0[k].id;
      }
      var i := ProductIndex(r0, x.productId);
      if i < |r0| {
        assert forall k :: 0 <= k < |r| ==> r[k].id == r0[k].id;
      } else {
        assert r == r0 + [x];
        assert EntryIds(all)[|all| - 1] == x.id;
      }
    }
  }

  /** When the cart and the replayed lines carry distinct entry ids, the replay holds, for every
      product, the units the cart held plus the units of the replayed lines. */
  lemma {:induction false} CartReplayUnits(cart: seq<CartItem>, items: seq<CartItem>, pid: string)
    requires DistinctEntryIds(cart + items)
    ensures Units(CartReplay(cart, items), pid) == Units(cart, pid) + Units(items, pid)
  {
    if items != [] {
      var p := items[..|items| - 1];
      var x := items[|items| - 1];
      assert (cart + items)[..|cart + items| - 1] == cart + p;
      CartReplayUnits(cart, p, pid);
      CartReplayIds(cart, p);
      CartAddUnits(CartReplay(cart, p), x, pid);
    }
  }

  /** The first line for a product, in the cart or else among the replayed lines. */
  function FirstLine(cart: seq<CartItem>, items: seq<CartItem>, pid: string): (r: CartItem)
    requires InCart(cart, pid) || InCart(items, pid)
    ensures r.productId == pid
    ensures InCart(cart, pid) ==> r in cart
    ensures !InCart(cart, pid) ==> r in items
  {
    ProductIndexFound(cart, pid);
    ProductIndexFound(items, pid);
    if InCart(cart, pid) then cart[ProductIndex(cart, pid)] else items[ProductIndex(items, pid)]
  }

  lemma ProductIndexPrefix(p: seq<CartItem>, x: CartItem, pid: string)
    ensures InCart(p, pid) ==> ProductIndex(p + [x], pid) == ProductIndex(p, pid)
    ensures !InCart(p, pid) && x.productId == pid ==> ProductIndex(p + [x], pid) == |p|
  {
    ProductIndexFound(p, pid);
    var i := ProductIndex(p, pid);
    var j := ProductIndex(p + [x], pid);
    assert (p + [x])[|p|] == x;
    if j < |p| { assert (p + [x])[j] == p[j]; }
    if i < |p| { assert (p + [x])[i] == p[i]; }
  }

  /** ADD_TO_CART keeps the product column of a cart holding the product, and otherwise appends
      the product to it. */
  lemma CartAddProductIds(cart: seq<CartItem>, item: CartItem)
    ensures ProductIds(CartAdd(cart, item)) == if InCart(cart, item.productId) then ProductIds(cart)
                                               else ProductIds(cart) + [item.productId]
  {
    ProductIndexFound(cart, item.productId);
  }

  /** Replaying onto a cart with one line per product lists the cart's products and then each
      newly replayed product once, in order of first appearance. */
  lemma {:induction false} CartReplayOrder(cart: seq<CartItem>, items: seq<CartItem>)
    requires DistinctProducts(cart)
    ensures ProductIds(CartReplay(cart, items)) == Lists.Dedup(ProductIds(cart) + ProductIds(items))
  {
    if items == [] {
      assert ProductIds(cart) + ProductIds(items) == ProductIds(cart);
      Lists.DedupOfDistinct(ProductIds(cart));
    } else {
      var p := items[..|items| - 1];
      var x := items[|items| - 1];
      var pre := ProductIds(cart) + ProductIds(p);
      var all := ProductIds(cart) + ProductIds(items);
      assert all == pre + [x.productId];
      assert all[..|all| - 1] == pre;
      CartReplayOrder(cart, p);
      var r0 := CartReplay(cart, p);
      CartAddProductIds(r0, x);
      assert InCart(r0, x.productId) <==> x.productId in ProductIds(r0);
    }
  }

  lemma FirstLineExtend(cart: seq<CartItem>, p: seq<CartItem>, x: CartItem, pid: string)
    requires InCart(cart, pid) || InCart(p, pid)
    ensures InCart(cart, pid) || InCart(p + [x], pid)
    ensures FirstLine(cart, p, pid) == FirstLine(cart, p + [x], pid)
  {
    if !InCart(cart, pid) {
      var m :| 0 <= m < |p| && p[m].productId == pid;
      assert (p + [x])[m] == p[m];
      ProductIndexPrefix(p, x, pid);
    }
  }

  /** Each line of c is the first line for its product, in the cart or else among the replayed
      lines, its quantity aside. */
  ghost predicate FromFirstLines(cart: seq<CartItem>, items: seq<CartItem>, c: seq<CartItem>) {
    forall k :: 0 <= k < |c| ==>
      (InCart(cart, c[k].productId) || InCart(items, c[k].productId))
      && c[k] == FirstLine(cart, items, c[k].productId).(quantity := c[k].quantity)
  }

  lemma FromFirstLinesExtend(cart: seq<CartItem>, p: seq<CartItem>, x: CartItem, c: seq<CartItem>)
    requires FromFirstLines(cart, p, c)
    ensures FromFirstLines(cart, p + [x], c)
  {
    forall k | 0 <= k < |c|
      ensures InCart(cart, c[k].productId) || InCart(p + [x], c[k].productId)
      ensures FirstLine(cart, p, c[k].productId) == FirstLine(cart, p + [x], c[k].productId)
    {
      FirstLineExtend(cart, p, x, c[k].productId);
    }
  }

  /** A merge changes quantities only, so the lines stay the first lines. */
  lemma FromFirstLinesMerge(cart: seq<CartItem>, items: seq<CartItem>, c: seq<CartItem>, x: CartItem)
    requires FromFirstLines(cart, items, c) && InCart(c, x.productId)
    ensures FromFirstLines(cart, items, CartAdd(c, x))
  {
    ProductIndexFound(c, x.productId);
    var r := CartAdd(c, x);
    assert forall k :: 0 <= k < |r| ==> r[k] == c[k].(quantity := r[k].quantity);
  }

  /** An appended line for a product seen nowhere before is the first line for it. */
  lemma FromFirstLinesAppend(cart: seq<CartItem>, p: seq<CartItem>, c: seq<CartItem>, x: CartItem)
    requires FromFirstLines(cart, p + [x], c)
    requires !InCart(cart, x.productId) && !InCart(p, x.productId)
    ensures FromFirstLines(cart, p + [x], c + [x])
  {
    ProductIndexPrefix(p, x, x.productId);
    assert (p + [x])[|p|] == x;
  }

  /** After a replay onto a cart with one line per product, each line is the first line for its
      product, in the cart or else among the replayed lines, its quantity aside. */
  lemma {:induction false} CartReplayOrigin(cart: seq<CartItem>, items: seq<CartItem>)
    requires DistinctProducts(cart)
    ensures FromFirstLines(cart, items, CartReplay(cart, items))
  {
    if items != [] {
      var p := items[..|items| - 1];
      var x := items[|items| - 1];
      assert items == p + [x];
      CartReplayOrigin(cart, p);
      var r0 := CartReplay(cart, p);
      FromFirstLinesExtend(cart, p, x, r0);
      if InCart(r0, x.productId) {
        FromFirstLinesMerge(cart, items, r0, x);
      } else {
        CartReplayCovers(cart, p);
        ProductIndexFound(r0, x.productId);
        FromFirstLinesAppend(cart, p, r0, x);
        assert CartReplay(cart, items) == r0 + [x];
      }
    }
  }

  /** ADD_TO_CART never makes a product disappear from the cart and always leaves the added
      product present. */
  lemma AddKeepsProductsPresent(s: State, item: CartItem)
    ensures var c := Reduce(s, AddToCart(item)).cart;
      && InCart(c, item.productId)
      && forall pid :: InCart(s.cart, pid) ==> InCart(c, pid)
  {
    var c := Reduce(s, AddToCart(item)).cart;
    if InCart(s.cart, item.productId) {
      AddToCartMerges(s, item);
      assert forall k :: 0 <= k < |c| ==> c[k].productId == s.cart[k].productId;
    } else {
      AddToCartAppends(s, item);
      assert c[|s.cart|] == item;
      assert forall k :: 0 <= k < |s.cart| ==> c[k] == s.cart[k];
    }
  }

  // ---------------------------------------------------------------- the admin account

  const AdminEmail := "admin@fixderma.com"
  const AdminPassword := "admin123"

  /** The built-in administrator, stamped with the load time. */
  function AdminUser(now: string): (u: User)
    ensures u.email == AdminEmail && u.password == AdminPassword && u.isAdmin
  {
    User("1", "Admin User", AdminEmail, AdminPassword, "+91-9876543210",
         "123 Admin Street, Mumbai, India", true, now)
  }

  /** `users.findIndex(u => u.email === email)`, with |users| for "not found". */
  function EmailIndex(users: seq<User>, email: string): (i: nat)
    ensures i <= |users|
    ensures i < |users| ==> users[i].email == email
    ensures forall k :: 0 <= k < i ==> users[k].email != email
  {
    Lists.FindIndex(users, (u: User) => u.email == email)
  }

  /** Saved users after the admin check: the admin is appended when missing, and given the
      default password when its password is empty. */
  function WithAdmin(users: seq<User>, now: string): seq<User> {
    var i := EmailIndex(users, AdminEmail);
    if i == |users| then users + [AdminUser(now)]
    else if users[i].password == "" then users[i := users[i].(password := AdminPassword)]
    else users
  }

  /** After the check an account with the admin e-mail exists and the first one has a
      password; every other saved user is untouched. */
  lemma WithAdminEnsures(users: seq<User>, now: string)
    ensures var r := WithAdmin(users, now);
      var i := EmailIndex(r, AdminEmail);
      && i < |r| && r[i].password != ""
      && |users| <= |r| <= |users| + 1
      && (forall k :: 0 <= k < |users| && users[k].email != AdminEmail ==> r[k] == users[k])
      && (EmailIndex(users, AdminEmail) == |users| ==> r == users + [AdminUser(now)])
      && (EmailIndex(users, AdminEmail) < |users| ==> |r| == |users|)
    ensures var r := WithAdmin(users, now);
      var j := EmailIndex(users, AdminEmail);
      && (j < |users| && users[j].password != "" ==> r == users)
      && (j < |users| && users[j].password == "" ==>
            r == users[j := users[j].(password := AdminPassword)])
  {
    var r := WithAdmin(users, now);
    var j := EmailIndex(users, AdminEmail);
    if j == |users| {
      assert r[|users|].email == AdminEmail;
      assert EmailIndex(r, AdminEmail) == |users|;
    } else {
      assert forall k :: 0 <= k < |r| ==> r[k].email == users[k].email;
      var i := EmailIndex(r, AdminEmail);
      assert i == j;
    }
  }

  /** The load step's admin check, done in place on the parsed array: look the admin up, then
      either push a fresh admin or fill in an empty password. */
  method EnsureAdmin(users: seq<User>, now: string) returns (r: seq<User>)
    ensures r == WithAdmin(users, now)
    ensures EmailIndex(r, AdminEmail) < |r|
  {
    var i := 0;
    while i < |users| && users[i].email != AdminEmail
      invariant 0 <= i <= |users|
      invariant forall k :: 0 <= k < i ==> users[k].email != AdminEmail
    {
      i := i + 1;
    }
    r := users;
    if i == |users| {
      r := r + [AdminUser(now)];
    } else if r[i].password == "" {
      r := r[i := r[i].(password := AdminPassword)];
    }
    WithAdminEnsures(users, now);
  }

  /** What the browser had saved, already parsed; None for a missing key. */
  datatype Saved = Saved(
    products: Option<seq<Product>>,
    users: Option<seq<User>>,
    orders: Option<seq<Order>>,
    cart: Option<seq<CartItem>>,
    wishlist: Option<seq<string>>,
    currentUser: Option<Option<User>>)

  /** The state after the load step's dispatches, starting from s. */
  function Loaded(s: State, saved: Saved, seed: seq<Product>, categories: seq<Category>, now: string)
    : State
  {
    State(
      if saved.products.Some? && |saved.products.value| > 0 then saved.products.value else seed,
      if saved.users.Some? then WithAdmin(saved.users.value, now) else [AdminUser(now)],
      if saved.orders.Some? then saved.orders.value else s.orders,
      categories,
      if saved.cart.Some? then CartReplay(s.cart, saved.cart.value) else s.cart,
      if saved.wishlist.Some? then WishlistReplay(s.wishlist, saved.wishlist.value) else s.wishlist,
      if saved.currentUser.Some? then saved.currentUser.value else Some(AdminUser(now)),
      s.searchQuery,
      s.selectedCategory)
  }

  /** The cart rebuilt from saved lines: one line per saved product, in order of first
      appearance, each the first saved line for its product, its quantity aside; with distinct
      saved entry ids every product holds the units saved for it. */
  ghost predicate CartRestored(items: seq<CartItem>, c: seq<CartItem>) {
    && DistinctProducts(c)
    && ProductIds(c) == Lists.Dedup(ProductIds(items))
    && (forall k :: 0 <= k < |c| ==>
          InCart(items, c[k].productId)
          && c[k] == items[ProductIndex(items, c[k].productId)].(quantity := c[k].quantity))
    && (DistinctEntryIds(items) ==> forall pid :: Units(c, pid) == Units(items, pid))
  }

  /** Replaying saved lines onto the empty cart restores them. */
  lemma ReplayOntoEmpty(items: seq<CartItem>)
    ensures CartRestored(items, CartReplay([], items))
  {
    var c := CartReplay([], items);
    assert ProductIds([]) + ProductIds(items) == ProductIds(items);
    CartReplayCovers([], items);
    CartReplayOrder([], items);
    CartReplayOrigin([], items);
    FirstLinesOfSaved(items, c);
    if DistinctEntryIds(items) {
      ReplayUnitsOntoEmpty(items);
    }
  }

  lemma FirstLinesOfSaved(items: seq<CartItem>, c: seq<CartItem>)
    requires FromFirstLines([], items, c)
    ensures forall k :: 0 <= k < |c| ==>
              InCart(items, c[k].productId)
              && c[k] == items[ProductIndex(items, c[k].productId)].(quantity := c[k].quantity)
  {
    forall k | 0 <= k < |c|
      ensures InCart(items, c[k].productId)
      ensures c[k] == items[ProductIndex(items, c[k].productId)].(quantity := c[k].quantity)
    {
      assert !InCart([], c[k].productId);
    }
  }

  lemma ReplayUnitsOntoEmpty(items: seq<CartItem>)
    requires DistinctEntryIds(items)
    ensures forall pid :: Units(CartReplay([], items), pid) == Units(items, pid)
  {
    assert [] + items == items;
    forall pid ensures Units(CartReplay([], items), pid) == Units(items, pid) {
      CartReplayUnits([], items, pid);
    }
  }

  /** Loading onto the initial state: the catalogue is the saved one unless missing or empty,
      an account with the admin e-mail exists (admin flag as saved), the cart is the saved lines merged per product, the wishlist is the saved ids without repeats, and someone is logged in unless
      a null user was saved. */
  lemma LoadFromInitial(saved: Saved, seed: seq<Product>, categories: seq<Category>, now: string)
    ensures var s := Loaded(InitialState, saved, seed, categories, now);
      && s.products == (if saved.products.Some? && |saved.products.value| > 0
                        then saved.products.value else seed)
      && EmailIndex(s.users, AdminEmail) < |s.users|
      && s.orders == (if saved.orders.Some? then saved.orders.value else [])
      && DistinctProducts(s.cart)
      && (saved.cart.None? ==> s.cart == [])
      && (saved.cart.Some? ==> CartRestored(saved.cart.value, s.cart))
      && s.wishlist == (if saved.wishlist.Some? then Lists.Dedup(saved.wishlist.value) else [])
      && s.currentUser == (if saved.currentUser.Some? then saved.currentUser.value
                           else Some(AdminUser(now)))
      && s.categories == categories
  {
    if saved.users.Some? {
      WithAdminEnsures(saved.users.value, now);
    } else {
      assert EmailIndex([AdminUser(now)], AdminEmail) == 0;
    }
    if saved.cart.Some? { ReplayOntoEmpty(saved.cart.value); }
    if saved.wishlist.Some? {
      WishlistReplayDedups([], saved.wishlist.value);
      assert [] + saved.wishlist.value == saved.wishlist.value;
    }
  }

  // ---------------------------------------------------------------- the store object

  /** The `useReducer` store: the current state, changed only by dispatching actions. */
  class Store {
    var state: State

    constructor ()
      ensures state == InitialState
    {
      state := InitialState;
    }

    method Dispatch(a: Action)
      modifies this
      ensures state == Reduce(old(state), a)
    {
      state := Reduce(state, a);
    }

    /** Dispatch several actions one after another, as a handler does. */
    method DispatchAll(actions: seq<Action>)
      modifies this
      ensures state == ReduceAll(old(state), actions)
    {
      for i := 0 to |actions|
        invariant state == ReduceAll(old(state), actions[..i])
      {
        assert actions[..i + 1][..i] == actions[..i];
        Dispatch(actions[i]);
      }
      assert actions[..|actions|] == actions;
    }

    /** The mount-time effect: pick the saved or seed catalogue, check the admin account,
        restore orders, replay the saved cart and wishlist one dispatch per entry, restore or
        auto-login the current user, and install the categories. */
    method Load(saved: Saved, seed: seq<Product>, categories: seq<Category>, now: string)
      modifies this
      ensures state == Loaded(old(state), saved, seed, categories, now)
    {
      LoadCatalogue(saved.products, seed);
      LoadUsers(saved.users, now);
      LoadOrders(saved.orders);
      LoadCart(saved.cart);
      LoadWishlist(saved.wishlist);
      LoadCurrentUser(saved.currentUser, now);
      Dispatch(SetCategories(categories));
    }

    /** The saved catalogue unless it is missing or empty, else the seed catalogue. */
    method LoadCatalogue(products: Option<seq<Product>>, seed: seq<Product>)
      modifies this
      ensures state == old(state).(products :=
                if products.Some? && |products.value| > 0 then products.value else seed)
    {
      if products.Some? && |products.value| > 0 {
        Dispatch(SetProducts(products.value));
      } else {
        Dispatch(SetProducts(seed));
      }
    }

    /** The saved users with the admin check applied, or the admin alone. */
    method LoadUsers(users: Option<seq<User>>, now: string)
      modifies this
      ensures state == old(state).(users :=
                if users.Some? then WithAdmin(users.value, now) else [AdminUser(now)])
    {
      if users.Some? {
        var checked := EnsureAdmin(users.value, now);
        Dispatch(SetUsers(checked));
      } else {
        Dispatch(SetUsers([AdminUser(now)]));
      }
    }

    method LoadOrders(orders: Option<seq<Order>>)
      modifies this
      ensures state == old(state).(orders := if orders.Some? then orders.value else old(state).orders)
    {
      if orders.Some? {
        Dispatch(SetOrders(orders.value));
      }
    }

    method LoadCart(cart: Option<seq<CartItem>>)
      modifies this
      ensures state == old(state).(cart :=
                if cart.Some? then CartReplay(old(state).cart, cart.value) else old(state).cart)
    {
      if cart.Some? {
        ReplayCart(cart.value);
      }
    }

    method LoadWishlist(wishlist: Option<seq<string>>)
      modifies this
      ensures state == old(state).(wishlist :=
                if wishlist.Some? then WishlistReplay(old(state).wishlist, wishlist.value)
                else old(state).wishlist)
    {
      if wishlist.Some? {
        ReplayWishlist(wishlist.value);
      }
    }

    /** The saved user (possibly a saved logged-out null), or the admin when nothing is saved. */
    method LoadCurrentUser(currentUser: Option<Option<User>>, now: string)
      modifies this
      ensures state == old(state).(currentUser :=
                if currentUser.Some? then currentUser.value else Some(AdminUser(now)))
    {
      if currentUser.Some? {
        Dispatch(SetCurrentUser(currentUser.value));
      } else {
        Dispatch(SetCurrentUser(Some(AdminUser(now))));
      }
    }

    /** `cartItems.forEach(item => dispatch(ADD_TO_CART))`. */
    method ReplayCart(items: seq<CartItem>)
      modifies this
      ensures state == old(state).(cart := CartReplay(old(state).cart, items))
    {
      for i := 0 to |items|
        invariant state == old(state).(cart := CartReplay(old(state).cart, items[..i]))
      {
        Dispatch(AddToCart(items[i]));
        assert items[..i + 1][..i] == items[..i];
      }
      assert items[..|items|] == items;
    }

    /** `wishlistItems.forEach(id => dispatch(ADD_TO_WISHLIST))`. */
    method ReplayWishlist(ids: seq<string>)
      modifies this
      ensures state == old(state).(wishlist := WishlistReplay(old(state).wishlist, ids))
    {
      for i := 0 to |ids|
        invariant state == old(state).(wishlist := WishlistReplay(old(state).wishlist, ids[..i]))
      {
        Dispatch(AddToWishlist(ids[i]));
        assert ids[..i + 1][..i] == ids[..i];
      }
      assert ids[..|ids|] == ids;
    }
  }
}
