/** The checkout page (src/pages/CheckoutPage.tsx): the shipping form's starting values and the
    place-order handler, which records an order built from the cart and then empties the cart.
    The totals are the cart page's. */
module CheckoutPage {
  import opened Types
  import opened AppContext
  import CartPage

  /** The form starts from the logged-in user's name, e-mail, phone and address; city, state
      and pincode start blank. */
  function InitialShippingInfo(current: Option<User>): (r: CustomerInfo)
    ensures r.city == "" && r.state == "" && r.pincode == ""
    ensures current.None? ==> r == CustomerInfo("", "", "", "", "", "", "")
    ensures current.Some? ==> r.fullName == current.value.name && r.email == current.value.email
                              && r.phone == current.value.phone && r.address == current.value.address
  {
    if current.None? then CustomerInfo("", "", "", "", "", "", "")
    else
      var u := current.value;
      CustomerInfo(u.name, u.email, u.phone, u.address, "", "", "")
  }

  /** `${address}, ${city}, ${state} - ${pincode}`. */
  function ShippingAddress(info: CustomerInfo): string {
    info.address + ", " + info.city + ", " + info.state + " - " + info.pincode
  }

  /** The order recorded for the current cart. */
  function NewOrder(s: State, user: User, info: CustomerInfo, payment: string, tax: int,
                    id: string, now: string): (o: Order)
    requires CartPage.Resolves(s.products, s.cart)
    ensures o.items == s.cart && o.status == Pending && o.userId == user.id
    ensures o.total == CartPage.Total(CartPage.Subtotal(s.products, s.cart), tax)
  {
    Order(id, user.id, s.cart, CartPage.Total(CartPage.Subtotal(s.products, s.cart), tax), Pending,
          now, ShippingAddress(info), Some(payment), Some(info))
  }

  /** `handlePlaceOrder`: nothing without a logged-in user (the page alerts and goes to the
      login page); an empty cart never reaches the form (the page redirects to the cart);
      otherwise ADD_ORDER then CLEAR_CART. */
  function PlaceOrderActions(s: State, info: CustomerInfo, payment: string, tax: int,
                             id: string, now: string): (r: seq<Action>)
    requires CartPage.Resolves(s.products, s.cart)
    ensures r == [] <==> s.currentUser.None? || s.cart == []
    ensures r != [] ==> |r| == 2 && r[0].AddOrder? && r[1] == ClearCart
  {
    if s.currentUser.None? || s.cart == [] then []
    else [AddOrder(NewOrder(s, s.currentUser.value, info, payment, tax, id, now)), ClearCart]
  }

  /** Without a user, or with an empty cart, placing an order changes nothing. */
  lemma PlaceOrderRefused(s: State, info: CustomerInfo, payment: string, tax: int, id: string, now: string)
    requires CartPage.Resolves(s.products, s.cart)
    requires s.currentUser.None? || s.cart == []
    ensures ReduceAll(s, PlaceOrderActions(s, info, payment, tax, id, now)) == s
  {
  }

  /** With a user and a non-empty cart, exactly one order is appended: it holds the cart as it
      was, the computed total, status pending, the user's id and the formatted address; the cart
      is then empty and nothing else changes. */
  lemma PlaceOrderRecords(s: State, info: CustomerInfo, payment: string, tax: int, id: string, now: string)
    requires CartPage.Resolves(s.products, s.cart)
    requires s.currentUser.Some? && s.cart != []
    ensures var t := ReduceAll(s, PlaceOrderActions(s, info, payment, tax, id, now));
      && |t.orders| == |s.orders| + 1
      && t.orders[..|s.orders|] == s.orders
      && var o := t.orders[|s.orders|];
      && o.items == s.cart
      && o.total == CartPage.Subtotal(s.products, s.cart)
                    + CartPage.Shipping(CartPage.Subtotal(s.products, s.cart)) + tax
      && o.status == Pending
      && o.userId == s.currentUser.value.id
      && o.shippingAddress == info.address + ", " + info.city + ", " + info.state + " - " + info.pincode
      && o.customerInfo == Some(info) && o.paymentMethod == Some(payment)
      && t.cart == []
      && t == s.(orders := t.orders, cart := [])
  {
    var o := NewOrder(s, s.currentUser.value, info, payment, tax, id, now);
    assert PlaceOrderActions(s, info, payment, tax, id, now) == [AddOrder(o), ClearCart];
    AddThenClear(s, o);
    assert (s.orders + [o])[..|s.orders|] == s.orders;
  }

  lemma AddThenClear(s: State, o: Order)
    ensures ReduceAll(s, [AddOrder(o), ClearCart]) == s.(orders := s.orders + [o], cart := [])
  {
    ReduceAllTwo(s, AddOrder(o), ClearCart);
  }

  method HandlePlaceOrder(store: Store, info: CustomerInfo, payment: string, tax: int,
                          id: string, now: string)
    requires CartPage.Resolves(store.state.products, store.state.cart)
    modifies store
    ensures store.state == ReduceAll(old(store.state), PlaceOrderActions(old(store.state), info, payment, tax, id, now))
  {
    store.DispatchAll(PlaceOrderActions(store.state, info, payment, tax, id, now));
  }
}
