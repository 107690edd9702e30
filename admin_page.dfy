/** The admin page (src/pages/AdminPage.tsx): the product form and the record it builds, the
    edit handler that fills the form back from a product, deletion, order status changes and
    the revenue figures. */
module AdminPage {
  import opened Types
  import opened AppContext
  import Text
  import CartPage
  import CheckoutPage

  /** The picture used when the main image field is left blank. */
  const DefaultImage := "https://images.pexels.com/photos/3685530/pexels-photo-3685530.jpeg?auto=compress&cs=tinysrgb&w=500"

  /** The product form. Numeric fields hold the numbers the text boxes convert to; a blank
      original price is None. Highlights are one text with a line per highlight, sizes one
      comma-separated text. */
  datatype ProductForm = ProductForm(
    name: string,
    price: nat,
    originalPrice: Option<nat>,
    image: string,
    image1: string,
    image2: string,
    image3: string,
    image4: string,
    category: string,
    description: string,
    keyHighlights: string,
    reviews: nat,
    rating: nat,
    inStock: bool,
    sizes: string,
    isOnSale: bool)

  /** The blank form `resetForm` restores. */
  const EmptyForm := ProductForm("", 0, None, "", "", "", "", "", "", "", "", 0, 0, true, "", false)

  function Slots(f: ProductForm): seq<string> {
    [f.image1, f.image2, f.image3, f.image4]
  }

  function MainImage(f: ProductForm): (r: string)
    ensures r != ""
    ensures f.image != "" ==> r == f.image
  {
    if f.image != "" then f.image else DefaultImage
  }

  /** `text.split('\n').filter(Boolean)`. */
  function Highlights(text: string): (r: seq<string>)
    ensures forall i :: 0 <= i < |r| ==> r[i] != "" && '\n' !in r[i]
  {
    var parts := Text.Split(text, '\n');
    var r := Text.NonEmpty(parts);
    assert forall i :: 0 <= i < |r| ==> r[i] in parts;
    r
  }

  /** `text ? text.split(',').map(s => s.trim()) : undefined`: blank gives None, otherwise one
      trimmed part per comma-separated piece, empty pieces kept. */
  function SizesOf(text: string): (r: Option<seq<string>>)
    ensures r.None? <==> text == ""
    ensures r.Some? ==> |r.value| == |Text.Split(text, ',')|
                        && forall i :: 0 <= i < |r.value| ==> Text.Trimmed(r.value[i])
  {
    if text != "" then Some(Text.TrimAll(Text.Split(text, ','))) else None
  }

  /** The record `handleSubmit` builds: the edited product's id (unless blank) or a fresh one. */
  function BuildProduct(f: ProductForm, editing: Option<Product>, freshId: string): Product {
    Product(
      if editing.Some? && editing.value.id != "" then editing.value.id else freshId,
      f.name,
      f.price,
      f.originalPrice,
      MainImage(f),
      Text.NonEmpty([MainImage(f)] + Slots(f)),
      Some(Text.NonEmpty(Slots(f))),
      f.category,
      f.description,
      Highlights(f.keyHighlights),
      f.reviews,
      f.rating,
      f.inStock,
      SizesOf(f.sizes),
      Some(f.isOnSale))
  }

  /** The gallery is the main image followed by the filled slots: one to five pictures, none
      blank, and every filled slot is among them. */
  lemma ImagesShape(f: ProductForm, editing: Option<Product>, freshId: string)
    ensures var p := BuildProduct(f, editing, freshId);
      && p.image != "" && (f.image != "" ==> p.image == f.image)
      && p.additionalImages.Some?
      && p.images == [p.image] + p.additionalImages.value
      && 1 <= |p.images| <= 5
      && (forall i :: 0 <= i < |p.images| ==> p.images[i] != "")
      && (forall i :: 0 <= i < 4 && Slots(f)[i] != "" ==> Slots(f)[i] in p.additionalImages.value)
  {
    GalleryIsMainThenSlots(f);
    var add := Text.NonEmpty(Slots(f));
    var images := [MainImage(f)] + add;
    forall i | 0 <= i < |images| ensures images[i] != "" {
      if i > 0 { assert images[i] == add[i - 1] && add[i - 1] in add; }
    }
    forall i | 0 <= i < 4 && Slots(f)[i] != "" ensures Slots(f)[i] in add {
      assert Slots(f)[i] in Slots(f);
    }
  }

  lemma GalleryIsMainThenSlots(f: ProductForm)
    ensures Text.NonEmpty([MainImage(f)] + Slots(f)) == [MainImage(f)] + Text.NonEmpty(Slots(f))
  {
    Text.NonEmptyConcat([MainImage(f)], Slots(f));
    assert [MainImage(f)][1..] == [];
  }
  /** Submitting while editing keeps the edited id and updates; otherwise it adds under the
      fresh id. */
  function SubmitAction(f: ProductForm, editing: Option<Product>, freshId: string): (a: Action)
    ensures editing.Some? ==> a.UpdateProduct?
    ensures editing.None? ==> a == AddProduct(BuildProduct(f, editing, freshId)) && a.product.id == freshId
    ensures editing.Some? && editing.value.id != "" ==> a.product.id == editing.value.id
  {
    if editing.Some? then UpdateProduct(BuildProduct(f, editing, freshId))
    else AddProduct(BuildProduct(f, editing, freshId))
  }

  // ---------------------------------------------------------------- filling the form back

  /** Slot i of the edit form: the i-th additional image, or blank. */
  function SlotFrom(add: seq<string>, i: nat): string {
    if i < |add| then add[i] else ""
  }

  /** `handleEdit`'s form for a product. */
  function EditForm(p: Product): (f: ProductForm)
    ensures f.name == p.name && f.price == p.price && f.image == p.image
  {
    var add := if p.additionalImages.Some? then p.additionalImages.value else [];
    ProductForm(
      p.name,
      p.price,
      p.originalPrice,
      p.image,
      SlotFrom(add, 0), SlotFrom(add, 1), SlotFrom(add, 2), SlotFrom(add, 3),
      p.category,
      p.description,
      Text.Join(p.keyHighlights, "\n"),
      p.reviews,
      p.rating,
      p.inStock,
      if p.sizes.Some? then Text.Join(p.sizes.value, ", ") else "",
      p.isOnSale == Some(true))
  }

  /** A product the form can reproduce: an id and a main image, at most four non-blank
      additional images that follow the main image in the gallery, highlights that are
      non-blank single lines, sizes (if any) that are trimmed, comma-free and not the empty or
      blank-only list, and an explicit sale flag. */
  ghost predicate Canonical(p: Product) {
    && p.id != "" && p.image != ""
    && p.additionalImages.Some?
    && |p.additionalImages.value| <= 4
    && (forall i :: 0 <= i < |p.additionalImages.value| ==> p.additionalImages.value[i] != "")
    && p.images == [p.image] + p.additionalImages.value
    && (forall i :: 0 <= i < |p.keyHighlights| ==> p.keyHighlights[i] != "" && '\n' !in p.keyHighlights[i])
    && (p.sizes.Some? ==>
          && p.sizes.value != [] && p.sizes.value != [""]
          && forall i :: 0 <= i < |p.sizes.value| ==>
               Text.Trimmed(p.sizes.value[i]) && ',' !in p.sizes.value[i])
    && p.isOnSale.Some?
  }

  lemma SlotsRoundTrip(add: seq<string>)
    requires |add| <= 4 && forall i :: 0 <= i < |add| ==> add[i] != ""
    ensures Text.NonEmpty([SlotFrom(add, 0), SlotFrom(add, 1), SlotFrom(add, 2), SlotFrom(add, 3)]) == add
  {
    var l := [SlotFrom(add, 0), SlotFrom(add, 1), SlotFrom(add, 2), SlotFrom(add, 3)];
    var blanks := l[|add|..];
    assert l == add + blanks;
    Text.NonEmptyConcat(add, blanks);
    Text.NonEmptyKeepsAll(add);
    Text.NonEmptyOfBlanks(blanks);
  }

  /** Highlights survive the newline join and split. */
  lemma HighlightsRoundTrip(l: seq<string>)
    requires forall i :: 0 <= i < |l| ==> l[i] != "" && '\n' !in l[i]
    ensures Highlights(Text.Join(l, "\n")) == l
  {
    if l == [] {
      assert Text.Split("", '\n') == [""];
    } else {
      assert "\n" == ['\n'] + "";
      Text.SplitJoin(l, '\n', "");
      var parts := Text.Split(Text.Join(l, "\n"), '\n');
      assert forall i :: 1 <= i < |l| ==> "" + l[i] == l[i];
      assert parts == l;
      Text.NonEmptyKeepsAll(l);
    }
  }

  /** Sizes survive the ", " join, the comma split and the trim. */
  lemma SizesRoundTrip(l: seq<string>)
    requires l != [] && l != [""]
    requires forall i :: 0 <= i < |l| ==> Text.Trimmed(l[i]) && ',' !in l[i]
    ensures SizesOf(Text.Join(l, ", ")) == Some(l)
  {
    assert ", " == [','] + " ";
    JoinNotBlank(l, ", ");
    Text.SplitJoin(l, ',', " ");
    TrimParts(l, Text.Split(Text.Join(l, ", "), ','));
  }

  lemma JoinNotBlank(l: seq<string>, sep: string)
    requires l != [] && l != [""] && sep != ""
    ensures Text.Join(l, sep) != ""
  {
    if |l| == 1 {
      assert l == [l[0]];
    } else {
      assert |Text.Join(l, sep)| >= |sep|;
    }
  }

  lemma TrimPart(x: string)
    requires Text.Trimmed(x)
    ensures Text.Trim(" " + x) == x
  {
    assert " " + x == [' '] + x;
    Text.TrimAfterSpace(x);
  }

  lemma TrimParts(l: seq<string>, parts: seq<string>)
    requires |parts| == |l| && l != []
    requires forall i :: 0 <= i < |l| ==> Text.Trimmed(l[i])
    requires parts[0] == l[0]
    requires forall i :: 1 <= i < |l| ==> parts[i] == " " + l[i]
    ensures Text.TrimAll(parts) == l
  {
    var r := Text.TrimAll(parts);
    forall i | 0 <= i < |l| ensures r[i] == l[i] {
      if i == 0 {
        Text.TrimAfterSpace(l[0]);
      } else {
        TrimPart(l[i]);
      }
    }
  }

  /** Blank sizes, and an empty size list, both come back from the form as no sizes. */
  lemma EmptySizesToNone(p: Product, editing: Option<Product>, freshId: string)
    requires p.sizes.None? || p.sizes == Some([])
    ensures BuildProduct(EditForm(p), editing, freshId).sizes.None?
  {
  }

  /** Editing a product and saving the form unchanged rebuilds the very same product, as far as
      the fields of the product record go. */
  lemma EditRoundTrip(p: Product, freshId: string)
    requires Canonical(p)
    ensures BuildProduct(EditForm(p), Some(p), freshId) == p
  {
    var f := EditForm(p);
    var add := p.additionalImages.value;
    SlotsRoundTrip(add);
    assert Slots(f) == [SlotFrom(add, 0), SlotFrom(add, 1), SlotFrom(add, 2), SlotFrom(add, 3)];
    var l := [MainImage(f)] + Slots(f);
    assert l[0] == MainImage(f) && l[1..] == Slots(f);
    HighlightsRoundTrip(p.keyHighlights);
    if p.sizes.Some? { SizesRoundTrip(p.sizes.value); }
    if p.isOnSale.value {
      assert f.isOnSale;
    } else {
      assert !f.isOnSale;
    }
  }

  /** Saving an unchanged edit of a catalogue product leaves the state, as recorded here, as it
      was. */
  lemma EditUnchangedIsNoOp(s: State, p: Product, freshId: string)
    requires Canonical(p)
    requires forall k :: 0 <= k < |s.products| && s.products[k].id == p.id ==> s.products[k] == p
    ensures Reduce(s, SubmitAction(EditForm(p), Some(p), freshId)) == s
  {
    EditRoundTrip(p, freshId);
    assert ProductsReplace(s.products, p) == s.products;
  }

  // ---------------------------------------------------------------- the form object

  /** The form's state: the fields, the product being edited, and whether the form is open. */
  class AdminForm {
    var form: ProductForm
    var editing: Option<Product>
    var showForm: bool

    constructor ()
      ensures form == EmptyForm && editing.None? && !showForm
    {
      form := EmptyForm;
      editing := None;
      showForm := false;
    }

    /** `resetForm`. */
    method Reset()
      modifies this
      ensures form == EmptyForm && editing.None? && !showForm
    {
      form := EmptyForm;
      editing := None;
      showForm := false;
    }

    /** `handleEdit`: remember the product, fill the form from it, open the form. */
    method Edit(p: Product)
      modifies this
      ensures editing == Some(p) && form == EditForm(p) && showForm
    {
      editing := Some(p);
      form := EditForm(p);
      showForm := true;
    }

    /** `handleSubmit`: dispatch the built record, then reset the form. */
    method Submit(store: Store, freshId: string)
      modifies this, store
      ensures store.state == Reduce(old(store.state), SubmitAction(old(form), old(editing), freshId))
      ensures form == EmptyForm && editing.None? && !showForm
    {
      store.Dispatch(SubmitAction(form, editing, freshId));
      Reset();
    }
  }

  // ---------------------------------------------------------------- delete and order status

  /** `handleDelete`: DELETE_PRODUCT only when the prompt is confirmed. */
  function DeleteActions(productId: string, confirmed: bool): (r: seq<Action>)
    ensures confirmed <==> r == [DeleteProduct(productId)]
    ensures !confirmed <==> r == []
  {
    if confirmed then [DeleteProduct(productId)] else []
  }

  /** `orders.findIndex(o => o.id === id)`, with |orders| for "not found". */
  function OrderIndex(orders: seq<Order>, id: string): (i: nat)
    ensures i <= |orders|
    ensures i < |orders| ==> orders[i].id == id
    ensures forall k :: 0 <= k < i ==> orders[k].id != id
  {
    Lists.FindIndex(orders, (o: Order) => o.id == id)
  }

  /** `handleOrderStatusUpdate`: the found order with the new status, or nothing. */
  function StatusUpdateActions(orders: seq<Order>, orderId: string, status: OrderStatus)
    : (r: seq<Action>)
    ensures r == [] <==> forall k :: 0 <= k < |orders| ==> orders[k].id != orderId
  {
    var i := OrderIndex(orders, orderId);
    if i < |orders| then [UpdateOrder(orders[i].(status := status))] else []
  }

  predicate DistinctOrderIds(orders: seq<Order>) {
    forall i, j :: 0 <= i < j < |orders| ==> orders[i].id != orders[j].id
  }

  /** Any status may follow any other. With distinct order ids the update changes the status
      of that one order and nothing else; an unknown id changes nothing. */
  lemma StatusUpdateEffect(s: State, orderId: string, status: OrderStatus)
    ensures var t := ReduceAll(s, StatusUpdateActions(s.orders, orderId, status));
      var i := OrderIndex(s.orders, orderId);
      && (i == |s.orders| ==> t == s)
      && (i < |s.orders| && DistinctOrderIds(s.orders) ==>
            t == s.(orders := s.orders[i := s.orders[i].(status := status)]))
  {
    var i := OrderIndex(s.orders, orderId);
    if i < |s.orders| {
      ReduceAllOne(s, UpdateOrder(s.orders[i].(status := status)));
      if DistinctOrderIds(s.orders) {
        assert forall k :: 0 <= k < |s.orders| && k != i ==> s.orders[k].id != orderId;
      }
    }
  }

  // ---------------------------------------------------------------- revenue

  /** The sum of all order totals. */
  function TotalRevenue(orders: seq<Order>): int {
    if orders == [] then 0 else TotalRevenue(orders[..|orders| - 1]) + orders[|orders| - 1].total
  }

  /** Total revenue over the number of orders, 0 when there are none. */
  function AverageOrderValue(orders: seq<Order>): (r: real)
    ensures |orders| == 0 ==> r == 0.0
    ensures |orders| > 0 ==> r * (|orders| as real) == TotalRevenue(orders) as real
  {
    if |orders| > 0 then (TotalRevenue(orders) as real) / (|orders| as real) else 0.0
  }

  lemma {:induction false} RevenueReplace(orders: seq<Order>, i: nat, o: Order)
    requires i < |orders|
    ensures TotalRevenue(orders[i := o]) == TotalRevenue(orders) - orders[i].total + o.total
  {
    var n := |orders|;
    var t := orders[i := o];
    assert t[..n - 1] == if i < n - 1 then orders[..n - 1][i := o] else orders[..n - 1];
    if i < n - 1 { RevenueReplace(orders[..n - 1], i, o); }
  }

  /** Changing an order's status never changes the revenue when order ids are distinct. */
  lemma StatusUpdateKeepsRevenue(s: State, orderId: string, status: OrderStatus)
    requires DistinctOrderIds(s.orders)
    ensures TotalRevenue(ReduceAll(s, StatusUpdateActions(s.orders, orderId, status)).orders)
            == TotalRevenue(s.orders)
  {
    StatusUpdateEffect(s, orderId, status);
    var i := OrderIndex(s.orders, orderId);
    if i < |s.orders| { RevenueReplace(s.orders, i, s.orders[i].(status := status)); }
  }

  /** Placing an order raises the revenue by that order's total, which is the cart's total. */
  lemma PlaceOrderAddsRevenue(s: State, info: CustomerInfo, payment: string, tax: int,
                              id: string, now: string)
    requires CartPage.Resolves(s.products, s.cart)
    requires s.currentUser.Some? && s.cart != []
    ensures TotalRevenue(ReduceAll(s, CheckoutPage.PlaceOrderActions(s, info, payment, tax, id, now)).orders)
            == TotalRevenue(s.orders) + CartPage.Total(CartPage.Subtotal(s.products, s.cart), tax)
  {
    CheckoutPage.PlaceOrderRecords(s, info, payment, tax, id, now);
    var t := ReduceAll(s, CheckoutPage.PlaceOrderActions(s, info, payment, tax, id, now)).orders;
    assert t[..|t| - 1] == s.orders;
  }

  method HandleDelete(store: Store, productId: string, confirmed: bool)
    modifies store
    ensures store.state == ReduceAll(old(store.state), DeleteActions(productId, confirmed))
  {
    store.DispatchAll(DeleteActions(productId, confirmed));
  }

  method HandleOrderStatusUpdate(store: Store, orderId: string, status: OrderStatus)
    modifies store
    ensures store.state
            == ReduceAll(old(store.state), StatusUpdateActions(old(store.state).orders, orderId, status))
  {
    store.DispatchAll(StatusUpdateActions(store.state.orders, orderId, status));
  }
}
