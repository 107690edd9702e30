/** The storefront's records (src/types/index.ts). Prices are whole rupees, ratings are
    integer tenths of a star, quantities are plain integers because the store accepts any
    number for a cart line. */
module Types {

  datatype Option<T> = None | Some(value: T)

  /** The five states an order can be in; the admin page may move an order between any two. */
  datatype OrderStatus = Pending | Processing | Shipped | Delivered | Cancelled

  datatype Product = Product(
    id: string,
    name: string,
    price: nat,
    originalPrice: Option<nat>,
    image: string,
    images: seq<string>,
    additionalImages: Option<seq<string>>,
    category: string,
    description: string,
    keyHighlights: seq<string>,
    reviews: nat,
    rating: nat,
    inStock: bool,
    sizes: Option<seq<string>>,
    isOnSale: Option<bool>)

  datatype User = User(
    id: string,
    name: string,
    email: string,
    password: string,
    phone: string,
    address: string,
    isAdmin: bool,
    createdAt: string)

  /** A cart line: its own entry id, the product it refers to and a quantity. */
  datatype CartItem = CartItem(
    id: string,
    productId: string,
    quantity: int,
    size: Option<string>,
    description: Option<string>)

  datatype CustomerInfo = CustomerInfo(
    fullName: string,
    email: string,
    phone: string,
    address: string,
    city: string,
    state: string,
    pincode: string)

  datatype Order = Order(
    id: string,
    userId: string,
    items: seq<CartItem>,
    total: int,
    status: OrderStatus,
    createdAt: string,
    shippingAddress: string,
    paymentMethod: Option<string>,
    customerInfo: Option<CustomerInfo>)

  datatype Category = Category(id: string, name: string, image: string, description: string)

  /** The product a cart line refers to: the first catalogue entry with that id (Array.find). */
  function FindProduct(products: seq<Product>, id: string): (r: Option<Product>)
    ensures r.Some? <==> exists i :: 0 <= i < |products| && products[i].id == id
    ensures r.Some? ==> r.value in products && r.value.id == id
    ensures r.Some? ==> exists i :: 0 <= i < |products| && products[i] == r.value
                          && forall k :: 0 <= k < i ==> products[k].id != id
  {
    if products == [] then None
    else if products[0].id == id then Some(products[0])
    else
      var r := FindProduct(products[1..], id);
      if r.Some? then
        ghost var i :| 0 <= i < |products[1..]| && products[1..][i] == r.value
                       && forall k :: 0 <= k < i ==> products[1..][k].id != id;
        assert products[i + 1] == r.value;
        r
      else r
  }
}
