# fixderma storefront: a verified model of the store and its pages

The fixderma storefront is a single-page React shop. All of its data sits in one store: a
reducer over products, users, orders, categories, the cart, the wishlist, the logged-in user
and two pieces of search state. The store is filled at start-up from what the browser saved.
The pages only read from the store and dispatch actions to it:

- the product listing filters and sorts the catalogue;
- the cart and checkout pages compute totals and turn the cart into an order;
- the login page signs users in and registers new ones;
- the admin page edits the catalogue and the order statuses;
- the home page picks product rows and turns a slide carousel;
- the detail page and the product card put products in the cart or the wishlist;
- the wishlist page lists and clears the wishlist.

This project models that core in Dafny.

- `AppContext.Reduce` is the reducer, a pure function of the state and one action.
- `AppContext.Store` is the store object. Its field changes only through `Dispatch`.
  `Store.Load` is the start-up step. It carries the administrator check and the one-by-one
  replay of the saved cart and wishlist.
- Each page handler is modelled in two parts. A function gives the actions the handler
  dispatches, for example `CartPage.UpdateQuantityActions`. A `Handle…` method dispatches
  them to a `Store`. Lemmas state what those actions do to the state: the cart line merged or
  removed, the order recorded, the user signed in, and that nothing else changes.
- The sorts the pages use are one stable insertion sort, `ProductOrder.SortBy`, over a
  comparator. `ProductOrder.SortInPlace` is its in-place array version. Sortedness,
  permutation and stability are proved once for every consistent comparator.
- Browser storage, the clock, `confirm` answers and the tax amount are parameters.
  Strings are `seq<char>`. Prices, ratings and counts are integers.

Modules: `Types` (records), `Lists` and `Text` (the array and string operations the pages
use), `ProductOrder`, `AppContext`, `Carousel`, and one module per page or component.

## Model

| member | source | states |
|---|---|---|
| Types.FindProduct | src/pages/CartPage.tsx:13 | `products.find(p => p.id === id)`: found exactly when some product has that id, and the result is such a product |
| AppContext.ProductIndex | src/context/AppContext.tsx:87-89 | index of the first cart line for the product, or the cart length when none; no earlier line has that product |
| Lists.FindIndex | src/pages/AdminPage.tsx:124 | the position `find` returns: the first element that passes, or the length when none does |
| AppContext.ProductIndexFound | src/components/ProductCard.tsx:52 | `cart.some(...)` holds exactly when the first-match index is inside the cart |
| AppContext.ProductIds | src/context/AppContext.tsx:87-89 | the product ids of the cart lines, position by position |
| AppContext.ReduceAllConcat | src/context/AppContext.tsx:138 | dispatching `a + b` equals dispatching `a`, then `b` |
| AppContext.ReduceAllOne | src/context/AppContext.tsx:138 | dispatching a single action is one reducer step |
| AppContext.ReduceAllTwo | src/context/AppContext.tsx:138 | dispatching two actions is two reducer steps in order |
| AppContext.DispatchCart | src/context/AppContext.tsx:86-116 | a cart action changes the cart field and nothing else |
| AppContext.DispatchWishlist | src/context/AppContext.tsx:117-125 | a wishlist action changes the wishlist field and nothing else |
| AppContext.ReduceFrame | src/context/AppContext.tsx:55-135 | each of the 20 actions changes only the field it names; an unrecognised action returns the state unchanged |
| AppContext.AddToCartMerges | src/context/AppContext.tsx:86-99 | ADD_TO_CART for a product already in the cart keeps the length, adds the quantity to the first line for that product, moves no other line and keeps the product ids; with distinct entry ids it is exactly one position update |
| AppContext.AddToCartAppends | src/context/AppContext.tsx:100 | ADD_TO_CART for a product not in the cart appends the payload |
| AppContext.AddSameProductTwice | src/context/AppContext.tsx:86-100 | two ADD_TO_CART actions for a new product give one line with the summed quantity |
| AppContext.RemoveFromCartFilters | src/context/AppContext.tsx:101-105 | REMOVE_FROM_CART keeps exactly the lines with another entry id; an absent id changes nothing; with distinct entry ids it deletes that one position |
| AppContext.UpdateCartQuantitySets | src/context/AppContext.tsx:106-114 | UPDATE_CART_QUANTITY stores the given number, even zero or a negative one, on the lines with that entry id; nothing else changes |
| AppContext.FilterKeepsDistinctProducts | src/context/AppContext.tsx:101-105 | filtering a cart whose lines have distinct products keeps them distinct |
| AppContext.ReduceKeepsProductsDistinct | src/context/AppContext.tsx:55-135 | no action makes two cart lines refer to the same product |
| AppContext.CartAddKeepsDistinct | src/context/AppContext.tsx:86-100 | the ADD_TO_CART merge-or-append keeps product ids distinct |
| AppContext.SameProductsKeepDistinct | src/context/AppContext.tsx:106-114 | a cart with the same product ids position by position keeps distinctness |
| AppContext.ReduceAllKeepsProductsDistinct | src/context/AppContext.tsx:55-135 | distinct products in the cart is an invariant of every action sequence |
| AppContext.WishlistActions | src/context/AppContext.tsx:117-125 | ADD_TO_WISHLIST of a present id returns the very same state, is idempotent, leaves the id present and keeps the list duplicate-free; REMOVE_FROM_WISHLIST removes the id and keeps every other id |
| AppContext.UpdateAndDeleteById | src/context/AppContext.tsx:61-70 | UPDATE_PRODUCT and UPDATE_ORDER replace the entries with the payload's id and keep the length (an unknown id changes nothing); DELETE_PRODUCT keeps exactly the products with another id |
| AppContext.WishlistReplayDedups | src/context/AppContext.tsx:399-404 | replaying saved ids onto a duplicate-free wishlist gives the old list followed by the new ids at their first appearance |
| AppContext.CartReplayCovers | src/context/AppContext.tsx:392-397 | replaying saved cart lines keeps products distinct, loses no product already there and leaves every saved product in the cart |
| AppContext.UnitsConcat | src/context/AppContext.tsx:392-397 | the units of a product in two carts joined are the sum of the units in each |
| AppContext.UnitsUpdate | src/context/AppContext.tsx:93-97 | changing one line's quantity changes its product's units by the difference and no other product's |
| AppContext.CartAddUnits | src/context/AppContext.tsx:86-100 | with distinct entry ids ADD_TO_CART adds the item's quantity to its product's units and leaves every other product's units alone |
| AppContext.CartReplayIds | src/context/AppContext.tsx:392-397 | with distinct entry ids among the cart and the replayed lines, the replay keeps entry ids distinct and uses none from elsewhere |
| AppContext.CartReplayUnits | src/context/AppContext.tsx:392-397 | with distinct entry ids, the replay holds for every product the cart's units plus the replayed units |
| AppContext.CartAddProductIds | src/context/AppContext.tsx:86-100 | ADD_TO_CART keeps the cart's product column when the product is present, and otherwise appends the product |
| AppContext.CartReplayOrder | src/context/AppContext.tsx:392-397 | the replay lists the cart's products, then each newly replayed product once, in order of first appearance |
| AppContext.FirstLine | src/context/AppContext.tsx:87-89 | the line a merge keeps for a product: the cart's first line for it, else the first replayed line; it has that product |
| AppContext.CartReplayOrigin | src/context/AppContext.tsx:392-397 | every line after the replay has a product from the cart or the replayed lines, and is that product's first line with only its quantity changed |
| AppContext.ReplayOntoEmpty | src/context/AppContext.tsx:392-397 | replaying saved lines onto the empty cart restores them: one line per product in first-appearance order, each the first saved line for its product, with the saved units when entry ids are distinct |
| AppContext.AddKeepsProductsPresent | src/context/AppContext.tsx:86-100 | ADD_TO_CART never removes a product from the cart and leaves the added product in it |
| AppContext.AdminUser | src/context/AppContext.tsx:359-368 | the built-in administrator has the admin e-mail, the default password and the admin flag |
| AppContext.EmailIndex | src/context/AppContext.tsx:357 | index of the first user with the e-mail, or the length when none |
| AppContext.WithAdminEnsures | src/context/AppContext.tsx:354-372 | after the admin check an account with the admin e-mail exists (admin flag as saved) and the first such account has a password; it was appended exactly when missing; a first admin with a password leaves the list as it was, and one with an empty password gets the default password in place with every other user unchanged |
| AppContext.EnsureAdmin | src/context/AppContext.tsx:354-372 | the loop finds the admin or appends one, and the result is the admin-checked list |
| AppContext.LoadFromInitial | src/context/AppContext.tsx:140-463 | loading onto the initial state: the saved catalogue unless it is missing or empty, else the seed; an account with the admin e-mail exists (admin flag as saved); the cart is the saved lines merged per product (`CartRestored`: one line per saved product in order of first appearance, each the first saved line for its product, and, with distinct saved entry ids, the units saved for each product); the wishlist is the saved ids without repeats; the saved user, else the admin, is logged in; the categories are set |
| AppContext.Store.constructor | src/context/AppContext.tsx:138 | the store starts in the initial state |
| AppContext.Store.Dispatch | src/context/AppContext.tsx:138 | the new state is the reducer applied to the old state and the action |
| AppContext.Store.DispatchAll | src/context/AppContext.tsx:138 | the new state is the actions folded through the reducer in order |
| AppContext.Store.Load | src/context/AppContext.tsx:140-463 | the state after the start-up dispatches equals `Loaded` of the old state |
| AppContext.Store.LoadCatalogue | src/context/AppContext.tsx:149-352 | only the products change: the saved list when present and non-empty, else the seed |
| AppContext.Store.LoadUsers | src/context/AppContext.tsx:354-386 | only the users change: the saved users with the admin check, or the admin alone |
| AppContext.Store.LoadOrders | src/context/AppContext.tsx:388-390 | only the orders change, and only when some were saved |
| AppContext.Store.LoadCart | src/context/AppContext.tsx:392-397 | only the cart changes: the saved lines are replayed through ADD_TO_CART |
| AppContext.Store.LoadWishlist | src/context/AppContext.tsx:399-404 | only the wishlist changes: the saved ids are replayed through ADD_TO_WISHLIST |
| AppContext.Store.LoadCurrentUser | src/context/AppContext.tsx:406-421 | only the current user changes: the saved value, which may be a saved null, else the administrator |
| AppContext.Store.ReplayCart | src/context/AppContext.tsx:392-397 | dispatching ADD_TO_CART per saved line leaves the cart equal to the replay of those lines |
| AppContext.Store.ReplayWishlist | src/context/AppContext.tsx:399-404 | dispatching ADD_TO_WISHLIST per saved id leaves the wishlist equal to the replay of those ids |
| ProductOrder.CompareAntisymmetric | src/pages/ProductsPage.tsx:49-62 | every sort comparator is antisymmetric |
| ProductOrder.CompareTransitive | src/pages/ProductsPage.tsx:49-62 | every sort comparator is transitive |
| ProductOrder.CompareReflexive | src/pages/ProductsPage.tsx:49-62 | every product ties with itself |
| ProductOrder.ComparatorConsistent | src/pages/ProductsPage.tsx:49-62 | each of the six comparators is a consistent total preorder |
| ProductOrder.Insert | src/pages/ProductsPage.tsx:49 | inserting into a list adds exactly one element |
| ProductOrder.InsertPermutes | src/pages/ProductsPage.tsx:49 | insertion adds exactly the new element to the multiset |
| ProductOrder.SortBy | src/pages/ProductsPage.tsx:49 | the sort keeps the length |
| ProductOrder.SortByPermutes | src/pages/ProductsPage.tsx:49 | the sort is a permutation of its input |
| ProductOrder.InsertMembers | src/pages/ProductsPage.tsx:49 | after insertion the members are the old ones plus the new one |
| ProductOrder.SortedSnoc | src/pages/ProductsPage.tsx:49 | appending an element no smaller than every element keeps a list sorted |
| ProductOrder.InsertSorted | src/pages/ProductsPage.tsx:49 | inserting into a sorted list under a consistent comparator keeps it sorted |
| ProductOrder.SortBySorted | src/pages/ProductsPage.tsx:49 | the sort's output is sorted by the comparator |
| ProductOrder.TiesSnoc | src/pages/ProductsPage.tsx:49 | the elements equal to p in `s + [y]` are those of `s`, then `y` if it ties |
| ProductOrder.InsertTies | src/pages/ProductsPage.tsx:49 | insertion puts the new element after the elements it ties with |
| ProductOrder.SortByStable | src/pages/ProductsPage.tsx:49 | the sort is stable: elements that compare equal keep their input order |
| ProductOrder.SortByStep | src/pages/ProductsPage.tsx:49 | sorting one more element is inserting it into the sorted prefix |
| ProductOrder.InsertPosition | src/pages/ProductsPage.tsx:49 | insertion places the element after the last element not greater than it |
| ProductOrder.SortInPlace | src/pages/ProductsPage.tsx:49-62 | the in-place sort leaves the array equal to the stable sort of its old contents |
| ProductOrder.InsertAt | src/pages/ProductsPage.tsx:49 | one insertion step sorts one more prefix element in place and leaves the suffix alone |
| ProductOrder.ShiftGreater | src/pages/ProductsPage.tsx:49 | the shift loop moves the greater elements one place right and stops after the last element not greater |
| ProductsPage.SortKeyOf | src/pages/ProductsPage.tsx:50-61 | an unknown sort choice sorts by name; the four named choices pick the other keys |
| ProductsPage.StageParam | src/pages/ProductsPage.tsx:20-26 | the URL-parameter stage filters by category only when the parameter is set |
| ProductsPage.StageSearch | src/pages/ProductsPage.tsx:29-34 | the search stage filters by name or description only when the query is non-empty |
| ProductsPage.StageCategory | src/pages/ProductsPage.tsx:37-41 | the category stage filters unless the selection is "all" |
| ProductsPage.FilteredIsPasses | src/pages/ProductsPage.tsx:16-46 | the four filter stages in a row equal one filter by the conjunction of the tests |
| ProductsPage.ShownExactly | src/pages/ProductsPage.tsx:16-64 | the listing holds exactly the catalogue products that pass every filter, as a permutation of the filtered list |
| ProductsPage.ShownOrdered | src/pages/ProductsPage.tsx:49-62 | the listing is sorted by the chosen key, and products the key ranks equal keep their catalogue order |
| ProductsPage.UnfilteredShowsAll | src/pages/ProductsPage.tsx:16-64 | with no filters and every price in range, the listing is a permutation of the whole catalogue |
| ProductsPage.ComputeShown | src/pages/ProductsPage.tsx:16-64 | the effect's filtering and in-place sort produce the specified listing |
| ProductsPage.Settle | src/pages/ProductsPage.tsx:20-22 | with a `?category=` parameter the chosen category becomes the parameter and nothing else changes; without one nothing changes |
| ProductsPage.SettledListing | src/pages/ProductsPage.tsx:16-65 | a second run of the effect changes nothing more; at rest under a parameter the listing is filtered by the parameter alone, whatever category was chosen before |
| ProductsPage.Categories | src/pages/ProductsPage.tsx:67 | the category list starts with "all" |
| ProductsPage.CategoriesOffered | src/pages/ProductsPage.tsx:67 | every product's category is offered, nothing else besides "all", with no repeats unless a category is literally "all" |
| CartPage.Shipping | src/pages/CartPage.tsx:17 | shipping is 0 or 50, and free exactly when the subtotal exceeds 499 |
| CartPage.Total | src/pages/CartPage.tsx:19 | the total lies between subtotal plus tax and that plus 50, and equals subtotal plus tax exactly when shipping is free |
| CartPage.HintAsWritten | src/pages/CartPage.tsx:165-170 | the page's hint appears exactly when the subtotal is below 499, and asks for a positive amount |
| CartPage.HintAsWrittenFallsShort | src/pages/CartPage.tsx:165-170 | adding the amount the hint asks for still leaves shipping charged; at a subtotal of exactly 499 no hint is shown although shipping is charged |
| CartPage.FreeShippingHint | src/pages/CartPage.tsx:17 | a hint appears exactly when shipping is charged, and adding its amount makes shipping free |
| CartPage.CartSummary | src/pages/CartPage.tsx:11-19 | the summary's subtotal is the cart's subtotal and its shipping and total follow from it (total = subtotal + shipping + tax); the hint is the page's own, shown only below 499, so only while shipping is charged, asking for exactly what brings the subtotal to 499 (at 499 itself shipping is charged with no hint) |
| CartPage.SubtotalConcat | src/pages/CartPage.tsx:16 | the subtotal of two carts joined is the sum of their subtotals |
| CartPage.SubtotalSingle | src/pages/CartPage.tsx:16 | a one-line cart's subtotal is that line's price times quantity |
| CartPage.SubtotalReplace | src/pages/CartPage.tsx:16 | replacing a line with one for the same product changes the subtotal by the difference of the two line totals |
| AppContext.MergeTouchesOneLine | src/context/AppContext.tsx:93-97 | with distinct entry ids the quantity merge updates one position |
| CartPage.LineTotalMerge | src/pages/CartPage.tsx:16 | merging quantities adds the line totals |
| CartPage.SubtotalAfterAdd | src/pages/CartPage.tsx:16 | with distinct entry ids, ADD_TO_CART raises the subtotal by the added line's total, whether it merges or appends |
| CartPage.SubtotalDelete | src/pages/CartPage.tsx:16 | deleting a line lowers the subtotal by its line total |
| CartPage.SubtotalAfterRemove | src/pages/CartPage.tsx:16 | with distinct entry ids, REMOVE_FROM_CART lowers the subtotal by the removed line's total |
| CartPage.SubtotalAfterSetQuantity | src/pages/CartPage.tsx:16 | with distinct entry ids, UPDATE_CART_QUANTITY replaces that line's total with the product's price times the new quantity |
| CartPage.UpdateQuantityActions | src/pages/CartPage.tsx:21-27 | one action, which is a removal exactly when the quantity is zero or less |
| CartPage.RemoveItemActions | src/pages/CartPage.tsx:29-31 | removing a line dispatches REMOVE_FROM_CART with its entry id |
| CartPage.UpdateQuantityEffect | src/pages/CartPage.tsx:21-27 | only the cart changes; a quantity of zero or less keeps, in order, exactly the lines with another entry id; otherwise every line with that entry id holds the new quantity and nothing moves |
| CartPage.DecrementFromOneRemoves | src/pages/CartPage.tsx:21-27 | pressing minus on a line of quantity 1 deletes that line |
| CartPage.HandleUpdateQuantity | src/pages/CartPage.tsx:21-27 | the store ends in the state the update actions specify |
| CartPage.HandleRemoveItem | src/pages/CartPage.tsx:29-31 | the store ends in the state the removal specifies |
| CartPage.DeleteStrandsCartLine | src/context/AppContext.tsx:66-70 | DELETE_PRODUCT of a product in the cart leaves the cart as it was while the product lookup for that line fails |
| CartPage.DeleteWithCart | src/context/AppContext.tsx:66-70 | the corrected deletion changes the catalogue as DELETE_PRODUCT does and keeps only cart lines of other products |
| CartPage.DeleteWithCartResolves | src/pages/CartPage.tsx:11-16 | after the corrected deletion every cart line still resolves, no line for the product is left, and every other line stays |
| CheckoutPage.InitialShippingInfo | src/pages/CheckoutPage.tsx:10-18 | the form starts from the logged-in user's name, e-mail, phone and address, with city, state and pincode blank |
| CheckoutPage.NewOrder | src/pages/CheckoutPage.tsx:46-56 | the order holds the cart, is pending, belongs to the current user and carries the cart total |
| CheckoutPage.PlaceOrderActions | src/pages/CheckoutPage.tsx:37-61 | nothing when no one is logged in or the cart is empty; otherwise ADD_ORDER followed by CLEAR_CART |
| CheckoutPage.PlaceOrderRefused | src/pages/CheckoutPage.tsx:40-44 | a refused order leaves the whole state unchanged |
| CheckoutPage.PlaceOrderRecords | src/pages/CheckoutPage.tsx:37-61 | placing an order appends one order with the cart lines, the cart's total (subtotal + shipping + tax), pending status, the user's id and the formatted address, keeps the earlier orders and empties the cart |
| CheckoutPage.AddThenClear | src/pages/CheckoutPage.tsx:58-59 | ADD_ORDER then CLEAR_CART append the order, empty the cart and change nothing else |
| CheckoutPage.HandlePlaceOrder | src/pages/CheckoutPage.tsx:37-61 | the store ends in the state the place-order actions specify |
| LoginPage.CredentialIndex | src/pages/LoginPage.tsx:26 | index of the first user whose e-mail and password both match, or the length when none |
| LoginPage.LoginActions | src/pages/LoginPage.tsx:24-32 | at most one action, and none exactly when no user matches both credentials |
| LoginPage.LoginEffect | src/pages/LoginPage.tsx:24-32 | a match signs in the first matching user and changes nothing else; no match changes nothing |
| LoginPage.SignIn | src/pages/LoginPage.tsx:28 | SET_CURRENT_USER changes only the current user |
| LoginPage.NewUser | src/pages/LoginPage.tsx:40-49 | a registered user is not an admin and keeps the form's e-mail and password |
| LoginPage.RegisterActions | src/pages/LoginPage.tsx:33-54 | nothing is dispatched exactly when the e-mail is already taken |
| LoginPage.RegisterEffect | src/pages/LoginPage.tsx:33-54 | a taken e-mail changes nothing; otherwise the new user is appended and signed in and nothing else changes; distinct e-mails stay distinct |
| LoginPage.AddUserThenSignIn | src/pages/LoginPage.tsx:51-52 | ADD_USER then SET_CURRENT_USER change only the users and the current user |
| LoginPage.AppendKeepsDistinctEmails | src/pages/LoginPage.tsx:35-51 | appending a user whose e-mail is new keeps e-mails distinct |
| LoginPage.HandleLogin | src/pages/LoginPage.tsx:19-32 | the store ends in the state the login actions specify |
| LoginPage.HandleRegister | src/pages/LoginPage.tsx:33-54 | the store ends in the state the registration actions specify |
| AdminPage.MainImage | src/pages/AdminPage.tsx:71 | the main image is never blank and is the typed one when given |
| AdminPage.Highlights | src/pages/AdminPage.tsx:76 | the highlights are non-blank lines |
| AdminPage.SizesOf | src/pages/AdminPage.tsx:80 | no sizes exactly for an empty field; otherwise one trimmed size per comma-separated piece |
| AdminPage.ImagesShape | src/pages/AdminPage.tsx:57-73 | the gallery is the main image followed by the filled slots: one to five non-blank pictures, each filled slot among them |
| AdminPage.GalleryIsMainThenSlots | src/pages/AdminPage.tsx:58-64 | dropping blanks from main-then-slots keeps the main image first |
| AdminPage.SubmitAction | src/pages/AdminPage.tsx:66-88 | editing dispatches UPDATE_PRODUCT under the edited id (unless blank); otherwise ADD_PRODUCT under a fresh id |
| AdminPage.EditForm | src/pages/AdminPage.tsx:93-113 | the edit form carries the product's name, price and main image |
| AdminPage.SlotsRoundTrip | src/pages/AdminPage.tsx:73 | up to four non-blank additional images survive the form's four slots unchanged |
| AdminPage.HighlightsRoundTrip | src/pages/AdminPage.tsx:76 | highlights joined with newlines split back to the same list |
| AdminPage.SizesRoundTrip | src/pages/AdminPage.tsx:80 | sizes joined with ", " split and trim back to the same list |
| AdminPage.JoinNotBlank | src/pages/AdminPage.tsx:111 | joining a list that is not `[]` or `[""]` gives a non-empty field |
| AdminPage.TrimPart | src/pages/AdminPage.tsx:80 | trimming a piece that follows ", " recovers the trimmed size |
| AdminPage.TrimParts | src/pages/AdminPage.tsx:80 | trimming every split piece recovers the trimmed sizes |
| AdminPage.EmptySizesToNone | src/pages/AdminPage.tsx:80 | a product with no sizes or an empty size list comes back from the edit form with no sizes |
| AdminPage.EditRoundTrip | src/pages/AdminPage.tsx:54-113 | editing a product the form can represent and saving without changes rebuilds the same product on the modelled fields |
| AdminPage.EditUnchangedIsNoOp | src/pages/AdminPage.tsx:84-85 | saving such an edit unchanged leaves the modelled store as it was |
| AdminPage.AdminForm.constructor | src/pages/AdminPage.tsx:9-29 | the form starts empty, not editing and hidden |
| AdminPage.AdminForm.Reset | src/pages/AdminPage.tsx:31-52 | reset empties the form, clears the edited product and hides the form |
| AdminPage.AdminForm.Edit | src/pages/AdminPage.tsx:93-115 | edit remembers the product, fills the form from it and shows the form |
| AdminPage.AdminForm.Submit | src/pages/AdminPage.tsx:54-91 | submit dispatches the add-or-update action built from the old form, then resets |
| AdminPage.DeleteActions | src/pages/AdminPage.tsx:117-121 | DELETE_PRODUCT is dispatched exactly when the user confirms |
| AdminPage.OrderIndex | src/pages/AdminPage.tsx:124 | index of the first order with the id, or the length when none |
| AdminPage.StatusUpdateActions | src/pages/AdminPage.tsx:123-128 | nothing is dispatched exactly when no order has the id |
| AdminPage.StatusUpdateEffect | src/pages/AdminPage.tsx:123-128 | an unknown id changes nothing; with distinct order ids only that order's status changes |
| AdminPage.AverageOrderValue | src/pages/AdminPage.tsx:142 | zero with no orders; otherwise the average times the order count is the revenue |
| AdminPage.RevenueReplace | src/pages/AdminPage.tsx:138 | replacing one order changes the revenue by the difference of the totals |
| AdminPage.StatusUpdateKeepsRevenue | src/pages/AdminPage.tsx:123-138 | with distinct order ids, a status update keeps the revenue |
| AdminPage.PlaceOrderAddsRevenue | src/pages/AdminPage.tsx:138 | placing an order raises the revenue by exactly that order's total |
| AdminPage.HandleDelete | src/pages/AdminPage.tsx:117-121 | the store ends in the state the delete actions specify |
| AdminPage.HandleOrderStatusUpdate | src/pages/AdminPage.tsx:123-128 | the store ends in the state the status-update actions specify |
| Carousel.NextIndex | src/pages/HomePage.tsx:94-96 | the next slide index stays below the slide count |
| Carousel.PrevIndex | src/pages/HomePage.tsx:98-100 | the previous slide index stays below the slide count |
| Carousel.Wraps | src/pages/HomePage.tsx:94-100 | next goes from the last slide to the first, previous from the first to the last, otherwise one step |
| Carousel.PrevUndoesNext | src/pages/HomePage.tsx:94-100 | previous undoes next and next undoes previous |
| Carousel.Index.constructor | src/pages/HomePage.tsx:12 | the carousel starts on slide 0 |
| Carousel.Index.Next | src/pages/HomePage.tsx:94-96 | the index moves to the next slide and stays in range |
| Carousel.Index.Prev | src/pages/HomePage.tsx:98-100 | the index moves to the previous slide and stays in range |
| HomePage.Essentials | src/pages/HomePage.tsx:21-27 | the essentials row has at most four products |
| HomePage.Trending | src/pages/HomePage.tsx:32-35 | the trending row has at most eight products |
| HomePage.TopRanked | src/pages/HomePage.tsx:23-24 | the first n of a sorted copy are sorted, drawn from the list, and ranked at least as high as every product left out |
| HomePage.TopByKey | src/pages/HomePage.tsx:23-24 | the same for the comparator of a sort key |
| HomePage.PrefixRanked | src/pages/HomePage.tsx:23-24 | a prefix of a sorted permutation ranks at least as high as everything outside it |
| HomePage.NewLaunchesFirstFour | src/pages/HomePage.tsx:22-26 | "New Launches", and any unknown tab, show the first four products |
| HomePage.BestsellersRanked | src/pages/HomePage.tsx:23 | "Bestsellers" shows the four products with the most reviews, in descending order |
| HomePage.BestOffersRanked | src/pages/HomePage.tsx:24 | "Best Offers" shows the four largest discounts, counting a missing original price as 0, in descending order |
| HomePage.ComboKitsSelected | src/pages/HomePage.tsx:25 | "Combo Kits" shows combo products only, in catalogue order, and all of them when there are at most four |
| HomePage.TrendingSelected | src/pages/HomePage.tsx:32-35 | "All Products" shows the first eight; another tab shows up to eight products of that category in catalogue order, all of them when there are at most eight |
| HomePage.NewHeroSlides | src/pages/HomePage.tsx:41-78 | the hero carousel has four slides and starts on the first |
| ProductCard.CardEntry | src/components/ProductCard.tsx:22-30 | the card adds one unit of the product with no size |
| ProductCard.AddActions | src/components/ProductCard.tsx:17-33 | one ADD_TO_CART of quantity 1 for the product |
| ProductCard.AddEffect | src/components/ProductCard.tsx:17-33 | only the cart changes; the product is in the cart afterwards; a new product is appended; an existing line gains one unit; product ids stay distinct |
| ProductCard.RemoveActions | src/components/ProductCard.tsx:44-50 | nothing when the product is not in the cart; otherwise REMOVE_FROM_CART of its first line's entry id |
| ProductCard.RemoveEffect | src/components/ProductCard.tsx:44-50 | only the cart changes; an absent product changes nothing; with distinct entry ids exactly that line goes, and with one line per product the product is gone |
| ProductCard.RemovedProductGone | src/components/ProductCard.tsx:44-52 | with one line per product, deleting the entry id of a product's line leaves no line for that product, whatever the other lines' entry ids |
| ProductCard.WishlistToggleActions | src/components/ProductCard.tsx:35-42 | a removal exactly when the product is wished, an addition exactly when it is not |
| ProductCard.WishlistToggleFlips | src/components/ProductCard.tsx:35-42 | toggling flips whether the product is wished and changes only the wishlist |
| ProductCard.CurrentImage | src/components/ProductCard.tsx:67-72 | the picture shown is from the gallery or the main image, and not blank when none of them is |
| ProductCard.CurrentImageOfGallery | src/components/ProductCard.tsx:67-72 | for a gallery of main-then-extras, hovering shows the first extra image, otherwise the main image |
| ProductCard.HandleAddToCart | src/components/ProductCard.tsx:17-33 | the store ends in the state the add action specifies |
| ProductCard.HandleRemoveFromCart | src/components/ProductCard.tsx:44-50 | the store ends in the state the removal specifies |
| ProductCard.HandleWishlistToggle | src/components/ProductCard.tsx:35-42 | the store ends in the state the toggle specifies |
| ProductDetailPage.ProductImages | src/pages/ProductDetailPage.tsx:57-59 | the gallery is never empty: the product's images, or the main image alone |
| ProductDetailPage.NewGallery | src/pages/ProductDetailPage.tsx:35 | on the page's first mount the image carousel spans the gallery and starts on the first image |
| ProductDetailPage.DetailEntry | src/pages/ProductDetailPage.tsx:75-84 | the page adds the chosen quantity of the product with the selected size |
| ProductDetailPage.CartToggleActions | src/pages/ProductDetailPage.tsx:61-88 | one action, which is a removal exactly when the product is in the cart |
| ProductDetailPage.CartToggleFlips | src/pages/ProductDetailPage.tsx:61-98 | with one line per product the button flips whether the product is in the cart: it appends the new line, or deletes the product's line (exactly that line when entry ids are distinct); one line per product is kept and only the cart changes |
| ProductDetailPage.EnabledAddHasSize | src/pages/ProductDetailPage.tsx:289 | an enabled add button means the product is in stock, and a product with sizes has one selected |
| ProductDetailPage.CartQuantity | src/pages/ProductDetailPage.tsx:102-103 | the quantity shown is 0 when the product is not in the cart |
| ProductDetailPage.CartQuantityAfterAdd | src/pages/ProductDetailPage.tsx:102-103 | after ADD_TO_CART the quantity shown grows by the added quantity |
| ProductDetailPage.ProductIndexSame | src/pages/ProductDetailPage.tsx:102 | carts with the same product ids find the same first line |
| ProductDetailPage.RelatedProducts | src/pages/ProductDetailPage.tsx:106-108 | at most four related products |
| ProductDetailPage.AllOtherProducts | src/pages/ProductDetailPage.tsx:110-112 | at most eight other products |
| ProductDetailPage.RelatedSelected | src/pages/ProductDetailPage.tsx:106-108 | related products are other products of the same category, in catalogue order, all of them when there are at most four |
| ProductDetailPage.OthersSelected | src/pages/ProductDetailPage.tsx:110-112 | the other products exclude this one, keep catalogue order, and are all of them when there are at most eight |
| ProductDetailPage.HandleAddToCart | src/pages/ProductDetailPage.tsx:61-88 | the store ends in the state the toggle action specifies |
| ProductDetailPage.HandleWishlistToggle | src/pages/ProductDetailPage.tsx:90-96 | the store ends in the state the wishlist toggle specifies |
| WishlistPage.WishlistProducts | src/pages/WishlistPage.tsx:12-14 | the wishlist page lists no more products than the catalogue has |
| WishlistPage.WishlistProductsExactly | src/pages/WishlistPage.tsx:12-14 | it lists exactly the catalogue products whose id is wished, in catalogue order |
| WishlistPage.ClearActions | src/pages/WishlistPage.tsx:16-20 | CLEAR_WISHLIST is dispatched exactly when the user confirms |
| WishlistPage.ClearEffect | src/pages/WishlistPage.tsx:16-20 | confirming empties the wishlist and changes nothing else; declining changes nothing |
| WishlistPage.CountLabel | src/pages/WishlistPage.tsx:48 | "item" exactly for one product, "items" otherwise |
| WishlistPage.HandleClearWishlist | src/pages/WishlistPage.tsx:16-20 | the store ends in the state the clear actions specify |
| Text.ToLower | src/pages/ProductsPage.tsx:24 | lower-casing keeps the length and maps each character |
| Text.ToLowerIdempotent | src/pages/ProductsPage.tsx:24 | lower-casing twice is lower-casing once |
| Text.SplitJoin | src/pages/AdminPage.tsx:76 | splitting a join on a separator that no part contains gives the parts back |
| Text.Trim | src/pages/AdminPage.tsx:80 | the result is a slice of the input, everything cut away is white space, and the result neither starts nor ends with white space |
| Text.TrimStart | src/pages/AdminPage.tsx:80 | the result is a suffix that does not start with white space, and everything cut away is white space |
| Text.TrimEnd | src/pages/AdminPage.tsx:80 | the result is a prefix that does not end with white space, and everything cut away is white space |
| Lists.Dedup | src/pages/ProductsPage.tsx:67 | the de-duplicated list has no repeats and the same members |
| Lists.TakeFilter | src/pages/HomePage.tsx:25 | the first n passing elements are an ordered selection that passes the test, and all of them when at most n pass |

## Left out

- Browser storage and JSON are not modelled. The load step receives what was saved, already
  parsed (`AppContext.Saved`), and the per-field save effects (src/context/AppContext.tsx:466-488)
  are not modelled.
- The seed catalogue and the six category records are parameters, not literals.
- `Date.now()`, `new Date().toISOString()`, `confirm(...)` answers and the selected tax amount
  are parameters. `alert`, `navigate`, console logging, timers and animation flags are left out.
- The 800 ms and 1000 ms delays before an add-to-cart dispatch are not modelled. The action is
  dispatched at once.
- CartPage.CartSummary: the tax is a parameter. `Math.round(subtotal * 0.18)` is floating point.
- Prices, quantities, reviews and ratings are integers; ratings are in tenths of a star.
  Fractional prices, `NaN` from `Number('')` and the floating-point discount percentages are not
  modelled.
- AdminPage.AverageOrderValue is a real-number quotient, not a floating-point one.
- AdminPage: the dashboard counts other than revenue are not modelled. These are the product,
  user and order counts, the bestseller tiles and the wishlist figures.
- AdminPage: the form's price, original price, review and rating fields are typed as numbers.
  `Number(...)` and `toString()` are taken as inverses.
- `localeCompare` is modelled as code-unit order (`Text.Less`). Locale collation is not
  modelled.
- `toLowerCase` and `trim` are modelled for ASCII only.
- The product's optional `images` field is a plain list. A missing list and an empty list
  are treated alike; every page treats them alike.
- Product fields that no modelled operation reads are left out.
- The user's password is kept in plain text, as in the source.
- ProductDetailPage: the quantity is fixed at 1. The page never calls `setQuantity`, so the
  state stays at its initial value.
- ProductDetailPage: a cart line's size is `Some(selectedSize)`, even when no size is
  selected. The page sends the empty string as the size.
- ProductDetailPage: the page declares its own `Product` interface. The model uses the shared
  record for it.
- CheckoutPage.PlaceOrderActions: with an empty cart the page navigates away before it renders,
  so no order can be placed. The model dispatches nothing in that case.
- The effect on the listing page re-runs whenever its inputs change. The model computes the
  listing for one set of inputs. `ProductsPage.Settle` gives the inputs the page comes to rest
  on after the effect copies the URL parameter into the chosen category; the one render in
  between, which filters by the old choice, is not modelled.
- AppContext.CartReplayUnits and LoadFromInitial: the units per product are stated only when
  the saved lines carry distinct entry ids. CartPage.SubtotalAfterAdd, SubtotalAfterRemove and
  SubtotalAfterSetQuantity likewise assume distinct entry ids in the cart. ADD_TO_CART adds to every line sharing the matched
  line's entry id, so with repeated entry ids the units of other products can change too.
- The model's reducer keeps DELETE_PRODUCT as written: it leaves cart lines for the deleted
  product, and the cart and checkout pages' lookups for them fail (see Findings).
  `CartPage.DeleteWithCart` is the corrected deletion; the reducer does not use it.
- AdminPage.EditRoundTrip and EditUnchangedIsNoOp: the save builds a fresh record from the form,
  which drops `isNew` and the other product fields the model leaves out. An unchanged save of a
  product carrying `isNew: true` (two seed products do) therefore does change the stored record;
  both lemmas speak of the modelled fields only.
- ProductDetailPage.NewGallery: the fresh carousel at index 0 and the empty size choice hold only
  when the page first mounts. The `/product/:id` route has no key and the page has no effect on
  `id`, so moving to another product keeps `currentImageIndex` and `selectedSize`. The kept index
  can lie past the new gallery, which then shows no picture until next or previous wraps it. The
  kept size can enable the add button for a product that lacks that size, and then goes into the
  cart line. This carry-over and the thumbnail click that sets the index directly are not
  modelled.
- The header, footer, category cards, order confirmation page and routing are not part of this
  model.

## Findings

| source | as written | input that shows it | evidently intended | confidence | as-written member | corrected member |
|---|---|---|---|---|---|---|
| src/context/AppContext.tsx:66-70 | DELETE_PRODUCT filters the catalogue and keeps the cart, while the cart and checkout pages look up each cart line's product with a non-null assertion (src/pages/CartPage.tsx:13). | Delete, from the admin page, a product that is in the cart; the cart page's `item.product.price` then reads from `undefined`. | Delete the product's cart lines along with it, so every cart line still names a catalogue product. | not executed | CartPage.DeleteStrandsCartLine | CartPage.DeleteWithCartResolves |
| src/pages/CartPage.tsx:165-170 | The hint is shown when `subtotal < 499` and asks for `499 - subtotal` more. Shipping is free only when `subtotal > 499`. | A subtotal of 0 is told to add ₹499, but 499 still pays ₹50 shipping. A subtotal of exactly 499 gets no hint while paying shipping. | Show the hint whenever shipping is charged (`subtotal <= 499`) and ask for `500 - subtotal`. | not executed | CartPage.HintAsWrittenFallsShort | CartPage.FreeShippingHint |
