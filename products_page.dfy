/** The catalogue listing (src/pages/ProductsPage.tsx): the products that pass the category,
    search and price filters, sorted by the chosen key, and the category choices. */
module ProductsPage {
  import opened Types
  import Lists
  import Text
  import ProductOrder

  /** The page's inputs: the `?category=` URL parameter ("" when absent), the store's search
      query, the chosen category, the price range and the sort selection. */
  datatype Filters = Filters(
    categoryParam: string,
    searchQuery: string,
    selectedCategory: string,
    minPrice: int,
    maxPrice: int,
    sortBy: string)

  /** The page as first shown: every category, prices 0 to 1000, sorted by name. */
  const DefaultFilters := Filters("", "", "all", 0, 1000, "name")

  /** The sort select's value; anything other than the four named keys sorts by name. */
  function SortKeyOf(sortBy: string): (k: ProductOrder.SortKey)
    ensures k.ByName? <==> sortBy !in {"price-low", "price-high", "rating", "reviews"}
    ensures !k.ByDiscount?
  {
    if sortBy == "price-low" then ProductOrder.PriceLow
    else if sortBy == "price-high" then ProductOrder.PriceHigh
    else if sortBy == "rating" then ProductOrder.ByRating
    else if sortBy == "reviews" then ProductOrder.ByReviews
    else ProductOrder.ByName
  }

  /** Category equality ignoring case. */
  predicate SameCategory(a: string, b: string) {
    Text.ToLower(a) == Text.ToLower(b)
  }

  predicate MatchesSearch(query: string, p: Product) {
    Text.Contains(Text.ToLower(p.name), Text.ToLower(query))
    || Text.Contains(Text.ToLower(p.description), Text.ToLower(query))
  }

  predicate InPriceRange(f: Filters, p: Product) {
    f.minPrice <= p.price <= f.maxPrice
  }

  /** A product is listed when it passes every active filter. */
  predicate Passes(f: Filters, p: Product) {
    && (f.categoryParam == "" || SameCategory(p.category, f.categoryParam))
    && (f.searchQuery == "" || MatchesSearch(f.searchQuery, p))
    && (f.selectedCategory == "all" || SameCategory(p.category, f.selectedCategory))
    && InPriceRange(f, p)
  }

  function CategoryTest(c: string): Product -> bool {
    (p: Product) => SameCategory(p.category, c)
  }

  function SearchTest(query: string): Product -> bool {
    (p: Product) => MatchesSearch(query, p)
  }

  function PriceTest(f: Filters): Product -> bool {
    (p: Product) => InPriceRange(f, p)
  }

  function PassTest(f: Filters): Product -> bool {
    (p: Product) => Passes(f, p)
  }

  /** The filter chain in the page's order: URL category, search, chosen category, price. */
  function Filtered(f: Filters, products: seq<Product>): seq<Product> {
    var a := if f.categoryParam != "" then Lists.Filter(products, CategoryTest(f.categoryParam))
             else products;
    var b := if f.searchQuery != "" then Lists.Filter(a, SearchTest(f.searchQuery)) else a;
    var c := if f.selectedCategory != "all" then Lists.Filter(b, CategoryTest(f.selectedCategory))
             else b;
    Lists.Filter(c, PriceTest(f))
  }

  /** What the page shows: the filtered products, stably sorted by the chosen key. */
  function Shown(f: Filters, products: seq<Product>): seq<Product> {
    ProductOrder.SortBy(ProductOrder.Comparator(SortKeyOf(f.sortBy)), Filtered(f, products))
  }

  /** The effect's `setSelectedCategory(categoryParam)`: with a `?category=` parameter the
      chosen category becomes the parameter, and nothing else changes. The chosen category is
      one of the effect's inputs, so the page runs the effect again on these inputs. */
  function Settle(f: Filters): (g: Filters)
    ensures g.(selectedCategory := f.selectedCategory) == f
    ensures f.categoryParam != "" ==> g.selectedCategory == f.categoryParam
    ensures f.categoryParam == "" ==> g == f
  {
    if f.categoryParam != "" then f.(selectedCategory := f.categoryParam) else f
  }

  /** The second run of the effect changes nothing more, so the page comes to rest. Once at
      rest under a `?category=` parameter, the listing is filtered by the parameter alone: it is
      the listing with the category choice at "all", whatever category was chosen before. */
  lemma SettledListing(f: Filters, c: string, products: seq<Product>)
    ensures Settle(Settle(f)) == Settle(f)
    ensures f.categoryParam != "" ==>
              && Filtered(Settle(f), products) == Filtered(f.(selectedCategory := "all"), products)
              && Shown(Settle(f.(selectedCategory := c)), products)
                 == Shown(f.(selectedCategory := "all"), products)
  {
    if f.categoryParam != "" {
      var g := Settle(f);
      var h := f.(selectedCategory := "all");
      FilteredIsPasses(g, products);
      FilteredIsPasses(h, products);
      Lists.FilterSame(products, PassTest(g), PassTest(h));
      assert Settle(f.(selectedCategory := c)) == g;
    }
  }

  /** The tests passed after each stage of the chain. */
  function UpToParam(f: Filters): Product -> bool {
    (p: Product) => f.categoryParam == "" || SameCategory(p.category, f.categoryParam)
  }

  function UpToSearch(f: Filters): Product -> bool {
    (p: Product) => UpToParam(f)(p) && (f.searchQuery == "" || MatchesSearch(f.searchQuery, p))
  }

  function UpToCategory(f: Filters): Product -> bool {
    (p: Product) => UpToSearch(f)(p)
                    && (f.selectedCategory == "all" || SameCategory(p.category, f.selectedCategory))
  }

  lemma StageParam(f: Filters, products: seq<Product>)
    ensures (if f.categoryParam != "" then Lists.Filter(products, CategoryTest(f.categoryParam))
             else products) == Lists.Filter(products, UpToParam(f))
  {
    Lists.FilterWhen(products, f.categoryParam != "", CategoryTest(f.categoryParam), UpToParam(f));
  }

  lemma StageSearch(f: Filters, products: seq<Product>)
    ensures var a := Lists.Filter(products, UpToParam(f));
      (if f.searchQuery != "" then Lists.Filter(a, SearchTest(f.searchQuery)) else a)
      == Lists.Filter(products, UpToSearch(f))
  {
    var k := (p: Product) => f.searchQuery == "" || MatchesSearch(f.searchQuery, p);
    var a := Lists.Filter(products, UpToParam(f));
    Lists.FilterWhen(a, f.searchQuery != "", SearchTest(f.searchQuery), k);
    Lists.FilterFilter(products, UpToParam(f), k, UpToSearch(f));
  }

  lemma StageCategory(f: Filters, products: seq<Product>)
    ensures var b := Lists.Filter(products, UpToSearch(f));
      (if f.selectedCategory != "all" then Lists.Filter(b, CategoryTest(f.selectedCategory)) else b)
      == Lists.Filter(products, UpToCategory(f))
  {
    var k := (p: Product) => f.selectedCategory == "all" || SameCategory(p.category, f.selectedCategory);
    var b := Lists.Filter(products, UpToSearch(f));
    Lists.FilterWhen(b, f.selectedCategory != "all", CategoryTest(f.selectedCategory), k);
    Lists.FilterFilter(products, UpToSearch(f), k, UpToCategory(f));
  }

  /** The chain of filters keeps exactly the products that pass, in catalogue order. */
  lemma FilteredIsPasses(f: Filters, products: seq<Product>)
    ensures Filtered(f, products) == Lists.Filter(products, PassTest(f))
  {
    StageParam(f, products);
    StageSearch(f, products);
    StageCategory(f, products);
    Lists.FilterFilter(products, UpToCategory(f), PriceTest(f), PassTest(f));
  }

  /** Every listed product is in the catalogue and passes the filters; every catalogue product
      that passes is listed, as often as it occurs. */
  lemma ShownExactly(f: Filters, products: seq<Product>)
    ensures forall i :: 0 <= i < |Shown(f, products)| ==>
              Shown(f, products)[i] in products && Passes(f, Shown(f, products)[i])
    ensures forall p :: p in products && Passes(f, p) ==> p in Shown(f, products)
    ensures multiset(Shown(f, products)) == multiset(Lists.Filter(products, PassTest(f)))
    ensures |Shown(f, products)| <= |products|
  {
    var keep := PassTest(f);
    var filtered := Filtered(f, products);
    FilteredIsPasses(f, products);
    var r := Shown(f, products);
    ProductOrder.SortByPermutes(ProductOrder.Comparator(SortKeyOf(f.sortBy)), filtered);
    forall i | 0 <= i < |r| ensures r[i] in products && Passes(f, r[i]) {
      assert r[i] in multiset(filtered);
    }
    forall p | p in products && Passes(f, p) ensures p in r {
      Lists.FilterKeepsPassing(products, keep, p);
      assert p in multiset(r);
    }
  }

  /** The listing is ordered by the chosen key, and products the key ranks equal keep their
      catalogue order. */
  lemma ShownOrdered(f: Filters, products: seq<Product>, q: Product)
    ensures var cmp := ProductOrder.Comparator(SortKeyOf(f.sortBy));
      && ProductOrder.Sorted(cmp, Shown(f, products))
      && ProductOrder.Ties(cmp, Shown(f, products), q) == ProductOrder.Ties(cmp, Filtered(f, products), q)
  {
    var cmp := ProductOrder.Comparator(SortKeyOf(f.sortBy));
    ProductOrder.ComparatorConsistent(SortKeyOf(f.sortBy));
    ProductOrder.SortBySorted(cmp, Filtered(f, products));
    ProductOrder.SortByStable(cmp, Filtered(f, products), q);
  }

  /** With no search, category or URL filter, the listing is the whole catalogue when every
      price lies in the range. */
  lemma UnfilteredShowsAll(f: Filters, products: seq<Product>)
    requires f.categoryParam == "" && f.searchQuery == "" && f.selectedCategory == "all"
    requires forall i :: 0 <= i < |products| ==> InPriceRange(f, products[i])
    ensures multiset(Shown(f, products)) == multiset(products)
  {
    Lists.FilterKeepsAll(products, PriceTest(f));
    ProductOrder.SortByPermutes(ProductOrder.Comparator(SortKeyOf(f.sortBy)), products);
  }

  /** The effect: filter the catalogue copy, then sort it in place with the chosen comparator. */
  method ComputeShown(f: Filters, products: seq<Product>) returns (r: seq<Product>)
    ensures r == Shown(f, products)
  {
    var filtered := Filtered(f, products);
    var a := new Product[|filtered|](i requires 0 <= i < |filtered| => filtered[i]);
    assert a[..] == filtered;
    ProductOrder.SortInPlace(a, ProductOrder.Comparator(SortKeyOf(f.sortBy)));
    r := a[..];
  }

  /** The category choices: "all" followed by each product category once, in order of first
      appearance (`['all', ...new Set(categories)]`). */
  function Categories(products: seq<Product>): (r: seq<string>)
    ensures |r| >= 1 && r[0] == "all"
  {
    ["all"] + Lists.Dedup(seq(|products|, i requires 0 <= i < |products| => products[i].category))
  }

  /** Every product's category is offered once, nothing else besides "all" is offered, and the
      list has no repeats unless some product's category is literally "all". */
  lemma CategoriesOffered(products: seq<Product>)
    ensures forall p :: p in products ==> p.category in Categories(products)
    ensures forall c :: c in Categories(products) ==>
              c == "all" || exists p :: p in products && p.category == c
    ensures (forall p :: p in products ==> p.category != "all") ==> Lists.Distinct(Categories(products))
  {
    var cats := seq(|products|, i requires 0 <= i < |products| => products[i].category);
    forall p | p in products ensures p.category in Categories(products) {
      var i :| 0 <= i < |products| && products[i] == p;
      assert cats[i] == p.category;
    }
    forall c | c in Categories(products) && c != "all"
      ensures exists p :: p in products && p.category == c
    {
      assert c in cats;
      var i :| 0 <= i < |cats| && cats[i] == c;
      assert products[i] in products;
    }
    if forall p :: p in products ==> p.category != "all" {
      assert "all" !in cats;
    }
  }
}
