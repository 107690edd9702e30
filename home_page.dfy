/** The home page (src/pages/HomePage.tsx): the "essentials" and "trending" product sections
    and the hero slide index. */
module HomePage {
  import opened Types
  import Lists
  import Text
  import ProductOrder
  import ProductsPage
  import Carousel

  /** The number of hero slides the slide index cycles through. */
  const HeroSlideCount := 4
  const EssentialsSize := 4
  const TrendingSize := 8

  predicate IsCombo(p: Product) {
    Text.Contains(Text.ToLower(p.category), "combo")
  }

  function ComboTest(): Product -> bool {
    (p: Product) => IsCombo(p)
  }

  /** `getEssentialsProducts`: four products chosen by the selected tab. Bestsellers and Best
      Offers sort a copy of the catalogue; an unknown tab behaves like New Launches. */
  function Essentials(tab: string, products: seq<Product>): (r: seq<Product>)
    ensures |r| <= EssentialsSize
  {
    if tab == "New Launches" then Lists.Take(products, EssentialsSize)
    else if tab == "Bestsellers" then
      Lists.Take(ProductOrder.SortBy(ProductOrder.Comparator(ProductOrder.ByReviews), products), EssentialsSize)
    else if tab == "Best Offers" then
      Lists.Take(ProductOrder.SortBy(ProductOrder.Comparator(ProductOrder.ByDiscount), products), EssentialsSize)
    else if tab == "Combo Kits" then Lists.Take(Lists.Filter(products, ComboTest()), EssentialsSize)
    else Lists.Take(products, EssentialsSize)
  }

  /** `getTrendingProducts`: the first eight products, or the first eight of the chosen
      category compared without regard to case. */
  function Trending(tab: string, products: seq<Product>): (r: seq<Product>)
    ensures |r| <= TrendingSize
  {
    if tab == "All Products" then Lists.Take(products, TrendingSize)
    else Lists.Take(Lists.Filter(products, ProductsPage.CategoryTest(tab)), TrendingSize)
  }

  /** The first n of a sorted copy: in order, drawn from s, and ranked at least as high as
      every product of s that did not make it. */
  lemma TopRanked(cmp: (Product, Product) -> int, s: seq<Product>, n: nat)
    requires ProductOrder.Consistent(cmp)
    ensures var r := Lists.Take(ProductOrder.SortBy(cmp, s), n);
      && |r| == (if |s| < n then |s| else n)
      && ProductOrder.Sorted(cmp, r)
      && multiset(r) <= multiset(s)
      && (forall p, i :: p in s && p !in r && 0 <= i < |r| ==> cmp(r[i], p) <= 0)
  {
    ProductOrder.SortBySorted(cmp, s);
    ProductOrder.SortByPermutes(cmp, s);
    PrefixRanked(cmp, ProductOrder.SortBy(cmp, s), s, n);
  }

  /** TopRanked for one of the sort keys. */
  lemma TopByKey(k: ProductOrder.SortKey, s: seq<Product>, n: nat)
    ensures var cmp := ProductOrder.Comparator(k);
      var r := Lists.Take(ProductOrder.SortBy(cmp, s), n);
      && |r| == (if |s| < n then |s| else n)
      && ProductOrder.Sorted(cmp, r)
      && multiset(r) <= multiset(s)
      && (forall p, i :: p in s && p !in r && 0 <= i < |r| ==> cmp(r[i], p) <= 0)
  {
    ProductOrder.ComparatorConsistent(k);
    TopRanked(ProductOrder.Comparator(k), s, n);
  }

  lemma PrefixRanked(cmp: (Product, Product) -> int, sorted: seq<Product>, s: seq<Product>, n: nat)
    requires ProductOrder.Sorted(cmp, sorted) && multiset(sorted) == multiset(s)
    ensures var r := Lists.Take(sorted, n);
      && ProductOrder.Sorted(cmp, r)
      && multiset(r) <= multiset(s)
      && (forall p, i :: p in s && p !in r && 0 <= i < |r| ==> cmp(r[i], p) <= 0)
  {
    var r := Lists.Take(sorted, n);
    assert sorted == r + sorted[|r|..];
    assert multiset(sorted) == multiset(r) + multiset(sorted[|r|..]);
    forall p, i | p in s && p !in r && 0 <= i < |r| ensures cmp(r[i], p) <= 0 {
      assert p in multiset(sorted);
      var j :| 0 <= j < |sorted| && sorted[j] == p;
      assert j >= |r|;
      assert r[i] == sorted[i];
    }
  }

  /** New Launches, and any tab the page does not know, show the catalogue's first four. */
  lemma NewLaunchesFirstFour(tab: string, products: seq<Product>)
    requires tab != "Bestsellers" && tab != "Best Offers" && tab != "Combo Kits"
    ensures Essentials(tab, products) == products[..if |products| < 4 then |products| else 4]
  {
  }

  /** Bestsellers: the four most reviewed products, most reviewed first, taken from the
      catalogue. */
  lemma BestsellersRanked(products: seq<Product>)
    ensures var r := Essentials("Bestsellers", products);
      && |r| == (if |products| < 4 then |products| else 4)
      && (forall i, j :: 0 <= i < j < |r| ==> r[i].reviews >= r[j].reviews)
      && (forall p, i :: p in products && p !in r && 0 <= i < |r| ==> r[i].reviews >= p.reviews)
      && multiset(r) <= multiset(products)
  {
    var cmp := ProductOrder.Comparator(ProductOrder.ByReviews);
    TopByKey(ProductOrder.ByReviews, products, EssentialsSize);
    var r := Essentials("Bestsellers", products);
    forall i, j | 0 <= i < j < |r| ensures r[i].reviews >= r[j].reviews {
      assert cmp(r[i], r[j]) <= 0;
    }
    forall p, i | p in products && p !in r && 0 <= i < |r| ensures r[i].reviews >= p.reviews {
      assert cmp(r[i], p) <= 0;
    }
  }

  /** Best Offers: the four products with the largest saving `(originalPrice ?? 0) - price`,
      largest first, taken from the catalogue. */
  lemma BestOffersRanked(products: seq<Product>)
    ensures var r := Essentials("Best Offers", products);
      && |r| == (if |products| < 4 then |products| else 4)
      && (forall i, j :: 0 <= i < j < |r| ==> ProductOrder.Discount(r[i]) >= ProductOrder.Discount(r[j]))
      && (forall p, i :: p in products && p !in r && 0 <= i < |r| ==>
            ProductOrder.Discount(r[i]) >= ProductOrder.Discount(p))
      && multiset(r) <= multiset(products)
  {
    var cmp := ProductOrder.Comparator(ProductOrder.ByDiscount);
    TopByKey(ProductOrder.ByDiscount, products, EssentialsSize);
    var r := Essentials("Best Offers", products);
    forall i, j | 0 <= i < j < |r| ensures ProductOrder.Discount(r[i]) >= ProductOrder.Discount(r[j]) {
      assert cmp(r[i], r[j]) <= 0;
    }
    forall p, i | p in products && p !in r && 0 <= i < |r|
      ensures ProductOrder.Discount(r[i]) >= ProductOrder.Discount(p)
    {
      assert cmp(r[i], p) <= 0;
    }
  }

  /** Combo Kits: up to four products whose lower-cased category contains "combo", in catalogue
      order, and all of them when there are at most four. */
  lemma ComboKitsSelected(products: seq<Product>)
    ensures var r := Essentials("Combo Kits", products);
      && Lists.Subseq(r, products)
      && (forall i :: 0 <= i < |r| ==> IsCombo(r[i]))
      && (|Lists.Filter(products, ComboTest())| <= 4 ==> forall p :: p in products && IsCombo(p) ==> p in r)
  {
    Lists.TakeFilter(products, ComboTest(), EssentialsSize);
  }

  /** Trending: the catalogue's first eight for "All Products"; otherwise up to eight products
      of that category (ignoring case) in catalogue order, all of them when there are at most
      eight. */
  lemma TrendingSelected(tab: string, products: seq<Product>)
    ensures var r := Trending(tab, products);
      && (tab == "All Products" ==> r == products[..if |products| < 8 then |products| else 8])
      && Lists.Subseq(r, products)
      && (tab != "All Products" ==>
            && (forall i :: 0 <= i < |r| ==> ProductsPage.SameCategory(r[i].category, tab))
            && (|Lists.Filter(products, ProductsPage.CategoryTest(tab))| <= 8 ==>
                  forall p :: p in products && ProductsPage.SameCategory(p.category, tab) ==> p in r))
  {
    var all := (p: Product) => true;
    Lists.TakeFilter(products, ProductsPage.CategoryTest(tab), TrendingSize);
    Lists.TakeFilter(products, all, TrendingSize);
    Lists.FilterKeepsAll(products, all);
  }

  /** `currentSlide` starts on the first of the hero slides. */
  method NewHeroSlides() returns (c: Carousel.Index)
    ensures fresh(c) && c.Valid() && c.count == HeroSlideCount && c.current == 0
  {
    c := new Carousel.Index(HeroSlideCount);
  }
}
