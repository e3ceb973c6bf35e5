/**
 * The products page: the filter predicate (name search, price range,
 * category checkboxes), the fixed-size pager over the filtered list, the
 * view the product grid selects, and the page state with its handlers:
 * the category tab, the search box, the price slider, the checkboxes, the
 * pager, the URL seeding effect and the catalog load.
 */
module ProductsPage {
  import opened Seqs
  import opened Text
  import opened Catalog

  const ProductsPerPage: int := 8
  const BasePath: string := "/products"
  const CategoryQuery: string := "/products?category="
  const MaxPrice: real := 5000.0

  datatype PriceRange = PriceRange(low: real, high: real)

  /** What the predicate reads from the page state. */
  datatype Filters = Filters(searchTerm: string, priceRange: PriceRange, selected: map<string, bool>)

  /** The six-key checkbox map with every box clear. */
  function AllUnchecked(): map<string, bool>
  {
    map k | k in CategoryKeys :: false
  }

  // ---------------------------------------------------------------------
  // The filter predicate

  predicate SearchMatch(p: Product, term: string)
  {
    Contains(Lower(p.name), Lower(term))
  }

  predicate PriceMatch(p: Product, range: PriceRange)
  {
    p.price >= range.low && p.price <= range.high
  }

  /** `Object.values(selectedCategories).some(v => v)`. */
  predicate AnyChecked(m: map<string, bool>)
  {
    true in m.Values
  }

  /** A category key absent from the map reads as `undefined`, which is falsy. */
  predicate CategoryMatch(p: Product, m: map<string, bool>)
  {
    !AnyChecked(m) || (p.category in m && m[p.category])
  }

  predicate Matches(p: Product, f: Filters)
  {
    SearchMatch(p, f.searchTerm) && PriceMatch(p, f.priceRange) && CategoryMatch(p, f.selected)
  }

  function MatchesFilters(f: Filters): Product -> bool
  {
    p => Matches(p, f)
  }

  /** `products.filter(...)`. */
  function FilterProducts(products: seq<Product>, f: Filters): seq<Product>
  {
    Filter(products, MatchesFilters(f))
  }

  /** A product is kept exactly when all three tests pass; the kept products
      appear in catalog order and nothing else appears. */
  lemma FilteredMembership(products: seq<Product>, f: Filters)
    ensures forall i :: 0 <= i < |products| ==>
              (products[i] in FilterProducts(products, f) <==>
                 SearchMatch(products[i], f.searchTerm) && PriceMatch(products[i], f.priceRange)
                 && CategoryMatch(products[i], f.selected))
    ensures forall x :: x in FilterProducts(products, f) ==> x in products
    ensures IsSubsequence(FilterProducts(products, f), products)
  {
    FilterIsSubsequence(products, MatchesFilters(f));
  }

  /** The search is a case-insensitive substring test on the name; an empty
      search term matches every product. */
  lemma SearchIsCaseInsensitiveSubstring(p: Product, term: string)
    ensures SearchMatch(p, term) <==> exists i :: OccursAt(Lower(p.name), Lower(term), i)
    ensures SearchMatch(p, term) == SearchMatch(p, Lower(term))
    ensures SearchMatch(p, "")
  {
    assert SearchMatch(p, term) == Contains(Lower(p.name), Lower(term));
    ContainsIff(Lower(p.name), Lower(term));
    LowerIdempotent(term);
  }

  /** The price test is inclusive at both ends. */
  lemma PriceBoundsInclusive(p: Product, range: PriceRange)
    requires range.low <= range.high
    ensures p.price == range.low ==> PriceMatch(p, range)
    ensures p.price == range.high ==> PriceMatch(p, range)
    ensures PriceMatch(p, range) <==> range.low <= p.price <= range.high
  {
  }

  /** With no box checked the category imposes nothing; otherwise a product
      passes exactly when its own key is checked. */
  lemma CategoryRule(p: Product, m: map<string, bool>)
    ensures (forall k :: k in m ==> !m[k]) ==> CategoryMatch(p, m)
    ensures (exists k :: k in m && m[k]) ==>
              (CategoryMatch(p, m) <==> p.category in m && m[p.category])
  {
    if exists k :: k in m && m[k] {
      var k :| k in m && m[k];
      assert m[k] in m.Values;
    }
  }

  /** If the checked boxes are exactly one key that no product carries (a URL
      naming an unknown category seeds such a map), nothing is shown. */
  lemma UnknownSeededCategoryMatchesNothing(products: seq<Product>, f: Filters, key: string)
    requires f.selected == AllUnchecked()[key := true]
    requires forall i :: 0 <= i < |products| ==> products[i].category != key
    ensures FilterProducts(products, f) == []
  {
    var m := f.selected;
    assert m[key] in m.Values;
    NoneMatch(products, MatchesFilters(f));
  }

  /** Filtering by a predicate implies filtering by a weaker one first. */
  lemma {:induction false} FilterOfFilter(s: seq<Product>, p: Product -> bool, q: Product -> bool)
    requires forall x :: p(x) ==> q(x)
    ensures Filter(Filter(s, q), p) == Filter(s, p)
  {
    if s != [] {
      FilterOfFilter(s[1..], p, q);
    }
  }

  /** Widening the price range only adds matches: the old result is a
      subsequence of the new one. */
  lemma WiderPriceRangeOnlyAdds(products: seq<Product>, f: Filters, wider: PriceRange)
    requires wider.low <= f.priceRange.low && f.priceRange.high <= wider.high
    ensures IsSubsequence(FilterProducts(products, f),
                          FilterProducts(products, f.(priceRange := wider)))
  {
    var g := f.(priceRange := wider);
    FilterOfFilter(products, MatchesFilters(f), MatchesFilters(g));
    FilterIsSubsequence(FilterProducts(products, g), MatchesFilters(f));
  }

  /** Checking one more box, when some box is already checked, only adds matches. */
  lemma CheckingAnotherBoxOnlyAdds(products: seq<Product>, f: Filters, key: string)
    requires AnyChecked(f.selected)
    ensures IsSubsequence(FilterProducts(products, f),
                          FilterProducts(products, f.(selected := f.selected[key := true])))
  {
    var g := f.(selected := f.selected[key := true]);
    assert g.selected[key] in g.selected.Values;
    FilterOfFilter(products, MatchesFilters(f), MatchesFilters(g));
    FilterIsSubsequence(FilterProducts(products, g), MatchesFilters(f));
  }

  // ---------------------------------------------------------------------
  // The pager

  /** `filtered.slice((page - 1) * 8, page * 8)`. */
  function Paginate(filtered: seq<Product>, page: int): seq<Product>
  {
    Slice(filtered, (page - 1) * ProductsPerPage, page * ProductsPerPage)
  }

  /** Page k (k >= 1) is the window [(k-1)*8, min(k*8, n)); it holds at most
      eight products and never more than the filtered list. */
  lemma PageWindow(filtered: seq<Product>, page: int)
    requires page >= 1
    ensures Min((page - 1) * ProductsPerPage, |filtered|) <= Min(page * ProductsPerPage, |filtered|) <= |filtered|
    ensures Paginate(filtered, page) ==
            filtered[Min((page - 1) * ProductsPerPage, |filtered|)..Min(page * ProductsPerPage, |filtered|)]
    ensures |Paginate(filtered, page)| <= ProductsPerPage
    ensures |Paginate(filtered, page)| <= |filtered|
  {
    SliceNonNegative(filtered, (page - 1) * ProductsPerPage, page * ProductsPerPage);
  }

  /** `Math.ceil(n / 8)`. */
  function PageCount(n: nat): nat
  {
    (n + ProductsPerPage - 1) / ProductsPerPage
  }

  lemma PageCountIsCeiling(n: nat)
    ensures PageCount(n) == 0 <==> n == 0
    ensures n > 0 ==> (PageCount(n) - 1) * ProductsPerPage < n <= PageCount(n) * ProductsPerPage
  {
  }

  /** A page past the last one is empty. */
  lemma PastLastPageIsEmpty(filtered: seq<Product>, page: int)
    requires page > PageCount(|filtered|)
    ensures Paginate(filtered, page) == []
  {
  }

  /** Pages 1..k, one after the other. */
  function PagesUpTo(filtered: seq<Product>, k: nat): seq<Product>
  {
    if k == 0 then [] else PagesUpTo(filtered, k - 1) + Paginate(filtered, k)
  }

  lemma {:induction false} PagesUpToIsPrefix(filtered: seq<Product>, k: nat)
    ensures Min(k * ProductsPerPage, |filtered|) <= |filtered|
    ensures PagesUpTo(filtered, k) == filtered[..Min(k * ProductsPerPage, |filtered|)]
  {
    if k > 0 {
      PagesUpToIsPrefix(filtered, k - 1);
      PageWindow(filtered, k);
      var a := Min((k - 1) * ProductsPerPage, |filtered|);
      var b := Min(k * ProductsPerPage, |filtered|);
      assert filtered[..a] + filtered[a..b] == filtered[..b];
    }
  }

  /** Concatenating pages 1..ceil(n/8) gives back the filtered list. */
  lemma PagesCoverFiltered(filtered: seq<Product>)
    ensures PagesUpTo(filtered, PageCount(|filtered|)) == filtered
  {
    PagesUpToIsPrefix(filtered, PageCount(|filtered|));
    PageCountIsCeiling(|filtered|);
  }

  /** The first page of a non-empty list is never empty. */
  lemma FirstPageOfNonEmpty(filtered: seq<Product>)
    requires filtered != []
    ensures Paginate(filtered, 1) != []
    ensures Paginate(filtered, 1) == filtered[..Min(ProductsPerPage, |filtered|)]
  {
    PageWindow(filtered, 1);
  }

  // ---------------------------------------------------------------------
  // What the product grid shows

  datatype GridView =
    | Spinner
    | ErrorAlert(message: string)
    | NoMatch
    | Listing(shown: seq<Product>, total: nat, pagerCount: Option<nat>)

  /** The grid: spinner while loading, then the error, then the
      "no products match" notice for an empty page, else the page with the
      pager below it when there is more than one page's worth. */
  function GridFor(loading: bool, error: Option<string>, filtered: seq<Product>, page: int): (v: GridView)
    ensures v.Spinner? <==> loading
    ensures v.ErrorAlert? <==> !loading && error.Some?
    ensures !loading && error.None? ==> (v.NoMatch? <==> Paginate(filtered, page) == [])
    ensures v.Listing? ==> v.shown == Paginate(filtered, page) && v.total == |filtered|
    ensures v.Listing? ==> (v.pagerCount.Some? <==> |filtered| > ProductsPerPage)
    ensures v.Listing? && v.pagerCount.Some? ==>
              v.pagerCount.value >= 2 && (v.pagerCount.value - 1) * ProductsPerPage < |filtered|
                                      && |filtered| <= v.pagerCount.value * ProductsPerPage
  {
    if loading then Spinner
    else if error.Some? then ErrorAlert(error.value)
    else
      var shown := Paginate(filtered, page);
      if shown == [] then NoMatch
      else
        PageCountIsCeiling(|filtered|);
        Listing(shown, |filtered|,
                if |filtered| > ProductsPerPage then Some(PageCount(|filtered|)) else None)
  }

  // ---------------------------------------------------------------------
  // The category tab, the URL and the checkbox map

  /** The `category` query parameter, for the URLs this page navigates to. */
  function CategoryParam(url: string): Option<string>
  {
    if CategoryQuery <= url then Some(url[|CategoryQuery|..]) else None
  }

  /** `categoryFromUrl || 'all'`: a missing or empty parameter means "all". */
  function InitialTab(param: Option<string>): string
  {
    if param.Some? && param.value != "" then param.value else "all"
  }

  /** The seeding effect's update: `{...prev, [categoryFromUrl]: true}` when the
      parameter is present, non-empty and not "all". */
  function SeededSelection(m: map<string, bool>, param: Option<string>): map<string, bool>
  {
    if param.Some? && param.value != "" && param.value != "all" then m[param.value := true] else m
  }

  /** The checkbox map a tab change installs. */
  function TabSelection(tab: string): map<string, bool>
  {
    if tab == "all" then AllUnchecked() else AllUnchecked()[tab := true]
  }

  /** The URL a tab change navigates to. */
  function TabUrl(tab: string): string
  {
    if tab == "all" then BasePath else CategoryQuery + tab
  }

  /** Selecting "all" clears every box; selecting any other tab checks that
      box alone. */
  lemma TabSelectionShape(tab: string)
    ensures tab == "all" ==> !AnyChecked(TabSelection(tab)) && TabSelection(tab).Keys == AllUnchecked().Keys
    ensures tab != "all" ==> forall k :: k in TabSelection(tab) ==> (TabSelection(tab)[k] <==> k == tab)
    ensures tab != "all" ==> tab in TabSelection(tab) && AnyChecked(TabSelection(tab))
  {
    if tab == "all" {
      var m := AllUnchecked();
      assert forall v :: v in m.Values ==> !v;
    } else {
      var m := TabSelection(tab);
      assert m[tab] in m.Values;
    }
  }

  /** The URL a tab change writes carries that tab back as its parameter. */
  lemma TabUrlRoundTrip(tab: string)
    ensures CategoryParam(TabUrl(tab)) == if tab == "all" then None else Some(tab)
  {
    if tab != "all" {
      assert (CategoryQuery + tab)[|CategoryQuery|..] == tab;
    }
  }

  /** When a tab change re-runs the seeding effect (its URL changed), the
      effect changes nothing. */
  lemma SeedingAfterTabChangeIsIdle(tab: string)
    ensures SeededSelection(TabSelection(tab), CategoryParam(TabUrl(tab))) == TabSelection(tab)
  {
    TabUrlRoundTrip(tab);
  }

  /** The page state of `ProductsPage`. `url` stands for the router location. */
  class ProductsPageState {
    var products: seq<Product>
    var loading: bool
    var error: Option<string>
    var activeCategory: string
    var searchTerm: string
    var priceRange: PriceRange
    var selectedCategories: map<string, bool>
    var page: int
    var url: string

    /** The pager only ever hands out pages from 1 upwards. */
    ghost predicate Valid()
      reads this
    {
      page >= 1
    }

    function CurrentFilters(): Filters
      reads this
    {
      Filters(searchTerm, priceRange, selectedCategories)
    }

    function FilteredProducts(): seq<Product>
      reads this
    {
      FilterProducts(products, CurrentFilters())
    }

    function PaginatedProducts(): seq<Product>
      reads this
    {
      Paginate(FilteredProducts(), page)
    }

    function Grid(): GridView
      reads this
    {
      GridFor(loading, error, FilteredProducts(), page)
    }

    /** The initial state at mount, read from the location. */
    constructor (location: string)
      ensures Valid()
      ensures url == location && activeCategory == InitialTab(CategoryParam(location))
      ensures searchTerm == "" && priceRange == PriceRange(0.0, MaxPrice)
      ensures selectedCategories == AllUnchecked() && page == 1
      ensures products == [] && loading && error == None
    {
      url := location;
      activeCategory := InitialTab(CategoryParam(location));
      searchTerm := "";
      priceRange := PriceRange(0.0, MaxPrice);
      selectedCategories := AllUnchecked();
      page := 1;
      products := [];
      loading := true;
      error := None;
    }

    /** The effect that runs whenever the `category` parameter changes. */
    method SeedCategoriesFromUrl()
      requires Valid()
      modifies this
      ensures Valid()
      ensures selectedCategories == SeededSelection(old(selectedCategories), CategoryParam(url))
      ensures url == old(url) && activeCategory == old(activeCategory) && page == old(page)
      ensures searchTerm == old(searchTerm) && priceRange == old(priceRange)
      ensures products == old(products) && loading == old(loading) && error == old(error)
    {
      var categoryFromUrl := CategoryParam(url);
      if categoryFromUrl.Some? && categoryFromUrl.value != "" && categoryFromUrl.value != "all" {
        selectedCategories := selectedCategories[categoryFromUrl.value := true];
      }
    }

    /** The sample-data timer callback: the catalog arrives, loading ends. */
    method FinishLoading(catalog: seq<Product>)
      requires Valid()
      modifies this
      ensures Valid()
      ensures products == catalog && !loading && error == old(error)
      ensures CurrentFilters() == old(CurrentFilters()) && page == old(page)
      ensures url == old(url) && activeCategory == old(activeCategory)
    {
      products := catalog;
      loading := false;
    }

    /** The catch branch of the load: an error message, loading ends. */
    method FailLoading(message: string)
      requires Valid()
      modifies this
      ensures Valid()
      ensures error == Some(message) && !loading && products == old(products)
      ensures CurrentFilters() == old(CurrentFilters()) && page == old(page)
      ensures url == old(url) && activeCategory == old(activeCategory)
    {
      error := Some(message);
      loading := false;
    }

    /** `handleCategoryChange`: switch tab, rebuild the checkbox map, go to
        page 1 and navigate. */
    method HandleCategoryChange(newValue: string)
      requires Valid()
      modifies this
      ensures Valid()
      ensures activeCategory == newValue
      ensures selectedCategories == TabSelection(newValue)
      ensures page == 1
      ensures url == TabUrl(newValue)
      ensures searchTerm == old(searchTerm) && priceRange == old(priceRange)
      ensures products == old(products) && loading == old(loading) && error == old(error)
    {
      activeCategory := newValue;
      var newSelectedCategories := AllUnchecked();
      if newValue != "all" {
        newSelectedCategories := newSelectedCategories[newValue := true];
      }
      selectedCategories := newSelectedCategories;
      page := 1;
      if newValue == "all" {
        url := BasePath;
      } else {
        url := CategoryQuery + newValue;
      }
    }

    /** `handleSearchChange`: new search term, back to page 1. */
    method HandleSearchChange(value: string)
      requires Valid()
      modifies this
      ensures Valid()
      ensures searchTerm == value && page == 1
      ensures priceRange == old(priceRange) && selectedCategories == old(selectedCategories)
      ensures activeCategory == old(activeCategory) && url == old(url)
      ensures products == old(products) && loading == old(loading) && error == old(error)
    {
      searchTerm := value;
      page := 1;
    }

    /** `handlePriceChange` as written: only the range changes; the page
        number is kept. */
    method HandlePriceChange(newValue: PriceRange)
      requires Valid()
      modifies this
      ensures Valid()
      ensures priceRange == newValue && page == old(page)
      ensures searchTerm == old(searchTerm) && selectedCategories == old(selectedCategories)
      ensures activeCategory == old(activeCategory) && url == old(url)
      ensures products == old(products) && loading == old(loading) && error == old(error)
    {
      priceRange := newValue;
    }

    /** `handlePriceChange` as the other filter handlers behave: a new range
        and back to page 1, so a non-empty result is never hidden. */
    method HandlePriceChangeResettingPage(newValue: PriceRange)
      requires Valid()
      modifies this
      ensures Valid()
      ensures priceRange == newValue && page == 1
      ensures searchTerm == old(searchTerm) && selectedCategories == old(selectedCategories)
      ensures activeCategory == old(activeCategory) && url == old(url)
      ensures products == old(products) && loading == old(loading) && error == old(error)
      ensures !loading && error.None? && FilteredProducts() != [] ==> Grid().Listing?
    {
      priceRange := newValue;
      page := 1;
      if !loading && error.None? && FilteredProducts() != [] {
        FirstPageOfNonEmpty(FilteredProducts());
      }
    }

    /** `handleCategoryCheckbox`: set one key, back to page 1; the tab and the
        URL are left alone. */
    method HandleCategoryCheckbox(name: string, checked: bool)
      requires Valid()
      modifies this
      ensures Valid()
      ensures selectedCategories == old(selectedCategories)[name := checked] && page == 1
      ensures activeCategory == old(activeCategory) && url == old(url)
      ensures searchTerm == old(searchTerm) && priceRange == old(priceRange)
      ensures products == old(products) && loading == old(loading) && error == old(error)
    {
      selectedCategories := selectedCategories[name := checked];
      page := 1;
    }

    /** `handlePageChange`: the pager hands out 1..count. */
    method HandlePageChange(value: int)
      requires Valid() && value >= 1
      modifies this
      ensures Valid()
      ensures page == value && CurrentFilters() == old(CurrentFilters())
      ensures activeCategory == old(activeCategory) && url == old(url)
      ensures products == old(products) && loading == old(loading) && error == old(error)
    {
      page := value;
    }
  }

  // ---------------------------------------------------------------------
  // The sample catalog

  function NoFilters(): Filters
  {
    Filters("", PriceRange(0.0, MaxPrice), AllUnchecked())
  }

  /** The products of s in the price range, in order. */
  function InPriceRange(s: seq<Product>, range: PriceRange): seq<Product>
  {
    if s == [] then []
    else if PriceMatch(s[0], range) then [s[0]] + InPriceRange(s[1..], range)
    else InPriceRange(s[1..], range)
  }

  /** With an empty search and no box checked, only the price range filters. */
  lemma {:induction false} OnlyPriceFilters(s: seq<Product>, range: PriceRange)
    ensures FilterProducts(s, NoFilters().(priceRange := range)) == InPriceRange(s, range)
  {
    var m := AllUnchecked();
    assert !AnyChecked(m) by {
      assert forall v :: v in m.Values ==> !v;
    }
    if s != [] {
      SearchIsCaseInsensitiveSubstring(s[0], "");
      OnlyPriceFilters(s[1..], range);
    }
  }

  /** Every sample product is priced within the slider's full range. */
  lemma SampleWithinFullRange()
    ensures InPriceRange(SampleProducts(), PriceRange(0.0, MaxPrice)) == SampleProducts()
  {
    var s := SampleProducts();
    var range := PriceRange(0.0, MaxPrice);
    assert forall i :: 0 <= i < |s| ==> 0.0 <= s[i].price <= MaxPrice;
    AllPricedWithin(s, range);
  }

  /** When every product is in the range, the range keeps them all. */
  lemma {:induction false} AllPricedWithin(s: seq<Product>, range: PriceRange)
    requires forall i :: 0 <= i < |s| ==> PriceMatch(s[i], range)
    ensures InPriceRange(s, range) == s
  {
    if s != [] {
      assert forall i :: 0 <= i < |s[1..]| ==> s[1..][i] == s[i + 1];
      AllPricedWithin(s[1..], range);
    }
  }

  /** With the initial filters, every sample product is shown: page 1 holds
      ids 1..8, page 2 holds ids 9 and 10, and there are two pages. */
  lemma SampleUnfilteredPages()
    ensures FilterProducts(SampleProducts(), NoFilters()) == SampleProducts()
    ensures Paginate(SampleProducts(), 1) == SampleProducts()[..8]
    ensures Paginate(SampleProducts(), 2) == SampleProducts()[8..]
    ensures PageCount(|SampleProducts()|) == 2
  {
    SampleUnfilteredShowsAll();
    SamplePages();
  }

  lemma SampleUnfilteredShowsAll()
    ensures FilterProducts(SampleProducts(), NoFilters()) == SampleProducts()
  {
    OnlyPriceFilters(SampleProducts(), PriceRange(0.0, MaxPrice));
    assert NoFilters().(priceRange := PriceRange(0.0, MaxPrice)) == NoFilters();
    SampleWithinFullRange();
  }

  lemma SamplePages()
    ensures Paginate(SampleProducts(), 1) == SampleProducts()[..8]
    ensures Paginate(SampleProducts(), 2) == SampleProducts()[8..]
    ensures PageCount(|SampleProducts()|) == 2
  {
    PageWindow(SampleProducts(), 1);
    PageWindow(SampleProducts(), 2);
  }

  /** The sample products priced at most 1000: ids 1, 4, 5, 7, 9, 10. */
  lemma SampleUpToThousand()
    ensures var s := SampleProducts();
            FilterProducts(s, NoFilters().(priceRange := PriceRange(0.0, 1000.0)))
              == [s[0], s[3], s[4], s[6], s[8], s[9]]
  {
    OnlyPriceFilters(SampleProducts(), PriceRange(0.0, 1000.0));
    SampleInRangeUpToThousand();
  }

  lemma SampleInRangeUpToThousand()
    ensures var s := SampleProducts();
            InPriceRange(s, PriceRange(0.0, 1000.0)) == [s[0], s[3], s[4], s[6], s[8], s[9]]
  {
    var s := SampleProducts();
    var range := PriceRange(0.0, 1000.0);
    assert PriceMatch(s[0], range) && !PriceMatch(s[1], range) && !PriceMatch(s[2], range);
    assert PriceMatch(s[3], range) && PriceMatch(s[4], range) && !PriceMatch(s[5], range);
    assert PriceMatch(s[6], range) && !PriceMatch(s[7], range);
    assert PriceMatch(s[8], range) && PriceMatch(s[9], range);
    TenInRange(s, range);
  }

  /** The range filter over ten products of which the first, fourth, fifth,
      seventh, ninth and tenth are in range. */
  lemma TenInRange(s: seq<Product>, range: PriceRange)
    requires |s| == 10
    requires PriceMatch(s[0], range) && !PriceMatch(s[1], range) && !PriceMatch(s[2], range)
    requires PriceMatch(s[3], range) && PriceMatch(s[4], range) && !PriceMatch(s[5], range)
    requires PriceMatch(s[6], range) && !PriceMatch(s[7], range)
    requires PriceMatch(s[8], range) && PriceMatch(s[9], range)
    ensures InPriceRange(s, range) == [s[0], s[3], s[4], s[6], s[8], s[9]]
  {
    assert s[10..] == [];
    InPriceRangeStep(s, 9, range);
    InPriceRangeStep(s, 8, range);
    InPriceRangeStep(s, 7, range);
    InPriceRangeStep(s, 6, range);
    InPriceRangeStep(s, 5, range);
    InPriceRangeStep(s, 4, range);
    InPriceRangeStep(s, 3, range);
    InPriceRangeStep(s, 2, range);
    InPriceRangeStep(s, 1, range);
    InPriceRangeStep(s, 0, range);
    assert s[0..] == s;
  }

  /** The range filter over a suffix: its first product, if in range,
      then the range filter over the rest. */
  lemma InPriceRangeStep(s: seq<Product>, i: nat, range: PriceRange)
    requires i < |s|
    ensures InPriceRange(s[i..], range)
            == (if PriceMatch(s[i], range) then [s[i]] else []) + InPriceRange(s[i + 1..], range)
  {
    assert s[i..][1..] == s[i + 1..];
  }

  /** Past the last page, a loaded grid without error shows the
      "no products match" notice. */
  lemma GridPastLastPage(filtered: seq<Product>, page: int)
    requires page > PageCount(|filtered|)
    ensures GridFor(false, None, filtered, page) == NoMatch
  {
    PastLastPageIsEmpty(filtered, page);
  }

  /** The price change that strands the pager. On page 2 of the unfiltered
      sample catalog, narrowing the price to [0, 1000] leaves six matches,
      so page 2 is empty: the grid says nothing matches and, with six
      matches, no pager is drawn to get back. */
  lemma PriceChangeOnPageTwoHidesMatches()
    ensures |FilterProducts(SampleProducts(), NoFilters().(priceRange := PriceRange(0.0, 1000.0)))| == 6
    ensures GridFor(false, None, FilterProducts(SampleProducts(), NoFilters().(priceRange := PriceRange(0.0, 1000.0))), 2)
            == NoMatch
  {
    SampleUpToThousand();
    GridPastLastPage(FilterProducts(SampleProducts(), NoFilters().(priceRange := PriceRange(0.0, 1000.0))), 2);
  }
}
