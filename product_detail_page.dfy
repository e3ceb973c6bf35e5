/**
 * The product detail page: lookup of the routed id in the sample catalog
 * with its not-found path, the "similar products" list (same category, not
 * the product itself, the first four), the view the page selects from its
 * state, and the module-level loop that fills in the specification sheets
 * of products 4 to 10.
 */
module ProductDetailPage {
  import opened Seqs
  import opened Text
  import opened Catalog

  // Specification sheets

  datatype SpecEntry = SpecEntry(name: string, value: string)

  /** The three hand-written sheets, for products 1, 2 and 3. */
  function HandWrittenSpecs(): map<int, seq<SpecEntry>>
  {
    map[
      1 := [ SpecEntry("Peak Power", "300W"), SpecEntry("Cell Type", "Monocrystalline"),
             SpecEntry("Efficiency", "22%"), SpecEntry("Dimensions", "1640 x 992 x 35mm"),
             SpecEntry("Weight", "18.6kg"), SpecEntry("Warranty", "25 years") ],
      2 := [ SpecEntry("Rated Power", "1kW"), SpecEntry("Start-up Wind Speed", "2.5 m/s"),
             SpecEntry("Rated Wind Speed", "11 m/s"), SpecEntry("Survival Wind Speed", "45 m/s"),
             SpecEntry("Rotor Diameter", "2.5m"), SpecEntry("Warranty", "5 years") ],
      3 := [ SpecEntry("Capacity", "10kWh"), SpecEntry("Chemistry", "Lithium-ion NMC"),
             SpecEntry("Round-trip Efficiency", "90%"), SpecEntry("Max Power Output", "5kW"),
             SpecEntry("Dimensions", "680 x 550 x 150mm"), SpecEntry("Warranty", "10 years") ]
    ]
  }

  /** `Math.round` on a real: the nearest integer, halves rounded up. */
  function Round(x: real): (r: int)
    ensures x - 0.5 < r as real <= x + 0.5
  {
    (x + 0.5).Floor
  }

  /** An efficiency as the sheet prints it: rounded percent and a `%` sign. */
  function PercentText(efficiency: real): string
  {
    IntToString(Round(efficiency * 100.0)) + "%"
  }

  /** The generic three-entry sheet the loop writes for a product. */
  function GenericSheet(p: Product): (sheet: seq<SpecEntry>)
    ensures |sheet| == 3
    ensures sheet[0] == SpecEntry("Efficiency", PercentText(p.efficiency))
    ensures sheet[1] == SpecEntry("Warranty", "3 years") && sheet[2] == SpecEntry("Made In", "USA")
  {
    [ SpecEntry("Efficiency", PercentText(p.efficiency)),
      SpecEntry("Warranty", "3 years"),
      SpecEntry("Made In", "USA") ]
  }

  /** The fill loop: for ids 4 to 10, the sheet of id i is the generic sheet
      of the i-th catalog product, replacing whatever was there; every other
      id keeps its sheet. The catalog must reach index 9, as the loop reads
      it up to there. */
  method FillSpecs(base: map<int, seq<SpecEntry>>, products: seq<Product>)
    returns (specs: map<int, seq<SpecEntry>>)
    requires |products| >= 10
    ensures forall k :: k in specs <==> k in base || 4 <= k <= 10
    ensures forall i :: 4 <= i <= 10 ==> specs[i] == GenericSheet(products[i - 1])
    ensures forall k :: k in base && !(4 <= k <= 10) ==> specs[k] == base[k]
  {
    specs := base;
    for i := 4 to 11
      invariant forall k :: k in specs <==> k in base || 4 <= k < i
      invariant forall j :: 4 <= j < i ==> specs[j] == GenericSheet(products[j - 1])
      invariant forall k :: k in base && !(4 <= k < i) ==> specs[k] == base[k]
    {
      specs := specs[i := GenericSheet(products[i - 1])];
    }
  }

  /** The sheets the page ends up with: ten ids, six entries for the
      hand-written ones, three for the rest. */
  method SampleSpecs() returns (specs: map<int, seq<SpecEntry>>)
    ensures forall k :: k in specs <==> 1 <= k <= 10
    ensures forall i :: 1 <= i <= 3 ==> specs[i] == HandWrittenSpecs()[i] && |specs[i]| == 6
    ensures forall i :: 4 <= i <= 10 ==> |specs[i]| == 3 && specs[i] == GenericSheet(SampleProducts()[i - 1])
  {
    var catalog := SampleProducts();
    var base := HandWrittenSpecs();
    HandWrittenShape(base);
    specs := FillSpecs(base, catalog);
  }

  /** The hand-written sheets are for ids 1, 2 and 3, six entries each. */
  lemma HandWrittenShape(base: map<int, seq<SpecEntry>>)
    requires base == HandWrittenSpecs()
    ensures forall k :: k in base <==> 1 <= k <= 3
    ensures forall i :: 1 <= i <= 3 ==> |base[i]| == 6
  {
    assert base.Keys == {1, 2, 3};
  }

  /** The generic sheet of product 4 reads "97%": 0.97 * 100 rounds to 97. */
  lemma InverterEfficiencyText()
    ensures PercentText(SampleProducts()[3].efficiency) == "97%"
  {
    assert Round(0.97 * 100.0) == 97;
  }

  // Similar products

  /** The similar-products filter: same category as the shown product, and
      not the routed id itself. */
  function IsSimilar(category: string, productId: int): Product -> bool
  {
    (p: Product) => p.category == category && p.id != productId
  }

  /** The filter followed by `slice(0, 4)`. */
  function SimilarProducts(catalog: seq<Product>, category: string, productId: int): seq<Product>
  {
    Prefix(Filter(catalog, IsSimilar(category, productId)), 4)
  }

  /** At most four similar products, each of the same category and not the
      product itself; they are all the matches found in some leading part of
      the catalog, which is the whole catalog unless four were found; and
      they keep catalog order. */
  lemma SimilarProductsSpec(catalog: seq<Product>, category: string, productId: int)
    ensures var r := SimilarProducts(catalog, category, productId);
            |r| == Min(4, |Filter(catalog, IsSimilar(category, productId))|)
            && (forall i :: 0 <= i < |r| ==> r[i].category == category && r[i].id != productId)
            && (exists k :: 0 <= k <= |catalog|
                  && r == Filter(catalog[..k], IsSimilar(category, productId))
                  && (k < |catalog| ==> |r| == 4))
            && IsSubsequence(r, catalog)
  {
    var p := IsSimilar(category, productId);
    PrefixIsTake(Filter(catalog, p), 4);
    PrefixOfFilter(catalog, p, 4);
    PrefixOfFilterIsSubsequence(catalog, p, 4);
    var k := MatchBoundary(catalog, p, 4);
    assert 0 <= k <= |catalog|;
  }

  /** A similar product with the score the page attaches to it. */
  datatype ScoredProduct = ScoredProduct(product: Product, similarityScore: real)

  /** The score attached from a random draw u in [0, 1): `u * 0.5 + 0.5`. */
  function Score(u: real): real
  {
    u * 0.5 + 0.5
  }

  /** Attach the i-th draw to the i-th product; the product itself is kept
      as it is. */
  function WithScores(products: seq<Product>, draws: seq<real>): (r: seq<ScoredProduct>)
    requires |draws| >= |products|
    ensures |r| == |products|
    ensures forall i :: 0 <= i < |r| ==> r[i].product == products[i] && r[i].similarityScore == Score(draws[i])
  {
    if products == [] then [] else [ScoredProduct(products[0], Score(draws[0]))] + WithScores(products[1..], draws[1..])
  }

  /** Every attached score lies in [0.5, 1). */
  lemma ScoresInRange(products: seq<Product>, draws: seq<real>)
    requires |draws| >= |products|
    requires forall i :: 0 <= i < |draws| ==> 0.0 <= draws[i] < 1.0
    ensures forall i :: 0 <= i < |products| ==> 0.5 <= WithScores(products, draws)[i].similarityScore < 1.0
  {
  }

  // The view

  datatype SimilarPanel = SimilarSpinner | SimilarCards(items: seq<ScoredProduct>) | NoSimilarFound

  datatype DetailView =
    | Spinner
    | NotFoundAlert(message: string)
    | Detail(product: Product, efficiencyPercent: int, similar: SimilarPanel)

  const DefaultNotFound: string := "Product not found. Please check the URL and try again."

  /** The page's early returns, then the similar-products panel: a spinner
      while loading, an alert when there is an error or no product (the error
      text if any), otherwise the product with its rounded efficiency and a
      similar panel that prefers the spinner, then the cards, then the
      "no similar products" note. */
  function ViewFor(loading: bool, error: Option<string>, product: Option<Product>,
                   loadingSimilar: bool, similar: seq<ScoredProduct>): (v: DetailView)
    ensures loading <==> v.Spinner?
    ensures v.NotFoundAlert? <==> !loading && (error.Some? || product.None?)
    ensures v.NotFoundAlert? ==> v.message == if error.Some? then error.value else DefaultNotFound
    ensures v.Detail? ==> product == Some(v.product) && v.efficiencyPercent == Round(v.product.efficiency * 100.0)
    ensures v.Detail? ==> (v.similar.SimilarSpinner? <==> loadingSimilar)
    ensures v.Detail? ==> (v.similar.SimilarCards? <==> !loadingSimilar && similar != [])
    ensures v.Detail? && v.similar.SimilarCards? ==> v.similar.items == similar
  {
    if loading then Spinner
    else if error.Some? || product.None? then
      NotFoundAlert(if error.Some? then error.value else DefaultNotFound)
    else
      var panel := if loadingSimilar then SimilarSpinner
                   else if |similar| > 0 then SimilarCards(similar)
                   else NoSimilarFound;
      Detail(product.value, Round(product.value.efficiency * 100.0), panel)
  }

  /** The page for one routed id, from mount on. */
  class ProductDetailState {
    var productId: int
    var product: Option<Product>
    var loading: bool
    var error: Option<string>
    var activeTab: int
    var similar: seq<ScoredProduct>
    var loadingSimilar: bool

    function View(): DetailView
      reads this
    {
      ViewFor(loading, error, product, loadingSimilar, similar)
    }

    /** The state at mount: nothing found yet, loading. */
    constructor (routeId: int)
      ensures productId == routeId && product == None && loading && error == None
      ensures activeTab == 0 && similar == [] && !loadingSimilar
      ensures View() == Spinner
    {
      productId := routeId;
      product := None;
      loading := true;
      error := None;
      activeTab := 0;
      similar := [];
      loadingSimilar := false;
    }

    /** `fetchProductDetails`: look the routed id up. Found: the product is
        set and the error left as it was. Not found: the error is set and the
        product left as it was. Loading ends either way. */
    method FetchProductDetails(catalog: seq<Product>)
      modifies this
      ensures !loading
      ensures FindById(catalog, productId).Some? ==>
                product == FindById(catalog, productId) && error == old(error)
      ensures FindById(catalog, productId).None? ==>
                error == Some("Product not found") && product == old(product)
      ensures productId == old(productId) && activeTab == old(activeTab)
      ensures similar == old(similar) && loadingSimilar == old(loadingSimilar)
      ensures (forall i :: 0 <= i < |catalog| ==> catalog[i].id != productId) ==>
                View() == NotFoundAlert("Product not found")
    {
      loading := true;
      var foundProduct := FindById(catalog, productId);
      if foundProduct.Some? {
        product := foundProduct;
      } else {
        error := Some("Product not found");
      }
      loading := false;
    }

    /** The start of `fetchSimilarProducts`: with no product it returns at
        once; otherwise the similar panel starts loading. */
    method BeginSimilarFetch()
      modifies this
      ensures product.None? ==> loadingSimilar == old(loadingSimilar)
      ensures product.Some? ==> loadingSimilar
      ensures productId == old(productId) && product == old(product) && loading == old(loading)
      ensures error == old(error) && activeTab == old(activeTab) && similar == old(similar)
    {
      if product.None? {
        return;
      }
      loadingSimilar := true;
    }

    /** The timer callback of `fetchSimilarProducts`, which exists only once
        a product is set: the first four similar products with their scores,
        and the panel stops loading. */
    method FinishSimilarFetch(catalog: seq<Product>, draws: seq<real>)
      requires product.Some?
      requires |draws| >= 4
      modifies this
      ensures similar == WithScores(SimilarProducts(catalog, old(product).value.category, productId),
                                    draws[..|SimilarProducts(catalog, old(product).value.category, productId)|])
      ensures !loadingSimilar
      ensures productId == old(productId) && product == old(product) && loading == old(loading)
      ensures error == old(error) && activeTab == old(activeTab)
      ensures |similar| <= 4
      ensures forall i :: 0 <= i < |similar| ==>
                similar[i].product.category == product.value.category && similar[i].product.id != productId
    {
      var sameCategoryProducts := SimilarProducts(catalog, product.value.category, productId);
      SimilarProductsSpec(catalog, product.value.category, productId);
      similar := WithScores(sameCategoryProducts, draws[..|sameCategoryProducts|]);
      loadingSimilar := false;
    }

    /** `handleTabChange`. */
    method HandleTabChange(newValue: int)
      modifies this
      ensures activeTab == newValue
      ensures productId == old(productId) && product == old(product) && loading == old(loading)
      ensures error == old(error) && similar == old(similar) && loadingSimilar == old(loadingSimilar)
    {
      activeTab := newValue;
    }
  }
}
