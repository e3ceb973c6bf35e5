/**
 * The recommendations page: the category list (a category filter followed
 * by a prefix of `countToShow`), the personalised list (a shuffled copy of
 * the catalog, a prefix, and a predicted rating attached to each product),
 * the panels each list is shown in, and the page state with its handlers
 * and the two fetch steps.
 */
module RecommendationsPage {
  import opened Seqs
  import opened Catalog

  /** The slider's range, `min={1}` and `max={8}`. */
  const MinCount: int := 1
  const MaxCount: int := 8

  // Category recommendations

  function InCategory(category: string): Product -> bool
  {
    (p: Product) => p.category == category
  }

  /** `sampleProducts.filter(p => p.category === selectedCategory).slice(0, countToShow)`. */
  function CategoryRecommendations(catalog: seq<Product>, category: string, count: int): seq<Product>
  {
    Prefix(Filter(catalog, InCategory(category)), count)
  }

  /** Every category recommendation has the chosen category; there are
      min(count, number of matches) of them; they are all the matches in
      some leading part of the catalog, the whole catalog unless `count`
      were found; and they keep catalog order. */
  lemma CategoryRecommendationsSpec(catalog: seq<Product>, category: string, count: int)
    requires count >= 0
    ensures var r := CategoryRecommendations(catalog, category, count);
            (forall i :: 0 <= i < |r| ==> r[i].category == category)
            && |r| == Min(count, |Filter(catalog, InCategory(category))|)
            && (exists k :: 0 <= k <= |catalog|
                  && r == Filter(catalog[..k], InCategory(category))
                  && (k < |catalog| ==> |r| == count))
            && IsSubsequence(r, catalog)
  {
    var p := InCategory(category);
    PrefixIsTake(Filter(catalog, p), count);
    PrefixOfFilter(catalog, p, count);
    PrefixOfFilterIsSubsequence(catalog, p, count);
    var k := MatchBoundary(catalog, p, count);
    assert 0 <= k <= |catalog|;
  }

  // User recommendations

  /** A recommended product: the catalog product, unchanged, and a predicted rating. */
  datatype RatedProduct = RatedProduct(product: Product, predictedRating: real)

  /** The rating drawn from u in [0, 1): `u * 2 + 3`. */
  function PredictedRating(u: real): real
  {
    u * 2.0 + 3.0
  }

  function WithRatings(products: seq<Product>, draws: seq<real>): (r: seq<RatedProduct>)
    requires |draws| >= |products|
    ensures |r| == |products|
    ensures forall i :: 0 <= i < |r| ==> r[i].product == products[i] && r[i].predictedRating == PredictedRating(draws[i])
  {
    if products == [] then [] else [RatedProduct(products[0], PredictedRating(draws[0]))] + WithRatings(products[1..], draws[1..])
  }

  /** The copy sorted with a random comparator is some reordering of the
      catalog, given here as the permutation `order`; then the first `count`
      are taken and rated with the i-th draw. */
  function UserRecommendations(catalog: seq<Product>, order: seq<nat>, draws: seq<real>, count: int): seq<RatedProduct>
    requires IsPermutation(order, |catalog|)
    requires |draws| >= |catalog|
  {
    var chosen := Prefix(Pick(catalog, order), count);
    WithRatings(chosen, draws[..|chosen|])
  }

  /** The shuffled copy holds exactly the catalog's products. */
  lemma ShuffleIsPermutation(catalog: seq<Product>, order: seq<nat>)
    requires IsPermutation(order, |catalog|)
    ensures multiset(Pick(catalog, order)) == multiset(catalog)
  {
    PermutationKeepsElements(catalog, order);
  }

  /** There are min(count, |catalog|) user recommendations; the i-th is the
      catalog product at position order[i], its fields untouched; no catalog
      position is recommended twice, so a catalog without repeated products
      gives recommendations without repeated products; and each predicted
      rating lies in [3, 5). */
  lemma UserRecommendationsSpec(catalog: seq<Product>, order: seq<nat>, draws: seq<real>, count: int)
    requires IsPermutation(order, |catalog|)
    requires |draws| >= |catalog|
    requires forall i :: 0 <= i < |draws| ==> 0.0 <= draws[i] < 1.0
    requires count >= 0
    ensures var r := UserRecommendations(catalog, order, draws, count);
            |r| == Min(count, |catalog|)
            && (forall i :: 0 <= i < |r| ==> r[i].product == catalog[order[i]])
            && (forall i, j :: 0 <= i < j < |r| ==> order[i] != order[j])
            && (Distinct(catalog) ==> forall i, j :: 0 <= i < j < |r| ==> r[i].product != r[j].product)
            && (forall i :: 0 <= i < |r| ==> 3.0 <= r[i].predictedRating < 5.0)
  {
    var shuffled := Pick(catalog, order);
    PrefixIsTake(shuffled, count);
    PermutationIsDistinct(order, |catalog|);
  }

  /** With a count of at least the catalog size, the user recommendations
      are every catalog product, each exactly once. */
  lemma UserRecommendationsCoverCatalog(catalog: seq<Product>, order: seq<nat>, draws: seq<real>, count: int)
    requires IsPermutation(order, |catalog|)
    requires |draws| >= |catalog|
    requires count >= |catalog|
    ensures var r := UserRecommendations(catalog, order, draws, count);
            multiset(seq(|r|, i requires 0 <= i < |r| => r[i].product)) == multiset(catalog)
  {
    var r := UserRecommendations(catalog, order, draws, count);
    var shuffled := Pick(catalog, order);
    PrefixIsTake(shuffled, count);
    assert seq(|r|, i requires 0 <= i < |r| => r[i].product) == shuffled;
    ShuffleIsPermutation(catalog, order);
  }

  // Panels

  /** What a tab shows: an error alert, a spinner, the "nothing to
      recommend" info, or the cards. */
  datatype Panel<T> = ErrorAlert(message: string) | Spinner | EmptyInfo | Cards(items: seq<T>)

  /** The personalised tab: error first, then loading, then empty, then the list. */
  function PersonalizedPanel(error: Option<string>, loading: bool, recs: seq<RatedProduct>): (v: Panel<RatedProduct>)
    ensures v.ErrorAlert? <==> error.Some?
    ensures v.ErrorAlert? ==> v.message == error.value
    ensures v.Spinner? <==> error.None? && loading
    ensures v.EmptyInfo? <==> error.None? && !loading && recs == []
    ensures v.Cards? <==> error.None? && !loading && recs != []
    ensures v.Cards? ==> v.items == recs
  {
    if error.Some? then ErrorAlert(error.value)
    else if loading then Spinner
    else if |recs| == 0 then EmptyInfo
    else Cards(recs)
  }

  /** The category tab: it never shows the error; loading, then empty, then the list. */
  function CategoryPanel(loading: bool, recs: seq<Product>): (v: Panel<Product>)
    ensures !v.ErrorAlert?
    ensures v.Spinner? <==> loading
    ensures v.EmptyInfo? <==> !loading && recs == []
    ensures v.Cards? <==> !loading && recs != []
    ensures v.Cards? ==> v.items == recs
  {
    if loading then Spinner
    else if |recs| == 0 then EmptyInfo
    else Cards(recs)
  }

  // Page state

  class RecommendationsPageState {
    var userId: int
    var activeTab: int
    var userRecommendations: seq<RatedProduct>
    var categoryRecommendations: seq<Product>
    var loadingUser: bool
    var loadingCategory: bool
    var error: Option<string>
    var selectedCategory: string
    var countToShow: int

    /** The count only takes the slider's values. */
    ghost predicate Valid()
      reads this
    {
      MinCount <= countToShow <= MaxCount
    }

    function PersonalizedView(): Panel<RatedProduct>
      reads this
    {
      PersonalizedPanel(error, loadingUser, userRecommendations)
    }

    function CategoryView(): Panel<Product>
      reads this
    {
      CategoryPanel(loadingCategory, categoryRecommendations)
    }

    /** The state at mount. */
    constructor ()
      ensures Valid()
      ensures userId == 1 && activeTab == 0 && selectedCategory == "solar" && countToShow == 4
      ensures userRecommendations == [] && categoryRecommendations == []
      ensures !loadingUser && !loadingCategory && error == None
    {
      userId := 1;
      activeTab := 0;
      userRecommendations := [];
      categoryRecommendations := [];
      loadingUser := false;
      loadingCategory := false;
      error := None;
      selectedCategory := "solar";
      countToShow := 4;
    }

    /** `handleCountChange`, fed by the slider, so the value is one of 1..8. */
    method HandleCountChange(newValue: int)
      requires Valid()
      requires MinCount <= newValue <= MaxCount
      modifies this
      ensures Valid()
      ensures countToShow == newValue
      ensures userId == old(userId) && activeTab == old(activeTab) && selectedCategory == old(selectedCategory)
      ensures userRecommendations == old(userRecommendations) && categoryRecommendations == old(categoryRecommendations)
      ensures loadingUser == old(loadingUser) && loadingCategory == old(loadingCategory) && error == old(error)
    {
      countToShow := newValue;
    }

    /** `handleUserChange`, with the selected value already parsed. */
    method HandleUserChange(newUserId: int)
      requires Valid()
      modifies this
      ensures Valid()
      ensures userId == newUserId
      ensures countToShow == old(countToShow) && activeTab == old(activeTab) && selectedCategory == old(selectedCategory)
      ensures userRecommendations == old(userRecommendations) && categoryRecommendations == old(categoryRecommendations)
      ensures loadingUser == old(loadingUser) && loadingCategory == old(loadingCategory) && error == old(error)
    {
      userId := newUserId;
    }

    /** `handleCategoryChange`. */
    method HandleCategoryChange(newCategory: string)
      requires Valid()
      modifies this
      ensures Valid()
      ensures selectedCategory == newCategory
      ensures countToShow == old(countToShow) && activeTab == old(activeTab) && userId == old(userId)
      ensures userRecommendations == old(userRecommendations) && categoryRecommendations == old(categoryRecommendations)
      ensures loadingUser == old(loadingUser) && loadingCategory == old(loadingCategory) && error == old(error)
    {
      selectedCategory := newCategory;
    }

    /** `handleTabChange`. */
    method HandleTabChange(newValue: int)
      requires Valid()
      modifies this
      ensures Valid()
      ensures activeTab == newValue
      ensures countToShow == old(countToShow) && selectedCategory == old(selectedCategory) && userId == old(userId)
      ensures userRecommendations == old(userRecommendations) && categoryRecommendations == old(categoryRecommendations)
      ensures loadingUser == old(loadingUser) && loadingCategory == old(loadingCategory) && error == old(error)
    {
      activeTab := newValue;
    }

    /** The start of the user-recommendations effect: the tab starts loading. */
    method BeginUserFetch()
      requires Valid()
      modifies this
      ensures Valid()
      ensures loadingUser
      ensures userRecommendations == old(userRecommendations) && error == old(error)
      ensures countToShow == old(countToShow) && selectedCategory == old(selectedCategory) && userId == old(userId)
      ensures activeTab == old(activeTab) && categoryRecommendations == old(categoryRecommendations)
      ensures loadingCategory == old(loadingCategory)
      ensures error.None? ==> PersonalizedView() == Spinner
    {
      loadingUser := true;
    }

    /** The timer callback of the user-recommendations effect: a shuffled
        prefix of `countToShow` rated products, and loading ends. */
    method FinishUserFetch(catalog: seq<Product>, order: seq<nat>, draws: seq<real>)
      requires Valid()
      requires IsPermutation(order, |catalog|)
      requires |draws| >= |catalog|
      modifies this
      ensures Valid()
      ensures userRecommendations == UserRecommendations(catalog, order, draws, countToShow)
      ensures |userRecommendations| == Min(countToShow, |catalog|)
      ensures !loadingUser
      ensures error == old(error) && countToShow == old(countToShow) && selectedCategory == old(selectedCategory)
      ensures userId == old(userId) && activeTab == old(activeTab)
      ensures categoryRecommendations == old(categoryRecommendations) && loadingCategory == old(loadingCategory)
      ensures error.None? && catalog != [] ==> PersonalizedView() == Cards(userRecommendations)
    {
      PrefixIsTake(Pick(catalog, order), countToShow);
      userRecommendations := UserRecommendations(catalog, order, draws, countToShow);
      loadingUser := false;
    }

    /** The start of the category effect: the category tab starts loading. */
    method BeginCategoryFetch()
      requires Valid()
      modifies this
      ensures Valid()
      ensures loadingCategory && CategoryView() == Spinner
      ensures categoryRecommendations == old(categoryRecommendations) && error == old(error)
      ensures countToShow == old(countToShow) && selectedCategory == old(selectedCategory) && userId == old(userId)
      ensures activeTab == old(activeTab) && userRecommendations == old(userRecommendations)
      ensures loadingUser == old(loadingUser)
    {
      loadingCategory := true;
    }

    /** The timer callback of the category effect: the first `countToShow`
        products of the selected category, and loading ends. */
    method FinishCategoryFetch(catalog: seq<Product>)
      requires Valid()
      modifies this
      ensures Valid()
      ensures categoryRecommendations == CategoryRecommendations(catalog, selectedCategory, countToShow)
      ensures forall i :: 0 <= i < |categoryRecommendations| ==> categoryRecommendations[i].category == selectedCategory
      ensures |categoryRecommendations| == Min(countToShow, |Filter(catalog, InCategory(selectedCategory))|)
      ensures !loadingCategory
      ensures error == old(error) && countToShow == old(countToShow) && selectedCategory == old(selectedCategory)
      ensures userId == old(userId) && activeTab == old(activeTab)
      ensures userRecommendations == old(userRecommendations) && loadingUser == old(loadingUser)
      ensures CategoryView().EmptyInfo? <==> Filter(catalog, InCategory(selectedCategory)) == []
    {
      CategoryRecommendationsSpec(catalog, selectedCategory, countToShow);
      categoryRecommendations := CategoryRecommendations(catalog, selectedCategory, countToShow);
      loadingCategory := false;
    }
  }
}
