# Renewable-energy catalog and recommender, modelled in Dafny

This project models the client pages and the backend recommender of a web application that sells renewable-energy products.

- **Products page.** It filters a catalog by a search term, a price range and a set of category checkboxes. It paginates the result eight products at a time. It keeps its category tab in sync with the `category` URL query parameter.
- **Product detail page.** It looks one product up by its route id. It shows that product's specification sheet and up to four "similar" products from the same category, each with a random similarity score.
- **Recommendations page.** It shows a random selection of the catalog, each product with a random predicted rating, and the products of one category. The number shown comes from a slider bounded to 1..8.
- **Recommender.** It builds dense user and product indices from the interactions, plus a user-item rating matrix and an item-item similarity matrix. It answers three queries: top products of a category by efficiency, item-based collaborative-filtering predictions for a user, and the products most similar to a given one.

Modules:

- `Seqs`: shared sequence vocabulary.
  - `Slice` and `Prefix` model JavaScript `slice` and Python slicing or `head`: a negative bound counts from the end, then both bounds are clamped.
  - `Filter`, subsequences, a descending sort proved stable (`SortDescStable`), `Distinct`.
  - Permutations given as index sequences (`Pick`, `IsPermutation`).
- `Text`: ASCII lower-casing and substring search.
- `Catalog`: the `Product` record, the ten sample products and the first-match lookup by id.
- `ProductsPage`, `ProductDetailPage`, `RecommendationsPage`: one module per page. Its pure selection logic is functions. Its component state is a class, and each state setter or effect step is a method.
- `Recommender`: the `RenewableEnergyRecommender` class.
  - `Train` loops over the interaction ids exactly as the Python `enumerate` loops do.
  - The queries are specified by functions over a `ModelData` snapshot of the trained state.
  - The loops of `recommend_for_user` and the result-building loops are methods proved equal to those functions.

Randomness is a parameter in every model:

- `Math.random()` draws are a sequence `draws` of reals in [0, 1).
- The random-comparator shuffle is an arbitrary permutation `order` of the catalog indices.
- The cosine-similarity matrix is an arbitrary function `(int, int) -> real` handed to `Train`.

Timers (`setTimeout`) become separate begin and finish methods. Floating-point numbers are reals.

The products page resets to page 1 in three of its four filter handlers: the category tab, the search box and the checkboxes each call `setPage(1)` with the comment "Reset to first page" (frontend/src/pages/ProductsPage.js:124, 137 and 151). `handlePriceChange` (lines 141-143) sets the price range and does not reset the page. The model follows the code as written, and the corrected handler resets the page (see Findings).

## Model

| member | source | states |
|---|---|---|
| Seqs.Slice | frontend/src/pages/ProductsPage.js:176-179 | a slice never grows the sequence and only holds elements of it (JavaScript slice and Python slicing semantics) |
| Seqs.SliceNonNegative | frontend/src/pages/ProductsPage.js:176-179 | with non-negative bounds, a slice is the sub-range between the two bounds clamped to the length |
| Seqs.PrefixIsTake | backend/models/recommender.py:134 | for n >= 0, `head(n)` and `[:n]` give the first min(n, length) elements |
| Seqs.Filter | frontend/src/pages/ProductsPage.js:161-173 | a filter keeps exactly the elements that satisfy the predicate, and nothing else |
| Seqs.NoneMatch | backend/models/recommender.py:178-181 | a predicate no element satisfies filters to the empty sequence |
| Seqs.FilterIsSubsequence | frontend/src/pages/ProductsPage.js:161-173 | filtering keeps the original relative order (a subsequence) |
| Seqs.SubsequenceAppend | frontend/src/pages/ProductsPage.js:161-173 | a subsequence of a sequence remains one after anything is appended to it |
| Seqs.PrefixOfFilterIsSubsequence | frontend/src/pages/ProductDetailPage.js:129-131 | taking a prefix after a filter still gives a subsequence of the input |
| Seqs.FilterAppend | frontend/src/pages/ProductsPage.js:161-173 | filtering distributes over concatenation |
| Seqs.PrefixOfFilter | frontend/src/pages/ProductDetailPage.js:129-131 | the first n matches are the matches in an input prefix; when that prefix is shorter than the input, exactly n matches were kept |
| Seqs.InsertDesc | backend/models/recommender.py:162 | inserting into a descending sequence keeps it descending and adds exactly that element |
| Seqs.SortDesc | backend/models/recommender.py:162 | the sort result is descending by the key and is a permutation of the input |
| Seqs.SortDescStable | backend/models/recommender.py:114 | the sort is stable: the elements of any one key appear in the result in their input order |
| Seqs.LeadingTwo | backend/models/recommender.py:114 | in a descending sequence whose only two elements of the top key are u then v, the sequence starts u, v |
| Seqs.DropFirstWindow | backend/models/recommender.py:115 | `s[1:n+1]` of a descending sequence is entries 1..min(n, len-1), descending, none beaten by a later entry |
| Seqs.SortedPrefixFacts | backend/models/recommender.py:162 | the top n of the sort are exactly min(n, length) elements of the input, none more often than in the input, highest first |
| Seqs.FilterSubMultiset | backend/models/recommender.py:114 | filtering never adds an element nor repeats one more often than the input |
| Seqs.PrefixSubMultiset | backend/models/recommender.py:162 | the first n of a sequence are part of it, element for element |
| Seqs.FilterKeepsSorted | backend/models/recommender.py:114-115 | filtering a descending sequence keeps it descending, below its first element |
| Seqs.PrefixOfSortedDominates | backend/models/recommender.py:184 | in a descending sequence, every element after the first n has a key no greater than any of the first n |
| Seqs.SortedPrefixDominates | backend/models/recommender.py:162 | an element left out of the top n of the sort has a key no greater than every kept one |
| Seqs.Pick | frontend/src/pages/RecommendationsPage.js:73-75 | applying an index sequence yields the element at each index, in order |
| Seqs.PickMultiset | frontend/src/pages/RecommendationsPage.js:73-75 | index sequences holding the same indices pick the same multiset of elements |
| Seqs.PermutationKeepsElements | frontend/src/pages/RecommendationsPage.js:73-75 | applying a permutation keeps every element with its multiplicity |
| Seqs.DistinctMultiplicity | frontend/src/pages/RecommendationsPage.js:73-75 | in a duplicate-free sequence, every element occurs at most once in its multiset |
| Seqs.MultiplicityDistinct | frontend/src/pages/RecommendationsPage.js:73-75 | a sequence whose multiset has no element twice is duplicate-free |
| Seqs.PermutationIsDistinct | frontend/src/pages/RecommendationsPage.js:73-75 | a shuffle order never repeats an index |
| Seqs.PermutationCovers | frontend/src/pages/RecommendationsPage.js:73-75 | a shuffle order contains every index of the catalog |
| Text.Lower | frontend/src/pages/ProductsPage.js:163 | lower-casing keeps the length and maps each character independently |
| Text.LowerIdempotent | frontend/src/pages/ProductsPage.js:163 | lower-casing twice is the same as lower-casing once |
| Text.ContainsIff | frontend/src/pages/ProductsPage.js:163 | `includes` holds exactly when the term occurs at some position |
| Text.ContainsEmpty | frontend/src/pages/ProductsPage.js:163 | every string includes the empty term |
| Text.NatToString | frontend/src/pages/ProductDetailPage.js:68 | a number renders as a non-empty string of decimal digits |
| Text.NatToStringRoundTrip | frontend/src/pages/ProductDetailPage.js:68 | reading the rendered digits back gives the number, and there is no leading zero |
| Catalog.FindById | frontend/src/pages/ProductDetailPage.js:99 | `find` by id returns nothing exactly when no product has the id, and otherwise returns a catalog product with that id |
| Catalog.FindInNumbered | backend/models/recommender.py:119 | in a catalog listing ids 1..m in order, the lookup of id k returns row k |
| Catalog.SampleProductIds | backend/models/recommender.py:20-31 | the sample catalog lists ids 1 to 10 in order |
| ProductsPage.Matches | frontend/src/pages/ProductsPage.js:161-173 | defines the `filteredProducts` test: search, price and category rules joined by "and"; FilteredMembership, SearchIsCaseInsensitiveSubstring, PriceBoundsInclusive and CategoryRule state it |
| ProductsPage.FilterProducts | frontend/src/pages/ProductsPage.js:161-173 | defines `filteredProducts` as the catalog filtered by `Matches`; FilteredMembership states membership and order |
| ProductsPage.FilteredMembership | frontend/src/pages/ProductsPage.js:161-173 | a product is listed iff it passes search, price and category together; the listing is a subsequence of the catalog |
| ProductsPage.SearchIsCaseInsensitiveSubstring | frontend/src/pages/ProductsPage.js:163 | the search matches iff the lower-cased term occurs in the lower-cased name; it ignores the term's case; an empty term matches every product |
| ProductsPage.PriceBoundsInclusive | frontend/src/pages/ProductsPage.js:166 | the price test is inclusive at both ends |
| ProductsPage.CategoryRule | frontend/src/pages/ProductsPage.js:169-170 | with no box checked every category passes; otherwise a product passes iff its category's box is checked |
| ProductsPage.UnknownSeededCategoryMatchesNothing | frontend/src/pages/ProductsPage.js:72-79 | a URL category that no product has, once seeded as the only checked box, filters everything out |
| ProductsPage.FilterOfFilter | frontend/src/pages/ProductsPage.js:161-173 | filtering by a stronger predicate after a weaker one is the same as filtering by the stronger one alone |
| ProductsPage.WiderPriceRangeOnlyAdds | frontend/src/pages/ProductsPage.js:166 | widening the price range only adds products to the listing |
| ProductsPage.CheckingAnotherBoxOnlyAdds | frontend/src/pages/ProductsPage.js:146-152 | once some box is checked, checking another one only adds products |
| ProductsPage.Paginate | frontend/src/pages/ProductsPage.js:176-179 | defines `paginatedProducts` as `slice((page-1)*8, page*8)`; PageWindow, PastLastPageIsEmpty and PagesCoverFiltered state it |
| ProductsPage.PageWindow | frontend/src/pages/ProductsPage.js:176-179 | page p shows the products from (p-1)*8 to p*8, clamped: at most eight, never more than the matches |
| ProductsPage.PageCount | frontend/src/pages/ProductsPage.js:318 | defines the pager count `Math.ceil(n/8)` on naturals; PageCountIsCeiling states it |
| ProductsPage.PageCountIsCeiling | frontend/src/pages/ProductsPage.js:318 | the pager count is ceil(n/8): zero only for no matches, and the pages together just cover n |
| ProductsPage.PastLastPageIsEmpty | frontend/src/pages/ProductsPage.js:176-179 | a page beyond the last one shows nothing |
| ProductsPage.PagesUpToIsPrefix | frontend/src/pages/ProductsPage.js:176-179 | pages 1..k laid end to end are the first min(8k, n) matches |
| ProductsPage.PagesCoverFiltered | frontend/src/pages/ProductsPage.js:176-179 | all pages together show every match exactly once, in order |
| ProductsPage.FirstPageOfNonEmpty | frontend/src/pages/ProductsPage.js:176-179 | if anything matches, page 1 is not empty and holds the first min(8, n) matches |
| ProductsPage.GridFor | frontend/src/pages/ProductsPage.js:290-318 | the grid is a spinner iff loading, then an error iff an error exists, then "no match" iff the page is empty, else a listing that shows the page and the total; the pager appears iff more than eight match, with ceil(n/8) pages |
| ProductsPage.CategoryParam | frontend/src/pages/ProductsPage.js:44-47 | defines the `category` query value read from the URL; TabUrlRoundTrip states that it reads back what TabUrl writes |
| ProductsPage.InitialTab | frontend/src/pages/ProductsPage.js:55 | defines the initial tab `categoryFromUrl || 'all'`; the constructor of ProductsPageState uses it |
| ProductsPage.SeededSelection | frontend/src/pages/ProductsPage.js:72-79 | defines the URL effect `{...prev, [category]: true}` for a set value other than "all"; UnknownSeededCategoryMatchesNothing and SeedingAfterTabChangeIsIdle state it |
| ProductsPage.TabSelection | frontend/src/pages/ProductsPage.js:105-121 | defines the checkbox map a tab sets; TabSelectionShape states it |
| ProductsPage.TabUrl | frontend/src/pages/ProductsPage.js:126-131 | defines the URL a tab navigates to; TabUrlRoundTrip states it |
| ProductsPage.TabSelectionShape | frontend/src/pages/ProductsPage.js:105-121 | the "all" tab clears every box of the six categories; any other tab checks exactly that category |
| ProductsPage.TabUrlRoundTrip | frontend/src/pages/ProductsPage.js:125-131 | the URL written for a tab reads back as that tab's category parameter, or none for "all" |
| ProductsPage.SeedingAfterTabChangeIsIdle | frontend/src/pages/ProductsPage.js:72-79 | re-seeding from the URL after a tab change leaves the selection unchanged |
| ProductsPage.ProductsPageState.constructor | frontend/src/pages/ProductsPage.js:44-69 | initial state: tab from the URL parameter or "all", empty search, price 0..5000, no box checked, page 1, empty catalog, loading, no error |
| ProductsPage.ProductsPageState.SeedCategoriesFromUrl | frontend/src/pages/ProductsPage.js:72-79 | a URL category other than "all" is checked on top of the current selection; nothing else changes |
| ProductsPage.ProductsPageState.FinishLoading | frontend/src/pages/ProductsPage.js:91-94 | the timer callback installs the catalog and clears loading; filters and page stay |
| ProductsPage.ProductsPageState.FailLoading | frontend/src/pages/ProductsPage.js:95-98 | the catch branch records the message and clears loading; the catalog stays |
| ProductsPage.ProductsPageState.HandleCategoryChange | frontend/src/pages/ProductsPage.js:105-132 | the tab is set, the selection is the tab's, the page is reset to 1 and the URL is the tab's URL; search, price and the catalog stay |
| ProductsPage.ProductsPageState.HandleSearchChange | frontend/src/pages/ProductsPage.js:135-138 | the search term is set and the page reset to 1; everything else stays |
| ProductsPage.ProductsPageState.HandlePriceChange | frontend/src/pages/ProductsPage.js:141-143 | the price range is set and, as written, the page is kept |
| ProductsPage.ProductsPageState.HandlePriceChangeResettingPage | frontend/src/pages/ProductsPage.js:141-143 | corrected: the price range is set and the page reset to 1, so a loaded page with any match shows a listing |
| ProductsPage.ProductsPageState.HandleCategoryCheckbox | frontend/src/pages/ProductsPage.js:146-152 | one box is set to the checkbox's state and the page is reset to 1; the tab and the URL stay |
| ProductsPage.ProductsPageState.HandlePageChange | frontend/src/pages/ProductsPage.js:155-158 | the page is set; the filters and everything else stay |
| ProductsPage.OnlyPriceFilters | frontend/src/pages/ProductsPage.js:161-173 | with an empty search and no box checked, the listing is the products in the price range |
| ProductsPage.SampleWithinFullRange | frontend/src/pages/ProductsPage.js:30-41 | every sample product lies in the default price range 0..5000 |
| ProductsPage.AllPricedWithin | frontend/src/pages/ProductsPage.js:166 | a range that holds every price keeps every product |
| ProductsPage.SampleUnfilteredShowsAll | frontend/src/pages/ProductsPage.js:30-41 | with the default filters, all ten sample products are listed |
| ProductsPage.SamplePages | frontend/src/pages/ProductsPage.js:176-179 | the ten sample products fill page 1 with eight and page 2 with two, under a two-page pager |
| ProductsPage.SampleUnfilteredPages | frontend/src/pages/ProductsPage.js:161-179 | with the default filters, the sample listing splits into pages of eight and two |
| ProductsPage.SampleInRangeUpToThousand | frontend/src/pages/ProductsPage.js:30-41 | six sample products (ids 1, 4, 5, 7, 9, 10) cost at most 1000 |
| ProductsPage.SampleUpToThousand | frontend/src/pages/ProductsPage.js:161-173 | the price filter 0..1000 lists those six sample products in catalog order |
| ProductsPage.GridPastLastPage | frontend/src/pages/ProductsPage.js:296 | a loaded page number beyond the last shows "no match" whatever the matches |
| ProductsPage.PriceChangeOnPageTwoHidesMatches | frontend/src/pages/ProductsPage.js:141-143 | on page 2, the price filter 0..1000 has six matches yet shows "no match" and no pager |
| ProductDetailPage.HandWrittenShape | frontend/src/pages/ProductDetailPage.js:38-63 | the hand-written sheets are for ids 1..3, six entries each |
| ProductDetailPage.Round | frontend/src/pages/ProductDetailPage.js:68 | `Math.round` is the nearest integer, halves rounded up |
| ProductDetailPage.GenericSheet | frontend/src/pages/ProductDetailPage.js:67-71 | a generated sheet has three entries: the efficiency percentage, "3 years" of warranty and "USA" |
| ProductDetailPage.FillSpecs | frontend/src/pages/ProductDetailPage.js:66-72 | the loop adds a generated sheet for each of ids 4..10, built from product i-1; other ids are kept |
| ProductDetailPage.SampleSpecs | frontend/src/pages/ProductDetailPage.js:38-72 | the sheets cover exactly ids 1..10; ids 1..3 keep their six hand-written entries and ids 4..10 get three generated ones |
| ProductDetailPage.PercentText | frontend/src/pages/ProductDetailPage.js:68 | defines the efficiency text `Math.round(efficiency * 100)%`; InverterEfficiencyText states a sample value |
| ProductDetailPage.InverterEfficiencyText | frontend/src/pages/ProductDetailPage.js:68 | the inverter's efficiency 0.97 renders as "97%" |
| ProductDetailPage.SimilarProducts | frontend/src/pages/ProductDetailPage.js:129-131 | defines the `filter(...).slice(0, 4)` of same-category, not-self products; SimilarProductsSpec states it |
| ProductDetailPage.SimilarProductsSpec | frontend/src/pages/ProductDetailPage.js:129-131 | the similar products are the first min(4, m) products of the same category other than the product itself, in catalog order |
| ProductDetailPage.WithScores | frontend/src/pages/ProductDetailPage.js:134-137 | each similar product keeps its record and gets score draw*0.5+0.5 |
| ProductDetailPage.Score | frontend/src/pages/ProductDetailPage.js:136 | defines `similarity_score` from a random draw; ScoresInRange states its range |
| ProductDetailPage.ScoresInRange | frontend/src/pages/ProductDetailPage.js:136 | every similarity score lies in [0.5, 1) |
| ProductDetailPage.ViewFor | frontend/src/pages/ProductDetailPage.js:159-182 | spinner iff loading; error alert iff an error or no product, showing the error or the default message; otherwise the detail with the rounded efficiency percentage and the similar panel (spinner, cards or "none found") |
| ProductDetailPage.ProductDetailState.constructor | frontend/src/pages/ProductDetailPage.js:77-87 | initial state: the route id, no product, loading, first tab, no similar products; the view is the spinner |
| ProductDetailPage.ProductDetailState.FetchProductDetails | frontend/src/pages/ProductDetailPage.js:90-109 | a found product is installed; otherwise the error is "Product not found"; loading always ends; with no such id the view is that alert |
| ProductDetailPage.ProductDetailState.BeginSimilarFetch | frontend/src/pages/ProductDetailPage.js:117-120 | with no product nothing happens; otherwise the similar panel starts loading |
| ProductDetailPage.ProductDetailState.FinishSimilarFetch | frontend/src/pages/ProductDetailPage.js:127-141 | the similar list is the scored same-category selection, at most four, none of them the product itself; loading ends |
| ProductDetailPage.ProductDetailState.HandleTabChange | frontend/src/pages/ProductDetailPage.js:152-154 | only the active tab changes |
| RecommendationsPage.CategoryRecommendations | frontend/src/pages/RecommendationsPage.js:105-107 | defines `filter(category).slice(0, count)`; CategoryRecommendationsSpec states it |
| RecommendationsPage.CategoryRecommendationsSpec | frontend/src/pages/RecommendationsPage.js:105-107 | the category list is the first min(count, m) products of the category, in catalog order |
| RecommendationsPage.WithRatings | frontend/src/pages/RecommendationsPage.js:76-79 | each chosen product keeps its record and gets rating draw*2+3 |
| RecommendationsPage.ShuffleIsPermutation | frontend/src/pages/RecommendationsPage.js:73-74 | the shuffled copy holds exactly the catalog's products |
| RecommendationsPage.PredictedRating | frontend/src/pages/RecommendationsPage.js:78 | defines `predicted_rating` from a random draw; UserRecommendationsSpec states its range |
| RecommendationsPage.UserRecommendations | frontend/src/pages/RecommendationsPage.js:73-79 | defines the shuffled copy, its first `count` entries and the added rating; UserRecommendationsSpec and UserRecommendationsCoverCatalog state it |
| RecommendationsPage.UserRecommendationsSpec | frontend/src/pages/RecommendationsPage.js:73-79 | min(count, n) picks taken from distinct catalog positions, no product twice when the catalog has none twice, and every rating in [3, 5) |
| RecommendationsPage.UserRecommendationsCoverCatalog | frontend/src/pages/RecommendationsPage.js:73-79 | when count covers the catalog, every product is recommended exactly as often as it appears |
| RecommendationsPage.PersonalizedPanel | frontend/src/pages/RecommendationsPage.js:214-235 | error first, then spinner, then the info alert iff there are no recommendations, else the cards |
| RecommendationsPage.CategoryPanel | frontend/src/pages/RecommendationsPage.js:267-281 | never the error; spinner, then the info alert iff empty, else the cards |
| RecommendationsPage.RecommendationsPageState.constructor | frontend/src/pages/RecommendationsPage.js:30-44 | user 1, first tab, category "solar", four to show, nothing loaded |
| RecommendationsPage.RecommendationsPageState.HandleCountChange | frontend/src/pages/RecommendationsPage.js:137-139 | the count, from the slider's 1..8, is set; nothing else changes |
| RecommendationsPage.RecommendationsPageState.HandleUserChange | frontend/src/pages/RecommendationsPage.js:127-129 | only the user changes |
| RecommendationsPage.RecommendationsPageState.HandleCategoryChange | frontend/src/pages/RecommendationsPage.js:132-134 | only the selected category changes |
| RecommendationsPage.RecommendationsPageState.HandleTabChange | frontend/src/pages/RecommendationsPage.js:122-124 | only the active tab changes |
| RecommendationsPage.RecommendationsPageState.BeginUserFetch | frontend/src/pages/RecommendationsPage.js:64 | the user panel starts loading and shows the spinner unless an error is set |
| RecommendationsPage.RecommendationsPageState.FinishUserFetch | frontend/src/pages/RecommendationsPage.js:70-83 | the recommendations are min(count, n) shuffled and rated products; loading ends; a non-empty catalog shows cards |
| RecommendationsPage.RecommendationsPageState.BeginCategoryFetch | frontend/src/pages/RecommendationsPage.js:96 | the category panel starts loading and shows the spinner |
| RecommendationsPage.RecommendationsPageState.FinishCategoryFetch | frontend/src/pages/RecommendationsPage.js:103-110 | the category list holds only that category, min(count, m) of it; loading ends; the info alert shows iff the category is empty |
| Recommender.UserIds | backend/models/recommender.py:62 | the user column, one id per interaction |
| Recommender.ProductIds | backend/models/recommender.py:65 | the product column, one id per interaction |
| Recommender.UniqueSorted | backend/models/recommender.py:62-66 | `np.unique` is strictly increasing and holds exactly the ids that occur |
| Recommender.Enumerate | backend/models/recommender.py:62-66 | defines the `enumerate` loops as map updates over the old mapping; EnumerateSpec and FreshMappingIsDense state it |
| Recommender.AppendNew | backend/models/recommender.py:78-80 | defines the key order of `product_mapping.keys()`: old keys first, then new ids in order; FreshKeysAreAscending states it |
| Recommender.RatingSum | backend/models/recommender.py:68-74 | defines a matrix entry as the sum of the ratings of that (user, product) pair; PredictionFacts and SampleIndex use it |
| Recommender.EnumerateSpec | backend/models/recommender.py:62-66 | enumerating distinct ids maps the j-th id to j, adds exactly those keys and keeps the other old entries |
| Recommender.FreshMappingIsDense | backend/models/recommender.py:62-66 | on empty maps, the mapping is a bijection between the unique ids and 0..k-1 that preserves their order |
| Recommender.FreshKeysAreAscending | backend/models/recommender.py:78-80 | on a fresh recommender, the similarity index is the unique product ids in ascending order |
| Recommender.Unrated | backend/models/recommender.py:141-142 | defines the products the user rated 0, in key order; PredictionFacts and UnratedKeyIsCandidate state it |
| Recommender.WeightedSum | backend/models/recommender.py:151-155 | defines the sum of similarity times rating over the rated products; PredictionFacts states each prediction is WeightedSum over TotalWeight |
| Recommender.TotalWeight | backend/models/recommender.py:151-155 | the total weight is a sum of absolute values and is never negative |
| Recommender.Predictions | backend/models/recommender.py:145-159 | a prediction is kept exactly for the candidates with positive total weight, and its value is weighted sum / total weight |
| Recommender.Attach | backend/models/recommender.py:117-121 | building rows succeeds iff every id has a product row; each row is that product with its score; otherwise the failure names an id without a row |
| Recommender.NewUserGetsCatalogHead | backend/models/recommender.py:132-135 | an unknown user gets the first n catalog rows |
| Recommender.PredictionFacts | backend/models/recommender.py:141-159 | every prediction is for an unrated index key with positive total weight, scored with its weighted average |
| Recommender.RankedForUserSpec | backend/models/recommender.py:141-162 | the top n are exactly min(n, number of predictions) of the predictions, none taken more often than it occurs; each is an unrated, predicted product; they come in non-increasing order, and every left-out prediction is no higher than any kept one |
| Recommender.UnratedKeyIsCandidate | backend/models/recommender.py:141-159 | an unrated index key with positive total weight gets a prediction |
| Recommender.KnownUserRecommendations | backend/models/recommender.py:137-170 | a known user gets exactly min(n, number of predictions) products, drawn from the predictions with none used more often than it occurs; each is an unrated index key with positive total weight and its predicted rating, in non-increasing order; every unrated key with positive total weight that is not listed predicts no higher than any listed one |
| Recommender.KnownUserFailsOnlyOnMissingRow | backend/models/recommender.py:164-168 | a known user's query fails only when a top product has no product row |
| Recommender.RecommendForUserSpec | backend/models/recommender.py:125-170 | defines `recommend_for_user`: the catalog head for an unknown user, otherwise the top n predictions with their rows; NewUserGetsCatalogHead and KnownUserRecommendations state it |
| Recommender.RecommendByCategorySpec | backend/models/recommender.py:172-185 | defines `recommend_by_category`: filter, sort by efficiency descending, head(n); RecommendByCategoryProperties states it |
| Recommender.RecommendByCategoryProperties | backend/models/recommender.py:172-185 | no match gives []; otherwise min(n, m) products of the category, none more often than the catalog lists it, by efficiency from highest to lowest, none beaten by a left-out one |
| Recommender.SimilarityRow | backend/models/recommender.py:114 | a similarity row has one score per product key, in the index order |
| Recommender.AttachKeepsIdsAndScores | backend/models/recommender.py:117-121 | a successful build lists, position by position, the products of the given ids with their scores |
| Recommender.GetSimilarSpec | backend/models/recommender.py:105-123 | defines `get_similar_products`: [] for an unknown id, otherwise the sorted row without its first entry, the next n, with their rows; GetSimilarProperties states it |
| Recommender.GetSimilarProperties | backend/models/recommender.py:105-123 | an unknown id gives []; otherwise entries 1..min(n, k-1) of the sorted similarity row, position by position, each an index key with its similarity, in non-increasing order, none beaten by a later entry of the row |
| Recommender.SimilarIdsFacts | backend/models/recommender.py:114-115 | the kept ids are the sorted row with its first entry dropped and the next min(n, k-1) kept: index keys with their similarity, highest first, none beaten by a later entry |
| Recommender.SelfEntryLeads | backend/models/recommender.py:114 | a product strictly most similar to itself comes first in its sorted row |
| Recommender.EntryOnce | backend/models/recommender.py:114 | with distinct index keys, the entry of any one product appears at most once in a sorted row |
| Recommender.StrictSelfMaximumIsDropped | backend/models/recommender.py:114-115 | when the product is strictly most similar to itself, dropping the first entry removes exactly the product |
| Recommender.RowIsDistinct | backend/models/recommender.py:114 | distinct product keys give a row without repeated entries |
| Recommender.GetSimilarExcludingSelf | backend/models/recommender.py:114-115 | corrected: the sorted row without the product itself, the first n, with their rows; ExcludingSelfNeverListsSelf states it |
| Recommender.ExcludingSelfNeverListsSelf | backend/models/recommender.py:114-115 | corrected: the n products most similar to the product other than itself: never itself, each an index key with its similarity, non-increasing, min(n, number of others) of them, taken from the row of the product with no entry used twice (so no product twice when the index has no repeats), and no other key left out scores higher than a listed one |
| Recommender.FrameRatesRange | backend/models/recommender.py:65 | a frame whose product ids all lie in 1..10, each occurring, rates exactly products 1..10 |
| Recommender.FreshIndexOfRange | backend/models/recommender.py:65-80 | trained from empty mappings on such a frame, the index is 1, 2, ..., 10 |
| Recommender.SampleInteractions | backend/models/recommender.py:34-50 | defines the sample interaction frame used when `train` gets no data; SampleIndex states the index it gives |
| Recommender.SampleIndex | backend/models/recommender.py:34-50 | trained from empty mappings on the sample interactions, the index is 1, 2, ..., 10 |
| Recommender.TiedRowTop | backend/models/recommender.py:114 | on that index with the tie, the top-score entries of product 8's row are products 4 and 8, in that order |
| Recommender.TiedRowHead | backend/models/recommender.py:114 | the stable sort of product 8's row starts with product 4, then product 8 |
| Recommender.TenKeyEntries | backend/models/recommender.py:114 | every entry of the sorted row names a product in 1..10, each one at most once |
| Recommender.TiedWindow | backend/models/recommender.py:115 | the window after the first entry starts with product 8 and never lists product 4 |
| Recommender.AttachNumbered | backend/models/recommender.py:117-121 | over a catalog numbered 1..m, building rows succeeds and gives each id its own row |
| Recommender.TiedListsSelf | backend/models/recommender.py:105-123 | as written, on a ten-key index with the tie, product 8's list starts with product 8 and omits product 4 |
| Recommender.TiedOthersHead | backend/models/recommender.py:114-115 | corrected, the first entries other than product 8 start with product 4 |
| Recommender.TiedExcludingSelf | backend/models/recommender.py:114-115 | corrected, on the same index, product 8's list starts with product 4 |
| Recommender.TieListsProductItself | backend/models/recommender.py:114-115 | as written, trained on the sample interactions with the tie, product 8 is listed as similar to itself first and product 4 is not listed |
| Recommender.TieExcludingSelf | backend/models/recommender.py:114-115 | corrected, on the same states, product 8's list starts with product 4 |
| Recommender.AttachStopsAtMissing | backend/models/recommender.py:118-119 | once a row is missing, later ids do not change the failure |
| Recommender.RenewableEnergyRecommender.constructor | backend/models/recommender.py:9-15 | untrained, with empty mappings |
| Recommender.RenewableEnergyRecommender.Train | backend/models/recommender.py:54-91 | the sample data is used when either frame is missing; both mappings are enumerations of the unique ids over the old maps; the similarity index gains the new product ids; the similarity is installed |
| Recommender.RenewableEnergyRecommender.TrainingData | backend/models/recommender.py:56-57 | the sample frames are used unless both frames are given |
| Recommender.RenewableEnergyRecommender.TrainOn | backend/models/recommender.py:59-80 | the frames and the similarity are installed, and the mappings and index order are the enumerations of the unique ids |
| Recommender.RenewableEnergyRecommender.EnumerateIds | backend/models/recommender.py:62-63 | the enumerate loop yields the enumeration of the ids over the old mapping |
| Recommender.RenewableEnergyRecommender.EnumerateProductIds | backend/models/recommender.py:65-66 | the enumerate loop over product ids yields the enumeration and the order of first appearance, without repeats and with the same keys |
| Recommender.RenewableEnergyRecommender.EnsureTrained | backend/models/recommender.py:107-109 | a trained recommender is left as it is; an untrained one is trained on the sample data |
| Recommender.RenewableEnergyRecommender.AttachRows | backend/models/recommender.py:117-121 | the result loop builds exactly the rows `Attach` specifies |
| Recommender.RenewableEnergyRecommender.RecommendForTrained | backend/models/recommender.py:131-170 | the loops compute exactly the specified recommendation |
| Recommender.RenewableEnergyRecommender.UnratedProducts | backend/models/recommender.py:141-142 | the comprehension lists exactly the product keys the user has not rated |
| Recommender.RenewableEnergyRecommender.PredictedRatings | backend/models/recommender.py:146-159 | the loop records exactly the specified predictions |
| Recommender.RenewableEnergyRecommender.PredictionSums | backend/models/recommender.py:151-155 | the inner loop computes the weighted sum and total weight over the rated products |
| Recommender.RenewableEnergyRecommender.RecommendForUser | backend/models/recommender.py:125-170 | an untrained recommender is first trained on the sample data (mappings, key order, frames and similarity as `train` builds them); a trained one is left as it is; the result is the specified recommendation for that state |
| Recommender.RenewableEnergyRecommender.RecommendByCategory | backend/models/recommender.py:172-185 | an untrained recommender is first trained on the sample data; a trained one is left as it is; the result is the specified top of the category of that state's catalog |
| Recommender.RenewableEnergyRecommender.SimilarForTrained | backend/models/recommender.py:111-123 | the sort, the slice and the loop compute exactly the specified similar-product list |
| Recommender.RenewableEnergyRecommender.GetSimilarProducts | backend/models/recommender.py:105-123 | an untrained recommender is first trained on the sample data; a trained one is left as it is; the result is the specified similar-product list for that state |
| Recommender.RenewableEnergyRecommender.FreshRecommenderListsSelf | backend/models/recommender.py:105-123 | as written, a new recommender asked for the products similar to 8 trains on the sample data and lists product 8 itself first, never product 4 (with the tie) |

## Left out

- Rendering, styling, icons, navigation buttons and the `description` field: they are presentation only.
- The forecast page, the forecaster model, the HTTP routes and the API client are not part of this model.
- Browser and framework effects are left out: `window.scrollTo`, React's re-render scheduling and effect dependency tracking, and the order in which timers fire. The begin and finish methods are the steps of each effect.
- Event values are not checked except where the widget bounds them (the count slider's 1..8). `parseInt` on non-numeric route or selector values (NaN) is not modelled, so ids are integers.
- URL parsing is simplified. Only the exact form `/products?category=<value>` yields a category parameter; general `URLSearchParams` decoding is not modelled.
- `toLowerCase` is modelled on ASCII letters only.
- Floating-point arithmetic is modelled with reals. `Math.round` and the `${...}%` text use exact arithmetic, so binary rounding (e.g. 0.07*100) is not captured.
- The `catch` branches of the page effects cannot be reached with the sample data. `FailLoading` models the products page's branch. The detail page's "Failed to load" message and the console logging are not modelled.
- ProductDetailPage keeps `error` across a change of route id. A route change inside a mounted page is not modelled: the state is built per route id.
- Reading `sampleSpecs[productId]` for an id outside 1..10 is not modelled. That view renders the product, not its sheet.
- The shuffle `sort(() => 0.5 - Math.random())` is modelled as an arbitrary permutation. The distribution it gives is not modelled.
- `cosine_similarity` is an arbitrary function handed to `Train`, and the sparse-matrix types are not modelled. The rating of a (user, product) pair is the sum of its duplicate interactions, as `csr_matrix` sums duplicates.
- The model's `SortDesc` is a stable sort (`SortDescStable`). Python's `sorted` is stable too, but pandas' `sort_values` (quicksort) leaves tie order unspecified. `GetSimilarSpec` and `RecommendByCategorySpec` therefore fix one tie order.
- `joblib` saving and `load_model` are file I/O. The lazy path is modelled as "no saved model, so train on the sample data".
- Deliberately simplified contracts:
  - Recommender.RenewableEnergyRecommender.Train: does not clear old mapping entries, exactly as the source does not. The dense-bijection property is proved only for a fresh recommender (`FreshMappingIsDense`).
  - Recommender.RenewableEnergyRecommender.EnsureTrained: treats the three lazy checks (`similarity_matrix`, `user_item_matrix`, `products` being None) as one `trained` flag. `train` sets all three together.
- A negative `n` or `count` follows Python and JavaScript slicing (it drops entries from the end). The lemmas about lengths assume n >= 0, and the functions handle every integer.

## Findings

| source | as written | input that shows it | evidently intended | confidence | as-written member | corrected member |
|---|---|---|---|---|---|---|
| frontend/src/pages/ProductsPage.js:141-143 | moving the price slider keeps the current page | unfiltered sample catalog on page 2, then price range 0..1000: six products match, the page shows "no match" and no pager is drawn | reset to page 1, as the search and checkbox handlers do | high, not executed | ProductsPage.PriceChangeOnPageTwoHidesMatches | ProductsPage.ProductsPageState.HandlePriceChangeResettingPage |
| backend/models/recommender.py:114-115 | drops the first entry of the sorted similarity row, assuming it is the product itself | trained on the sample interactions: products 4 and 8 are each rated only by user 2, so their cosine similarity ties with self-similarity at 1.0 and every other product is less similar to 8. A stable sort of product 8's row puts 4 first, so product 8 is reported similar to itself and product 4 is dropped (`TieListsProductItself`, for any similarity with that tie) | leave out the product itself, not the first entry | medium (depends on pandas' tie order), not executed | Recommender.TieListsProductItself | Recommender.ExcludingSelfNeverListsSelf, Recommender.TieExcludingSelf |
