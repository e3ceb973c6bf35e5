/**
 * The backend recommender: training assigns dense indices to user and
 * product ids and keeps the interactions and an item-item similarity; the
 * model then ranks products by category (efficiency, highest first), for a
 * user (a similarity-weighted average of the user's ratings over the
 * products the user has not rated) and by similarity to a given product.
 *
 * The similarity is an arbitrary function of two product ids, fixed at
 * training time; the rating matrix is the sum of the ratings given by each
 * interaction to its (user index, product index) cell.
 */
module Recommender {
  import opened Seqs
  import opened Catalog

  datatype Interaction = Interaction(userId: int, productId: int, rating: real)

  /** A product id with a score: a predicted rating or a similarity. */
  datatype Scored = Scored(id: int, score: real)

  function ScoreOf(s: Scored): real { s.score }

  /** A catalog row with the score the ranking attached to it. */
  datatype Ranked = Ranked(product: Product, score: real)

  /** The id and score of each result row. */
  function RankedPairs(items: seq<Ranked>): seq<Scored>
  {
    seq(|items|, i requires 0 <= i < |items| => Scored(items[i].product.id, items[i].score))
  }

  /** A ranking, or the id of a ranked product that has no catalog row (the
      `IndexError` that `.iloc[0]` raises on an empty selection). */
  datatype Outcome<T> = Ok(value: T) | MissingProduct(id: int)

  /** What `recommend_for_user` returns: for an unknown user the head of the
      catalog, for a known user products with predicted ratings. */
  datatype UserRecs = NewUserTop(products: seq<Product>) | Predicted(items: seq<Ranked>)

  /** Everything the ranking rules read from a trained recommender.
      `productKeys` lists the keys of the product mapping in insertion order,
      which is the order of the similarity index and of iteration over the
      mapping. */
  datatype ModelData = ModelData(
    products: seq<Product>,
    interactions: seq<Interaction>,
    userMapping: map<int, nat>,
    productMapping: map<int, nat>,
    productKeys: seq<int>,
    similarity: (int, int) -> real)

  /** The sample interactions used when no data is given. */
  function SampleInteractions(): seq<Interaction>
  {
    [ Interaction(1, 1, 5.0), Interaction(1, 3, 4.0), Interaction(1, 5, 5.0),
      Interaction(2, 2, 5.0), Interaction(2, 4, 3.0), Interaction(2, 8, 4.0),
      Interaction(3, 1, 4.0), Interaction(3, 2, 3.0), Interaction(3, 10, 5.0),
      Interaction(4, 3, 5.0), Interaction(4, 6, 4.0), Interaction(4, 9, 2.0),
      Interaction(5, 5, 5.0), Interaction(5, 7, 4.0), Interaction(5, 10, 4.0) ]
  }

  // Dense indices

  function UserIds(ints: seq<Interaction>): (r: seq<int>)
    ensures |r| == |ints| && forall i :: 0 <= i < |r| ==> r[i] == ints[i].userId
  {
    if ints == [] then [] else [ints[0].userId] + UserIds(ints[1..])
  }

  function ProductIds(ints: seq<Interaction>): (r: seq<int>)
    ensures |r| == |ints| && forall i :: 0 <= i < |r| ==> r[i] == ints[i].productId
  {
    if ints == [] then [] else [ints[0].productId] + ProductIds(ints[1..])
  }

  /** Insert x into a strictly increasing sequence unless it is there already. */
  function InsertUnique(x: int, s: seq<int>): (r: seq<int>)
    requires StrictlyIncreasing(s)
    ensures StrictlyIncreasing(r)
    ensures forall y :: y in r <==> y == x || y in s
  {
    if s == [] then [x]
    else if x < s[0] then [x] + s
    else if x == s[0] then s
    else
      var rest := InsertUnique(x, s[1..]);
      InsertBehindFirst(x, s, rest);
      [s[0]] + rest
  }

  /** The step of InsertUnique past a smaller head. */
  lemma InsertBehindFirst(x: int, s: seq<int>, rest: seq<int>)
    requires StrictlyIncreasing(s) && s != [] && s[0] < x
    requires StrictlyIncreasing(rest)
    requires forall y :: y in rest <==> y == x || y in s[1..]
    ensures StrictlyIncreasing([s[0]] + rest)
    ensures forall y :: y in [s[0]] + rest <==> y == x || y in s
  {
    assert s == [s[0]] + s[1..];
    forall y | y in rest
      ensures s[0] < y
    {
      if y != x {
        var j :| 0 <= j < |s[1..]| && s[1..][j] == y;
        assert s[1 + j] == y && s[0] < s[1 + j];
      }
    }
    var t := [s[0]] + rest;
    forall i, j | 0 <= i < j < |t|
      ensures t[i] < t[j]
    {
      if i == 0 {
        assert t[j] == rest[j - 1] && rest[j - 1] in rest;
      } else {
        assert t[i] == rest[i - 1] && t[j] == rest[j - 1];
      }
    }
  }

  /** `np.unique`: the distinct values, ascending. */
  function UniqueSorted(s: seq<int>): (r: seq<int>)
    ensures StrictlyIncreasing(r)
    ensures forall y :: y in r <==> y in s
  {
    if s == [] then []
    else
      var rest := UniqueSorted(s[1..]);
      assert forall y :: y in s <==> y == s[0] || y in s[1..];
      InsertUnique(s[0], rest)
  }

  /** The mapping after `for i, x in enumerate(ids): mapping[x] = i`. */
  function Enumerate(m: map<int, nat>, ids: seq<int>): map<int, nat>
  {
    if ids == [] then m else Enumerate(m, ids[..|ids| - 1])[ids[|ids| - 1] := |ids| - 1]
  }

  /** With distinct ids, the enumeration sends the j-th id to j, adds exactly
      the ids as keys, and leaves every other key as it was. */
  lemma {:induction false} EnumerateSpec(m: map<int, nat>, ids: seq<int>)
    requires Distinct(ids)
    ensures forall j :: 0 <= j < |ids| ==> ids[j] in Enumerate(m, ids) && Enumerate(m, ids)[ids[j]] == j
    ensures forall k :: k in Enumerate(m, ids) <==> k in m || k in ids
    ensures forall k :: k in m && k !in ids ==> Enumerate(m, ids)[k] == m[k]
  {
    if ids != [] {
      var init := ids[..|ids| - 1];
      assert Distinct(init);
      EnumerateSpec(m, init);
      assert forall k :: k in ids <==> k in init || k == ids[|ids| - 1];
    }
  }

  /** Trained from empty mappings, the ids in ascending order get the
      indices 0 .. U-1: every id gets an index below U, every index is taken
      by exactly one id, and a smaller id gets a smaller index. */
  lemma FreshMappingIsDense(ids: seq<int>)
    requires StrictlyIncreasing(ids)
    ensures var m := Enumerate(map[], ids);
            (forall k :: k in m <==> k in ids)
            && (forall k :: k in m ==> m[k] < |ids| && ids[m[k]] == k)
            && (forall j :: 0 <= j < |ids| ==> ids[j] in m && m[ids[j]] == j)
            && (forall a, b :: a in m && b in m ==> (a < b <==> m[a] < m[b]))
  {
    EnumerateSpec(map[], ids);
    var m := Enumerate(map[], ids);
    forall k | k in m
      ensures m[k] < |ids| && ids[m[k]] == k
    {
      var j :| 0 <= j < |ids| && ids[j] == k;
      assert m[ids[j]] == j;
    }
  }

  /** The keys of the product mapping after the loop, in insertion order:
      a key already present keeps its place, a new one goes at the end. */
  function AppendNew(keys: seq<int>, ids: seq<int>): seq<int>
  {
    if ids == [] then keys
    else
      var prev := AppendNew(keys, ids[..|ids| - 1]);
      if ids[|ids| - 1] in prev then prev else prev + [ids[|ids| - 1]]
  }

  /** Appending a new key keeps the key order free of repeats. */
  lemma AppendKeepsDistinct(keys: seq<int>, x: int)
    requires Distinct(keys) && x !in keys
    ensures Distinct(keys + [x])
  {
    var r := keys + [x];
    forall i, j | 0 <= i < j < |r|
      ensures r[i] != r[j]
    {
      if j < |keys| {
        assert r[i] == keys[i] && r[j] == keys[j];
      } else {
        assert r[i] == keys[i];
      }
    }
  }

  /** For a fresh recommender the index order is the ascending id order. */
  lemma {:induction false} FreshKeysAreAscending(ids: seq<int>)
    requires StrictlyIncreasing(ids)
    ensures AppendNew([], ids) == ids
  {
    if ids != [] {
      var init := ids[..|ids| - 1];
      assert StrictlyIncreasing(init);
      FreshKeysAreAscending(init);
      assert ids[|ids| - 1] !in init;
      assert init + [ids[|ids| - 1]] == ids;
    }
  }

  // The rating matrix

  /** Cell (u, p) of the user-item matrix: the sum of the ratings of the
      interactions whose user maps to row u and product to column p
      (`csr_matrix` adds duplicate entries). */
  function RatingSum(ints: seq<Interaction>, um: map<int, nat>, pm: map<int, nat>, u: int, p: int): real
  {
    if ints == [] then 0.0
    else
      var here := if ints[0].userId in um && um[ints[0].userId] == u
                     && ints[0].productId in pm && pm[ints[0].productId] == p
                  then ints[0].rating else 0.0;
      here + RatingSum(ints[1..], um, pm, u, p)
  }

  function Rating(d: ModelData, u: int, p: int): real
  {
    RatingSum(d.interactions, d.userMapping, d.productMapping, u, p)
  }

  /** The rating user row u holds for product id pid (0 for an id outside the mapping). */
  function RatingOf(d: ModelData, u: int, pid: int): real
  {
    if pid in d.productMapping then Rating(d, u, d.productMapping[pid]) else 0.0
  }

  // recommend_for_user

  predicate IsUnrated(d: ModelData, u: int, pid: int)
  {
    pid in d.productMapping && Rating(d, u, d.productMapping[pid]) == 0.0
  }

  /** `[pid for pid, idx in product_mapping.items() if user_ratings[idx] == 0]`. */
  function Unrated(d: ModelData, u: int): seq<int>
  {
    Filter(d.productKeys, (pid: int) => IsUnrated(d, u, pid))
  }

  function Abs(x: real): real { if x < 0.0 then -x else x }

  /** The weighted sum over the first keys: each product the user rated
      (rating above 0) adds its similarity to pid times the rating. */
  function WeightedSum(d: ModelData, u: int, pid: int, keys: seq<int>): real
  {
    if keys == [] then 0.0
    else
      var k := keys[|keys| - 1];
      var prev := WeightedSum(d, u, pid, keys[..|keys| - 1]);
      if RatingOf(d, u, k) > 0.0 then prev + d.similarity(pid, k) * RatingOf(d, u, k) else prev
  }

  /** The total weight over the first keys: the absolute similarities of
      the products the user rated. */
  function TotalWeight(d: ModelData, u: int, pid: int, keys: seq<int>): (r: real)
    ensures r >= 0.0
  {
    if keys == [] then 0.0
    else
      var k := keys[|keys| - 1];
      var prev := TotalWeight(d, u, pid, keys[..|keys| - 1]);
      if RatingOf(d, u, k) > 0.0 then prev + Abs(d.similarity(pid, k)) else prev
  }

  /** The predicted rating of pid for user row u, when its total weight is positive. */
  function PredictedRating(d: ModelData, u: int, pid: int): real
    requires TotalWeight(d, u, pid, d.productKeys) > 0.0
  {
    WeightedSum(d, u, pid, d.productKeys) / TotalWeight(d, u, pid, d.productKeys)
  }

  /** The `predicted_ratings` dict, in insertion order: the candidates with
      a positive total weight, each with its weighted average. */
  function Predictions(d: ModelData, u: int, pids: seq<int>): (r: seq<Scored>)
    ensures |r| <= |pids|
    ensures forall i :: 0 <= i < |r| ==>
              r[i].id in pids && TotalWeight(d, u, r[i].id, d.productKeys) > 0.0
              && r[i].score == PredictedRating(d, u, r[i].id)
    ensures forall pid :: pid in pids && TotalWeight(d, u, pid, d.productKeys) > 0.0 ==>
              Scored(pid, PredictedRating(d, u, pid)) in r
  {
    if pids == [] then []
    else
      var prev := Predictions(d, u, pids[..|pids| - 1]);
      var pid := pids[|pids| - 1];
      assert pids == pids[..|pids| - 1] + [pid];
      assert forall x :: x in pids <==> x in pids[..|pids| - 1] || x == pid;
      if TotalWeight(d, u, pid, d.productKeys) > 0.0 then prev + [Scored(pid, PredictedRating(d, u, pid))]
      else prev
  }

  /** Considering one more candidate is one step of the prediction loop. */
  lemma PredictionsStep(d: ModelData, u: int, pids: seq<int>, j: int)
    requires 0 <= j < |pids|
    ensures TotalWeight(d, u, pids[j], d.productKeys) > 0.0 ==>
              Predictions(d, u, pids[..j + 1]) == Predictions(d, u, pids[..j]) + [Scored(pids[j], PredictedRating(d, u, pids[j]))]
    ensures TotalWeight(d, u, pids[j], d.productKeys) <= 0.0 ==>
              Predictions(d, u, pids[..j + 1]) == Predictions(d, u, pids[..j])
  {
    assert pids[..j + 1][..j] == pids[..j];
  }

  /** Attach to each scored id its first catalog row, stopping at the first
      id that has none. */
  function Attach(products: seq<Product>, pairs: seq<Scored>): (r: Outcome<seq<Ranked>>)
    ensures r.Ok? <==> forall i :: 0 <= i < |pairs| ==> FindById(products, pairs[i].id).Some?
    ensures r.Ok? ==> |r.value| == |pairs|
    ensures r.Ok? ==> forall i :: 0 <= i < |pairs| ==>
              r.value[i].product == FindById(products, pairs[i].id).value && r.value[i].score == pairs[i].score
    ensures r.MissingProduct? ==> exists i :: 0 <= i < |pairs| && pairs[i].id == r.id
                                    && FindById(products, pairs[i].id).None?
  {
    if pairs == [] then Ok([])
    else
      var prev := Attach(products, pairs[..|pairs| - 1]);
      AttachLastSpec(products, pairs, prev);
      AttachLast(products, prev, pairs[|pairs| - 1])
  }

  /** One step of the result loop: a failure stays; otherwise the id's row is
      appended, or the id is reported as missing. */
  function AttachLast(products: seq<Product>, prev: Outcome<seq<Ranked>>, last: Scored): Outcome<seq<Ranked>>
  {
    if prev.MissingProduct? then prev
    else
      var found := FindById(products, last.id);
      if found.None? then MissingProduct(last.id) else Ok(prev.value + [Ranked(found.value, last.score)])
  }

  /** The contract of Attach carries over one step of the loop. */
  lemma AttachLastSpec(products: seq<Product>, pairs: seq<Scored>, prev: Outcome<seq<Ranked>>)
    requires pairs != []
    requires var init := pairs[..|pairs| - 1];
             (prev.Ok? <==> forall i :: 0 <= i < |init| ==> FindById(products, init[i].id).Some?)
             && (prev.Ok? ==> |prev.value| == |init|)
             && (prev.Ok? ==> forall i :: 0 <= i < |init| ==>
                   prev.value[i].product == FindById(products, init[i].id).value && prev.value[i].score == init[i].score)
             && (prev.MissingProduct? ==> exists i :: 0 <= i < |init| && init[i].id == prev.id
                                           && FindById(products, init[i].id).None?)
    ensures var r := AttachLast(products, prev, pairs[|pairs| - 1]);
            (r.Ok? <==> forall i :: 0 <= i < |pairs| ==> FindById(products, pairs[i].id).Some?)
            && (r.Ok? ==> |r.value| == |pairs|)
            && (r.Ok? ==> forall i :: 0 <= i < |pairs| ==>
                  r.value[i].product == FindById(products, pairs[i].id).value && r.value[i].score == pairs[i].score)
            && (r.MissingProduct? ==> exists i :: 0 <= i < |pairs| && pairs[i].id == r.id
                                        && FindById(products, pairs[i].id).None?)
  {
    var init := pairs[..|pairs| - 1];
    var last := pairs[|pairs| - 1];
    assert forall i :: 0 <= i < |init| ==> pairs[i] == init[i];
    if prev.MissingProduct? {
      var i :| 0 <= i < |init| && init[i].id == prev.id && FindById(products, init[i].id).None?;
      assert pairs[i] == init[i];
    }
  }

  /** The ranked ids for user row u: the predictions, highest first,
      the first n kept. */
  function RankedForUser(d: ModelData, u: int, n: int): seq<Scored>
  {
    Prefix(SortDesc(Predictions(d, u, Unrated(d, u)), ScoreOf), n)
  }

  /** `recommend_for_user` on a trained model. */
  function RecommendForUserSpec(d: ModelData, userId: int, n: int): Outcome<UserRecs>
  {
    if userId !in d.userMapping then Ok(NewUserTop(Prefix(d.products, n)))
    else
      match Attach(d.products, RankedForUser(d, d.userMapping[userId], n))
      case Ok(items) => Ok(Predicted(items))
      case MissingProduct(id) => MissingProduct(id)
  }

  /** A user the model has not seen gets the first n catalog products. */
  lemma NewUserGetsCatalogHead(d: ModelData, userId: int, n: int)
    requires userId !in d.userMapping && n >= 0
    ensures RecommendForUserSpec(d, userId, n) == Ok(NewUserTop(d.products[..Min(n, |d.products|)]))
  {
    PrefixIsTake(d.products, n);
  }

  /** For a known user: every recommended product is one the user has not
      rated and one whose total weight is positive; its score is its
      weighted average; the scores never increase down the list; there are
      min(n, number of predictions) of them, drawn from the predictions with
      no prediction used more often than it occurs; and no unrated index key
      with a positive weight that was left out scores higher than any that
      was kept. */
  lemma KnownUserRecommendations(d: ModelData, userId: int, n: int, items: seq<Ranked>)
    requires userId in d.userMapping && n >= 0
    requires RecommendForUserSpec(d, userId, n) == Ok(Predicted(items))
    ensures |items| <= n
    ensures |items| == Min(n, |Predictions(d, d.userMapping[userId], Unrated(d, d.userMapping[userId]))|)
    ensures multiset(RankedPairs(items)) <= multiset(Predictions(d, d.userMapping[userId], Unrated(d, d.userMapping[userId])))
    ensures forall i :: 0 <= i < |items| ==>
              var u, pid := d.userMapping[userId], items[i].product.id;
              IsUnrated(d, u, pid) && pid in d.productKeys
              && TotalWeight(d, u, pid, d.productKeys) > 0.0
              && items[i].score == PredictedRating(d, u, pid)
    ensures forall i, j :: 0 <= i < j < |items| ==> items[i].score >= items[j].score
    ensures forall pid :: (IsUnrated(d, d.userMapping[userId], pid) && pid in d.productKeys
                            && TotalWeight(d, d.userMapping[userId], pid, d.productKeys) > 0.0
                            && (forall i :: 0 <= i < |items| ==> items[i].product.id != pid)) ==>
              forall i :: 0 <= i < |items| ==> PredictedRating(d, d.userMapping[userId], pid) <= items[i].score
  {
    var u := d.userMapping[userId];
    KnownUserAttach(d, userId, n, items);
    RankedForUserSpec(d, u, n);
    AttachedRanking(d, u, n, Predictions(d, u, Unrated(d, u)), RankedForUser(d, u, n), items);
  }

  /** A known user's products are those attached to the ranked ids. */
  lemma KnownUserAttach(d: ModelData, userId: int, n: int, items: seq<Ranked>)
    requires userId in d.userMapping
    requires RecommendForUserSpec(d, userId, n) == Ok(Predicted(items))
    ensures Attach(d.products, RankedForUser(d, d.userMapping[userId], n)) == Ok(items)
  {
  }

  /** Attaching products to a ranking keeps what was proved of its ids and scores. */
  lemma AttachedRanking(d: ModelData, u: int, n: int, preds: seq<Scored>, top: seq<Scored>, items: seq<Ranked>)
    requires Attach(d.products, top) == Ok(items)
    requires |top| == Min(n, |preds|) && multiset(top) <= multiset(preds)
    requires forall i :: 0 <= i < |top| ==>
               IsUnrated(d, u, top[i].id) && top[i].id in d.productKeys
               && TotalWeight(d, u, top[i].id, d.productKeys) > 0.0
               && top[i].score == PredictedRating(d, u, top[i].id)
    requires forall i, j :: 0 <= i < j < |top| ==> top[i].score >= top[j].score
    requires forall pid :: (IsUnrated(d, u, pid) && pid in d.productKeys
                            && TotalWeight(d, u, pid, d.productKeys) > 0.0
                            && (forall i :: 0 <= i < |top| ==> top[i].id != pid)) ==>
               forall i :: 0 <= i < |top| ==> PredictedRating(d, u, pid) <= top[i].score
    ensures |items| == Min(n, |preds|) && multiset(RankedPairs(items)) <= multiset(preds)
    ensures forall i :: 0 <= i < |items| ==>
              var pid := items[i].product.id;
              IsUnrated(d, u, pid) && pid in d.productKeys
              && TotalWeight(d, u, pid, d.productKeys) > 0.0
              && items[i].score == PredictedRating(d, u, pid)
    ensures forall i, j :: 0 <= i < j < |items| ==> items[i].score >= items[j].score
    ensures forall pid :: (IsUnrated(d, u, pid) && pid in d.productKeys
                            && TotalWeight(d, u, pid, d.productKeys) > 0.0
                            && (forall i :: 0 <= i < |items| ==> items[i].product.id != pid)) ==>
              forall i :: 0 <= i < |items| ==> PredictedRating(d, u, pid) <= items[i].score
  {
    AttachKeepsIdsAndScores(d.products, top, items);
    forall i | 0 <= i < |items|
      ensures IsUnrated(d, u, items[i].product.id) && items[i].product.id in d.productKeys
              && TotalWeight(d, u, items[i].product.id, d.productKeys) > 0.0
              && items[i].score == PredictedRating(d, u, items[i].product.id)
    {
      assert items[i].product.id == top[i].id;
    }
    forall pid | IsUnrated(d, u, pid) && pid in d.productKeys
                 && TotalWeight(d, u, pid, d.productKeys) > 0.0
                 && (forall i :: 0 <= i < |items| ==> items[i].product.id != pid)
      ensures forall i :: 0 <= i < |items| ==> PredictedRating(d, u, pid) <= items[i].score
    {
      assert forall i :: 0 <= i < |top| ==> top[i].id != pid;
    }
  }

  /** A successful attach lists, position by position, the ranked ids with their scores. */
  lemma AttachKeepsIdsAndScores(products: seq<Product>, pairs: seq<Scored>, items: seq<Ranked>)
    requires Attach(products, pairs) == Ok(items)
    ensures |items| == |pairs|
    ensures forall i :: 0 <= i < |items| ==> items[i].product.id == pairs[i].id && items[i].score == pairs[i].score
    ensures RankedPairs(items) == pairs
  {
  }

  /** The ranked ids for a user: min(n, number of predictions) of the
      predictions, none taken more often than it occurs, each an unrated
      product with a positive weight scored with its prediction, scores
      non-increasing, and no left-out candidate above a kept one. */
  lemma RankedForUserSpec(d: ModelData, u: int, n: int)
    requires n >= 0
    ensures |RankedForUser(d, u, n)| == Min(n, |Predictions(d, u, Unrated(d, u))|)
    ensures multiset(RankedForUser(d, u, n)) <= multiset(Predictions(d, u, Unrated(d, u)))
    ensures var top := RankedForUser(d, u, n);
            |top| <= n
            && (forall i :: 0 <= i < |top| ==>
                  IsUnrated(d, u, top[i].id) && top[i].id in d.productKeys
                  && TotalWeight(d, u, top[i].id, d.productKeys) > 0.0
                  && top[i].score == PredictedRating(d, u, top[i].id))
            && (forall i, j :: 0 <= i < j < |top| ==> top[i].score >= top[j].score)
            && (forall c :: c in Predictions(d, u, Unrated(d, u)) && c !in top ==>
                  forall i :: 0 <= i < |top| ==> c.score <= top[i].score)
            && (forall pid :: (IsUnrated(d, u, pid) && pid in d.productKeys
                                && TotalWeight(d, u, pid, d.productKeys) > 0.0
                                && (forall i :: 0 <= i < |top| ==> top[i].id != pid)) ==>
                  forall i :: 0 <= i < |top| ==> PredictedRating(d, u, pid) <= top[i].score)
  {
    RankedForUserSize(d, u, n);
    RankedForUserOrder(d, u, n);
    RankedForUserDominance(d, u, n);
  }

  /** How many ranked ids there are, and that they are taken from the predictions. */
  lemma RankedForUserSize(d: ModelData, u: int, n: int)
    requires n >= 0
    ensures |RankedForUser(d, u, n)| == Min(n, |Predictions(d, u, Unrated(d, u))|)
    ensures multiset(RankedForUser(d, u, n)) <= multiset(Predictions(d, u, Unrated(d, u)))
  {
    var preds := Predictions(d, u, Unrated(d, u));
    var sorted := SortDesc(preds, ScoreOf);
    PrefixIsTake(sorted, n);
    PrefixSubMultiset(sorted, n);
  }

  /** What each ranked id is, and their order. */
  lemma RankedForUserOrder(d: ModelData, u: int, n: int)
    requires n >= 0
    ensures var top := RankedForUser(d, u, n);
            |top| <= n
            && (forall i :: 0 <= i < |top| ==>
                  IsUnrated(d, u, top[i].id) && top[i].id in d.productKeys
                  && TotalWeight(d, u, top[i].id, d.productKeys) > 0.0
                  && top[i].score == PredictedRating(d, u, top[i].id))
    ensures var top := RankedForUser(d, u, n);
            forall i, j :: 0 <= i < j < |top| ==> top[i].score >= top[j].score
  {
    var preds := Predictions(d, u, Unrated(d, u));
    var top := RankedForUser(d, u, n);
    SortedPrefixFacts(preds, ScoreOf, n);
    forall i | 0 <= i < |top|
      ensures IsUnrated(d, u, top[i].id) && top[i].id in d.productKeys
              && TotalWeight(d, u, top[i].id, d.productKeys) > 0.0
              && top[i].score == PredictedRating(d, u, top[i].id)
    {
      PredictionFacts(d, u, top[i]);
    }
  }

  /** No candidate left out of the ranking scores above one kept in it. */
  lemma RankedForUserDominance(d: ModelData, u: int, n: int)
    requires n >= 0
    ensures var top := RankedForUser(d, u, n);
            forall c :: c in Predictions(d, u, Unrated(d, u)) && c !in top ==>
              forall i :: 0 <= i < |top| ==> c.score <= top[i].score
    ensures var top := RankedForUser(d, u, n);
            forall pid :: (IsUnrated(d, u, pid) && pid in d.productKeys
                           && TotalWeight(d, u, pid, d.productKeys) > 0.0
                           && (forall i :: 0 <= i < |top| ==> top[i].id != pid)) ==>
              forall i :: 0 <= i < |top| ==> PredictedRating(d, u, pid) <= top[i].score
  {
    var preds := Predictions(d, u, Unrated(d, u));
    var top := RankedForUser(d, u, n);
    forall c | c in preds && c !in top
      ensures forall i :: 0 <= i < |top| ==> c.score <= top[i].score
    {
      SortedPrefixDominates(preds, ScoreOf, n, c);
    }
    forall pid | IsUnrated(d, u, pid) && pid in d.productKeys
                 && TotalWeight(d, u, pid, d.productKeys) > 0.0
                 && (forall i :: 0 <= i < |top| ==> top[i].id != pid)
      ensures forall i :: 0 <= i < |top| ==> PredictedRating(d, u, pid) <= top[i].score
    {
      UnratedKeyIsCandidate(d, u, pid);
      var c := Scored(pid, PredictedRating(d, u, pid));
      assert c in preds && c !in top;
      SortedPrefixDominates(preds, ScoreOf, n, c);
    }
  }

  /** Every index key the user has not rated is a candidate of the loop. */
  lemma UnratedKeyIsCandidate(d: ModelData, u: int, pid: int)
    requires IsUnrated(d, u, pid) && pid in d.productKeys
    ensures pid in Unrated(d, u)
  {
    var j :| 0 <= j < |d.productKeys| && d.productKeys[j] == pid;
  }

  /** A prediction for an unrated candidate is for an index key the user has
      not rated, has a positive total weight, and scores its weighted average. */
  lemma PredictionFacts(d: ModelData, u: int, c: Scored)
    requires c in Predictions(d, u, Unrated(d, u))
    ensures IsUnrated(d, u, c.id) && c.id in d.productKeys
    ensures TotalWeight(d, u, c.id, d.productKeys) > 0.0 && c.score == PredictedRating(d, u, c.id)
  {
    var preds := Predictions(d, u, Unrated(d, u));
    var k :| 0 <= k < |preds| && preds[k] == c;
    var candidates := Unrated(d, u);
    var m :| 0 <= m < |candidates| && candidates[m] == c.id;
  }

  /** Whether a known user's recommendations fail: exactly when one of the
      ranked ids has no catalog row. */
  lemma KnownUserFailsOnlyOnMissingRow(d: ModelData, userId: int, n: int)
    requires userId in d.userMapping
    ensures var top := RankedForUser(d, d.userMapping[userId], n);
            RecommendForUserSpec(d, userId, n).Ok? <==>
              forall i :: 0 <= i < |top| ==> FindById(d.products, top[i].id).Some?
  {
  }

  // recommend_by_category

  function InCategory(category: string): Product -> bool
  {
    (p: Product) => p.category == category
  }

  /** `recommend_by_category`: nothing when no product has the category,
      otherwise the category's products by efficiency, highest first, and
      the first n of them. */
  function RecommendByCategorySpec(products: seq<Product>, category: string, n: int): seq<Product>
  {
    var categoryProducts := Filter(products, InCategory(category));
    if |categoryProducts| == 0 then []
    else Prefix(SortDesc(categoryProducts, Efficiency), n)
  }

  /** No product of the category gives the empty list; otherwise the list
      holds min(n, number in the category) products, all of that category
      and from the catalog, none more often than the catalog lists it, by efficiency non-increasing, and no product of
      the category left out is more efficient than one kept. */
  lemma RecommendByCategoryProperties(products: seq<Product>, category: string, n: int)
    requires n >= 0
    ensures var r := RecommendByCategorySpec(products, category, n);
            var cp := Filter(products, InCategory(category));
            (cp == [] ==> r == [])
            && |r| == Min(n, |cp|)
            && (forall i :: 0 <= i < |r| ==> r[i].category == category && r[i] in products)
            && (forall i, j :: 0 <= i < j < |r| ==> r[i].efficiency >= r[j].efficiency)
            && (forall c :: c in cp && c !in r ==> forall i :: 0 <= i < |r| ==> c.efficiency <= r[i].efficiency)
    ensures multiset(RecommendByCategorySpec(products, category, n)) <= multiset(Filter(products, InCategory(category)))
  {
    var cp := Filter(products, InCategory(category));
    var r := RecommendByCategorySpec(products, category, n);
    if cp != [] {
      var sorted := SortDesc(cp, Efficiency);
      PrefixIsTake(sorted, n);
      PrefixSubMultiset(sorted, n);
      forall i | 0 <= i < |r|
        ensures r[i].category == category && r[i] in products
      {
        assert r[i] == sorted[i];
        assert sorted[i] in multiset(cp);
      }
      forall c | c in cp && c !in r
        ensures forall i :: 0 <= i < |r| ==> c.efficiency <= r[i].efficiency
      {
        SortedPrefixDominates(cp, Efficiency, n, c);
      }
    }
  }

  // get_similar_products

  /** The row of the similarity matrix for pid, in index order. */
  function SimilarityRow(d: ModelData, pid: int): (r: seq<Scored>)
    ensures |r| == |d.productKeys|
    ensures forall i :: 0 <= i < |r| ==> r[i] == Scored(d.productKeys[i], d.similarity(pid, d.productKeys[i]))
  {
    seq(|d.productKeys|, i requires 0 <= i < |d.productKeys| => Scored(d.productKeys[i], d.similarity(pid, d.productKeys[i])))
  }

  /** The row sorted highest first, with its first entry dropped as "the
      product itself", and the next n kept. */
  function SimilarIds(d: ModelData, pid: int, n: int): seq<Scored>
  {
    Slice(SortDesc(SimilarityRow(d, pid), ScoreOf), 1, n + 1)
  }

  /** `get_similar_products` on a trained model, as written. */
  function GetSimilarSpec(d: ModelData, pid: int, n: int): Outcome<seq<Ranked>>
  {
    if pid !in d.productKeys then Ok([]) else Attach(d.products, SimilarIds(d, pid, n))
  }

  /** An id outside the index gives nothing. Otherwise a successful result
      is the similarity row sorted highest first with its first entry
      dropped and the next min(n, |index| - 1) entries kept, position by
      position: each listed product is an index key scored with its
      similarity to pid, the scores never increase, and no entry after the
      kept window scores higher than a listed product. */
  lemma GetSimilarProperties(d: ModelData, pid: int, n: int, items: seq<Ranked>)
    requires n >= 0
    requires GetSimilarSpec(d, pid, n) == Ok(items)
    ensures pid !in d.productKeys ==> items == []
    ensures pid in d.productKeys ==>
              var sorted := SortDesc(SimilarityRow(d, pid), ScoreOf);
              |items| == Min(n, |d.productKeys| - 1) && |items| < |sorted|
              && forall i :: 0 <= i < |items| ==>
                   items[i].product.id == sorted[i + 1].id && items[i].score == sorted[i + 1].score
    ensures forall i :: 0 <= i < |items| ==>
              items[i].product.id in d.productKeys && items[i].score == d.similarity(pid, items[i].product.id)
    ensures forall i, j :: 0 <= i < j < |items| ==> items[i].score >= items[j].score
    ensures pid in d.productKeys ==>
              var sorted := SortDesc(SimilarityRow(d, pid), ScoreOf);
              forall j, i :: 1 + |items| <= j < |sorted| && 0 <= i < |items| ==> sorted[j].score <= items[i].score
  {
    if pid in d.productKeys {
      var chosen := SimilarIds(d, pid, n);
      SimilarIdsFacts(d, pid, n);
      assert Attach(d.products, chosen) == Ok(items);
      AttachKeepsIdsAndScores(d.products, chosen, items);
    }
  }

  /** The ids the row keeps: entries 1 .. min(n, |index| - 1) of the sorted
      row, each an index key with its similarity to pid, highest first, and
      none of the entries after them scoring higher. */
  lemma SimilarIdsFacts(d: ModelData, pid: int, n: int)
    requires n >= 0 && pid in d.productKeys
    ensures var sorted := SortDesc(SimilarityRow(d, pid), ScoreOf);
            |sorted| == |d.productKeys| >= 1 && SimilarIds(d, pid, n) == sorted[1..1 + Min(n, |sorted| - 1)]
    ensures forall i :: 0 <= i < |SimilarIds(d, pid, n)| ==>
              SimilarIds(d, pid, n)[i].id in d.productKeys
              && SimilarIds(d, pid, n)[i].score == d.similarity(pid, SimilarIds(d, pid, n)[i].id)
    ensures SortedDesc(SimilarIds(d, pid, n), ScoreOf)
    ensures var sorted := SortDesc(SimilarityRow(d, pid), ScoreOf);
            var chosen := SimilarIds(d, pid, n);
            forall j, i :: 1 + |chosen| <= j < |sorted| && 0 <= i < |chosen| ==> sorted[j].score <= chosen[i].score
  {
    var sorted := SortDesc(SimilarityRow(d, pid), ScoreOf);
    EntriesOfRow(d, pid, sorted);
    WindowOfRow(d, pid, n, sorted, SimilarIds(d, pid, n));
  }

  /** SimilarIdsFacts for any descending reordering of the row whose entries
      pair index keys with their similarity. */
  lemma WindowOfRow(d: ModelData, pid: int, n: int, sorted: seq<Scored>, chosen: seq<Scored>)
    requires n >= 0 && sorted != [] && SortedDesc(sorted, ScoreOf)
    requires forall i :: 0 <= i < |sorted| ==>
               sorted[i].id in d.productKeys && sorted[i].score == d.similarity(pid, sorted[i].id)
    requires chosen == Slice(sorted, 1, n + 1)
    ensures chosen == sorted[1..1 + Min(n, |sorted| - 1)]
    ensures forall i :: 0 <= i < |chosen| ==>
              chosen[i].id in d.productKeys && chosen[i].score == d.similarity(pid, chosen[i].id)
    ensures SortedDesc(chosen, ScoreOf)
    ensures forall j, i :: 1 + |chosen| <= j < |sorted| && 0 <= i < |chosen| ==> sorted[j].score <= chosen[i].score
  {
    DropFirstWindow(sorted, ScoreOf, n, chosen);
  }

  /** When pid is strictly more similar to itself than to any other product
      (and the index has no repeats), the dropped first entry is pid itself,
      so the listed products are all other products. */
  lemma StrictSelfMaximumIsDropped(d: ModelData, pid: int, n: int)
    requires pid in d.productKeys && Distinct(d.productKeys)
    requires forall k :: k in d.productKeys && k != pid ==> d.similarity(pid, k) < d.similarity(pid, pid)
    ensures forall i :: 0 <= i < |SimilarIds(d, pid, n)| ==> SimilarIds(d, pid, n)[i].id != pid
  {
    var sorted := SortDesc(SimilarityRow(d, pid), ScoreOf);
    SelfEntryLeads(d, pid, sorted);
    EntryOnce(d, pid, sorted, pid);
    var chosen := SimilarIds(d, pid, n);
    forall i | 0 <= i < |chosen|
      ensures chosen[i].id != pid
    {
      assert chosen[i] == sorted[1 + i];
    }
  }

  /** In a descending reordering of the row, a strict self-maximum comes first. */
  lemma SelfEntryLeads(d: ModelData, pid: int, sorted: seq<Scored>)
    requires pid in d.productKeys
    requires forall k :: k in d.productKeys && k != pid ==> d.similarity(pid, k) < d.similarity(pid, pid)
    requires multiset(sorted) == multiset(SimilarityRow(d, pid)) && SortedDesc(sorted, ScoreOf)
    ensures sorted != [] && sorted[0].id == pid
  {
    var row := SimilarityRow(d, pid);
    var j0 :| 0 <= j0 < |d.productKeys| && d.productKeys[j0] == pid;
    assert row[j0] in multiset(sorted);
    var j :| 0 <= j < |sorted| && sorted[j] == row[j0];
    EntriesOfRow(d, pid, sorted);
    assert ScoreOf(sorted[0]) >= ScoreOf(sorted[j]);
  }

  /** With distinct index keys, the row's entry for any key k occurs at most
      once in any reordering of the row. */
  lemma EntryOnce(d: ModelData, pid: int, sorted: seq<Scored>, k: int)
    requires Distinct(d.productKeys)
    requires multiset(sorted) == multiset(SimilarityRow(d, pid))
    ensures forall i, j :: 0 <= i < j < |sorted| ==> sorted[i].id != k || sorted[j].id != k
  {
    EntriesOfRow(d, pid, sorted);
    RowIsDistinct(d, pid);
    DistinctMultiplicity(SimilarityRow(d, pid));
    forall i, j | 0 <= i < j < |sorted| && sorted[i].id == k
      ensures sorted[j].id != k
    {
      if sorted[j].id == k {
        assert sorted[i] == sorted[j];
        TwoOccurrences(sorted, i, j);
      }
    }
  }

  /** Each entry of a reordering of the row pairs an index key with its similarity. */
  lemma EntriesOfRow(d: ModelData, pid: int, sorted: seq<Scored>)
    requires multiset(sorted) == multiset(SimilarityRow(d, pid))
    ensures forall i :: 0 <= i < |sorted| ==>
              sorted[i].id in d.productKeys && sorted[i].score == d.similarity(pid, sorted[i].id)
  {
    var row := SimilarityRow(d, pid);
    forall i | 0 <= i < |sorted|
      ensures sorted[i].id in d.productKeys && sorted[i].score == d.similarity(pid, sorted[i].id)
    {
      assert sorted[i] in multiset(row);
      var j :| 0 <= j < |row| && row[j] == sorted[i];
    }
  }

  lemma RowIsDistinct(d: ModelData, pid: int)
    requires Distinct(d.productKeys)
    ensures Distinct(SimilarityRow(d, pid))
  {
  }

  /** Keeps the entries for products other than pid. */
  function NotSelf(pid: int): Scored -> bool
  {
    (s: Scored) => s.id != pid
  }

  /** The similarity products, dropping pid itself wherever the sort put it
      rather than dropping the first entry. */
  function SimilarIdsExcludingSelf(d: ModelData, pid: int, n: int): seq<Scored>
  {
    Prefix(Filter(SortDesc(SimilarityRow(d, pid), ScoreOf), NotSelf(pid)), n)
  }

  function GetSimilarExcludingSelf(d: ModelData, pid: int, n: int): Outcome<seq<Ranked>>
  {
    if pid !in d.productKeys then Ok([]) else Attach(d.products, SimilarIdsExcludingSelf(d, pid, n))
  }

  /** The corrected ranking lists the n products most similar to pid other
      than pid itself: never pid, each an index key scored with its
      similarity to pid, scores never increasing, min(n, number of other
      index entries) of them, taken from the row of pid with no entry used
      twice (so no product twice when the index has no repeats), and no
      other index key left out is more similar to pid than a listed one. */
  lemma ExcludingSelfNeverListsSelf(d: ModelData, pid: int, n: int, items: seq<Ranked>)
    requires n >= 0
    requires GetSimilarExcludingSelf(d, pid, n) == Ok(items)
    ensures pid !in d.productKeys ==> items == []
    ensures forall i :: 0 <= i < |items| ==> items[i].product.id != pid
    ensures forall i :: 0 <= i < |items| ==>
              items[i].product.id in d.productKeys && items[i].score == d.similarity(pid, items[i].product.id)
    ensures forall i, j :: 0 <= i < j < |items| ==> items[i].score >= items[j].score
    ensures pid in d.productKeys ==>
              |items| == Min(n, |Filter(SortDesc(SimilarityRow(d, pid), ScoreOf), NotSelf(pid))|)
    ensures forall k :: k in d.productKeys && k != pid && (forall i :: 0 <= i < |items| ==> items[i].product.id != k) ==>
              forall i :: 0 <= i < |items| ==> d.similarity(pid, k) <= items[i].score
    ensures pid in d.productKeys ==> multiset(RankedPairs(items)) <= multiset(SimilarityRow(d, pid))
    ensures Distinct(d.productKeys) ==>
              forall i, j :: 0 <= i < j < |items| ==> items[i].product.id != items[j].product.id
  {
    if pid in d.productKeys {
      var sorted := SortDesc(SimilarityRow(d, pid), ScoreOf);
      var others := Filter(sorted, NotSelf(pid));
      var chosen := SimilarIdsExcludingSelf(d, pid, n);
      EntriesOfRow(d, pid, sorted);
      FilterKeepsSorted(sorted, NotSelf(pid), ScoreOf);
      OthersWindow(d, pid, n, sorted, others, chosen);
      OthersWindowPart(d, pid, n, sorted, others, chosen);
      assert Attach(d.products, chosen) == Ok(items);
      AttachedSimilar(d, pid, chosen, items);
    }
  }

  /** Attaching products to the chosen row entries keeps what was proved of
      their ids and scores. */
  lemma AttachedSimilar(d: ModelData, pid: int, chosen: seq<Scored>, items: seq<Ranked>)
    requires Attach(d.products, chosen) == Ok(items)
    requires forall i :: 0 <= i < |chosen| ==>
               chosen[i].id != pid && chosen[i].id in d.productKeys && chosen[i].score == d.similarity(pid, chosen[i].id)
    requires SortedDesc(chosen, ScoreOf)
    requires forall k :: k in d.productKeys && k != pid && (forall i :: 0 <= i < |chosen| ==> chosen[i].id != k) ==>
               forall i :: 0 <= i < |chosen| ==> d.similarity(pid, k) <= chosen[i].score
    requires multiset(chosen) <= multiset(SimilarityRow(d, pid))
    ensures |items| == |chosen| && multiset(RankedPairs(items)) <= multiset(SimilarityRow(d, pid))
    ensures forall i :: 0 <= i < |items| ==>
              items[i].product.id != pid && items[i].product.id in d.productKeys
              && items[i].score == d.similarity(pid, items[i].product.id)
    ensures forall i, j :: 0 <= i < j < |items| ==> items[i].score >= items[j].score
    ensures forall k :: k in d.productKeys && k != pid && (forall i :: 0 <= i < |items| ==> items[i].product.id != k) ==>
              forall i :: 0 <= i < |items| ==> d.similarity(pid, k) <= items[i].score
    ensures Distinct(d.productKeys) ==>
              forall i, j :: 0 <= i < j < |items| ==> items[i].product.id != items[j].product.id
  {
    AttachKeepsIdsAndScores(d.products, chosen, items);
    if Distinct(d.productKeys) {
      RowPartHasDistinctIds(d, pid, chosen);
    }
  }

  /** The chosen entries are taken from the row, none more often than it occurs there. */
  lemma OthersWindowPart(d: ModelData, pid: int, n: int, sorted: seq<Scored>, others: seq<Scored>, chosen: seq<Scored>)
    requires n >= 0
    requires multiset(sorted) == multiset(SimilarityRow(d, pid))
    requires others == Filter(sorted, NotSelf(pid))
    requires chosen == Prefix(others, n)
    ensures multiset(chosen) <= multiset(SimilarityRow(d, pid))
  {
    FilterSubMultiset(sorted, NotSelf(pid));
    PrefixSubMultiset(others, n);
  }

  /** ExcludingSelfNeverListsSelf for the id list, over any descending
      reordering of the row. */
  lemma OthersWindow(d: ModelData, pid: int, n: int, sorted: seq<Scored>, others: seq<Scored>, chosen: seq<Scored>)
    requires n >= 0
    requires multiset(sorted) == multiset(SimilarityRow(d, pid))
    requires forall i :: 0 <= i < |sorted| ==>
               sorted[i].id in d.productKeys && sorted[i].score == d.similarity(pid, sorted[i].id)
    requires others == Filter(sorted, NotSelf(pid)) && SortedDesc(others, ScoreOf)
    requires chosen == Prefix(others, n)
    ensures |chosen| == Min(n, |others|)
    ensures forall i :: 0 <= i < |chosen| ==>
              chosen[i].id != pid && chosen[i].id in d.productKeys && chosen[i].score == d.similarity(pid, chosen[i].id)
    ensures SortedDesc(chosen, ScoreOf)
    ensures forall k :: k in d.productKeys && k != pid && (forall i :: 0 <= i < |chosen| ==> chosen[i].id != k) ==>
              forall i :: 0 <= i < |chosen| ==> d.similarity(pid, k) <= chosen[i].score
  {
    PrefixIsTake(others, n);
    forall i | 0 <= i < |chosen|
      ensures chosen[i].id != pid && chosen[i].id in d.productKeys && chosen[i].score == d.similarity(pid, chosen[i].id)
    {
      assert chosen[i] == others[i];
      assert NotSelf(pid)(others[i]);
    }
    assert forall i :: 0 <= i < |chosen| ==> chosen[i] == others[i];
    forall k | k in d.productKeys && k != pid && (forall i :: 0 <= i < |chosen| ==> chosen[i].id != k)
      ensures forall i :: 0 <= i < |chosen| ==> d.similarity(pid, k) <= chosen[i].score
    {
      var m := OtherEntryPosition(d, pid, sorted, others, k);
      assert m >= |chosen|;
      forall i | 0 <= i < |chosen|
        ensures d.similarity(pid, k) <= chosen[i].score
      {
        assert ScoreOf(others[i]) >= ScoreOf(others[m]);
      }
    }
  }

  /** Entries taken from the row of an index without repeats name no product twice. */
  lemma RowPartHasDistinctIds(d: ModelData, pid: int, part: seq<Scored>)
    requires Distinct(d.productKeys) && multiset(part) <= multiset(SimilarityRow(d, pid))
    ensures forall i, j :: 0 <= i < j < |part| ==> part[i].id != part[j].id
  {
    var row := SimilarityRow(d, pid);
    RowIsDistinct(d, pid);
    SubMultisetDistinct(part, row);
    forall i, j | 0 <= i < j < |part|
      ensures part[i].id != part[j].id
    {
      assert part[i] in multiset(row) && part[j] in multiset(row);
      var a :| 0 <= a < |row| && row[a] == part[i];
      var b :| 0 <= b < |row| && row[b] == part[j];
      assert part[i].score == d.similarity(pid, part[i].id);
      assert part[j].score == d.similarity(pid, part[j].id);
    }
  }

  /** Every other index key has its row entry among the kept entries. */
  lemma OtherEntryPosition(d: ModelData, pid: int, sorted: seq<Scored>, others: seq<Scored>, k: int) returns (m: int)
    requires multiset(sorted) == multiset(SimilarityRow(d, pid))
    requires others == Filter(sorted, NotSelf(pid))
    requires k in d.productKeys && k != pid
    ensures 0 <= m < |others| && others[m] == Scored(k, d.similarity(pid, k))
  {
    var row := SimilarityRow(d, pid);
    var j0 :| 0 <= j0 < |d.productKeys| && d.productKeys[j0] == k;
    assert row[j0] in multiset(sorted);
    var j :| 0 <= j < |sorted| && sorted[j] == row[j0];
    assert NotSelf(pid)(sorted[j]);
    m :| 0 <= m < |others| && others[m] == sorted[j];
  }

  // The tie in the sample data

  /** The product ids of the sample frame all lie in 1 .. 10, and each of
      id j + 1 occurs at position pos[j]. */
  lemma SampleProductIdBounds(ints: seq<Interaction>, pos: seq<int>)
    requires ints == SampleInteractions() && pos == [0, 3, 1, 4, 2, 10, 13, 5, 11, 8]
    ensures forall i :: 0 <= i < |ints| ==> 1 <= ints[i].productId <= 10
    ensures |pos| == 10 && forall j :: 0 <= j < 10 ==> 0 <= pos[j] < |ints| && ints[pos[j]].productId == j + 1
  {
  }

  /** A frame whose product ids all lie in 1 .. 10, each occurring, rates
      exactly the products 1 .. 10. */
  lemma FrameRatesRange(ints: seq<Interaction>, pos: seq<int>)
    requires forall i :: 0 <= i < |ints| ==> 1 <= ints[i].productId <= 10
    requires |pos| == 10 && forall j :: 0 <= j < 10 ==> 0 <= pos[j] < |ints| && ints[pos[j]].productId == j + 1
    ensures forall y :: y in ProductIds(ints) <==> 1 <= y <= 10
  {
    var ids := ProductIds(ints);
    forall y | y in ids
      ensures 1 <= y <= 10
    {
      var i :| 0 <= i < |ids| && ids[i] == y;
      assert ids[i] == ints[i].productId;
    }
    forall y | 1 <= y <= 10
      ensures y in ids
    {
      var j := y - 1;
      assert ids[pos[j]] == ints[pos[j]].productId;
    }
  }

  /** A frame whose product ids are exactly 1 .. 10, trained from empty
      mappings, gives the index 1, 2, ..., 10. */
  lemma FreshIndexOfRange(ids: seq<int>)
    requires forall y :: y in ids <==> 1 <= y <= 10
    ensures |AppendNew([], UniqueSorted(ids))| == 10
    ensures forall i :: 0 <= i < 10 ==> AppendNew([], UniqueSorted(ids))[i] == i + 1
  {
    var u := UniqueSorted(ids);
    IncreasingRange(u, 1, 10);
    FreshKeysAreAscending(u);
  }

  /** Trained on the sample frame, the index holds ids 1 to 10 in order. */
  lemma SampleIndex(ints: seq<Interaction>)
    requires ints == SampleInteractions()
    ensures |AppendNew([], UniqueSorted(ProductIds(ints)))| == 10
    ensures forall i :: 0 <= i < 10 ==> AppendNew([], UniqueSorted(ProductIds(ints)))[i] == i + 1
  {
    var pos := [0, 3, 1, 4, 2, 10, 13, 5, 11, 8];
    SampleProductIdBounds(ints, pos);
    FrameRatesRange(ints, pos);
    FreshIndexOfRange(ProductIds(ints));
  }

  /** In the sample, products 4 and 8 are rated by user 2 alone, so their
      rating columns are collinear and their cosine similarity equals the
      self-similarity of either; every other product of the sample is
      strictly less similar to product 8. */
  predicate SampleTie(sim: (int, int) -> real)
  {
    sim(8, 4) == sim(8, 8) && forall k :: 1 <= k <= 10 && k != 4 && k != 8 ==> sim(8, k) < sim(8, 8)
  }

  /** With ids 1 to 10 in the index and the tie, the entries of product
      8's row with the top score are those of products 4 and 8, in that
      order, and no entry scores higher. */
  lemma TiedRowTop(d: ModelData)
    requires |d.productKeys| == 10 && forall i :: 0 <= i < 10 ==> d.productKeys[i] == i + 1
    requires SampleTie(d.similarity)
    ensures var m := d.similarity(8, 8);
            Filter(SimilarityRow(d, 8), KeyIs(ScoreOf, m)) == [Scored(4, m), Scored(8, m)]
    ensures forall i :: 0 <= i < 10 ==> d.similarity(8, d.productKeys[i]) <= d.similarity(8, 8)
  {
    var m := d.similarity(8, 8);
    var row := SimilarityRow(d, 8);
    var p := KeyIs(ScoreOf, m);
    forall i | 0 <= i < |row| && i != 3 && i != 7
      ensures !p(row[i])
    {
      var k := i + 1;
      assert row[i] == Scored(k, d.similarity(8, k));
      assert 1 <= k <= 10 && k != 4 && k != 8;
      assert ScoreOf(row[i]) < m;
    }
    assert |row| == 10 && row[3] == Scored(4, m) && row[7] == Scored(8, m);
    assert ScoreOf(row[3]) == m && ScoreOf(row[7]) == m;
    assert p(row[3]) && p(row[7]);
    FilterExactlyTwo(row, p, 3, 7);
  }

  /** Hence the sorted row of product 8 starts with products 4 and then 8:
      the only two entries of the top score, in index order, since the sort
      is stable. */
  lemma TiedRowHead(d: ModelData)
    requires |d.productKeys| == 10 && forall i :: 0 <= i < 10 ==> d.productKeys[i] == i + 1
    requires SampleTie(d.similarity)
    ensures var sorted := SortDesc(SimilarityRow(d, 8), ScoreOf);
            |sorted| == 10 && sorted[0] == Scored(4, d.similarity(8, 8)) && sorted[1] == Scored(8, d.similarity(8, 8))
  {
    var m := d.similarity(8, 8);
    var row := SimilarityRow(d, 8);
    TiedRowTop(d);
    var sorted := SortDesc(row, ScoreOf);
    SortDescStable(row, ScoreOf, m);
    EntriesOfRow(d, 8, sorted);
    forall i | 0 <= i < |sorted|
      ensures ScoreOf(sorted[i]) <= m
    {
      var k := sorted[i].id;
      assert k in d.productKeys;
    }
    LeadingTwo(sorted, ScoreOf, m, Scored(4, m), Scored(8, m));
  }

  /** Attaching catalog rows to ids 1 .. |catalog| of a catalog numbered in
      order succeeds, each id getting the row that carries it. */
  lemma AttachNumbered(catalog: seq<Product>, pairs: seq<Scored>)
    requires forall j :: 0 <= j < |catalog| ==> catalog[j].id == j + 1
    requires forall i :: 0 <= i < |pairs| ==> 1 <= pairs[i].id <= |catalog|
    ensures Attach(catalog, pairs).Ok?
    ensures forall i :: 0 <= i < |pairs| ==>
              Attach(catalog, pairs).value[i] == Ranked(catalog[pairs[i].id - 1], pairs[i].score)
              && Attach(catalog, pairs).value[i].product.id == pairs[i].id
  {
    forall i | 0 <= i < |pairs|
      ensures FindById(catalog, pairs[i].id) == Some(catalog[pairs[i].id - 1])
    {
      FindInNumbered(catalog, pairs[i].id);
    }
  }

  /** Every entry of a reordering of a row over the index 1 .. 10 names a
      product between 1 and 10, and the entry for any one product occurs
      at most once. */
  lemma TenKeyEntries(d: ModelData, sorted: seq<Scored>, k: int)
    requires |d.productKeys| == 10 && forall i :: 0 <= i < 10 ==> d.productKeys[i] == i + 1
    requires multiset(sorted) == multiset(SimilarityRow(d, 8))
    ensures forall i :: 0 <= i < |sorted| ==> 1 <= sorted[i].id <= 10
    ensures forall i, j :: 0 <= i < j < |sorted| ==> sorted[i].id != k || sorted[j].id != k
  {
    EntriesOfRow(d, 8, sorted);
    forall i | 0 <= i < |sorted|
      ensures 1 <= sorted[i].id <= 10
    {
      var j :| 0 <= j < |d.productKeys| && d.productKeys[j] == sorted[i].id;
    }
    assert Distinct(d.productKeys);
    EntryOnce(d, 8, sorted, k);
  }

  /** The window `sorted[1:n+1]` of a sorted row that starts with products
      4 and 8: it starts with 8 and, product 4 occurring once, never
      lists 4. */
  lemma TiedWindow(sorted: seq<Scored>, chosen: seq<Scored>, n: int, m: real)
    requires |sorted| == 10 && sorted[0] == Scored(4, m) && sorted[1] == Scored(8, m) && n >= 1
    requires chosen == sorted[1..1 + Min(n, 9)]
    requires forall i, j :: 0 <= i < j < |sorted| ==> sorted[i].id != 4 || sorted[j].id != 4
    requires forall i :: 0 <= i < |sorted| ==> 1 <= sorted[i].id <= 10
    ensures |chosen| >= 1 && chosen[0] == Scored(8, m)
    ensures forall i :: 0 <= i < |chosen| ==> chosen[i].id != 4 && 1 <= chosen[i].id <= 10
  {
    forall i | 0 <= i < |chosen|
      ensures chosen[i].id != 4 && 1 <= chosen[i].id <= 10
    {
      assert chosen[i] == sorted[i + 1];
    }
  }

  /** The first-entry rule on a ten-product index with the tie: product 8's
      list starts with product 8 itself, and product 4, the product most
      similar to 8, is not listed at all. */
  lemma TiedListsSelf(d: ModelData, n: int)
    requires |d.productKeys| == 10 && forall i :: 0 <= i < 10 ==> d.productKeys[i] == i + 1
    requires |d.products| == 10 && forall j :: 0 <= j < |d.products| ==> d.products[j].id == j + 1
    requires SampleTie(d.similarity) && n >= 1
    ensures GetSimilarSpec(d, 8, n).Ok? && |GetSimilarSpec(d, 8, n).value| >= 1
    ensures GetSimilarSpec(d, 8, n).value[0] == Ranked(d.products[7], d.similarity(8, 8))
    ensures forall i :: 0 <= i < |GetSimilarSpec(d, 8, n).value| ==> GetSimilarSpec(d, 8, n).value[i].product.id != 4
  {
    var sorted := SortDesc(SimilarityRow(d, 8), ScoreOf);
    TiedRowHead(d);
    assert 8 == d.productKeys[7];
    SimilarIdsFacts(d, 8, n);
    var chosen := SimilarIds(d, 8, n);
    TenKeyEntries(d, sorted, 4);
    TiedWindow(sorted, chosen, n, d.similarity(8, 8));
    AttachNumbered(d.products, chosen);
    assert GetSimilarSpec(d, 8, n) == Attach(d.products, chosen);
  }

  /** The corrected rule on the same state lists product 4 first. */
  lemma TiedExcludingSelf(d: ModelData, n: int)
    requires |d.productKeys| == 10 && forall i :: 0 <= i < 10 ==> d.productKeys[i] == i + 1
    requires |d.products| == 10 && forall j :: 0 <= j < |d.products| ==> d.products[j].id == j + 1
    requires SampleTie(d.similarity) && n >= 1
    ensures GetSimilarExcludingSelf(d, 8, n).Ok? && |GetSimilarExcludingSelf(d, 8, n).value| >= 1
    ensures GetSimilarExcludingSelf(d, 8, n).value[0] == Ranked(d.products[3], d.similarity(8, 8))
  {
    var sorted := SortDesc(SimilarityRow(d, 8), ScoreOf);
    TiedRowHead(d);
    assert 8 == d.productKeys[7];
    TenKeyEntries(d, sorted, 4);
    var chosen := SimilarIdsExcludingSelf(d, 8, n);
    TiedOthersHead(sorted, chosen, n, d.similarity(8, 8));
    AttachNumbered(d.products, chosen);
    assert GetSimilarExcludingSelf(d, 8, n) == Attach(d.products, chosen);
  }

  /** The first n entries other than product 8 of a sorted row that starts
      with product 4 start with 4. */
  lemma TiedOthersHead(sorted: seq<Scored>, chosen: seq<Scored>, n: int, m: real)
    requires sorted != [] && sorted[0] == Scored(4, m) && n >= 1
    requires chosen == Prefix(Filter(sorted, NotSelf(8)), n)
    requires forall i :: 0 <= i < |sorted| ==> 1 <= sorted[i].id <= 10
    ensures |chosen| >= 1 && chosen[0] == Scored(4, m)
    ensures forall i :: 0 <= i < |chosen| ==> 1 <= chosen[i].id <= 10
  {
    var others := Filter(sorted, NotSelf(8));
    assert NotSelf(8)(sorted[0]);
    assert others == [sorted[0]] + Filter(sorted[1..], NotSelf(8));
    PrefixIsTake(others, n);
    forall i | 0 <= i < |chosen|
      ensures 1 <= chosen[i].id <= 10
    {
      assert chosen[i] == others[i] && others[i] in sorted;
    }
  }

  /** The counterexample to "exclude the product itself": in any state whose
      index order is the one `train` builds on a fresh recommender from the
      sample interactions, with a catalog listing products 1 .. 10 in order
      (as the sample catalog does, SampleProductIds) and the tie, product 8
      is listed as similar to itself and product 4 is dropped. */
  lemma TieListsProductItself(d: ModelData, n: int)
    requires d.productKeys == AppendNew([], UniqueSorted(ProductIds(SampleInteractions())))
    requires |d.products| == 10 && forall j :: 0 <= j < |d.products| ==> d.products[j].id == j + 1
    requires SampleTie(d.similarity) && n >= 1
    ensures GetSimilarSpec(d, 8, n).Ok? && |GetSimilarSpec(d, 8, n).value| >= 1
    ensures GetSimilarSpec(d, 8, n).value[0] == Ranked(d.products[7], d.similarity(8, 8))
    ensures forall i :: 0 <= i < |GetSimilarSpec(d, 8, n).value| ==> GetSimilarSpec(d, 8, n).value[i].product.id != 4
  {
    SampleIndex(SampleInteractions());
    TiedListsSelf(d, n);
  }

  /** On the same states the corrected rule lists product 4 first. */
  lemma TieExcludingSelf(d: ModelData, n: int)
    requires d.productKeys == AppendNew([], UniqueSorted(ProductIds(SampleInteractions())))
    requires |d.products| == 10 && forall j :: 0 <= j < |d.products| ==> d.products[j].id == j + 1
    requires SampleTie(d.similarity) && n >= 1
    ensures GetSimilarExcludingSelf(d, 8, n).Ok? && |GetSimilarExcludingSelf(d, 8, n).value| >= 1
    ensures GetSimilarExcludingSelf(d, 8, n).value[0] == Ranked(d.products[3], d.similarity(8, 8))
  {
    SampleIndex(SampleInteractions());
    TiedExcludingSelf(d, n);
  }

  // The recommender object

  class RenewableEnergyRecommender {
    var trained: bool
    var products: seq<Product>
    var interactions: seq<Interaction>
    var userMapping: map<int, nat>
    var productMapping: map<int, nat>
    var productKeys: seq<int>
    var similarity: (int, int) -> real

    /** The index order lists each key of the product mapping once. */
    ghost predicate Valid()
      reads this
    {
      Distinct(productKeys) && forall k :: k in productMapping <==> k in productKeys
    }

    function Data(): ModelData
      reads this
    {
      ModelData(products, interactions, userMapping, productMapping, productKeys, similarity)
    }

    /** A new recommender: no model, empty mappings. */
    constructor ()
      ensures Valid() && !trained
      ensures userMapping == map[] && productMapping == map[] && productKeys == []
    {
      trained := false;
      products := [];
      interactions := [];
      userMapping := map[];
      productMapping := map[];
      productKeys := [];
      similarity := (a: int, b: int) => 0.0;
    }

    /** `train`: the sample data unless both frames are given; the ids of
        each kind, ascending and without repeats, enumerated into the
        mappings (which are not cleared first); the similarity fixed. */
    method Train(interactionsArg: Option<seq<Interaction>>, productsArg: Option<seq<Product>>, sim: (int, int) -> real)
      requires Valid()
      modifies this
      ensures Valid() && trained
      ensures interactionsArg.None? || productsArg.None? ==>
                interactions == SampleInteractions() && products == SampleProducts()
      ensures interactionsArg.Some? && productsArg.Some? ==>
                interactions == interactionsArg.value && products == productsArg.value
      ensures userMapping == Enumerate(old(userMapping), UniqueSorted(UserIds(interactions)))
      ensures productMapping == Enumerate(old(productMapping), UniqueSorted(ProductIds(interactions)))
      ensures productKeys == AppendNew(old(productKeys), UniqueSorted(ProductIds(interactions)))
      ensures similarity == sim
    {
      var ints, prods := TrainingData(interactionsArg, productsArg);
      TrainOn(ints, prods, sim);
    }

    /** The body of `train` once the frames are fixed. */
    method TrainOn(ints: seq<Interaction>, prods: seq<Product>, sim: (int, int) -> real)
      requires Valid()
      modifies this
      ensures Valid() && trained
      ensures interactions == ints && products == prods && similarity == sim
      ensures userMapping == Enumerate(old(userMapping), UniqueSorted(UserIds(ints)))
      ensures productMapping == Enumerate(old(productMapping), UniqueSorted(ProductIds(ints)))
      ensures productKeys == AppendNew(old(productKeys), UniqueSorted(ProductIds(ints)))
    {
      var users := EnumerateIds(userMapping, UniqueSorted(UserIds(ints)));
      var items, keys := EnumerateProductIds(productMapping, productKeys, UniqueSorted(ProductIds(ints)));
      products, interactions, similarity, trained := prods, ints, sim, true;
      userMapping, productMapping, productKeys := users, items, keys;
    }

    /** The frames `train` works on: the sample data unless both are given. */
    static method TrainingData(interactionsArg: Option<seq<Interaction>>, productsArg: Option<seq<Product>>)
      returns (ints: seq<Interaction>, prods: seq<Product>)
      ensures interactionsArg.None? || productsArg.None? ==> ints == SampleInteractions() && prods == SampleProducts()
      ensures interactionsArg.Some? && productsArg.Some? ==> ints == interactionsArg.value && prods == productsArg.value
    {
      if interactionsArg.None? || productsArg.None? {
        prods, ints := SampleProducts(), SampleInteractions();
      } else {
        prods, ints := productsArg.value, interactionsArg.value;
      }
    }

    /** The loop `for i, user_id in enumerate(ids): user_mapping[user_id] = i`. */
    static method EnumerateIds(m: map<int, nat>, ids: seq<int>) returns (r: map<int, nat>)
      ensures r == Enumerate(m, ids)
    {
      r := m;
      for i := 0 to |ids|
        invariant r == Enumerate(m, ids[..i])
      {
        assert ids[..i + 1][..i] == ids[..i];
        r := r[ids[i] := i];
      }
      assert ids[..|ids|] == ids;
    }

    /** The same loop over the product ids, also tracking the order in which
        the keys of the mapping first appear. */
    static method EnumerateProductIds(m: map<int, nat>, keys: seq<int>, ids: seq<int>)
      returns (items: map<int, nat>, order: seq<int>)
      requires Distinct(keys) && forall k :: k in m <==> k in keys
      ensures items == Enumerate(m, ids) && order == AppendNew(keys, ids)
      ensures Distinct(order) && forall k :: k in items <==> k in order
    {
      items, order := m, keys;
      for i := 0 to |ids|
        invariant items == Enumerate(m, ids[..i])
        invariant order == AppendNew(keys, ids[..i])
        invariant Distinct(order)
        invariant forall k :: k in items <==> k in order
      {
        var x := ids[i];
        assert x in items <==> x in order;
        assert ids[..i + 1][..i] == ids[..i];
        if ids[i] !in items {
          AppendKeepsDistinct(order, ids[i]);
          order := order + [ids[i]];
        }
        items := items[ids[i] := i];
      }
      assert ids[..|ids|] == ids;
    }

    /** The state `train()` leaves when it runs on the sample data over the
        mappings `um` and `pm` and the key order `keys` it started from. */
    ghost predicate SampleTrainedFrom(um: map<int, nat>, pm: map<int, nat>, keys: seq<int>, sampleSim: (int, int) -> real)
      reads this
    {
      interactions == SampleInteractions() && products == SampleProducts() && similarity == sampleSim
      && userMapping == Enumerate(um, UniqueSorted(UserIds(SampleInteractions())))
      && productMapping == Enumerate(pm, UniqueSorted(ProductIds(SampleInteractions())))
      && productKeys == AppendNew(keys, UniqueSorted(ProductIds(SampleInteractions())))
    }

    /** The lazy fallback of the three queries: with no model yet, train on
        the sample data (no saved model is ever found). */
    method EnsureTrained(sampleSim: (int, int) -> real)
      requires Valid()
      modifies this
      ensures Valid() && trained
      ensures old(trained) ==> Data() == old(Data())
      ensures !old(trained) ==> SampleTrainedFrom(old(userMapping), old(productMapping), old(productKeys), sampleSim)
    {
      if !trained {
        Train(None, None, sampleSim);
      }
    }

    /** The loop that builds the result rows. */
    static method AttachRows(catalog: seq<Product>, pairs: seq<Scored>) returns (r: Outcome<seq<Ranked>>)
      ensures r == Attach(catalog, pairs)
    {
      var result: seq<Ranked> := [];
      for i := 0 to |pairs|
        invariant Attach(catalog, pairs[..i]) == Ok(result)
      {
        AttachPrefixStep(catalog, pairs, i);
        var product := FindById(catalog, pairs[i].id);
        if product.None? {
          assert pairs[..i + 1] + pairs[i + 1..] == pairs;
          AttachStopsAtMissing(catalog, pairs[..i + 1], pairs[i + 1..]);
          return MissingProduct(pairs[i].id);
        }
        result := result + [Ranked(product.value, pairs[i].score)];
      }
      assert pairs[..|pairs|] == pairs;
      r := Ok(result);
    }

    /** The body of `recommend_for_user` once a model exists: the unrated
        products, the weighted average of each, the best n, their rows. */
    method RecommendForTrained(userId: int, n: int) returns (r: Outcome<UserRecs>)
      requires Valid() && trained
      ensures r == RecommendForUserSpec(Data(), userId, n)
    {
      var d := Data();
      if userId !in userMapping {
        return Ok(NewUserTop(Prefix(products, n)));
      }
      var userIdx := userMapping[userId];
      var unrated := UnratedProducts(d, userIdx);
      var predictions := PredictedRatings(d, userIdx, unrated);
      var top := Prefix(SortDesc(predictions, ScoreOf), n);
      var rows := AttachRows(products, top);
      if rows.MissingProduct? {
        return MissingProduct(rows.id);
      }
      r := Ok(Predicted(rows.value));
    }

    /** The comprehension collecting the products the user has not rated. */
    static method UnratedProducts(d: ModelData, userIdx: int) returns (unrated: seq<int>)
      ensures unrated == Unrated(d, userIdx)
    {
      var keys := d.productKeys;
      unrated := [];
      for i := 0 to |keys|
        invariant unrated == Filter(keys[..i], (pid: int) => IsUnrated(d, userIdx, pid))
      {
        var pid := keys[i];
        FilterAppend(keys[..i], [pid], (pid: int) => IsUnrated(d, userIdx, pid));
        assert keys[..i + 1] == keys[..i] + [pid];
        if pid in d.productMapping && Rating(d, userIdx, d.productMapping[pid]) == 0.0 {
          unrated := unrated + [pid];
        }
      }
      assert keys[..|keys|] == keys;
    }

    /** The outer loop filling `predicted_ratings`. */
    static method PredictedRatings(d: ModelData, userIdx: int, unrated: seq<int>) returns (predictions: seq<Scored>)
      ensures predictions == Predictions(d, userIdx, unrated)
    {
      predictions := [];
      for j := 0 to |unrated|
        invariant predictions == Predictions(d, userIdx, unrated[..j])
      {
        var pid := unrated[j];
        var weightedSum, totalWeight := PredictionSums(d, userIdx, pid);
        PredictionsStep(d, userIdx, unrated, j);
        if totalWeight > 0.0 {
          predictions := predictions + [Scored(pid, weightedSum / totalWeight)];
        }
      }
      assert unrated[..|unrated|] == unrated;
    }

    /** The inner loop of `recommend_for_user`: over the mapping, each
        product the user rated adds weight times rating and |weight|. */
    static method PredictionSums(d: ModelData, userIdx: int, pid: int) returns (weightedSum: real, totalWeight: real)
      ensures weightedSum == WeightedSum(d, userIdx, pid, d.productKeys)
      ensures totalWeight == TotalWeight(d, userIdx, pid, d.productKeys)
    {
      var similarScores := (other: int) => d.similarity(pid, other);
      weightedSum, totalWeight := 0.0, 0.0;
      for k := 0 to |d.productKeys|
        invariant weightedSum == WeightedSum(d, userIdx, pid, d.productKeys[..k])
        invariant totalWeight == TotalWeight(d, userIdx, pid, d.productKeys[..k])
      {
        var otherPid := d.productKeys[k];
        assert d.productKeys[..k + 1][..k] == d.productKeys[..k];
        var rating := RatingOf(d, userIdx, otherPid);
        if rating > 0.0 {
          var weight := similarScores(otherPid);
          weightedSum := weightedSum + weight * rating;
          totalWeight := totalWeight + Abs(weight);
        }
      }
      assert d.productKeys[..|d.productKeys|] == d.productKeys;
    }

    /** `recommend_for_user`: train if needed, then rank. */
    method RecommendForUser(userId: int, n: int, sampleSim: (int, int) -> real) returns (r: Outcome<UserRecs>)
      requires Valid()
      modifies this
      ensures Valid() && trained
      ensures old(trained) ==> Data() == old(Data())
      ensures !old(trained) ==> SampleTrainedFrom(old(userMapping), old(productMapping), old(productKeys), sampleSim)
      ensures r == RecommendForUserSpec(Data(), userId, n)
    {
      EnsureTrained(sampleSim);
      r := RecommendForTrained(userId, n);
    }

    /** `recommend_by_category`: train if needed, then rank the category. */
    method RecommendByCategory(category: string, n: int, sampleSim: (int, int) -> real) returns (r: seq<Product>)
      requires Valid()
      modifies this
      ensures Valid() && trained
      ensures old(trained) ==> Data() == old(Data())
      ensures !old(trained) ==> SampleTrainedFrom(old(userMapping), old(productMapping), old(productKeys), sampleSim)
      ensures r == RecommendByCategorySpec(products, category, n)
    {
      EnsureTrained(sampleSim);
      r := RecommendByCategorySpec(products, category, n);
    }

    /** `get_similar_products`: train if needed; an id outside the index
        gives nothing; otherwise the sorted row without its first entry, the
        next n, with their rows. */
    method GetSimilarProducts(productId: int, n: int, sampleSim: (int, int) -> real) returns (r: Outcome<seq<Ranked>>)
      requires Valid()
      modifies this
      ensures Valid() && trained
      ensures old(trained) ==> Data() == old(Data())
      ensures !old(trained) ==> SampleTrainedFrom(old(userMapping), old(productMapping), old(productKeys), sampleSim)
      ensures r == GetSimilarSpec(Data(), productId, n)
    {
      EnsureTrained(sampleSim);
      r := SimilarForTrained(Data(), productId, n);
    }

    /** The tie reached through the object: a new recommender asked for the
        products similar to 8 trains lazily on the sample data and then lists
        product 8 itself first and never product 4. */
    static method FreshRecommenderListsSelf(n: int, sampleSim: (int, int) -> real) returns (r: Outcome<seq<Ranked>>)
      requires SampleTie(sampleSim) && n >= 1
      ensures r.Ok? && |r.value| >= 1 && r.value[0].product.id == 8
      ensures forall i :: 0 <= i < |r.value| ==> r.value[i].product.id != 4
    {
      var recommender := new RenewableEnergyRecommender();
      r := recommender.GetSimilarProducts(8, n, sampleSim);
      SampleProductIds();
      TieListsProductItself(recommender.Data(), n);
    }

    /** The body of `get_similar_products` once a model exists. */
    static method SimilarForTrained(d: ModelData, productId: int, n: int) returns (r: Outcome<seq<Ranked>>)
      ensures r == GetSimilarSpec(d, productId, n)
    {
      if productId !in d.productKeys {
        return Ok([]);
      }
      var similarScores := SortDesc(SimilarityRow(d, productId), ScoreOf);
      var similarProducts := Slice(similarScores, 1, n + 1);
      r := AttachRows(d.products, similarProducts);
    }
  }

  /** Attaching one more id of the list is one step of the loop. */
  lemma AttachPrefixStep(products: seq<Product>, pairs: seq<Scored>, i: int)
    requires 0 <= i < |pairs|
    ensures Attach(products, pairs[..i + 1]) == AttachLast(products, Attach(products, pairs[..i]), pairs[i])
  {
    assert pairs[..i + 1][..i] == pairs[..i];
  }

  /** Once some prefix of the pairs fails, the whole list fails on the same id. */
  lemma {:induction false} AttachStopsAtMissing(products: seq<Product>, a: seq<Scored>, b: seq<Scored>)
    requires Attach(products, a).MissingProduct?
    ensures Attach(products, a + b) == Attach(products, a)
    decreases |b|
  {
    if b != [] {
      var init := b[..|b| - 1];
      assert (a + b)[..|a + b| - 1] == a + init;
      AttachStopsAtMissing(products, a, init);
    } else {
      assert a + b == a;
    }
  }
}
