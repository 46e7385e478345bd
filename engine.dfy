/**
 * The two recommendation handlers, `recommend` and `recommend_aisle`, as
 * pure functions over the lookup tables loaded at start-up and the rating
 * estimate of the trained model. A handler's answer is one of four
 * outcomes: unknown aisle, unknown user, nothing new to recommend, or a
 * ranked list.
 */
module Engine {
  import opened Text
  import opened Ranking

  type UserId = int

  /** The lookup tables, read but never changed by the handlers:
      `user_item` (user to the ratings of the items they interacted with),
      `product_names` (item to display name) and `product_aisles` (item to aisle). */
  datatype Tables = Tables(
    userItem: map<UserId, map<ItemId, real>>,
    productNames: map<ItemId, string>,
    productAisles: map<ItemId, string>)

  /** One entry of the global list: `{"product": ..., "rating": ...}`. */
  datatype Recommendation = Recommendation(product: string, rating: real)

  /** One entry of the aisle list: `{"product": ..., "aisle": ..., "rating": ...}`. */
  datatype AisleRecommendation = AisleRecommendation(product: string, aisle: string, rating: real)

  /** What a handler answers: the two errors, the "No new products to
      recommend" message (not an empty list), or the ranked list. */
  datatype Response<R> = UnknownAisle | UnknownUser | NoCandidates | Ok(recs: seq<R>)

  /** A handler's answer together with the items, in call order, for which it
      asked the model for an estimate (`svd_algo.predict(user_id, pid)`). */
  datatype Handled<R> = Handled(response: Response<R>, scored: seq<ItemId>)

  /** `set(user_item.get(user_id, {}))`: the items the user interacted with. */
  function Interacted(t: Tables, u: UserId): (r: set<ItemId>)
    requires u in t.userItem
    ensures forall p :: p in r <==> p in t.userItem[u]
  {
    t.userItem[u].Keys
  }

  /** The comprehension building `aisle_products`: every item whose lowered
      aisle label equals the (already normalised) aisle name. */
  function AisleProducts(aisles: map<ItemId, string>, aisleName: string): (r: set<ItemId>)
    ensures forall p :: p in r <==> p in aisles && Lower(aisles[p]) == aisleName
  {
    set p | p in aisles && Lower(aisles[p]) == aisleName
  }

  /** `[(pid, svd_algo.predict(user_id, pid).est) for pid in unseen]`. */
  function ScoreEach(u: UserId, pids: seq<ItemId>, score: (UserId, ItemId) -> real): (r: seq<Scored>)
    ensures |r| == |pids|
    ensures forall i :: 0 <= i < |pids| ==> r[i] == Scored(pids[i], score(u, pids[i]))
  {
    seq(|pids|, i requires 0 <= i < |pids| => Scored(pids[i], score(u, pids[i])))
  }

  /** `predictions`: the candidates listed as `list(unseen)` does, each scored once. */
  function Predictions(u: UserId, unseen: set<ItemId>, score: (UserId, ItemId) -> real): seq<Scored>
  {
    ScoreEach(u, Enumerate(unseen), score)
  }

  /** `top_n`: the predictions sorted by descending estimate, then `[:n]`. */
  function TopN(u: UserId, unseen: set<ItemId>, n: int, score: (UserId, ItemId) -> real): seq<Scored>
  {
    Prefix(SortByScore(Predictions(u, unseen, score)), n)
  }

  /** The entries of `top_n` that survive the `if pid in product_names` filter. */
  function Selected(u: UserId, unseen: set<ItemId>, n: int, score: (UserId, ItemId) -> real,
                    names: map<ItemId, string>): seq<Scored>
  {
    KeepNamed(TopN(u, unseen, n, score), names.Keys)
  }

  /** The global list: each selected entry shown by its name and estimate. */
  function ToRecommendations(sel: seq<Scored>, names: map<ItemId, string>): (r: seq<Recommendation>)
    requires forall x :: x in sel ==> x.item in names
    ensures |r| == |sel|
    ensures forall i :: 0 <= i < |sel| ==> r[i] == Recommendation(names[sel[i].item], sel[i].est)
  {
    seq(|sel|, i requires 0 <= i < |sel| => Recommendation(names[sel[i].item], sel[i].est))
  }

  /** The aisle list: as the global list, each entry also tagged with the aisle name. */
  function ToAisleRecommendations(sel: seq<Scored>, names: map<ItemId, string>, aisleName: string)
    : (r: seq<AisleRecommendation>)
    requires forall x :: x in sel ==> x.item in names
    ensures |r| == |sel|
    ensures forall i :: 0 <= i < |sel| ==>
      r[i] == AisleRecommendation(names[sel[i].item], aisleName, sel[i].est)
  {
    seq(|sel|, i requires 0 <= i < |sel| => AisleRecommendation(names[sel[i].item], aisleName, sel[i].est))
  }

  /** No candidate is left exactly when the pool lies inside the interacted items. */
  lemma EmptyDifference(pool: set<ItemId>, interacted: set<ItemId>)
    ensures pool - interacted == {} <==> pool <= interacted
  {
    if pool - interacted == {} {
      forall p | p in pool ensures p in interacted {
        assert p !in pool - interacted;
      }
    }
    if pool <= interacted {
      assert forall p :: p !in pool - interacted;
      assert pool - interacted == {};
    }
  }

  /** `recommend`: top-`n` items the user has not interacted with, among all named items. */
  function Recommend(t: Tables, u: UserId, n: int, score: (UserId, ItemId) -> real)
    : (h: Handled<Recommendation>)
    ensures h.response.UnknownUser? <==> u !in t.userItem
    ensures h.response.NoCandidates? <==> u in t.userItem && t.productNames.Keys <= Interacted(t, u)
    ensures !h.response.UnknownAisle?
    ensures !h.response.Ok? ==> h.scored == []
    ensures h.response.Ok? ==>
      var unseen := t.productNames.Keys - Interacted(t, u);
      && h.scored == Items(Predictions(u, unseen, score))
      && |h.scored| == |unseen|
      && (forall p :: p in h.scored <==> p in unseen)
      && (forall i, j :: 0 <= i < j < |h.scored| ==> h.scored[i] != h.scored[j])
  {
    if u !in t.userItem then Handled(UnknownUser, [])
    else
      var unseen := t.productNames.Keys - Interacted(t, u);
      EmptyDifference(t.productNames.Keys, Interacted(t, u));
      if unseen == {} then Handled(NoCandidates, [])
      else
        var sel := Selected(u, unseen, n, score, t.productNames);
        Handled(Ok(ToRecommendations(sel, t.productNames)), Enumerate(unseen))
  }

  /** `recommend_aisle`: as `recommend`, among the items of one aisle. The
      aisle is checked before the user. */
  function RecommendAisle(t: Tables, u: UserId, query: string, n: int, score: (UserId, ItemId) -> real)
    : (h: Handled<AisleRecommendation>)
    ensures var pool := AisleProducts(t.productAisles, Normalize(query));
      && (h.response.UnknownAisle? <==> pool == {})
      && (h.response.UnknownUser? <==> pool != {} && u !in t.userItem)
      && (h.response.NoCandidates? <==> pool != {} && u in t.userItem && pool <= Interacted(t, u))
      && (!h.response.Ok? ==> h.scored == [])
      && (h.response.Ok? ==>
            var unseen := pool - Interacted(t, u);
            && h.scored == Items(Predictions(u, unseen, score))
            && |h.scored| == |unseen|
            && (forall p :: p in h.scored <==> p in unseen)
            && (forall i, j :: 0 <= i < j < |h.scored| ==> h.scored[i] != h.scored[j]))
  {
    var aisleName := Normalize(query);
    var pool := AisleProducts(t.productAisles, aisleName);
    if pool == {} then Handled(UnknownAisle, [])
    else if u !in t.userItem then Handled(UnknownUser, [])
    else
      var unseen := pool - Interacted(t, u);
      EmptyDifference(pool, Interacted(t, u));
      if unseen == {} then Handled(NoCandidates, [])
      else
        var sel := Selected(u, unseen, n, score, t.productNames);
        Handled(Ok(ToAisleRecommendations(sel, t.productNames, aisleName)), Enumerate(unseen))
  }

  // ---------------------------------------------------------------------
  // The ranking pipeline shared by both handlers

  lemma PredictionsShape(u: UserId, unseen: set<ItemId>, score: (UserId, ItemId) -> real)
    ensures var p := Predictions(u, unseen, score);
      && |p| == |unseen|
      && (forall x :: x in p <==> x.item in unseen && x.est == score(u, x.item))
      && (forall i, j :: 0 <= i < j < |p| ==> p[i].item < p[j].item)
  {
    var e := Enumerate(unseen);
    var p := Predictions(u, unseen, score);
    forall x: Scored | x.item in unseen && x.est == score(u, x.item) ensures x in p {
      var i :| 0 <= i < |e| && e[i] == x.item;
      assert p[i] == x;
    }
  }

  /** The sorted predictions: every candidate once, with its estimate, in rank order. */
  lemma SortedPredictionsShape(u: UserId, unseen: set<ItemId>, score: (UserId, ItemId) -> real)
    ensures var s := SortByScore(Predictions(u, unseen, score));
      && |s| == |unseen|
      && (forall x :: x in s <==> x.item in unseen && x.est == score(u, x.item))
      && RankOrder(s)
  {
    var p := Predictions(u, unseen, score);
    var s := SortByScore(p);
    PredictionsShape(u, unseen, score);
    SortRankOrder(p);
    assert |s| == |multiset(s)| == |p|;
    forall x ensures x in s <==> x in p {
      assert x in s <==> x in multiset(s);
    }
  }

  /** `top_n`: a rank-ordered front part of the sorted predictions. */
  lemma TopNShape(u: UserId, unseen: set<ItemId>, n: int, score: (UserId, ItemId) -> real)
    ensures var top := TopN(u, unseen, n, score);
      && (forall x :: x in top ==> x.item in unseen && x.est == score(u, x.item))
      && RankOrder(top)
      && |top| <= |unseen|
      && (0 <= n ==> |top| <= n)
      && (0 <= n ==> |top| == if n <= |unseen| then n else |unseen|)
  {
    var s := SortByScore(Predictions(u, unseen, score));
    var top := TopN(u, unseen, n, score);
    SortedPredictionsShape(u, unseen, score);
    PrefixIsSubseq(s, |top|);
    SubseqRankOrder(top, s);
  }

  /** What the shared tail of both handlers delivers: entries drawn from the
      candidates, with the model's estimate, ordered by non-increasing
      estimate (ties by ascending item), each item at most once, no more
      than `n` of them and no more than there are candidates, every one
      named, and in the order they have in `top_n`. */
  lemma {:induction false} SelectedSound(u: UserId, unseen: set<ItemId>, n: int,
                                         score: (UserId, ItemId) -> real, names: map<ItemId, string>)
    ensures var sel := Selected(u, unseen, n, score, names);
      && (forall x :: x in sel ==> x.item in unseen && x.item in names && x.est == score(u, x.item))
      && RankOrder(sel)
      && (forall i, j :: 0 <= i < |sel| && 0 <= j < |sel| && i != j ==> sel[i].item != sel[j].item)
      && |sel| <= |unseen|
      && (0 <= n ==> |sel| <= n)
      && IsSubseq(sel, TopN(u, unseen, n, score))
      && (unseen <= names.Keys ==> sel == TopN(u, unseen, n, score))
  {
    var top := TopN(u, unseen, n, score);
    var sel := Selected(u, unseen, n, score, names);
    TopNShape(u, unseen, n, score);
    SubseqRankOrder(sel, top);
    forall i, j | 0 <= i < |sel| && 0 <= j < |sel| && i != j ensures sel[i].item != sel[j].item {
      if i < j {
        assert RankedBefore(sel[i], sel[j]);
      } else {
        assert RankedBefore(sel[j], sel[i]);
      }
    }
  }

  /** Truncation keeps the best: every candidate left out of `top_n` is
      estimated no higher than any entry kept. */
  lemma TopNKeepsBest(u: UserId, unseen: set<ItemId>, n: int, score: (UserId, ItemId) -> real,
                      c: ItemId, y: Scored)
    requires c in unseen && c !in Items(TopN(u, unseen, n, score))
    requires y in TopN(u, unseen, n, score)
    ensures y.est >= score(u, c)
  {
    var s := SortByScore(Predictions(u, unseen, score));
    var top := TopN(u, unseen, n, score);
    SortedPredictionsShape(u, unseen, score);
    var k :| 0 <= k < |s| && s[k] == Scored(c, score(u, c));
    var i :| 0 <= i < |top| && top[i] == y;
    assert k >= |top| by {
      assert top == s[..|top|];
      assert forall m :: 0 <= m < |top| ==> Items(top)[m] == s[m].item;
    }
    assert s[i] == y;
    assert RankedBefore(s[i], s[k]);
  }

  lemma DistinctCount<T>(s: seq<T>, x: T)
    requires forall i, j :: 0 <= i < j < |s| ==> s[i] != s[j]
    ensures multiset(s)[x] == if x in s then 1 else 0
  {
    if s != [] {
      assert s == [s[0]] + s[1..];
      DistinctCount(s[1..], x);
    }
  }

  /** Python's set iteration order does not matter for what the user sees
      ranked: scoring any duplicate-free listing of the candidates and
      sorting gives the same sequence of estimates; only the order among
      equal estimates can differ. */
  lemma RankedEstimatesIndependentOfOrder(u: UserId, unseen: set<ItemId>, listing: seq<ItemId>,
                                          score: (UserId, ItemId) -> real)
    requires forall i, j :: 0 <= i < j < |listing| ==> listing[i] != listing[j]
    requires forall p :: p in listing <==> p in unseen
    ensures Ests(SortByScore(ScoreEach(u, listing, score)))
         == Ests(SortByScore(Predictions(u, unseen, score)))
  {
    var a := ScoreEach(u, listing, score);
    var b := Predictions(u, unseen, score);
    PredictionsShape(u, unseen, score);
    forall x: Scored ensures multiset(a)[x] == multiset(b)[x] {
      DistinctCount(a, x);
      DistinctCount(b, x);
      if x in b {
        var i :| 0 <= i < |listing| && listing[i] == x.item;
        assert a[i] == x;
      }
    }
    assert multiset(a) == multiset(b);
    SortedSameEsts(SortByScore(a), SortByScore(b));
  }

  /** The ratings kept by `top_n` do not depend on how `list(unseen)`
      orders the candidates; which items carry a rating tied at the cut can. */
  lemma TopNEstsIndependentOfOrder(u: UserId, unseen: set<ItemId>, listing: seq<ItemId>, n: int,
                                   score: (UserId, ItemId) -> real)
    requires forall i, j :: 0 <= i < j < |listing| ==> listing[i] != listing[j]
    requires forall p :: p in listing <==> p in unseen
    ensures Ests(Prefix(SortByScore(ScoreEach(u, listing, score)), n)) == Ests(TopN(u, unseen, n, score))
  {
    RankedEstimatesIndependentOfOrder(u, unseen, listing, score);
    PrefixEsts(SortByScore(ScoreEach(u, listing, score)), SortByScore(Predictions(u, unseen, score)), n);
  }

  // ---------------------------------------------------------------------
  // Properties of the handlers

  /** `recommend` never re-recommends an item the user interacted with; its
      list is ordered by non-increasing rating, names each item at most once,
      and holds at most `n` entries and at most one per candidate. The name
      filter removes nothing here, because the candidates are names' keys. */
  lemma {:induction false} RecommendSound(t: Tables, u: UserId, n: int, score: (UserId, ItemId) -> real)
    requires u in t.userItem
    requires exists p :: p in t.productNames && p !in t.userItem[u]
    ensures Recommend(t, u, n, score).response.Ok?
    ensures var recs := Recommend(t, u, n, score).response.recs;
      var unseen := t.productNames.Keys - Interacted(t, u);
      var sel := TopN(u, unseen, n, score);
      && |recs| == |sel|
      && (forall i :: 0 <= i < |sel| ==>
            sel[i].item in t.productNames && sel[i].item !in t.userItem[u]
            && recs[i] == Recommendation(t.productNames[sel[i].item], score(u, sel[i].item)))
      && (forall i, j :: 0 <= i < j < |recs| ==> recs[i].rating >= recs[j].rating)
      && (forall i, j :: 0 <= i < |sel| && 0 <= j < |sel| && i != j ==> sel[i].item != sel[j].item)
      && |recs| <= |unseen|
      && (0 <= n ==> |recs| <= n)
  {
    var unseen := t.productNames.Keys - Interacted(t, u);
    var top := TopN(u, unseen, n, score);
    var recs := Recommend(t, u, n, score).response.recs;
    assert Recommend(t, u, n, score).response.Ok? && recs == ToRecommendations(top, t.productNames) by {
      RecommendOk(t, u, n, score);
      SelectedSound(u, unseen, n, score, t.productNames);
    }
    TopNShape(u, unseen, n, score);
    forall i | 0 <= i < |top| ensures top[i].item in unseen && top[i].est == score(u, top[i].item) {
      assert top[i] in top;
    }
    forall i, j | 0 <= i < j < |recs| ensures recs[i].rating >= recs[j].rating {
      assert RankedBefore(top[i], top[j]);
    }
    forall i, j | 0 <= i < |top| && 0 <= j < |top| && i != j ensures top[i].item != top[j].item {
      if i < j {
        assert RankedBefore(top[i], top[j]);
      } else {
        assert RankedBefore(top[j], top[i]);
      }
    }
  }

  lemma RecommendOk(t: Tables, u: UserId, n: int, score: (UserId, ItemId) -> real)
    requires u in t.userItem
    requires exists p :: p in t.productNames && p !in t.userItem[u]
    ensures Recommend(t, u, n, score).response.Ok?
    ensures var unseen := t.productNames.Keys - Interacted(t, u);
      Recommend(t, u, n, score).response.recs
      == ToRecommendations(Selected(u, unseen, n, score, t.productNames), t.productNames)
  {
    var unseen := t.productNames.Keys - Interacted(t, u);
    var p :| p in t.productNames && p !in t.userItem[u];
    assert p in unseen;
  }

  /** `recommend_aisle` recommends only items of the asked aisle that the
      user has not interacted with, each tagged with the normalised aisle
      name; the list is ordered by non-increasing rating, names each item at
      most once and holds at most `n` entries. Items without a name are
      dropped after truncation, so the list can be shorter than `n` even
      when there are more candidates. */
  lemma {:induction false} RecommendAisleSound(t: Tables, u: UserId, query: string, n: int,
                                               score: (UserId, ItemId) -> real)
    requires u in t.userItem
    requires exists p :: p in t.productAisles && Lower(t.productAisles[p]) == Normalize(query) && p !in t.userItem[u]
    ensures RecommendAisle(t, u, query, n, score).response.Ok?
    ensures var recs := RecommendAisle(t, u, query, n, score).response.recs;
      var aisleName := Normalize(query);
      var unseen := AisleProducts(t.productAisles, aisleName) - Interacted(t, u);
      var sel := Selected(u, unseen, n, score, t.productNames);
      && |recs| == |sel|
      && IsSubseq(sel, TopN(u, unseen, n, score))
      && (forall i :: 0 <= i < |sel| ==>
            sel[i].item in t.productNames && sel[i].item !in t.userItem[u]
            && sel[i].item in t.productAisles && Lower(t.productAisles[sel[i].item]) == aisleName
            && recs[i] == AisleRecommendation(t.productNames[sel[i].item], aisleName, score(u, sel[i].item)))
      && (forall i, j :: 0 <= i < j < |recs| ==> recs[i].rating >= recs[j].rating)
      && (forall i, j :: 0 <= i < |sel| && 0 <= j < |sel| && i != j ==> sel[i].item != sel[j].item)
      && |recs| <= |unseen|
      && (0 <= n ==> |recs| <= n)
  {
    var aisleName := Normalize(query);
    var unseen := AisleProducts(t.productAisles, aisleName) - Interacted(t, u);
    var sel := Selected(u, unseen, n, score, t.productNames);
    var recs := RecommendAisle(t, u, query, n, score).response.recs;
    RecommendAisleOk(t, u, query, n, score);
    SelectedSound(u, unseen, n, score, t.productNames);
    forall i | 0 <= i < |sel|
      ensures sel[i].item in unseen && sel[i].item in t.productNames && sel[i].est == score(u, sel[i].item)
    {
      assert sel[i] in sel;
    }
    forall i, j | 0 <= i < j < |recs| ensures recs[i].rating >= recs[j].rating {
      assert RankedBefore(sel[i], sel[j]);
    }
  }

  lemma RecommendAisleOk(t: Tables, u: UserId, query: string, n: int, score: (UserId, ItemId) -> real)
    requires u in t.userItem
    requires exists p :: p in t.productAisles && Lower(t.productAisles[p]) == Normalize(query) && p !in t.userItem[u]
    ensures RecommendAisle(t, u, query, n, score).response.Ok?
    ensures var aisleName := Normalize(query);
      var unseen := AisleProducts(t.productAisles, aisleName) - Interacted(t, u);
      var sel := Selected(u, unseen, n, score, t.productNames);
      (forall x :: x in sel ==> x.item in t.productNames)
      && RecommendAisle(t, u, query, n, score).response.recs
         == ToAisleRecommendations(sel, t.productNames, aisleName)
  {
    var aisleName := Normalize(query);
    var pool := AisleProducts(t.productAisles, aisleName);
    var p :| p in t.productAisles && Lower(t.productAisles[p]) == aisleName && p !in t.userItem[u];
    assert p in pool;
    assert p in pool - Interacted(t, u);
  }

  /** A request for zero entries is answered with an empty list, once there
      is something to rank. */
  lemma ZeroRequestedIsEmpty(t: Tables, u: UserId, query: string, score: (UserId, ItemId) -> real)
    ensures Recommend(t, u, 0, score).response.Ok? ==> Recommend(t, u, 0, score).response.recs == []
    ensures RecommendAisle(t, u, query, 0, score).response.Ok? ==>
      RecommendAisle(t, u, query, 0, score).response.recs == []
  {
  }

  /** The aisle query is normalised before anything else: `" Cookies "` and
      `"cookies"` get the same answer. */
  lemma AisleQueryNormalized(t: Tables, u: UserId, query: string, n: int, score: (UserId, ItemId) -> real)
    ensures RecommendAisle(t, u, query, n, score) == RecommendAisle(t, u, Normalize(query), n, score)
  {
    var q := Normalize(query);
    assert Normalize(q) == q by {
      NormalizeIdempotent(query);
    }
  }
}
