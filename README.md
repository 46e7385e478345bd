# Collaborative-filtering recommendation service: request pipeline

This project models the two recommendation handlers of a small Flask
service. The service has loaded an SVD rating model and three lookup tables:

- `user_item`: user → the items the user interacted with;
- `product_names`: item → display name;
- `product_aisles`: item → aisle label.

The handlers are:

- `recommend` (`GET /recommend`) ranks every named item the user has not
  interacted with by the model's estimated rating and returns the best `n`.
- `recommend_aisle` (`GET /recommend/aisle`) does the same among the items
  of one aisle. The aisle query is stripped and lower-cased, and catalog
  aisles are lower-cased before comparison. The aisle is checked before the
  user.

Both handlers are pure functions of the tables, the request parameters and
the rating model. The model is therefore written as Dafny functions and
lemmas in four modules:

- `Text`: the ASCII part of Python's `str.strip()` and `str.lower()`.
- `Ranking`: these Python pieces:
  - `list(set)`, modelled as ascending enumeration;
  - the stable `sorted(..., key=lambda x: -x[1])`, an insertion sort;
  - the slice `[:n]`, including negative `n`;
  - the `if pid in product_names` filter.
- `Engine`: the tables, the two handlers and their properties.
- `Scenarios`: worked requests against a five-item catalog.

The rating model `svd_algo.predict(user, item).est` is a parameter
`score: (UserId, ItemId) -> real`.

Each handler returns `Handled(response, scored)`:

- `response` is one of `UnknownAisle`, `UnknownUser`, `NoCandidates`
  ("No new products to recommend") or `Ok(list)`.
- `scored` is the sequence of items passed to the rating model.

Keeping `scored` lets the contracts state that nothing is scored on the
error and no-candidate paths. They also state that every candidate is
scored exactly once otherwise.

The count `n` is applied as Python's slice `[:n]`. With `n = 0` the list is
empty, and a negative `n` drops the last `|n|` ranked entries
(`Ranking.Prefix`, `Scenarios.NegativeCountScenario`).

## Model

| member | source | states |
|---|---|---|
| Text.LowerChar | app.py:69 | lowering leaves no upper-case letter, shifts `A`..`Z` by 32, keeps every other character and never changes whether a character is whitespace |
| Text.Strip | app.py:66 | `strip()` never lengthens the query, and what is left is empty or starts and ends with a non-whitespace character |
| Text.Normalize | app.py:66 | the aisle query `strip().lower()` (`Lower` of `Strip`) has no upper-case letter and no whitespace at either end |
| Text.StripIsSlice | app.py:66 | the stripped query is one contiguous stretch of the query, starting right after the leading whitespace |
| Text.StripDropsOnlySpace | app.py:66 | every character `strip()` removes, before or after the kept stretch, is whitespace |
| Text.NormalizeIdempotent | app.py:66 | normalising an already normalised aisle query (`strip().lower()`) changes nothing; in particular `Lower` applied twice is `Lower` once |
| Ranking.Enumerate | app.py:47 | `list(set)` lists every candidate exactly once and nothing else (same length, same members, strictly ascending, so duplicate-free) |
| Ranking.SortByScore | app.py:53 | the sorted predictions are a permutation (same multiset) of the input in non-increasing rating order |
| Ranking.SortStable | app.py:53 | the sort is stable: the entries with any given rating keep their input order |
| Ranking.SortRankOrder | app.py:53 | for input listed by ascending item, the output is ordered by rating and then by ascending item among equal ratings |
| Ranking.SortedSameEsts | app.py:52-53 | two rating-sorted permutations of the same entries carry the same sequence of ratings |
| Ranking.Prefix | app.py:53 | `[:n]` is a front part of the list: length `min(n, len)` for `n >= 0`, and `max(len + n, 0)` (the last `-n` entries dropped) for `n < 0` |
| Ranking.KeepNamed | app.py:55-56 | the comprehension is a subsequence of its input that keeps every entry whose item has a name, as many times as it occurs, and no other entry; nothing is removed when every item is named |
| Ranking.SubseqRankOrder | app.py:55-56 | filtering a rank-ordered list keeps it rank-ordered and adds no entry |
| Engine.Recommend | app.py:43-56 | unknown user ⇔ user not in `user_item`; "no new products" ⇔ every named item already interacted; never an aisle error; nothing scored on those paths; otherwise every unseen named item scored exactly once, and the scored items are exactly the items of the `predictions` list that gets ranked |
| Engine.RecommendAisle | app.py:66-86 | unknown aisle ⇔ the aisle pool `AisleProducts` is empty, i.e. no catalog aisle lower-cases to the normalised query (checked before the user); unknown user ⇔ aisle known and user missing; "no new products" ⇔ every aisle item interacted; nothing scored on error paths; otherwise every unseen aisle item scored exactly once, and the scored items are exactly the items of the `predictions` list that gets ranked |
| Engine.PredictionsShape | app.py:52 | `Predictions` (the `predictions` list, `ScoreEach` over `list(unseen)`): the predictions hold each candidate exactly once with the model's estimate for that user |
| Engine.SortedPredictionsShape | app.py:52-53 | `SortByScore(Predictions(..))`: the sorted predictions still hold each candidate once with its estimate, ordered by rating then ascending item |
| Engine.TopNShape | app.py:52-53 | `TopN` (`top_n`): only candidates with their estimates, rank-ordered, at most one per candidate, and for `n >= 0` exactly `min(n, number of candidates)` entries |
| Engine.TopNKeepsBest | app.py:53 | any candidate cut by truncation is estimated no higher than every kept entry |
| Engine.SelectedSound | app.py:52-56 | `Selected` (the entries the comprehension keeps): the final entries are named candidates with their estimates, rank-ordered, distinct, a subsequence of `top_n`, bounded by `n` and by the candidate count, and equal to `top_n` when every candidate is named |
| Engine.RankedEstimatesIndependentOfOrder | app.py:47-53 | any duplicate-free listing of the candidate set, scored by `ScoreEach` and sorted, yields the same sequence of ratings; the set order only decides the order among equal ratings before the cut |
| Engine.TopNEstsIndependentOfOrder | app.py:47-53 | `top_n` built from any duplicate-free listing of the candidates carries the same ratings, position by position |
| Engine.RecommendSound | app.py:43-57 | for a known user with at least one named item not yet interacted, `recommend` succeeds and lists `top_n` in order, each entry a named item outside the user's `Interacted` set, rendered by `ToRecommendations` with its name and estimate; ratings non-increasing, items distinct, at most `n` and at most the candidate count |
| Engine.RecommendAisleSound | app.py:69-87 | for a known user with at least one not-interacted item in the asked aisle, `recommend_aisle` succeeds and lists a subsequence of `top_n`, each entry a named item outside the user's `Interacted` set, drawn from `AisleProducts` (its lower-cased aisle equals the normalised query), rendered by `ToAisleRecommendations` with its name, that aisle and its estimate; ratings non-increasing, items distinct, bounded by `n` |
| Engine.ZeroRequestedIsEmpty | app.py:53 | `n = 0` gives an empty list from both handlers whenever they reach the ranking |
| Engine.AisleQueryNormalized | app.py:66-69 | the aisle handler answers a query exactly as it answers the normalised query (`" Cookies "` and `"cookies"` alike) |
| Scenarios.GlobalScenario | app.py:37-57 | user 7, who has items 1 and 2, is offered item 3 (4.5) then item 4 (3.2), and only 3 and 4 are scored |
| Scenarios.NegativeCountScenario | app.py:53 | with `n = -1` the last ranked entry is dropped instead of an empty list being returned |
| Scenarios.NothingNewScenario | app.py:49-50 | a user who has every named item gets "no new products" and nothing is scored |
| Scenarios.UnknownAisleScenario | app.py:69-71 | an aisle nobody stocks is reported for any user, known or not |
| Scenarios.AisleDropsUnnamedScenario | app.py:66-86 | `" Snacks "` finds both "snacks" and "Snacks"; the best-rated unnamed item fills the one requested place and is then dropped, leaving an empty list although named candidates existed |

## Left out

- HTTP and Flask: routing, `request.args`, `jsonify`, status codes, `render_template` for `/`, and `waitress` serving.
- Parameter parsing: `int(...)` and its defaults (`user_id` 1, `n` 10, aisle `"cookies cakes"`). The handlers take the parsed values.
- Start-up: unpickling the model and tables, and `exit(1)` when a file fails to load. The tables are a parameter.
- The SVD model internals. `svd_algo.predict(...).est` is the parameter `score`, a total function.
- Engine.Recommend and Engine.RecommendAisle: `round(rating, 2)` is not modelled. Ratings are carried at full precision as `real`, and there is no floating point (NaN, rounding ties).
- The `except Exception` path that answers 500, and the error and message texts. The outcomes are datatype constructors.
- Text.LowerChar, Text.Lower, Text.Strip, Text.Normalize: only ASCII is covered. Python's `lower()` and `strip()` also act on non-ASCII letters and whitespace.
- Ranking.Enumerate: the iteration order of Python's `set` is unspecified; the model fixes ascending order. The ratings in `top_n` do not depend on it (`Engine.TopNEstsIndependentOfOrder`). But when `[:n]` cuts through a group of equal ratings, the set order decides which of the tied items are kept. It can therefore change which items come back, and in `recommend_aisle`, where unnamed items are dropped after the cut, how many. The model captures only the ascending-order outcome.
- `user_item` is modelled as user → (item → rating). The handlers read only the item keys of a user's entry.
