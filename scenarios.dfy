/**
 * Worked requests against a small catalog: items 1 to 4 in aisle "snacks",
 * item 5 in "Snacks" without a display name; user 7 has interacted with
 * items 1 and 2, user 8 with every named item.
 */
module Scenarios {
  import opened Ranking
  import opened Engine

  function Catalog(): Tables {
    Tables(UserItem(), Names(), Aisles())
  }

  function UserItem(): map<UserId, map<ItemId, real>> {
    map[7 := map[1 := 5.0, 2 := 4.0], 8 := map[1 := 5.0, 2 := 4.0, 3 := 1.0, 4 := 2.0]]
  }

  function Names(): map<ItemId, string> {
    map[1 := "p1", 2 := "p2", 3 := "p3", 4 := "p4"]
  }

  function Aisles(): map<ItemId, string> {
    map[1 := "snacks", 2 := "snacks", 3 := "snacks", 4 := "snacks", 5 := "Snacks"]
  }

  /** The model's estimates for user 7. */
  function Estimate(u: UserId, p: ItemId): real {
    if p == 3 then 4.5 else if p == 4 then 3.2 else if p == 5 then 9.0 else 0.0
  }

  const S3 := Scored(3, 4.5)
  const S4 := Scored(4, 3.2)
  const S5 := Scored(5, 9.0)

  lemma EnumerateThreeFour()
    ensures Enumerate({3, 4}) == [3, 4]
  {
    var s: set<ItemId> := {3, 4};
    assert 3 in s;
    assert MinOf(s) == 3;
    assert s - {3} == {4};
    EnumerateFour();
  }

  lemma EnumerateFour()
    ensures Enumerate({4}) == [4]
  {
    var one: set<ItemId> := {4};
    assert 4 in one;
    assert MinOf(one) == 4;
    assert one - {4} == {};
  }

  lemma SortSingle(x: Scored)
    ensures SortByScore([x]) == [x]
  {
    assert [x][1..] == [];
  }

  lemma PredictionsThreeFour()
    ensures Predictions(7, {3, 4}, Estimate) == [S3, S4]
  {
    EnumerateThreeFour();
  }

  lemma SortThreeFour()
    ensures SortByScore([S3, S4]) == [S3, S4]
  {
    var p := [S3, S4];
    assert p[1..] == [S4];
    SortSingle(S4);
  }

  lemma RankThreeFour(n: int)
    ensures TopN(7, {3, 4}, n, Estimate) == Prefix([S3, S4], n)
  {
    PredictionsThreeFour();
    SortThreeFour();
  }

  lemma UnseenBySeven()
    ensures 7 in Catalog().userItem
    ensures Catalog().productNames.Keys - Interacted(Catalog(), 7) == {3, 4}
  {
    assert Interacted(Catalog(), 7) == {1, 2};
  }

  lemma SelectedThreeFour(n: int, names: map<ItemId, string>)
    requires 3 in names && 4 in names
    ensures Selected(7, {3, 4}, n, Estimate, names) == Prefix([S3, S4], n)
  {
    RankThreeFour(n);
  }

  /** For user 7 the handler ranks the candidates 3 and 4. */
  lemma RecommendForSeven(n: int)
    ensures Recommend(Catalog(), 7, n, Estimate) == Handled(
      Ok(ToRecommendations(Prefix([S3, S4], n), Names())), [3, 4])
  {
    UnseenBySeven();
    var unseen: set<ItemId> := {3, 4};
    assert 3 in unseen;
    SelectedThreeFour(n, Names());
    EnumerateThreeFour();
  }

  /** A user who has seen items 1 and 2 is offered 3 then 4, best estimate
      first; the model is asked about 3 and 4 only. */
  lemma GlobalScenario()
    ensures Recommend(Catalog(), 7, 10, Estimate)
      == Handled(Ok([Recommendation("p3", 4.5), Recommendation("p4", 3.2)]), [3, 4])
  {
    RecommendForSeven(10);
    assert Prefix([S3, S4], 10) == [S3, S4];
    ShowThreeFour();
  }

  lemma ShowThreeFour()
    ensures ToRecommendations([S3, S4], Names())
      == [Recommendation("p3", 4.5), Recommendation("p4", 3.2)]
  {
  }

  /** A negative count is a Python slice from the end: `[:-1]` drops the
      last entry instead of returning nothing. */
  lemma NegativeCountScenario()
    ensures Recommend(Catalog(), 7, -1, Estimate).response == Ok([Recommendation("p3", 4.5)])
  {
    calc {
      Recommend(Catalog(), 7, -1, Estimate).response;
      { RecommendForSeven(-1); }
      Ok(ToRecommendations(Prefix([S3, S4], -1), Names()));
      { DropLastOfThreeFour(); }
      Ok(ToRecommendations([S3], Names()));
      { ShowThree(); }
      Ok([Recommendation("p3", 4.5)]);
    }
  }

  lemma DropLastOfThreeFour()
    ensures Prefix([S3, S4], -1) == [S3]
  {
    assert [S3, S4][..1] == [S3];
  }

  lemma ShowThree()
    ensures ToRecommendations([S3], Names()) == [Recommendation("p3", 4.5)]
  {
  }

  /** A user who has interacted with every named item gets the
      "no new products" message, and nothing is scored. */
  lemma NothingNewScenario()
    ensures Recommend(Catalog(), 8, 10, Estimate) == Handled(NoCandidates, [])
  {
    var t := Catalog();
    assert t.productNames.Keys <= Interacted(t, 8);
  }

  /** An aisle nobody stocks is reported before the user is looked up. */
  lemma UnknownAisleScenario(u: UserId)
    ensures RecommendAisle(Catalog(), u, "bakery", 10, Estimate).response == UnknownAisle
  {
    var t := Catalog();
    forall p | p in t.productAisles ensures Text.Lower(t.productAisles[p]) != Text.Normalize("bakery") {
      assert Text.Lower(t.productAisles[p])[0] == 's';
    }
  }

  lemma NormalizeSnacks()
    ensures Text.Normalize(" Snacks ") == "snacks"
  {
    assert Text.Strip(" Snacks ") == "Snacks" by {
      StripSnacks();
    }
    LowerSnacks();
  }

  lemma StripSnacks()
    ensures Text.Strip(" Snacks ") == "Snacks"
  {
    TrimLeftSnacks();
    TrimRightSnacks();
  }

  lemma TrimLeftSnacks()
    ensures Text.TrimLeft(" Snacks ") == "Snacks "
  {
    assert Text.TrimLeft(" Snacks ") == Text.TrimLeft("Snacks ") by {
      TrimLeftStep(" Snacks ", "Snacks ");
    }
    TrimLeftStops("Snacks ");
  }

  lemma TrimRightSnacks()
    ensures Text.TrimRight("Snacks ") == "Snacks"
  {
    assert Text.TrimRight("Snacks ") == Text.TrimRight("Snacks") by {
      TrimRightStep("Snacks ", "Snacks");
    }
    TrimRightStops("Snacks");
  }

  lemma TrimLeftStep(s: string, rest: string)
    requires s != [] && Text.IsSpace(s[0]) && rest == s[1..]
    ensures Text.TrimLeft(s) == Text.TrimLeft(rest)
  {
  }

  lemma TrimLeftStops(s: string)
    requires s != [] && !Text.IsSpace(s[0])
    ensures Text.TrimLeft(s) == s
  {
  }

  lemma TrimRightStep(s: string, rest: string)
    requires s != [] && Text.IsSpace(s[|s| - 1]) && rest == s[..|s| - 1]
    ensures Text.TrimRight(s) == Text.TrimRight(rest)
  {
  }

  lemma TrimRightStops(s: string)
    requires s != [] && !Text.IsSpace(s[|s| - 1])
    ensures Text.TrimRight(s) == s
  {
  }

  lemma LowerSnacks()
    ensures Text.Lower("Snacks") == "snacks"
  {
  }

  lemma SnacksAisle()
    ensures AisleProducts(Aisles(), "snacks") == {1, 2, 3, 4, 5}
  {
    assert Text.Lower("Snacks") == "snacks";
    assert Text.Lower("snacks") == "snacks";
  }

  lemma EnumerateThreeFourFive()
    ensures Enumerate({3, 4, 5}) == [3, 4, 5]
  {
    var s: set<ItemId> := {3, 4, 5};
    assert 3 in s;
    assert MinOf(s) == 3;
    assert s - {3} == {4, 5};
    EnumerateFourFive();
  }

  lemma EnumerateFourFive()
    ensures Enumerate({4, 5}) == [4, 5]
  {
    var s: set<ItemId> := {4, 5};
    assert 4 in s;
    assert MinOf(s) == 4;
    assert s - {4} == {5};
    EnumerateFive();
  }

  lemma EnumerateFive()
    ensures Enumerate({5}) == [5]
  {
    var one: set<ItemId> := {5};
    assert 5 in one;
    assert MinOf(one) == 5;
    assert one - {5} == {};
  }

  lemma PredictionsThreeFourFive()
    ensures Predictions(7, {3, 4, 5}, Estimate) == [S3, S4, S5]
  {
    calc {
      Predictions(7, {3, 4, 5}, Estimate);
      ScoreEach(7, Enumerate({3, 4, 5}), Estimate);
      { EnumerateThreeFourFive(); }
      ScoreEach(7, [3, 4, 5], Estimate);
      [S3, S4, S5];
    }
  }

  lemma InsertBelow(x: Scored)
    ensures Insert(S4, [x]) == (if x.est <= S4.est then [S4, x] else [x, S4])
  {
    assert [x][1..] == [];
  }

  lemma SortFourFive()
    ensures SortByScore([S4, S5]) == [S5, S4]
  {
    var p := [S4, S5];
    assert p[1..] == [S5];
    SortSingle(S5);
    InsertBelow(S5);
  }

  lemma InsertThreeAboveFour()
    ensures Insert(S3, [S4]) == [S3, S4]
  {
  }

  lemma SortThreeFourFive()
    ensures SortByScore([S3, S4, S5]) == [S5, S3, S4]
  {
    var p := [S3, S4, S5];
    assert p[1..] == [S4, S5];
    SortFourFive();
    var t := [S5, S4];
    assert t[1..] == [S4];
    InsertThreeAboveFour();
  }

  lemma TopOneOfThreeFourFive()
    ensures TopN(7, {3, 4, 5}, 1, Estimate) == [S5]
  {
    PredictionsThreeFourFive();
    SortThreeFourFive();
    assert Prefix([S5, S3, S4], 1) == [S5];
  }

  lemma SelectedNoneOfThreeFourFive()
    ensures Selected(7, {3, 4, 5}, 1, Estimate, Names()) == []
  {
    TopOneOfThreeFourFive();
    assert 5 !in Names();
  }

  lemma AisleUnseenBySeven()
    ensures 7 in Catalog().userItem
    ensures AisleProducts(Catalog().productAisles, Text.Normalize(" Snacks ")) == {1, 2, 3, 4, 5}
    ensures {1, 2, 3, 4, 5} - Interacted(Catalog(), 7) == {3, 4, 5}
  {
    assert AisleProducts(Catalog().productAisles, Text.Normalize(" Snacks ")) == {1, 2, 3, 4, 5} by {
      NormalizeSnacks();
      SnacksAisle();
    }
    InteractedBySeven();
  }

  lemma InteractedBySeven()
    ensures {1, 2, 3, 4, 5} - Interacted(Catalog(), 7) == {3, 4, 5}
  {
    assert Interacted(Catalog(), 7) == {1, 2};
  }

  /** The aisle query is normalised (`" Snacks "` finds "snacks" and
      "Snacks"), and the unnamed item 5, best estimated, fills the single
      requested place and is then dropped: the list comes back empty
      although items 3 and 4 were candidates. */
  lemma AisleDropsUnnamedScenario()
    ensures RecommendAisle(Catalog(), 7, " Snacks ", 1, Estimate) == Handled(Ok([]), [3, 4, 5])
  {
    AisleUnseenBySeven();
    var pool: set<ItemId> := {1, 2, 3, 4, 5};
    assert 1 in pool;
    var unseen: set<ItemId> := {3, 4, 5};
    assert 3 in unseen;
    EnumerateThreeFourFive();
    SelectedNoneOfThreeFourFive();
  }
}
