/**
 * Scored candidates and the list operations both handlers apply to them:
 * `list(...)` of a candidate set, `sorted(predictions, key=lambda x: -x[1])`,
 * the slice `[:n]` and the `if pid in product_names` filter.
 */
module Ranking {

  type ItemId = int

  /** One entry of `predictions`: a candidate item and its estimated rating. */
  datatype Scored = Scored(item: ItemId, est: real)

  predicate NotBelow(x: Scored, y: Scored) {
    x.est >= y.est
  }

  /** The order the handlers produce: non-increasing rating, and among equal
      ratings ascending item identifier (the tie-break of this model). */
  predicate RankedBefore(x: Scored, y: Scored) {
    x.est > y.est || (x.est == y.est && x.item < y.item)
  }

  /** Ordered by non-increasing estimated rating. */
  ghost predicate SortedDesc(s: seq<Scored>) {
    forall i, j :: 0 <= i < j < |s| ==> NotBelow(s[i], s[j])
  }

  /** Ordered by rating, ties by ascending item. */
  ghost predicate RankOrder(s: seq<Scored>) {
    forall i, j :: 0 <= i < j < |s| ==> RankedBefore(s[i], s[j])
  }

  /** The ratings of a list, position by position. */
  function Ests(s: seq<Scored>): (r: seq<real>)
    ensures |r| == |s| && forall i :: 0 <= i < |s| ==> r[i] == s[i].est
  {
    seq(|s|, i requires 0 <= i < |s| => s[i].est)
  }

  /** The items of a list, position by position. */
  function Items(s: seq<Scored>): (r: seq<ItemId>)
    ensures |r| == |s| && forall i :: 0 <= i < |s| ==> r[i] == s[i].item
  {
    seq(|s|, i requires 0 <= i < |s| => s[i].item)
  }

  /** The entries of a list that carry a given rating, in list order. */
  function WithEst(s: seq<Scored>, k: real): (r: seq<Scored>)
    ensures forall x :: x in r <==> x in s && x.est == k
  {
    if s == [] then []
    else if s[0].est == k then [s[0]] + WithEst(s[1..], k)
    else WithEst(s[1..], k)
  }

  /** `a` is `b` with some entries dropped, order kept. */
  ghost predicate IsSubseq<T>(a: seq<T>, b: seq<T>)
    decreases |b|
  {
    if a == [] then true
    else if b == [] then false
    else if a[0] == b[0] then IsSubseq(a[1..], b[1..])
    else IsSubseq(a, b[1..])
  }

  // ---------------------------------------------------------------------
  // Enumerating a candidate set

  lemma HasMin(s: set<ItemId>)
    requires exists y :: y in s
    ensures exists m :: m in s && forall x :: x in s ==> m <= x
    decreases |s|
  {
    var y :| y in s;
    if exists z :: z in s && z != y {
      var z :| z in s && z != y;
      var s' := s - {y};
      assert z in s';
      HasMin(s');
      var m :| m in s' && forall x :: x in s' ==> m <= x;
      var least := if y < m then y else m;
      forall x | x in s ensures least <= x {
        if x != y {
          assert x in s';
        }
      }
    } else {
      assert forall x :: x in s ==> y <= x;
    }
  }

  /** The least element of a non-empty set. */
  function MinOf(s: set<ItemId>): (m: ItemId)
    requires exists y :: y in s
    ensures m in s && forall x :: x in s ==> m <= x
  {
    HasMin(s);
    var m :| m in s && forall x :: x in s ==> m <= x; m
  }

  /** `list(candidates)`: every element of the set exactly once. Python's set
      iteration order is unspecified; this model lists the set in ascending
      order, which makes ties in the ranking come out by ascending item. */
  function Enumerate(s: set<ItemId>): (r: seq<ItemId>)
    ensures |r| == |s|
    ensures forall x :: x in r <==> x in s
    ensures forall i, j :: 0 <= i < j < |r| ==> r[i] < r[j]
    decreases |s|
  {
    if forall x :: x !in s then
      assert s == {};
      []
    else
      var m := MinOf(s);
      var rest := Enumerate(s - {m});
      EnumerateStep(s, m, rest);
      [m] + rest
  }

  /** Listing the least element ahead of a listing of the others lists the whole set. */
  lemma EnumerateStep(s: set<ItemId>, m: ItemId, rest: seq<ItemId>)
    requires m in s && forall x :: x in s ==> m <= x
    requires |rest| == |s - {m}| && forall x :: x in rest <==> x in s - {m}
    requires forall i, j :: 0 <= i < j < |rest| ==> rest[i] < rest[j]
    ensures var r := [m] + rest;
      && |r| == |s|
      && (forall x :: x in r <==> x in s)
      && (forall i, j :: 0 <= i < j < |r| ==> r[i] < r[j])
  {
    var r := [m] + rest;
    assert |s| == |s - {m}| + 1 by {
      assert s == (s - {m}) + {m};
    }
    forall i, j | 0 <= i < j < |r| ensures r[i] < r[j] {
      assert r[j] == rest[j - 1];
      if i == 0 {
        assert rest[j - 1] in s - {m};
      } else {
        assert r[i] == rest[i - 1];
      }
    }
  }

  // ---------------------------------------------------------------------
  // Stable sort by descending rating

  /** Places `x` in front of the first entry whose rating is not above its own. */
  function Insert(x: Scored, t: seq<Scored>): (r: seq<Scored>)
    requires SortedDesc(t)
    ensures SortedDesc(r)
    ensures multiset(r) == multiset(t) + multiset{x}
  {
    if t == [] || t[0].est <= x.est then [x] + t
    else
      var rest := Insert(x, t[1..]);
      assert t == [t[0]] + t[1..];
      InsertBelowHead(x, t, rest);
      [t[0]] + rest
  }

  /** Whatever is inserted behind the head of a sorted list stays at or
      below the head. */
  lemma InsertBelowHead(x: Scored, t: seq<Scored>, rest: seq<Scored>)
    requires SortedDesc(t) && t != [] && x.est < t[0].est
    requires multiset(rest) == multiset(t[1..]) + multiset{x}
    ensures forall y :: y in rest ==> NotBelow(t[0], y)
  {
    forall y | y in rest ensures NotBelow(t[0], y) {
      assert y in multiset(rest);
      if y != x {
        assert y in t[1..];
      }
    }
  }

  /** `sorted(predictions, key=lambda x: -x[1])`: a permutation of the input
      ordered by non-increasing rating. */
  function SortByScore(s: seq<Scored>): (r: seq<Scored>)
    ensures SortedDesc(r)
    ensures multiset(r) == multiset(s)
  {
    if s == [] then []
    else
      assert s == [s[0]] + s[1..];
      Insert(s[0], SortByScore(s[1..]))
  }

  lemma {:induction false} InsertTies(x: Scored, t: seq<Scored>, k: real)
    requires SortedDesc(t)
    ensures WithEst(Insert(x, t), k) == if x.est == k then [x] + WithEst(t, k) else WithEst(t, k)
  {
    if t == [] || t[0].est <= x.est {
      assert ([x] + t)[1..] == t;
    } else {
      InsertTies(x, t[1..], k);
      var rest := Insert(x, t[1..]);
      assert ([t[0]] + rest)[1..] == rest;
    }
  }

  /** The sort is stable: the entries sharing any one rating keep their
      relative order from the input. */
  lemma {:induction false} SortStable(s: seq<Scored>, k: real)
    ensures WithEst(SortByScore(s), k) == WithEst(s, k)
  {
    if s != [] {
      SortStable(s[1..], k);
      InsertTies(s[0], SortByScore(s[1..]), k);
    }
  }

  lemma {:induction false} InsertRankOrder(x: Scored, t: seq<Scored>)
    requires RankOrder(t)
    requires forall y :: y in t ==> x.item < y.item
    ensures SortedDesc(t) && RankOrder(Insert(x, t))
  {
    assert SortedDesc(t) by {
      forall i, j | 0 <= i < j < |t| ensures NotBelow(t[i], t[j]) {
        assert RankedBefore(t[i], t[j]);
      }
    }
    var r := Insert(x, t);
    if t == [] || t[0].est <= x.est {
      assert r == [x] + t;
      forall i, j | 0 <= i < j < |r| ensures RankedBefore(r[i], r[j]) {
        if i == 0 {
          assert r[j] == t[j - 1] && t[j - 1] in t;
          assert NotBelow(t[0], t[j - 1]);
        } else {
          assert RankedBefore(t[i - 1], t[j - 1]);
        }
      }
    } else {
      assert RankOrder(t[1..]) by {
        forall i, j | 0 <= i < j < |t[1..]| ensures RankedBefore(t[1..][i], t[1..][j]) {
          assert RankedBefore(t[i + 1], t[j + 1]);
        }
      }
      InsertRankOrder(x, t[1..]);
      var rest := Insert(x, t[1..]);
      assert r == [t[0]] + rest;
      forall i, j | 0 <= i < j < |r| ensures RankedBefore(r[i], r[j]) {
        if i == 0 {
          var y := r[j];
          assert y in rest;
          assert y in multiset(t[1..]) + multiset{x};
          if y != x {
            assert y in t[1..];
            var m :| 0 <= m < |t[1..]| && t[1..][m] == y;
            assert RankedBefore(t[0], t[m + 1]);
          }
        } else {
          assert RankedBefore(rest[i - 1], rest[j - 1]);
        }
      }
    }
  }

  /** With the input listed by ascending item, the sorted output is ordered
      by rating and, among equal ratings, by ascending item. */
  lemma {:induction false} SortRankOrder(s: seq<Scored>)
    requires forall i, j :: 0 <= i < j < |s| ==> s[i].item < s[j].item
    ensures RankOrder(SortByScore(s))
  {
    if s == [] {
    } else {
      SortRankOrder(s[1..]);
      var t := SortByScore(s[1..]);
      forall y | y in t ensures s[0].item < y.item {
        assert y in multiset(s[1..]);
        var m :| 0 <= m < |s[1..]| && s[1..][m] == y;
        assert s[m + 1] == y;
      }
      InsertRankOrder(s[0], t);
    }
  }

  /** The list without its entry at position `j`. */
  function RemoveAt(b: seq<Scored>, j: nat): (r: seq<Scored>)
    requires j < |b|
    ensures |r| == |b| - 1
    ensures forall i :: 0 <= i < |r| ==> r[i] == if i < j then b[i] else b[i + 1]
    ensures multiset(r) + multiset{b[j]} == multiset(b)
  {
    assert b == b[..j] + [b[j]] + b[j + 1..];
    b[..j] + b[j + 1..]
  }

  lemma RemoveAtSorted(b: seq<Scored>, j: nat)
    requires j < |b| && SortedDesc(b)
    ensures SortedDesc(RemoveAt(b, j))
  {
    var r := RemoveAt(b, j);
    forall i, k | 0 <= i < k < |r| ensures NotBelow(r[i], r[k]) {
      var i' := if i < j then i else i + 1;
      var k' := if k < j then k else k + 1;
      assert NotBelow(b[i'], b[k']);
    }
  }

  /** When every entry before position `j` has the rating of entry `j`,
      moving that entry to the front leaves the ratings unchanged. */
  lemma RemoveAtEsts(b: seq<Scored>, j: nat)
    requires j < |b| && SortedDesc(b) && b[0].est == b[j].est
    ensures Ests(b) == [b[j].est] + Ests(RemoveAt(b, j))
  {
    var r := RemoveAt(b, j);
    forall i | 0 <= i < |b| ensures Ests(b)[i] == ([b[j].est] + Ests(r))[i] {
      if 0 < i <= j {
        assert NotBelow(b[0], b[i]) && (i == j || NotBelow(b[i], b[j]));
        assert NotBelow(b[0], b[i - 1]) && (i - 1 == j || NotBelow(b[i - 1], b[j]));
      }
    }
  }

  lemma EstsCons(a: seq<Scored>)
    requires a != []
    ensures Ests(a) == [a[0].est] + Ests(a[1..])
  {
  }

  /** Two rating-ordered lists with the same entries open with the same rating. */
  lemma SortedHeadsAgree(a: seq<Scored>, b: seq<Scored>)
    requires SortedDesc(a) && SortedDesc(b) && a != []
    requires multiset(a) == multiset(b)
    ensures b != [] && a[0].est == b[0].est
  {
    assert a[0] in multiset(b);
    var j :| 0 <= j < |b| && b[j] == a[0];
    assert j == 0 || NotBelow(b[0], b[j]);
    assert b[0] in multiset(a);
    var m :| 0 <= m < |a| && a[m] == b[0];
    assert m == 0 || NotBelow(a[0], a[m]);
  }

  lemma SortedTail(a: seq<Scored>)
    requires SortedDesc(a) && a != []
    ensures SortedDesc(a[1..])
  {
    forall i, k | 0 <= i < k < |a[1..]| ensures NotBelow(a[1..][i], a[1..][k]) {
      assert NotBelow(a[i + 1], a[k + 1]);
    }
  }

  /** Two lists ordered by rating that hold the same entries show the same
      ratings position by position: only the order among ties can differ. */
  lemma {:induction false} SortedSameEsts(a: seq<Scored>, b: seq<Scored>)
    requires SortedDesc(a) && SortedDesc(b)
    requires multiset(a) == multiset(b)
    ensures Ests(a) == Ests(b)
    decreases |a|
  {
    assert |a| == |multiset(a)| == |b|;
    if a != [] {
      var x := a[0];
      SortedHeadsAgree(a, b);
      assert x in multiset(b);
      var j :| 0 <= j < |b| && b[j] == x;
      var b' := RemoveAt(b, j);
      assert a == [x] + a[1..];
      assert multiset(a) == multiset{x} + multiset(a[1..]);
      calc {
        multiset(b');
        (multiset(b') + multiset{x}) - multiset{x};
        (multiset(a[1..]) + multiset{x}) - multiset{x};
        multiset(a[1..]);
      }
      RemoveAtSorted(b, j);
      SortedTail(a);
      SortedSameEsts(a[1..], b');
      RemoveAtEsts(b, j);
      EstsCons(a);
    }
  }

  // ---------------------------------------------------------------------
  // Slicing and filtering

  /** Python's `s[:n]`: the first `n` entries (all of them when `n` exceeds
      the length); a negative `n` drops the last `-n` entries instead. */
  function Prefix<T>(s: seq<T>, n: int): (r: seq<T>)
    ensures |r| <= |s| && r == s[..|r|]
    ensures 0 <= n ==> |r| == (if n <= |s| then n else |s|)
    ensures n < 0 ==> |r| == (if |s| + n >= 0 then |s| + n else 0)
  {
    if 0 <= n then (if n <= |s| then s[..n] else s)
    else (if |s| + n >= 0 then s[..|s| + n] else [])
  }

  /** Cutting two lists with the same ratings at the same `n` keeps the same ratings. */
  lemma PrefixEsts(a: seq<Scored>, b: seq<Scored>, n: int)
    requires Ests(a) == Ests(b)
    ensures Ests(Prefix(a, n)) == Ests(Prefix(b, n))
  {
    var pa, pb := Prefix(a, n), Prefix(b, n);
    assert |a| == |Ests(a)| == |Ests(b)| == |b|;
    forall i | 0 <= i < |pa| ensures Ests(pa)[i] == Ests(pb)[i] {
      assert pa[i] == a[i] && pb[i] == b[i];
      assert Ests(a)[i] == Ests(b)[i];
    }
  }

  /** `[... for pid, rating in top_n if pid in product_names]`: the entries
      whose item has a name, in order. */
  function KeepNamed(s: seq<Scored>, named: set<ItemId>): (r: seq<Scored>)
    ensures forall x :: x in r <==> x in s && x.item in named
    ensures IsSubseq(r, s) && |r| <= |s|
    ensures (forall x :: x in s ==> x.item in named) ==> r == s
    ensures forall x :: multiset(r)[x] == if x.item in named then multiset(s)[x] else 0
  {
    if s == [] then []
    else
      var rest := KeepNamed(s[1..], named);
      assert s == [s[0]] + s[1..];
      if s[0].item in named then
        assert ([s[0]] + rest)[1..] == rest;
        [s[0]] + rest
      else rest
  }

  lemma {:induction false} PrefixIsSubseq<T>(s: seq<T>, k: nat)
    requires k <= |s|
    ensures IsSubseq(s[..k], s)
    decreases k
  {
    if k > 0 {
      assert s[..k][1..] == s[1..][..k - 1];
      PrefixIsSubseq(s[1..], k - 1);
    }
  }

  /** Dropping entries keeps the ranking order among those that remain. */
  lemma {:induction false} SubseqRankOrder(a: seq<Scored>, b: seq<Scored>)
    requires IsSubseq(a, b) && RankOrder(b)
    ensures RankOrder(a)
    ensures forall x :: x in a ==> x in b
    decreases |b|
  {
    if a != [] {
      assert RankOrder(b[1..]) by {
        forall i, j | 0 <= i < j < |b[1..]| ensures RankedBefore(b[1..][i], b[1..][j]) {
          assert RankedBefore(b[i + 1], b[j + 1]);
        }
      }
      assert a == [a[0]] + a[1..];
      if a[0] == b[0] {
        SubseqRankOrder(a[1..], b[1..]);
        forall i, j | 0 <= i < j < |a| ensures RankedBefore(a[i], a[j]) {
          assert a[j] in a[1..];
          var k :| 0 <= k < |b[1..]| && b[1..][k] == a[j];
          assert RankedBefore(b[0], b[k + 1]);
          if i > 0 {
            assert RankedBefore(a[1..][i - 1], a[1..][j - 1]);
          }
        }
      } else {
        SubseqRankOrder(a, b[1..]);
      }
    }
  }
}
