/** Rank arithmetic the hand evaluator is built from: the stable sorts behind
    OrderBy/OrderByDescending, the rank filters behind Where, rank counts,
    the distinct rank list, and the order of the rank groups. */
module HandRank {
  import opened Cards

  /** The integer a card is sorted and compared by: its CardRank cast to int. */
  function Rank(c: PlayingCard): (v: int)
    ensures 3 <= v <= 16
  {
    RankValue(c.rank)
  }

  function Negate(x: int): int
  {
    -x
  }

  // ---------------------------------------------------------------------
  // Stable sort, descending by a key (OrderByDescending); ascending order is
  // the descending order of the negated key.

  /** Puts x in front of the first element whose key is not above x's key. */
  function InsertBy<T>(x: T, s: seq<T>, key: T -> int): (r: seq<T>)
    ensures |r| == |s| + 1
  {
    if s == [] then [x]
    else if key(s[0]) <= key(x) then [x] + s
    else [s[0]] + InsertBy(x, s[1..], key)
  }

  /** Stable insertion sort, greatest key first; equal keys keep their input order. */
  function SortBy<T>(s: seq<T>, key: T -> int): (r: seq<T>)
    ensures |r| == |s|
  {
    if s == [] then [] else InsertBy(s[0], SortBy(s[1..], key), key)
  }

  ghost predicate SortedBy<T>(s: seq<T>, key: T -> int)
  {
    forall i, j :: 0 <= i < j < |s| ==> key(s[i]) >= key(s[j])
  }

  lemma {:induction false} InsertByMembers<T>(x: T, s: seq<T>, key: T -> int)
    ensures multiset(InsertBy(x, s, key)) == multiset(s) + multiset{x}
    ensures forall y :: y in InsertBy(x, s, key) <==> y == x || y in s
  {
    if s != [] && key(s[0]) > key(x) {
      InsertByMembers(x, s[1..], key);
      assert s == [s[0]] + s[1..];
    }
  }

  /** Inserting a key no larger than b into a list whose keys are at most b
      keeps every key at most b. */
  lemma {:induction false} InsertByBounded<T>(x: T, s: seq<T>, key: T -> int, b: int)
    requires key(x) <= b
    requires forall k :: 0 <= k < |s| ==> key(s[k]) <= b
    ensures forall k :: 0 <= k < |InsertBy(x, s, key)| ==> key(InsertBy(x, s, key)[k]) <= b
  {
    if s != [] && key(s[0]) > key(x) {
      InsertByBounded(x, s[1..], key, b);
      var rest := InsertBy(x, s[1..], key);
      assert forall k :: 1 <= k < |rest| + 1 ==> ([s[0]] + rest)[k] == rest[k - 1];
    }
  }

  lemma {:induction false} InsertBySorted<T>(x: T, s: seq<T>, key: T -> int)
    requires SortedBy(s, key)
    ensures SortedBy(InsertBy(x, s, key), key)
  {
    if s != [] && key(s[0]) > key(x) {
      var rest := InsertBy(x, s[1..], key);
      assert SortedBy(s[1..], key) by {
        forall i, j | 0 <= i < j < |s[1..]|
          ensures key(s[1..][i]) >= key(s[1..][j])
        {
          assert s[1..][i] == s[i + 1] && s[1..][j] == s[j + 1];
        }
      }
      InsertBySorted(x, s[1..], key);
      forall k | 0 <= k < |s[1..]|
        ensures key(s[1..][k]) <= key(s[0])
      {
        assert s[1..][k] == s[k + 1];
      }
      InsertByBounded(x, s[1..], key, key(s[0]));
      var r := [s[0]] + rest;
      forall i, j | 0 <= i < j < |r|
        ensures key(r[i]) >= key(r[j])
      {
        assert r[j] == rest[j - 1];
        if i > 0 {
          assert r[i] == rest[i - 1];
        }
      }
    }
  }

  /** SortBy orders by key, greatest first, and rearranges its input. */
  lemma {:induction false} SortByProperties<T>(s: seq<T>, key: T -> int)
    ensures SortedBy(SortBy(s, key), key)
    ensures multiset(SortBy(s, key)) == multiset(s)
  {
    if s != [] {
      SortByProperties(s[1..], key);
      InsertBySorted(s[0], SortBy(s[1..], key), key);
      InsertByMembers(s[0], SortBy(s[1..], key), key);
      assert s == [s[0]] + s[1..];
    }
  }

  /** OrderByDescending(c => c.rank). */
  function SortDesc(cs: seq<PlayingCard>): (r: seq<PlayingCard>)
    ensures |r| == |cs|
  {
    SortBy(cs, Rank)
  }

  /** OrderBy(c => c.rank). */
  function SortAsc(cs: seq<PlayingCard>): (r: seq<PlayingCard>)
    ensures |r| == |cs|
  {
    SortBy(cs, c => Negate(Rank(c)))
  }

  ghost predicate Descending(cs: seq<PlayingCard>)
  {
    forall i, j :: 0 <= i < j < |cs| ==> Rank(cs[i]) >= Rank(cs[j])
  }

  ghost predicate Ascending(cs: seq<PlayingCard>)
  {
    forall i, j :: 0 <= i < j < |cs| ==> Rank(cs[i]) <= Rank(cs[j])
  }

  lemma SortDescProperties(cs: seq<PlayingCard>)
    ensures Descending(SortDesc(cs)) && multiset(SortDesc(cs)) == multiset(cs)
  {
    SortByProperties(cs, Rank);
  }

  lemma SortAscProperties(cs: seq<PlayingCard>)
    ensures Ascending(SortAsc(cs)) && multiset(SortAsc(cs)) == multiset(cs)
  {
    var key := c => Negate(Rank(c));
    SortByProperties(cs, key);
    var r := SortAsc(cs);
    forall i, j | 0 <= i < j < |r|
      ensures Rank(r[i]) <= Rank(r[j])
    {
      assert key(r[i]) >= key(r[j]);
    }
  }

  /** Take(n): the first n elements, or all of them when there are fewer. */
  function Take<T>(s: seq<T>, n: nat): (r: seq<T>)
    ensures |r| == if |s| <= n then |s| else n
    ensures r == s[..|r|]
  {
    if |s| <= n then s else s[..n]
  }

  // ---------------------------------------------------------------------
  // Filters by rank: Where(c => rank in R) and Where(c => rank not in R).

  function WithRanks(cs: seq<PlayingCard>, rs: set<int>): (r: seq<PlayingCard>)
    ensures |r| <= |cs|
    ensures forall c :: c in r ==> c in cs && Rank(c) in rs
  {
    if cs == [] then []
    else (if Rank(cs[0]) in rs then [cs[0]] else []) + WithRanks(cs[1..], rs)
  }

  function WithoutRanks(cs: seq<PlayingCard>, rs: set<int>): (r: seq<PlayingCard>)
    ensures |r| <= |cs|
    ensures forall c :: c in r ==> c in cs && Rank(c) !in rs
  {
    if cs == [] then []
    else (if Rank(cs[0]) !in rs then [cs[0]] else []) + WithoutRanks(cs[1..], rs)
  }

  /** The cards kept and the cards dropped by a rank filter make up the input. */
  lemma {:induction false} FilterPartition(cs: seq<PlayingCard>, rs: set<int>)
    ensures |WithRanks(cs, rs)| + |WithoutRanks(cs, rs)| == |cs|
    ensures multiset(WithRanks(cs, rs)) + multiset(WithoutRanks(cs, rs)) == multiset(cs)
  {
    if cs != [] {
      FilterPartition(cs[1..], rs);
      assert cs == [cs[0]] + cs[1..];
    }
  }

  /** A card of the hand lands on the side of the filter its rank selects. */
  lemma FilterMember(cs: seq<PlayingCard>, rs: set<int>, c: PlayingCard)
    requires c in cs
    ensures Rank(c) in rs ==> c in WithRanks(cs, rs)
    ensures Rank(c) !in rs ==> c in WithoutRanks(cs, rs)
  {
    FilterPartition(cs, rs);
    assert c in multiset(cs);
  }

  /** A filter that keeps as many cards as it is given keeps the whole list. */
  lemma {:induction false} WithRanksAll(cs: seq<PlayingCard>, rs: set<int>)
    requires |WithRanks(cs, rs)| == |cs|
    ensures WithRanks(cs, rs) == cs
  {
    if cs != [] {
      assert |WithRanks(cs[1..], rs)| <= |cs| - 1;
      WithRanksAll(cs[1..], rs);
      assert cs == [cs[0]] + cs[1..];
    }
  }

  /** Keeping two disjoint rank sets keeps as many cards as keeping each. */
  lemma {:induction false} WithRanksUnion(cs: seq<PlayingCard>, a: set<int>, b: set<int>)
    requires a !! b
    ensures |WithRanks(cs, a + b)| == |WithRanks(cs, a)| + |WithRanks(cs, b)|
    ensures multiset(WithRanks(cs, a + b)) == multiset(WithRanks(cs, a)) + multiset(WithRanks(cs, b))
  {
    if cs != [] {
      WithRanksUnion(cs[1..], a, b);
    }
  }

  /** The number of cards of rank value r. */
  function Count(cs: seq<PlayingCard>, r: int): nat
  {
    |WithRanks(cs, {r})|
  }

  /** Ranks that occur in the hand. */
  function RanksOf(cs: seq<PlayingCard>): set<int>
  {
    set c | c in cs :: Rank(c)
  }

  lemma {:induction false} CountPositive(cs: seq<PlayingCard>, r: int)
    ensures Count(cs, r) > 0 <==> r in RanksOf(cs)
  {
    if cs != [] {
      CountPositive(cs[1..], r);
      assert cs == [cs[0]] + cs[1..];
      assert RanksOf(cs) == {Rank(cs[0])} + RanksOf(cs[1..]);
    }
  }

  /** Two different ranks together occur at most |cs| times. */
  lemma TwoCounts(cs: seq<PlayingCard>, a: int, b: int)
    requires a != b
    ensures Count(cs, a) + Count(cs, b) == |WithRanks(cs, {a, b})| <= |cs|
  {
    WithRanksUnion(cs, {a}, {b});
    assert {a} + {b} == {a, b};
  }

  /** Three different ranks together occur at most |cs| times. */
  lemma ThreeCounts(cs: seq<PlayingCard>, a: int, b: int, c: int)
    requires a != b && a != c && b != c
    ensures Count(cs, a) + Count(cs, b) + Count(cs, c) <= |cs|
  {
    WithRanksUnion(cs, {a}, {b});
    assert {a} + {b} == {a, b};
    WithRanksUnion(cs, {a, b}, {c});
  }

  // ---------------------------------------------------------------------
  // Distinct rank values: Select(c => c.rank).Distinct().OrderBy(r => r).

  function RankList(cs: seq<PlayingCard>): (r: seq<int>)
    ensures |r| == |cs|
    ensures forall i :: 0 <= i < |cs| ==> r[i] == Rank(cs[i])
  {
    seq(|cs|, i requires 0 <= i < |cs| => Rank(cs[i]))
  }

  ghost predicate Distinct(s: seq<int>)
  {
    forall i, j :: 0 <= i < j < |s| ==> s[i] != s[j]
  }

  /** The values of xs, each once (the last occurrence is the one kept; the
      ascending sort that follows makes the choice immaterial). */
  function Dedup(xs: seq<int>): (r: seq<int>)
    ensures forall x :: x in r <==> x in xs
  {
    if xs == [] then []
    else if xs[0] in xs[1..] then Dedup(xs[1..])
    else [xs[0]] + Dedup(xs[1..])
  }

  lemma {:induction false} DedupDistinct(xs: seq<int>)
    ensures Distinct(Dedup(xs))
  {
    if xs != [] {
      DedupDistinct(xs[1..]);
    }
  }

  lemma {:induction false} InsertByDistinct(x: int, s: seq<int>, key: int -> int)
    requires Distinct(s) && x !in s
    ensures Distinct(InsertBy(x, s, key))
  {
    if s != [] && key(s[0]) > key(x) {
      var rest := InsertBy(x, s[1..], key);
      InsertByDistinct(x, s[1..], key);
      InsertByMembers(x, s[1..], key);
      var r := [s[0]] + rest;
      forall i, j | 0 <= i < j < |r|
        ensures r[i] != r[j]
      {
        if i == 0 {
          var y := rest[j - 1];
          assert y in rest;
          if y != x {
            assert y in s[1..];
            var k :| 0 <= k < |s[1..]| && s[1..][k] == y;
            assert s[k + 1] == y;
          }
        } else {
          assert r[i] == rest[i - 1] && r[j] == rest[j - 1];
        }
      }
    }
  }

  lemma {:induction false} SortByDistinct(s: seq<int>, key: int -> int)
    requires Distinct(s)
    ensures Distinct(SortBy(s, key))
  {
    if s != [] {
      SortByDistinct(s[1..], key);
      SortByProperties(s[1..], key);
      assert s[0] !in multiset(s[1..]);
      InsertByDistinct(s[0], SortBy(s[1..], key), key);
    }
  }

  /** The distinct rank values of the hand in increasing order. */
  function RanksAsc(cs: seq<PlayingCard>): seq<int>
  {
    SortBy(Dedup(RankList(cs)), Negate)
  }

  ghost predicate StrictlyIncreasing(s: seq<int>)
  {
    forall i, j :: 0 <= i < j < |s| ==> s[i] < s[j]
  }

  /** RanksAsc lists every rank of the hand once, in increasing order. */
  lemma RanksAscProperties(cs: seq<PlayingCard>)
    ensures StrictlyIncreasing(RanksAsc(cs)) && Distinct(RanksAsc(cs))
    ensures forall x :: x in RanksAsc(cs) <==> x in RanksOf(cs)
  {
    var d := Dedup(RankList(cs));
    DedupDistinct(RankList(cs));
    SortByProperties(d, Negate);
    SortByDistinct(d, Negate);
    var r := RanksAsc(cs);
    forall i, j | 0 <= i < j < |r|
      ensures r[i] < r[j]
    {
      assert Negate(r[i]) >= Negate(r[j]);
    }
    forall x
      ensures x in r <==> x in RanksOf(cs)
    {
      assert x in r <==> x in multiset(d);
      if x in RankList(cs) {
        var i :| 0 <= i < |cs| && RankList(cs)[i] == x;
        assert cs[i] in cs;
      }
      if x in RanksOf(cs) {
        var c :| c in cs && Rank(c) == x;
        var i :| 0 <= i < |cs| && cs[i] == c;
        assert RankList(cs)[i] == x;
      }
    }
  }

  // ---------------------------------------------------------------------
  // Rank groups: GroupBy(rank).OrderByDescending(Count).ThenByDescending(Key).

  /** One integer that orders groups as the two-level sort does: ranks are
      below 100, so the count decides first and the rank breaks ties. */
  function GroupKey(cs: seq<PlayingCard>): int -> int
  {
    r => Count(cs, r) * 100 + r
  }

  lemma GroupKeyOrder(cs: seq<PlayingCard>, a: int, b: int)
    requires 0 <= a < 100 && 0 <= b < 100
    ensures GroupKey(cs)(a) > GroupKey(cs)(b) <==>
      Count(cs, a) > Count(cs, b) || (Count(cs, a) == Count(cs, b) && a > b)
  {
  }

  /** The keys of the rank groups, in the order the evaluator inspects them. */
  function GroupOrder(cs: seq<PlayingCard>): seq<int>
  {
    SortBy(RanksAsc(cs), GroupKey(cs))
  }

  /** The groups are the distinct ranks, each once, ordered by count and then
      by rank, both descending. */
  lemma GroupOrderProperties(cs: seq<PlayingCard>)
    ensures |GroupOrder(cs)| == |RanksAsc(cs)|
    ensures forall x :: x in GroupOrder(cs) <==> x in RanksOf(cs)
    ensures forall i, j :: 0 <= i < j < |GroupOrder(cs)| ==>
      var a, b := GroupOrder(cs)[i], GroupOrder(cs)[j];
      Count(cs, a) > Count(cs, b) || (Count(cs, a) == Count(cs, b) && a > b)
  {
    var g := GroupOrder(cs);
    RanksAscProperties(cs);
    SortByProperties(RanksAsc(cs), GroupKey(cs));
    SortByDistinct(RanksAsc(cs), GroupKey(cs));
    forall x
      ensures x in g <==> x in RanksOf(cs)
    {
      assert x in g <==> x in multiset(RanksAsc(cs));
    }
    forall i, j | 0 <= i < j < |g|
      ensures Count(cs, g[i]) > Count(cs, g[j]) || (Count(cs, g[i]) == Count(cs, g[j]) && g[i] > g[j])
    {
      assert g[i] in RanksOf(cs) && g[j] in RanksOf(cs);
      var ci :| ci in cs && Rank(ci) == g[i];
      var cj :| cj in cs && Rank(cj) == g[j];
      GroupKeyOrder(cs, g[i], g[j]);
    }
  }
}
