/** EvaluateSingleHand: the category and tie-break score of one five-card
    combination, and reference definitions of the categories to prove it
    against. */
module HandEval {
  import opened Cards
  import opened HandRank

  datatype PokerHandType =
    | HighCard | OnePair | TwoPair | ThreeOfAKind | Straight
    | Flush | FullHouse | FourOfAKind | StraightFlush | RoyalFlush

  /** The integer behind each PokerHandType member. */
  function TypeValue(t: PokerHandType): (v: int)
    ensures 0 <= v <= 9
  {
    match t
    case HighCard => 0
    case OnePair => 1
    case TwoPair => 2
    case ThreeOfAKind => 3
    case Straight => 4
    case Flush => 5
    case FullHouse => 6
    case FourOfAKind => 7
    case StraightFlush => 8
    case RoyalFlush => 9
  }

  lemma TypeValueInjective(a: PokerHandType, b: PokerHandType)
    ensures TypeValue(a) == TypeValue(b) <==> a == b
  {
  }

  /** PokerHandResult: a category, the cards that make it, and the score that
      breaks ties within the category. */
  datatype PokerHandResult = PokerHandResult(handType: PokerHandType, cards: seq<PlayingCard>, score: int)

  /** IsStraight: exactly five values, each one more than the one before. */
  function IsStraight(ranks: seq<int>): bool
  {
    |ranks| == 5 && forall i :: 1 <= i < |ranks| ==> ranks[i] == ranks[i - 1] + 1
  }

  function SuitsOf(cs: seq<PlayingCard>): set<CardSuit>
  {
    set c | c in cs :: c.suit
  }

  /** isFlush: the hand has exactly one distinct suit. */
  function IsFlush(cs: seq<PlayingCard>): bool
  {
    |SuitsOf(cs)| == 1
  }

  // ---------------------------------------------------------------------
  // The branches of EvaluateSingleHand after the category is known.

  function FourOfAKindResult(cards: seq<PlayingCard>, four: int): (r: PokerHandResult)
    requires |cards| == 5 && Count(cards, four) == 4
  {
    FilterPartition(cards, {four});
    var kickers := Take(SortDesc(WithoutRanks(cards, {four})), 1);
    var resultCards := WithRanks(cards, {four}) + kickers;
    PokerHandResult(FourOfAKind, resultCards, four * 10 + Rank(resultCards[4]))
  }

  function FullHouseResult(cards: seq<PlayingCard>, three: int, pair: int): (r: PokerHandResult)
    requires |cards| == 5 && Count(cards, three) == 3 && Count(cards, pair) == 2
  {
    TwoCounts(cards, three, pair);
    var resultCards := WithRanks(cards, {three, pair});
    PokerHandResult(FullHouse, resultCards, three * 1000 + pair * 10 + Rank(resultCards[4]))
  }

  function FlushResult(cards: seq<PlayingCard>): (r: PokerHandResult)
    requires |cards| == 5
  {
    var f := Take(SortDesc(cards), 5);
    PokerHandResult(Flush, f, Rank(f[0]) * 10000 + Rank(f[1]) * 1000 + Rank(f[2]) * 100 + Rank(f[3]) * 10 + Rank(f[4]))
  }

  function StraightResult(cards: seq<PlayingCard>, ranks: seq<int>): (r: PokerHandResult)
    requires |cards| == 5 && |ranks| == 5
  {
    PokerHandResult(Straight, Take(SortAsc(cards), 5), ranks[4])
  }

  function ThreeOfAKindResult(cards: seq<PlayingCard>, three: int): (r: PokerHandResult)
    requires |cards| == 5 && Count(cards, three) == 3
  {
    FilterPartition(cards, {three});
    var kickers := Take(SortDesc(WithoutRanks(cards, {three})), 2);
    var resultCards := WithRanks(cards, {three}) + kickers;
    PokerHandResult(ThreeOfAKind, resultCards, three * 10 + Rank(resultCards[3]))
  }

  function TwoPairResult(cards: seq<PlayingCard>, first: int, second: int): (r: PokerHandResult)
    requires |cards| == 5 && first != second && Count(cards, first) == 2 && Count(cards, second) == 2
  {
    TwoCounts(cards, first, second);
    FilterPartition(cards, {first, second});
    var kicker := SortDesc(WithoutRanks(cards, {first, second}))[0];
    var resultCards := WithRanks(cards, {first}) + WithRanks(cards, {second}) + [kicker];
    PokerHandResult(TwoPair, resultCards, first * 100 + second * 10 + Rank(kicker))
  }

  function OnePairResult(cards: seq<PlayingCard>, pair: int): (r: PokerHandResult)
    requires |cards| == 5
  {
    var kickers := Take(SortDesc(WithoutRanks(cards, {pair})), 3);
    PokerHandResult(OnePair, WithRanks(cards, {pair}) + kickers, pair)
  }

  function HighCardResult(cards: seq<PlayingCard>): (r: PokerHandResult)
    requires |cards| == 5
  {
    var h := Take(SortDesc(cards), 5);
    PokerHandResult(HighCard, h, Rank(h[0]))
  }

  /** Ranks and groups of a five-card hand that EvaluateSingleHand may index. */
  lemma GroupsNonEmpty(cards: seq<PlayingCard>)
    requires |cards| == 5
    ensures |GroupOrder(cards)| >= 1
  {
    GroupOrderProperties(cards);
    assert Rank(cards[0]) in RanksOf(cards);
  }

  lemma GroupsDistinct(cards: seq<PlayingCard>)
    requires |GroupOrder(cards)| >= 2
    ensures GroupOrder(cards)[0] != GroupOrder(cards)[1]
  {
    GroupOrderProperties(cards);
  }

  /** EvaluateSingleHand: the first matching category, checked from the
      strongest down, with the cards and the score that branch builds. */
  function EvaluateSingleHand(cards: seq<PlayingCard>): PokerHandResult
    requires |cards| == 5
  {
    var ranks := RanksAsc(cards);
    var groups := GroupOrder(cards);
    var flush := IsFlush(cards);
    var straight := IsStraight(ranks);
    GroupsNonEmpty(cards);
    // ranks is ascending, so ranks[4] is its maximum and ranks[0] its minimum
    if flush && straight then
      if ranks[4] == 14 && ranks[0] == 10 then PokerHandResult(RoyalFlush, cards, 14)
      else PokerHandResult(StraightFlush, cards, ranks[4])
    else if Count(cards, groups[0]) == 4 then FourOfAKindResult(cards, groups[0])
    else if Count(cards, groups[0]) == 3 && |groups| >= 2 && Count(cards, groups[1]) == 2 then
      FullHouseResult(cards, groups[0], groups[1])
    else if flush then FlushResult(cards)
    else if straight then StraightResult(cards, ranks)
    else if Count(cards, groups[0]) == 3 then ThreeOfAKindResult(cards, groups[0])
    else if Count(cards, groups[0]) == 2 && |groups| >= 2 && Count(cards, groups[1]) == 2 then
      GroupsDistinct(cards);
      TwoPairResult(cards, groups[0], groups[1])
    else if Count(cards, groups[0]) == 2 then OnePairResult(cards, groups[0])
    else HighCardResult(cards)
  }

  // ---------------------------------------------------------------------
  // Reference definitions of the categories, by counting ranks and suits.

  /** The five consecutive values lo, lo + 1, ..., lo + 4. */
  function RangeSet(lo: int): set<int>
  {
    {lo, lo + 1, lo + 2, lo + 3, lo + 4}
  }

  lemma InRangeSet(lo: int, x: int)
    ensures x in RangeSet(lo) <==> lo <= x < lo + 5
  {
  }

  /** Five distinct consecutive rank values. */
  ghost predicate Consecutive(cs: seq<PlayingCard>)
  {
    exists lo :: RanksOf(cs) == RangeSet(lo)
  }

  /** Every card has the suit of the first. */
  ghost predicate SameSuit(cs: seq<PlayingCard>)
  {
    |cs| > 0 && forall i :: 0 <= i < |cs| ==> cs[i].suit == cs[0].suit
  }

  /** Some rank occurs exactly n times. */
  ghost predicate HasCount(cs: seq<PlayingCard>, n: nat)
  {
    exists r :: Count(cs, r) == n
  }

  ghost predicate HasTwoPairs(cs: seq<PlayingCard>)
  {
    exists a, b :: a != b && Count(cs, a) == 2 && Count(cs, b) == 2
  }

  /** The category of a hand: straight and flush first, then by rank counts. */
  ghost function Category(cs: seq<PlayingCard>): PokerHandType
  {
    if SameSuit(cs) && Consecutive(cs) then
      if RanksOf(cs) == RangeSet(10) then RoyalFlush else StraightFlush
    else if HasCount(cs, 4) then FourOfAKind
    else if HasCount(cs, 3) && HasCount(cs, 2) then FullHouse
    else if SameSuit(cs) then Flush
    else if Consecutive(cs) then Straight
    else if HasCount(cs, 3) then ThreeOfAKind
    else if HasTwoPairs(cs) then TwoPair
    else if HasCount(cs, 2) then OnePair
    else HighCard
  }

  // ---------------------------------------------------------------------
  // Straights.

  lemma FirstInRange(s: seq<int>, lo: int, n: nat)
    requires forall x :: x in s <==> lo <= x < lo + n
    ensures |s| > 0 ==> lo <= s[0] < lo + n
  {
    if |s| > 0 {
      assert s[0] in s;
    }
  }

  /** A strictly increasing list holding exactly lo, ..., lo + n - 1 is that list. */
  lemma {:induction false} IncreasingRange(s: seq<int>, lo: int, n: nat)
    requires StrictlyIncreasing(s)
    requires forall x :: x in s <==> lo <= x < lo + n
    ensures |s| == n && forall i :: 0 <= i < |s| ==> s[i] == lo + i
  {
    FirstInRange(s, lo, n);
    if n > 0 {
      assert lo in s;
      var k :| 0 <= k < |s| && s[k] == lo;
      assert s[0] in s;
      assert s[0] == lo;
      var t := s[1..];
      forall x
        ensures x in t <==> lo + 1 <= x < lo + 1 + (n - 1)
      {
        if x in t {
          var j :| 0 <= j < |t| && t[j] == x;
          assert s[j + 1] == x && s[0] < s[j + 1];
          assert s[j + 1] in s;
        }
        if lo + 1 <= x < lo + n {
          assert x in s;
          var j :| 0 <= j < |s| && s[j] == x;
          assert j != 0;
          assert t[j - 1] == x;
          assert t[j - 1] in t;
        }
      }
      IncreasingRange(t, lo + 1, n - 1);
    }
  }

  lemma {:induction false} StepsToRange(s: seq<int>)
    requires IsStraight(s)
    ensures forall i :: 0 <= i < |s| ==> s[i] == s[0] + i
  {
    assert s[1] == s[0] + 1;
    assert s[2] == s[1] + 1;
    assert s[3] == s[2] + 1;
    assert s[4] == s[3] + 1;
  }

  lemma StraightToConsecutive(cs: seq<PlayingCard>)
    requires IsStraight(RanksAsc(cs))
    ensures RanksOf(cs) == RangeSet(RanksAsc(cs)[0])
  {
    var ranks := RanksAsc(cs);
    RanksAscProperties(cs);
    StepsToRange(ranks);
    var lo := ranks[0];
    forall x
      ensures x in RanksOf(cs) <==> x in RangeSet(lo)
    {
      if x in RanksOf(cs) {
        assert x in ranks;
      }
      if x in RangeSet(lo) {
        assert ranks[x - lo] == x;
        assert ranks[x - lo] in ranks;
      }
    }
  }

  lemma ConsecutiveToStraight(cs: seq<PlayingCard>, lo: int)
    requires RanksOf(cs) == RangeSet(lo)
    ensures IsStraight(RanksAsc(cs))
  {
    var ranks := RanksAsc(cs);
    RanksAscProperties(cs);
    forall x
      ensures x in ranks <==> lo <= x < lo + 5
    {
      InRangeSet(lo, x);
    }
    IncreasingRange(ranks, lo, 5);
  }

  /** IsStraight on the distinct ascending ranks holds exactly when the hand's
      ranks are five consecutive values. */
  lemma StraightIff(cs: seq<PlayingCard>)
    ensures IsStraight(RanksAsc(cs)) <==> Consecutive(cs)
  {
    if IsStraight(RanksAsc(cs)) {
      StraightToConsecutive(cs);
    }
    if Consecutive(cs) {
      var lo :| RanksOf(cs) == RangeSet(lo);
      ConsecutiveToStraight(cs, lo);
    }
  }

  /** Given a straight, the royal test on the ascending ranks picks out 10..14. */
  lemma RoyalIff(cs: seq<PlayingCard>)
    requires IsStraight(RanksAsc(cs))
    ensures (RanksAsc(cs)[4] == 14 && RanksAsc(cs)[0] == 10) <==> RanksOf(cs) == RangeSet(10)
  {
    var ranks := RanksAsc(cs);
    RanksAscProperties(cs);
    StepsToRange(ranks);
    if RanksOf(cs) == RangeSet(10) {
      assert 10 in RanksOf(cs);
      assert ranks[0] == 10 by {
        assert 10 in ranks;
        var k :| 0 <= k < 5 && ranks[k] == 10;
        assert ranks[k] == ranks[0] + k;
        assert ranks[0] in RanksOf(cs);
      }
    }
    if ranks[4] == 14 && ranks[0] == 10 {
      forall x
        ensures x in RanksOf(cs) <==> x in RangeSet(10)
      {
        if x in RanksOf(cs) {
          assert x in ranks;
        }
        if x in RangeSet(10) {
          assert ranks[x - 10] == x;
        }
      }
    }
  }

  lemma FlushIff(cs: seq<PlayingCard>)
    ensures IsFlush(cs) <==> SameSuit(cs)
  {
    if SameSuit(cs) {
      assert SuitsOf(cs) == {cs[0].suit};
    }
    if IsFlush(cs) {
      assert cs[0].suit in SuitsOf(cs);
      forall i | 0 <= i < |cs|
        ensures cs[i].suit == cs[0].suit
      {
        assert cs[i].suit in SuitsOf(cs);
        var s := cs[0].suit;
        assert |SuitsOf(cs) - {s}| == 0;
      }
    }
  }

  // ---------------------------------------------------------------------
  // Rank groups of a five-card hand.

  function Indicator(c: PlayingCard, r: int): nat
  {
    if Rank(c) == r then 1 else 0
  }

  lemma CountStep(cs: seq<PlayingCard>, r: int)
    requires |cs| > 0
    ensures Count(cs, r) == Indicator(cs[0], r) + Count(cs[1..], r)
  {
  }

  /** A five-card Count is the number of positions holding rank r. */
  lemma CountFive(cs: seq<PlayingCard>, r: int)
    requires |cs| == 5
    ensures Count(cs, r) == Indicator(cs[0], r) + Indicator(cs[1], r) + Indicator(cs[2], r)
                          + Indicator(cs[3], r) + Indicator(cs[4], r)
  {
    var t1 := cs[1..];
    var t2 := t1[1..];
    var t3 := t2[1..];
    var t4 := t3[1..];
    CountStep(cs, r);
    CountStep(t1, r);
    CountStep(t2, r);
    CountStep(t3, r);
    CountStep(t4, r);
    assert t4[1..] == [];
  }

  lemma RanksFive(cs: seq<PlayingCard>)
    requires |cs| == 5
    ensures RanksOf(cs) == {Rank(cs[0]), Rank(cs[1]), Rank(cs[2]), Rank(cs[3]), Rank(cs[4])}
  {
    var d := {Rank(cs[0]), Rank(cs[1]), Rank(cs[2]), Rank(cs[3]), Rank(cs[4])};
    forall x
      ensures x in RanksOf(cs) <==> x in d
    {
      if x in RanksOf(cs) {
        var c :| c in cs && Rank(c) == x;
      }
    }
  }

  /** What the group order says about the largest groups. */
  lemma GroupShape(cs: seq<PlayingCard>)
    requires |cs| == 5
    ensures |GroupOrder(cs)| >= 1
    ensures forall r :: Count(cs, r) <= Count(cs, GroupOrder(cs)[0])
    ensures |GroupOrder(cs)| >= 2 ==>
      GroupOrder(cs)[1] != GroupOrder(cs)[0] &&
      forall r :: r != GroupOrder(cs)[0] ==> Count(cs, r) <= Count(cs, GroupOrder(cs)[1])
    ensures |GroupOrder(cs)| == 1 ==> forall r :: r != GroupOrder(cs)[0] ==> Count(cs, r) == 0
  {
    var g := GroupOrder(cs);
    GroupOrderProperties(cs);
    GroupsNonEmpty(cs);
    forall r
      ensures Count(cs, r) <= Count(cs, g[0])
    {
      CountPositive(cs, r);
      if Count(cs, r) > 0 {
        assert r in g;
        var k :| 0 <= k < |g| && g[k] == r;
        if k > 0 {
          assert Count(cs, g[0]) > Count(cs, g[k]) || Count(cs, g[0]) == Count(cs, g[k]);
        }
      }
    }
    if |g| >= 2 {
      forall r | r != g[0]
        ensures Count(cs, r) <= Count(cs, g[1])
      {
        CountPositive(cs, r);
        if Count(cs, r) > 0 {
          assert r in g;
          var k :| 0 <= k < |g| && g[k] == r;
          if k > 1 {
            assert Count(cs, g[1]) > Count(cs, g[k]) || Count(cs, g[1]) == Count(cs, g[k]);
          }
        }
      }
    }
    if |g| == 1 {
      forall r | r != g[0]
        ensures Count(cs, r) == 0
      {
        CountPositive(cs, r);
      }
    }
  }

  /** A rank other than the first group's makes a second group. */
  lemma SecondGroupExists(cs: seq<PlayingCard>, r: int)
    requires |cs| == 5 && r != GroupOrder(cs)[0] && Count(cs, r) > 0
    ensures |GroupOrder(cs)| >= 2
  {
    GroupShape(cs);
  }

  lemma FourIff(cs: seq<PlayingCard>)
    requires |cs| == 5
    ensures HasCount(cs, 4) <==> Count(cs, GroupOrder(cs)[0]) == 4
  {
    GroupShape(cs);
    var g0 := GroupOrder(cs)[0];
    if HasCount(cs, 4) {
      var q :| Count(cs, q) == 4;
      if q != g0 {
        TwoCounts(cs, q, g0);
      }
    }
  }

  lemma FullHouseIff(cs: seq<PlayingCard>)
    requires |cs| == 5
    ensures HasCount(cs, 3) && HasCount(cs, 2) <==>
      Count(cs, GroupOrder(cs)[0]) == 3 && |GroupOrder(cs)| >= 2 && Count(cs, GroupOrder(cs)[1]) == 2
  {
    GroupShape(cs);
    var g := GroupOrder(cs);
    if HasCount(cs, 3) && HasCount(cs, 2) {
      var t :| Count(cs, t) == 3;
      var p :| Count(cs, p) == 2;
      if t != g[0] {
        TwoCounts(cs, t, g[0]);
      }
      SecondGroupExists(cs, p);
      TwoCounts(cs, g[0], g[1]);
    }
  }

  lemma ThreeIff(cs: seq<PlayingCard>)
    requires |cs| == 5
    ensures HasCount(cs, 3) <==> Count(cs, GroupOrder(cs)[0]) == 3
  {
    GroupShape(cs);
    var g0 := GroupOrder(cs)[0];
    if HasCount(cs, 3) {
      var t :| Count(cs, t) == 3;
      if t != g0 {
        TwoCounts(cs, t, g0);
      }
    }
  }

  lemma TwoPairIff(cs: seq<PlayingCard>)
    requires |cs| == 5
    ensures HasTwoPairs(cs) <==>
      Count(cs, GroupOrder(cs)[0]) == 2 && |GroupOrder(cs)| >= 2 && Count(cs, GroupOrder(cs)[1]) == 2
  {
    GroupShape(cs);
    var g := GroupOrder(cs);
    if HasTwoPairs(cs) {
      var a, b :| a != b && Count(cs, a) == 2 && Count(cs, b) == 2;
      var other := if a != g[0] then a else b;
      assert other != g[0] && Count(cs, other) == 2;
      SecondGroupExists(cs, other);
      TwoCounts(cs, g[0], other);
      if g[0] != a && g[0] != b {
        ThreeCounts(cs, a, b, g[0]);
      }
    }
    if Count(cs, g[0]) == 2 && |g| >= 2 && Count(cs, g[1]) == 2 {
      assert g[0] != g[1];
    }
  }

  lemma OnePairIff(cs: seq<PlayingCard>)
    requires |cs| == 5
    requires Count(cs, GroupOrder(cs)[0]) != 3 && Count(cs, GroupOrder(cs)[0]) != 4
    ensures HasCount(cs, 2) <==> Count(cs, GroupOrder(cs)[0]) == 2
  {
    GroupShape(cs);
    var g0 := GroupOrder(cs)[0];
    if HasCount(cs, 2) {
      var p :| Count(cs, p) == 2;
      if p != g0 {
        TwoCounts(cs, p, g0);
      }
    }
  }

  /** EvaluateSingleHand classifies every five-card hand as Category does. */
  lemma EvaluateCategory(cards: seq<PlayingCard>)
    requires |cards| == 5
    ensures EvaluateSingleHand(cards).handType == Category(cards)
  {
    StraightIff(cards);
    FlushIff(cards);
    FourIff(cards);
    FullHouseIff(cards);
    ThreeIff(cards);
    TwoPairIff(cards);
    GroupShape(cards);
    if IsFlush(cards) && IsStraight(RanksAsc(cards)) {
      RoyalIff(cards);
    }
    var c0 := Count(cards, GroupOrder(cards)[0]);
    if c0 != 3 && c0 != 4 {
      OnePairIff(cards);
    }
  }

  // ---------------------------------------------------------------------
  // The evaluated hand is a reordering of the five cards.

  /** A one-card list holding c is [c]. */
  lemma OnlyMember(w: seq<PlayingCard>, c: PlayingCard)
    requires |w| == 1 && c in w
    ensures w == [c]
  {
  }

  lemma SortSingleton(w: seq<PlayingCard>)
    requires |w| == 1
    ensures SortDesc(w) == w
  {
    SortDescProperties(w);
    assert SortDesc(w)[0] in multiset(SortDesc(w));
    assert SortDesc(w) == [SortDesc(w)[0]];
  }

  /** The first card of the descending sort has the highest rank. */
  lemma SortDescHead(w: seq<PlayingCard>)
    requires |w| > 0
    ensures SortDesc(w)[0] in w
    ensures forall c :: c in w ==> Rank(c) <= Rank(SortDesc(w)[0])
  {
    var d := SortDesc(w);
    SortDescProperties(w);
    assert d[0] in multiset(d);
    forall c | c in w
      ensures Rank(c) <= Rank(d[0])
    {
      assert c in multiset(d);
      var j :| 0 <= j < |d| && d[j] == c;
      if j > 0 {
        assert Rank(d[0]) >= Rank(d[j]);
      }
    }
  }

  lemma FourKeeps(cards: seq<PlayingCard>, four: int)
    requires |cards| == 5 && Count(cards, four) == 4
    ensures multiset(FourOfAKindResult(cards, four).cards) == multiset(cards)
  {
    FilterPartition(cards, {four});
    SortDescProperties(WithoutRanks(cards, {four}));
  }

  lemma FullHouseKeeps(cards: seq<PlayingCard>, three: int, pair: int)
    requires |cards| == 5 && Count(cards, three) == 3 && Count(cards, pair) == 2
    ensures multiset(FullHouseResult(cards, three, pair).cards) == multiset(cards)
  {
    TwoCounts(cards, three, pair);
    WithRanksAll(cards, {three, pair});
  }

  /** A full house given in descending order ends with a card of its lower
      rank, so it scores 1000 x triple + 10 x pair + the lower of the two. */
  lemma DescendingFullHouseScore(cards: seq<PlayingCard>, three: int, pair: int)
    requires |cards| == 5 && Descending(cards) && EvaluateSingleHand(cards).handType == FullHouse
    requires Count(cards, three) == 3 && Count(cards, pair) == 2
    ensures EvaluateSingleHand(cards).score == three * 1000 + pair * 10 + (if three < pair then three else pair)
  {
    FullHouseScore(cards, three, pair);
    var x := Rank(cards[4]);
    assert x in RanksOf(cards);
    CountPositive(cards, x);
    OneOfTwo(cards, x, three, pair);
    LowestIsLast(cards, three);
    LowestIsLast(cards, pair);
  }

  /** In a descending hand no present rank lies below the last card's. */
  lemma LowestIsLast(cards: seq<PlayingCard>, r: int)
    requires |cards| > 0 && Descending(cards) && Count(cards, r) > 0
    ensures Rank(cards[|cards| - 1]) <= r
  {
    CountPositive(cards, r);
    var c :| c in cards && Rank(c) == r;
    var j :| 0 <= j < |cards| && cards[j] == c;
    assert j == |cards| - 1 || Rank(cards[j]) >= Rank(cards[|cards| - 1]);
  }

  lemma ThreeKeeps(cards: seq<PlayingCard>, three: int)
    requires |cards| == 5 && Count(cards, three) == 3
    ensures multiset(ThreeOfAKindResult(cards, three).cards) == multiset(cards)
  {
    FilterPartition(cards, {three});
    SortDescProperties(WithoutRanks(cards, {three}));
  }

  lemma TwoPairKeeps(cards: seq<PlayingCard>, first: int, second: int)
    requires |cards| == 5 && first != second && Count(cards, first) == 2 && Count(cards, second) == 2
    ensures multiset(TwoPairResult(cards, first, second).cards) == multiset(cards)
  {
    TwoCounts(cards, first, second);
    FilterPartition(cards, {first, second});
    WithRanksUnion(cards, {first}, {second});
    assert {first} + {second} == {first, second};
    SortSingleton(WithoutRanks(cards, {first, second}));
  }

  lemma OnePairKeeps(cards: seq<PlayingCard>, pair: int)
    requires |cards| == 5 && Count(cards, pair) == 2
    ensures multiset(OnePairResult(cards, pair).cards) == multiset(cards)
  {
    FilterPartition(cards, {pair});
    SortDescProperties(WithoutRanks(cards, {pair}));
  }

  /** The cards of the result are the five input cards, reordered. */
  lemma EvaluateKeepsCards(cards: seq<PlayingCard>)
    requires |cards| == 5
    ensures multiset(EvaluateSingleHand(cards).cards) == multiset(cards)
    ensures |EvaluateSingleHand(cards).cards| == 5
  {
    var g := GroupOrder(cards);
    GroupsNonEmpty(cards);
    var c0 := Count(cards, g[0]);
    var flush, straight := IsFlush(cards), IsStraight(RanksAsc(cards));
    if flush && straight {
    } else if c0 == 4 {
      FourKeeps(cards, g[0]);
    } else if c0 == 3 && |g| >= 2 && Count(cards, g[1]) == 2 {
      FullHouseKeeps(cards, g[0], g[1]);
    } else if flush {
      SortDescProperties(cards);
    } else if straight {
      SortAscProperties(cards);
    } else if c0 == 3 {
      ThreeKeeps(cards, g[0]);
    } else if c0 == 2 && |g| >= 2 && Count(cards, g[1]) == 2 {
      GroupsDistinct(cards);
      TwoPairKeeps(cards, g[0], g[1]);
    } else if c0 == 2 {
      OnePairKeeps(cards, g[0]);
    } else {
      SortDescProperties(cards);
    }
    assert |multiset(EvaluateSingleHand(cards).cards)| == 5;
  }

  // ---------------------------------------------------------------------
  // Scores.

  /** Two ranks that together occur more often than there are cards are one rank. */
  lemma SameRank(cs: seq<PlayingCard>, a: int, b: int)
    requires Count(cs, a) + Count(cs, b) > |cs|
    ensures a == b
  {
    if a != b {
      TwoCounts(cs, a, b);
    }
  }

  /** Three ranks occurring more often than there are cards include a repeat. */
  lemma OneOfTwo(cs: seq<PlayingCard>, x: int, a: int, b: int)
    requires a != b && Count(cs, a) + Count(cs, b) + Count(cs, x) > |cs|
    ensures x == a || x == b
  {
    if x != a && x != b {
      ThreeCounts(cs, a, b, x);
    }
  }

  /** v is the highest rank in cs. */
  ghost predicate IsMaxRank(cs: seq<PlayingCard>, v: int)
  {
    (forall c :: c in cs ==> Rank(c) <= v) && exists c :: c in cs && Rank(c) == v
  }

  /** Straights and straight flushes score their highest rank (14 for a royal flush). */
  lemma StraightScore(cards: seq<PlayingCard>)
    requires |cards| == 5
    requires EvaluateSingleHand(cards).handType in {Straight, StraightFlush, RoyalFlush}
    ensures IsMaxRank(cards, EvaluateSingleHand(cards).score)
  {
    var ranks := RanksAsc(cards);
    RanksAscProperties(cards);
    var v := EvaluateSingleHand(cards).score;
    assert IsStraight(ranks);
    assert v == ranks[4];
    forall c | c in cards
      ensures Rank(c) <= v
    {
      assert Rank(c) in RanksOf(cards);
      var k :| 0 <= k < 5 && ranks[k] == Rank(c);
      if k < 4 {
        assert ranks[k] < ranks[4];
      }
    }
    assert ranks[4] in ranks;
  }

  /** Four of a kind scores ten times the quad rank plus the fifth card's rank. */
  lemma FourOfAKindScore(cards: seq<PlayingCard>, four: int, c: PlayingCard)
    requires |cards| == 5 && EvaluateSingleHand(cards).handType == FourOfAKind
    requires Count(cards, four) == 4 && c in cards && Rank(c) != four
    ensures EvaluateSingleHand(cards).score == four * 10 + Rank(c)
  {
    var g := GroupOrder(cards);
    GroupsNonEmpty(cards);
    SameRank(cards, g[0], four);
    FilterPartition(cards, {four});
    var w := WithoutRanks(cards, {four});
    FilterMember(cards, {four}, c);
    assert w == [c];
    SortSingleton(w);
  }

  /** A full house scores 1000 x the triple rank + 10 x the pair rank + the
      rank of the hand's last card. */
  lemma FullHouseScore(cards: seq<PlayingCard>, three: int, pair: int)
    requires |cards| == 5 && EvaluateSingleHand(cards).handType == FullHouse
    requires Count(cards, three) == 3 && Count(cards, pair) == 2
    ensures EvaluateSingleHand(cards).score == three * 1000 + pair * 10 + Rank(cards[4])
  {
    var g := GroupOrder(cards);
    GroupsNonEmpty(cards);
    GroupsDistinct(cards);
    SameRank(cards, g[0], three);
    OneOfTwo(cards, pair, g[0], g[1]);
    TwoCounts(cards, three, pair);
    WithRanksAll(cards, {three, pair});
  }

  /** FlushResult's weights on the descending rank list. */
  function FiveWeight(v: seq<int>): int
    requires |v| == 5
  {
    v[0] * 10000 + v[1] * 1000 + v[2] * 100 + v[3] * 10 + v[4]
  }

  function DescRanks(cards: seq<PlayingCard>): (v: seq<int>)
    ensures |v| == |cards|
  {
    RankList(SortDesc(cards))
  }

  /** A flush scores the weighted descending ranks. */
  lemma FlushScore(cards: seq<PlayingCard>)
    requires |cards| == 5 && EvaluateSingleHand(cards).handType == Flush
    ensures EvaluateSingleHand(cards).score == FiveWeight(DescRanks(cards))
    ensures forall i, j :: 0 <= i < j < 5 ==> DescRanks(cards)[i] >= DescRanks(cards)[j]
  {
    SortDescProperties(cards);
  }

  ghost predicate StrictlyDecreasing(v: seq<int>)
  {
    forall i, j :: 0 <= i < j < |v| ==> v[i] > v[j]
  }

  /** On five distinct rank values, the flush weights order rank lists
      lexicographically: the first position where they differ decides. */
  lemma FiveWeightLexicographic(v: seq<int>, w: seq<int>, k: nat)
    requires |v| == 5 && |w| == 5 && StrictlyDecreasing(v) && StrictlyDecreasing(w)
    requires forall i :: 0 <= i < 5 ==> 3 <= v[i] <= 16 && 3 <= w[i] <= 16
    requires k < 5 && v[..k] == w[..k] && v[k] > w[k]
    ensures FiveWeight(v) > FiveWeight(w)
  {
    assert forall i :: 0 <= i < k ==> v[i] == w[i] by {
      forall i | 0 <= i < k
        ensures v[i] == w[i]
      {
        assert v[..k][i] == v[i] && w[..k][i] == w[i];
      }
    }
    // the positions after k lose at most what position k gains
    assert v[4] >= 3 && v[3] >= 4 && v[2] >= 5 && v[1] >= 6;
  }

  lemma ThreeOfAKindBranch(cards: seq<PlayingCard>)
    requires |cards| == 5 && EvaluateSingleHand(cards).handType == ThreeOfAKind
    ensures |GroupOrder(cards)| >= 1 && Count(cards, GroupOrder(cards)[0]) == 3
    ensures EvaluateSingleHand(cards) == ThreeOfAKindResult(cards, GroupOrder(cards)[0])
  {
    GroupsNonEmpty(cards);
  }

  lemma ThreeOfAKindResultScore(cards: seq<PlayingCard>, three: int)
    requires |cards| == 5 && Count(cards, three) == 3
    ensures IsMaxRank(WithoutRanks(cards, {three}), ThreeOfAKindResult(cards, three).score - three * 10)
  {
    FilterPartition(cards, {three});
    var w := WithoutRanks(cards, {three});
    SortDescHead(w);
    var r := ThreeOfAKindResult(cards, three);
    assert r.cards[3] == SortDesc(w)[0];
  }

  /** Three of a kind scores ten times the triple rank plus the highest other rank. */
  lemma ThreeOfAKindScore(cards: seq<PlayingCard>, three: int)
    requires |cards| == 5 && EvaluateSingleHand(cards).handType == ThreeOfAKind
    requires Count(cards, three) == 3
    ensures IsMaxRank(WithoutRanks(cards, {three}), EvaluateSingleHand(cards).score - three * 10)
  {
    ThreeOfAKindBranch(cards);
    SameRank(cards, GroupOrder(cards)[0], three);
    ThreeOfAKindResultScore(cards, three);
  }

  lemma TwoPairBranch(cards: seq<PlayingCard>)
    requires |cards| == 5 && EvaluateSingleHand(cards).handType == TwoPair
    ensures |GroupOrder(cards)| >= 2
    ensures Count(cards, GroupOrder(cards)[0]) == 2 && Count(cards, GroupOrder(cards)[1]) == 2
    ensures GroupOrder(cards)[0] != GroupOrder(cards)[1]
    ensures EvaluateSingleHand(cards) == TwoPairResult(cards, GroupOrder(cards)[0], GroupOrder(cards)[1])
  {
    GroupsNonEmpty(cards);
    GroupsDistinct(cards);
  }

  lemma TwoPairResultScore(cards: seq<PlayingCard>, high: int, low: int, c: PlayingCard)
    requires |cards| == 5 && high != low && Count(cards, high) == 2 && Count(cards, low) == 2
    requires c in cards && Rank(c) != high && Rank(c) != low
    ensures TwoPairResult(cards, high, low).score == high * 100 + low * 10 + Rank(c)
  {
    TwoCounts(cards, high, low);
    FilterPartition(cards, {high, low});
    LoneKicker(cards, {high, low}, c);
  }

  /** When the filter leaves one card and c is dropped by none of `rs`, the
      sorted rest starts with c. */
  lemma LoneKicker(cards: seq<PlayingCard>, rs: set<int>, c: PlayingCard)
    requires |WithoutRanks(cards, rs)| == 1 && c in cards && Rank(c) !in rs
    ensures SortDesc(WithoutRanks(cards, rs))[0] == c
  {
    var w := WithoutRanks(cards, rs);
    FilterMember(cards, rs, c);
    OnlyMember(w, c);
    SortSingleton(w);
  }

  /** Two pair scores 100 x the higher pair + 10 x the lower pair + the fifth card's rank. */
  lemma TwoPairScore(cards: seq<PlayingCard>, high: int, low: int, c: PlayingCard)
    requires |cards| == 5 && EvaluateSingleHand(cards).handType == TwoPair
    requires high > low && Count(cards, high) == 2 && Count(cards, low) == 2
    requires c in cards && Rank(c) != high && Rank(c) != low
    ensures EvaluateSingleHand(cards).score == high * 100 + low * 10 + Rank(c)
  {
    TwoPairBranch(cards);
    var g := GroupOrder(cards);
    GroupOrderProperties(cards);
    assert g[0] > g[1];
    OneOfTwo(cards, g[0], high, low);
    OneOfTwo(cards, g[1], high, low);
    TwoPairResultScore(cards, high, low, c);
  }

  /** One pair scores the pair rank alone. */
  lemma OnePairScore(cards: seq<PlayingCard>, pair: int)
    requires |cards| == 5 && EvaluateSingleHand(cards).handType == OnePair
    requires Count(cards, pair) == 2
    ensures EvaluateSingleHand(cards).score == pair
  {
    var g := GroupOrder(cards);
    GroupsNonEmpty(cards);
    if pair != g[0] {
      SecondGroupExists(cards, pair);
      GroupShape(cards);
    }
  }

  /** A high-card hand scores its highest rank. */
  lemma HighCardScore(cards: seq<PlayingCard>)
    requires |cards| == 5 && EvaluateSingleHand(cards).handType == HighCard
    ensures IsMaxRank(cards, EvaluateSingleHand(cards).score)
  {
    SortDescHead(cards);
  }
}
