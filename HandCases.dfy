/** Hands of given ranks: what EvaluateSingleHand does with the order of the
    rank integers (Ace is 14, Two is 15) and with its decimal score weights.
    Each lemma holds for every five cards with the listed ranks whose suits
    are not all equal. */
module HandCases {
  import opened Cards
  import opened HandRank
  import opened HandEval

  /** The cards carry exactly the ranks rs, position by position. */
  ghost predicate HasRanks(h: seq<PlayingCard>, rs: seq<CardRank>)
  {
    |h| == |rs| && forall i :: 0 <= i < |h| ==> h[i].rank == rs[i]
  }

  // ---------------------------------------------------------------------
  // Facts that decide Category.

  lemma MixedSuits(h: seq<PlayingCard>, i: nat)
    requires i < |h| && h[i].suit != h[0].suit
    ensures !SameSuit(h)
  {
  }

  /** Two ranks five or more apart cannot both lie in lo..lo+4. */
  lemma WideNotConsecutive(h: seq<PlayingCard>, i: nat, j: nat)
    requires i < |h| && j < |h| && Rank(h[j]) - Rank(h[i]) >= 5
    ensures !Consecutive(h)
  {
    forall lo
      ensures RanksOf(h) != RangeSet(lo)
    {
      InRangeSet(lo, Rank(h[i]));
      InRangeSet(lo, Rank(h[j]));
      assert Rank(h[i]) in RanksOf(h) && Rank(h[j]) in RanksOf(h);
    }
  }

  /** Ranks that all lie within m..m+3 cannot cover five consecutive values. */
  lemma NarrowNotConsecutive(h: seq<PlayingCard>, m: int)
    requires forall i :: 0 <= i < |h| ==> m <= Rank(h[i]) <= m + 3
    ensures !Consecutive(h)
  {
    forall lo
      ensures RanksOf(h) != RangeSet(lo)
    {
      InRangeSet(lo, lo);
      InRangeSet(lo, lo + 4);
      if lo in RanksOf(h) {
        var c :| c in h && Rank(c) == lo;
      }
      if lo + 4 in RanksOf(h) {
        var c :| c in h && Rank(c) == lo + 4;
      }
    }
  }

  lemma CategoryNoRepeats(h: seq<PlayingCard>)
    requires !SameSuit(h) && forall r :: Count(h, r) <= 1
    ensures Category(h) == if Consecutive(h) then Straight else HighCard
  {
  }

  lemma CategoryThree(h: seq<PlayingCard>, three: int)
    requires !SameSuit(h) && !Consecutive(h) && Count(h, three) == 3
    requires forall r :: r != three ==> Count(h, r) <= 1
    ensures Category(h) == ThreeOfAKind
  {
  }

  lemma CategoryFour(h: seq<PlayingCard>, four: int)
    requires !SameSuit(h) && Count(h, four) == 4
    ensures Category(h) == FourOfAKind
  {
  }

  lemma CategoryTwoPair(h: seq<PlayingCard>, high: int, low: int)
    requires !SameSuit(h) && !Consecutive(h) && high != low
    requires Count(h, high) == 2 && Count(h, low) == 2 && forall r :: Count(h, r) <= 2
    ensures Category(h) == TwoPair
  {
  }

  lemma CategoryFullHouse(h: seq<PlayingCard>, three: int, pair: int)
    requires !SameSuit(h) && Count(h, three) == 3 && Count(h, pair) == 2
    requires forall r :: Count(h, r) <= 3
    ensures Category(h) == FullHouse
  {
  }

  /** The highest rank of five cards is that of a card no other card exceeds. */
  lemma MaxRankIs(h: seq<PlayingCard>, v: int, i: nat)
    requires |h| == 5 && i < 5 && IsMaxRank(h, v)
    requires Rank(h[0]) <= Rank(h[i]) && Rank(h[1]) <= Rank(h[i]) && Rank(h[2]) <= Rank(h[i])
    requires Rank(h[3]) <= Rank(h[i]) && Rank(h[4]) <= Rank(h[i])
    ensures v == Rank(h[i])
  {
    assert h[i] in h;
    var c :| c in h && Rank(c) == v;
    InFive(h, c);
  }

  lemma InFive(h: seq<PlayingCard>, c: PlayingCard)
    requires |h| == 5 && c in h
    ensures c == h[0] || c == h[1] || c == h[2] || c == h[3] || c == h[4]
  {
    var k :| 0 <= k < 5 && h[k] == c;
  }

  // ---------------------------------------------------------------------
  // Straights.

  /** The rank values of a five-card hand with the given ranks. */
  lemma FiveRanks(h: seq<PlayingCard>, rs: seq<CardRank>)
    requires |rs| == 5 && HasRanks(h, rs)
    ensures |h| == 5 && Rank(h[0]) == RankValue(rs[0]) && Rank(h[1]) == RankValue(rs[1])
    ensures Rank(h[2]) == RankValue(rs[2]) && Rank(h[3]) == RankValue(rs[3]) && Rank(h[4]) == RankValue(rs[4])
  {
    assert h[0].rank == rs[0] && h[1].rank == rs[1] && h[2].rank == rs[2];
    assert h[3].rank == rs[3] && h[4].rank == rs[4];
  }

  lemma WrapAroundRanks(h: seq<PlayingCard>)
    requires HasRanks(h, [Jack, Queen, King, Ace, Two])
    ensures |h| == 5 && Rank(h[0]) == 11 && Rank(h[1]) == 12 && Rank(h[2]) == 13
    ensures Rank(h[3]) == 14 && Rank(h[4]) == 15
  {
    assert h[0].rank == Jack && h[1].rank == Queen && h[2].rank == King;
    assert h[3].rank == Ace && h[4].rank == Two;
  }

  lemma WrapAroundFacts(h: seq<PlayingCard>)
    requires HasRanks(h, [Jack, Queen, King, Ace, Two]) && h[1].suit != h[0].suit
    ensures Consecutive(h) && !SameSuit(h) && forall r :: Count(h, r) <= 1
  {
    RanksFive(h);
    assert RanksOf(h) == RangeSet(11);
    forall r
      ensures Count(h, r) <= 1
    {
      CountFive(h, r);
    }
    MixedSuits(h, 1);
  }

  /** Because Ace is 14 and Two is 15, J-Q-K-A-2 is the five consecutive
      values 11..15: a straight, scored 15. */
  lemma WrapAroundIsStraight(h: seq<PlayingCard>)
    requires HasRanks(h, [Jack, Queen, King, Ace, Two]) && h[1].suit != h[0].suit
    ensures EvaluateSingleHand(h).handType == Straight
    ensures EvaluateSingleHand(h).score == 15
  {
    WrapAroundFacts(h);
    CategoryNoRepeats(h);
    EvaluateCategory(h);
    StraightScore(h);
    WrapAroundRanks(h);
    MaxRankIs(h, EvaluateSingleHand(h).score, 4);
  }

  /** A-2-3-4-5 has values 14, 15, 3, 4, 5, which are not consecutive: it is
      a high-card hand whose highest card is the Two. */
  lemma AceLowIsHighCard(h: seq<PlayingCard>)
    requires HasRanks(h, [Ace, Two, Three, Four, Five]) && h[1].suit != h[0].suit
    ensures EvaluateSingleHand(h).handType == HighCard
    ensures EvaluateSingleHand(h).score == 15
  {
    WideNotConsecutive(h, 2, 1);
    forall r
      ensures Count(h, r) <= 1
    {
      CountFive(h, r);
    }
    MixedSuits(h, 1);
    CategoryNoRepeats(h);
    EvaluateCategory(h);
    HighCardScore(h);
    MaxRankIs(h, EvaluateSingleHand(h).score, 1);
  }

  // ---------------------------------------------------------------------
  // Kickers against the decimal weights.

  /** The highest other rank of a three of a kind in h[0..3] is the higher of h[3], h[4]. */
  lemma TripsKicker(h: seq<PlayingCard>, three: int, v: int)
    requires |h| == 5 && Rank(h[0]) == three && Rank(h[1]) == three && Rank(h[2]) == three
    requires IsMaxRank(WithoutRanks(h, {three}), v)
    requires Rank(h[3]) != three && Rank(h[4]) != three
    ensures v == if Rank(h[3]) > Rank(h[4]) then Rank(h[3]) else Rank(h[4])
  {
    var w := WithoutRanks(h, {three});
    assert h[3] in h && h[4] in h;
    FilterMember(h, {three}, h[3]);
    FilterMember(h, {three}, h[4]);
    assert Rank(h[3]) <= v && Rank(h[4]) <= v;
    var c :| c in w && Rank(c) == v;
    assert c in h && Rank(c) != three;
    InFive(h, c);
    assert c == h[3] || c == h[4];
  }

  /** Three of a kind in h[0..3], scored 10 x its rank + its higher other card. */
  lemma TripsScore(h: seq<PlayingCard>, three: int)
    requires |h| == 5 && Rank(h[0]) == three && Rank(h[1]) == three && Rank(h[2]) == three
    requires Rank(h[3]) != three && Rank(h[4]) != three && Rank(h[3]) != Rank(h[4])
    requires h[1].suit != h[0].suit && !Consecutive(h)
    ensures EvaluateSingleHand(h).handType == ThreeOfAKind
    ensures EvaluateSingleHand(h).score == three * 10 + if Rank(h[3]) > Rank(h[4]) then Rank(h[3]) else Rank(h[4])
  {
    CountFive(h, three);
    forall r | r != three
      ensures Count(h, r) <= 1
    {
      CountFive(h, r);
    }
    MixedSuits(h, 1);
    CategoryThree(h, three);
    EvaluateCategory(h);
    ThreeOfAKindScore(h, three);
    TripsKicker(h, three, EvaluateSingleHand(h).score - three * 10);
  }

  /** The kicker is added to ten times the triple rank, and kicker values
      reach 16, so a lower triple with a Two kicker outscores a higher
      triple: 4-4-4-2-3 scores 55 and 5-5-5-4-3 scores 54. */
  lemma TripsKickerOutweighsTriple(a: seq<PlayingCard>, b: seq<PlayingCard>)
    requires HasRanks(a, [Four, Four, Four, Two, Three]) && a[1].suit != a[0].suit
    requires HasRanks(b, [Five, Five, Five, Four, Three]) && b[1].suit != b[0].suit
    ensures EvaluateSingleHand(a).handType == ThreeOfAKind == EvaluateSingleHand(b).handType
    ensures EvaluateSingleHand(a).score == 55 && EvaluateSingleHand(b).score == 54
  {
    WideNotConsecutive(a, 4, 3);
    NarrowNotConsecutive(b, 3);
    TripsScore(a, 4);
    TripsScore(b, 5);
  }

  /** Four of a kind in h[0..4], scored 10 x its rank + h[4]'s rank. */
  lemma QuadsScore(h: seq<PlayingCard>, four: int)
    requires |h| == 5 && Rank(h[0]) == four && Rank(h[1]) == four && Rank(h[2]) == four
    requires Rank(h[3]) == four && Rank(h[4]) != four && h[1].suit != h[0].suit
    ensures EvaluateSingleHand(h).handType == FourOfAKind
    ensures EvaluateSingleHand(h).score == four * 10 + Rank(h[4])
  {
    CountFive(h, four);
    MixedSuits(h, 1);
    CategoryFour(h, four);
    EvaluateCategory(h);
    FourOfAKindScore(h, four, h[4]);
  }

  /** The same weighting makes 4-4-4-4 with a Two (55) outscore 5-5-5-5 with
      a Three (53). */
  lemma QuadsKickerOutweighsQuad(a: seq<PlayingCard>, b: seq<PlayingCard>)
    requires HasRanks(a, [Four, Four, Four, Four, Two]) && a[1].suit != a[0].suit
    requires HasRanks(b, [Five, Five, Five, Five, Three]) && b[1].suit != b[0].suit
    ensures EvaluateSingleHand(a).handType == FourOfAKind == EvaluateSingleHand(b).handType
    ensures EvaluateSingleHand(a).score == 55 && EvaluateSingleHand(b).score == 53
  {
    FiveRanks(a, [Four, Four, Four, Four, Two]);
    QuadsScore(a, 4);
    FiveRanks(b, [Five, Five, Five, Five, Three]);
    QuadsScore(b, 5);
  }

  /** Two pair held as high, high, low, low, kicker. */
  lemma TwoPairHandScore(h: seq<PlayingCard>, high: int, low: int)
    requires |h| == 5 && high > low
    requires Rank(h[0]) == high && Rank(h[1]) == high && Rank(h[2]) == low && Rank(h[3]) == low
    requires Rank(h[4]) != high && Rank(h[4]) != low && h[1].suit != h[0].suit && !Consecutive(h)
    ensures EvaluateSingleHand(h).handType == TwoPair
    ensures EvaluateSingleHand(h).score == high * 100 + low * 10 + Rank(h[4])
  {
    forall r
      ensures Count(h, r) <= 2
    {
      CountFive(h, r);
    }
    CountFive(h, high);
    CountFive(h, low);
    MixedSuits(h, 1);
    CategoryTwoPair(h, high, low);
    EvaluateCategory(h);
    TwoPairScore(h, high, low, h[4]);
  }

  /** K-K-Q-Q-2 (1435) outscores A-A-3-3-4 (1434). */
  lemma TwoPairKickerOutweighsPair(a: seq<PlayingCard>, b: seq<PlayingCard>)
    requires HasRanks(a, [King, King, Queen, Queen, Two]) && a[1].suit != a[0].suit
    requires HasRanks(b, [Ace, Ace, Three, Three, Four]) && b[1].suit != b[0].suit
    ensures EvaluateSingleHand(a).handType == TwoPair == EvaluateSingleHand(b).handType
    ensures EvaluateSingleHand(a).score == 1435 && EvaluateSingleHand(b).score == 1434
  {
    NarrowNotConsecutive(a, 12);
    WideNotConsecutive(b, 2, 0);
    TwoPairHandScore(a, 13, 12);
    TwoPairHandScore(b, 14, 3);
  }

  // ---------------------------------------------------------------------
  // Full house and card order.

  lemma FullHouseHandScore(h: seq<PlayingCard>, three: int, pair: int, i: nat)
    requires |h| == 5 && i < 5 && h[i].suit != h[0].suit
    requires Count(h, three) == 3 && Count(h, pair) == 2
    ensures EvaluateSingleHand(h).handType == FullHouse
    ensures EvaluateSingleHand(h).score == three * 1000 + pair * 10 + Rank(h[4])
  {
    forall r | r != three
      ensures Count(h, r) <= 2
    {
      TwoCounts(h, three, r);
    }
    MixedSuits(h, i);
    CategoryFullHouse(h, three, pair);
    EvaluateCategory(h);
    FullHouseScore(h, three, pair);
  }

  lemma ThreesFirstScore(h: seq<PlayingCard>)
    requires HasRanks(h, [Three, Three, Three, King, King]) && h[3].suit != h[0].suit
    ensures EvaluateSingleHand(h).handType == FullHouse && EvaluateSingleHand(h).score == 3143
  {
    CountFive(h, 3);
    CountFive(h, 13);
    FullHouseHandScore(h, 3, 13, 3);
  }

  lemma KingsFirstScore(h: seq<PlayingCard>)
    requires HasRanks(h, [King, King, Three, Three, Three]) && h[2].suit != h[0].suit
    ensures EvaluateSingleHand(h).handType == FullHouse && EvaluateSingleHand(h).score == 3133
  {
    CountFive(h, 3);
    CountFive(h, 13);
    FullHouseHandScore(h, 3, 13, 2);
  }

  /** A full house adds the rank of the fifth card of the hand as given, so
      the same five cards score 3143 as 3-3-3-K-K and 3133 as K-K-3-3-3. */
  lemma FullHouseDependsOnOrder(a: seq<PlayingCard>)
    requires HasRanks(a, [Three, Three, Three, King, King]) && a[3].suit != a[0].suit
    ensures multiset(a[3..] + a[..3]) == multiset(a)
    ensures EvaluateSingleHand(a).handType == FullHouse == EvaluateSingleHand(a[3..] + a[..3]).handType
    ensures EvaluateSingleHand(a).score == 3143
    ensures EvaluateSingleHand(a[3..] + a[..3]).score == 3133
  {
    RotatedFullHouse(a);
    ThreesFirstScore(a);
    KingsFirstScore(a[3..] + a[..3]);
  }

  /** The same cards with the pair moved to the front. */
  lemma RotatedFullHouse(a: seq<PlayingCard>)
    requires HasRanks(a, [Three, Three, Three, King, King]) && a[3].suit != a[0].suit
    ensures var b := a[3..] + a[..3];
      multiset(b) == multiset(a) && HasRanks(b, [King, King, Three, Three, Three]) && b[2].suit != b[0].suit
  {
    var b := a[3..] + a[..3];
    assert a == a[..3] + a[3..];
    assert b[0] == a[3] && b[1] == a[4] && b[2] == a[0] && b[3] == a[1] && b[4] == a[2];
  }
}
