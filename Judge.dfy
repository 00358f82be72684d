/** Judge: the best five-card hand out of a player's cards, its category, and
    the comparison that decides a showdown. A card list the caller may pass
    as null is an Option: None is null. */
module Judge {
  import opened Optional
  import opened Cards
  import opened HandRank
  import opened HandEval
  import opened Subsets

  /** IsBetterHand: a higher category wins; within a category the higher or
      equal score wins, so an equal hand counts as better. */
  predicate IsBetterHand(a: PokerHandResult, b: PokerHandResult)
  {
    if TypeValue(a.handType) != TypeValue(b.handType) then TypeValue(a.handType) >= TypeValue(b.handType)
    else a.score >= b.score
  }

  /** IsBetterHand is a total preorder on (category, score). */
  lemma BetterTotal(a: PokerHandResult, b: PokerHandResult)
    ensures IsBetterHand(a, a)
    ensures IsBetterHand(a, b) || IsBetterHand(b, a)
    ensures IsBetterHand(a, b) && IsBetterHand(b, a) <==> a.handType == b.handType && a.score == b.score
  {
    TypeValueInjective(a.handType, b.handType);
  }

  lemma BetterTransitive(a: PokerHandResult, b: PokerHandResult, c: PokerHandResult)
    requires IsBetterHand(a, b) && IsBetterHand(b, c)
    ensures IsBetterHand(a, c)
  {
    TypeValueInjective(a.handType, b.handType);
    TypeValueInjective(b.handType, c.handType);
    TypeValueInjective(a.handType, c.handType);
  }

  /** One step of the fold: keep `r` when there is no best yet or `r` is at
      least as good. */
  function Keep(best: Option<PokerHandResult>, r: PokerHandResult): (b: Option<PokerHandResult>)
    ensures b.Some?
  {
    if best.None? || IsBetterHand(r, best.value) then Some(r) else best
  }

  /** The fold over the results, first to last. */
  function BestOf(rs: seq<PokerHandResult>): Option<PokerHandResult>
  {
    if rs == [] then None else Keep(BestOf(rs[..|rs| - 1]), rs[|rs| - 1])
  }

  /** The fold picks a result at least as good as every result, and no later
      result is as good: among equals the last one wins. */
  lemma {:induction false} BestOfIndex(rs: seq<PokerHandResult>) returns (j: nat)
    requires |rs| > 0
    ensures j < |rs| && BestOf(rs) == Some(rs[j])
    ensures forall k :: 0 <= k < |rs| ==> IsBetterHand(rs[j], rs[k])
    ensures forall k :: j < k < |rs| ==> !IsBetterHand(rs[k], rs[j])
  {
    var n := |rs|;
    var last := rs[n - 1];
    BetterTotal(last, last);
    if n == 1 {
      j := 0;
    } else {
      var init := rs[..n - 1];
      var i := BestOfIndex(init);
      assert BestOf(init) == Some(rs[i]);
      if IsBetterHand(last, rs[i]) {
        j := n - 1;
        forall k | 0 <= k < n
          ensures IsBetterHand(rs[j], rs[k])
        {
          if k < n - 1 {
            assert init[k] == rs[k];
            BetterTransitive(last, rs[i], rs[k]);
          }
        }
      } else {
        j := i;
        BetterTotal(last, rs[i]);
        forall k | 0 <= k < n
          ensures IsBetterHand(rs[j], rs[k])
        {
          if k < n - 1 {
            assert init[k] == rs[k];
          }
        }
        forall k | j < k < n
          ensures !IsBetterHand(rs[k], rs[j])
        {
          if k < n - 1 {
            assert init[k] == rs[k];
          }
        }
      }
    }
  }

  lemma BestOfSome(rs: seq<PokerHandResult>)
    ensures BestOf(rs).Some? <==> |rs| > 0
  {
  }

  ghost predicate AllFive(combos: seq<seq<PlayingCard>>)
  {
    forall i :: 0 <= i < |combos| ==> |combos[i]| == 5
  }

  /** EvaluateSingleHand applied to every combination. */
  function Evaluations(combos: seq<seq<PlayingCard>>): (rs: seq<PokerHandResult>)
    requires AllFive(combos)
    ensures |rs| == |combos|
    ensures forall i :: 0 <= i < |combos| ==> rs[i] == EvaluateSingleHand(combos[i])
  {
    seq(|combos|, i requires 0 <= i < |combos| => EvaluateSingleHand(combos[i]))
  }

  /** The five-card combinations of the cards sorted by rank, highest first. */
  function HandCombinations(cards: seq<PlayingCard>): (combos: seq<seq<PlayingCard>>)
    ensures AllFive(combos)
  {
    var all := Combinations(SortDesc(cards), 5);
    forall i | 0 <= i < |all|
      ensures |all[i]| == 5
    {
      CombinationsSound(SortDesc(cards), 5, all[i]);
    }
    all
  }

  /** The result the foreach loop of GetBestCard, GetHandType and
      EvaluateBestHand ends with; None for a null list or one under five cards. */
  function BestResult(cards: Option<seq<PlayingCard>>): Option<PokerHandResult>
  {
    if cards.None? || |cards.value| < 5 then None
    else BestOf(Evaluations(HandCombinations(cards.value)))
  }

  /** The invariant of the loop in BestOfCombinations: `best` is the fold
      over the first i results. */
  ghost predicate FoldInv(rs: seq<PokerHandResult>, i: int, best: Option<PokerHandResult>)
  {
    0 <= i <= |rs| && best == BestOf(rs[..i])
  }

  lemma FoldStep(rs: seq<PokerHandResult>, i: int, best: Option<PokerHandResult>)
    requires FoldInv(rs, i, best) && i < |rs|
    ensures FoldInv(rs, i + 1, Keep(best, rs[i]))
  {
    assert rs[..i + 1][..i] == rs[..i];
  }

  lemma FoldEnd(rs: seq<PokerHandResult>, best: Option<PokerHandResult>)
    requires FoldInv(rs, |rs|, best)
    ensures best == BestOf(rs)
  {
    assert rs[..|rs|] == rs;
  }

  /** The foreach loop shared by the three entry points. */
  method BestOfCombinations(combos: seq<seq<PlayingCard>>) returns (best: Option<PokerHandResult>)
    requires AllFive(combos)
    ensures best == BestOf(Evaluations(combos))
  {
    ghost var rs := Evaluations(combos);
    best := None;
    for i := 0 to |combos|
      invariant FoldInv(rs, i, best)
    {
      var result := EvaluateSingleHand(combos[i]);
      FoldStep(rs, i, best);
      if best.None? || IsBetterHand(result, best.value) {
        best := Some(result);
      }
    }
    FoldEnd(rs, best);
  }

  /** GetBestCard: the cards of the best combination, or None. */
  method GetBestCard(cards: Option<seq<PlayingCard>>) returns (hand: Option<seq<PlayingCard>>)
    ensures hand.Some? <==> BestResult(cards).Some?
    ensures hand.Some? ==> hand.value == BestResult(cards).value.cards
  {
    if cards.None? || |cards.value| < 5 {
      return None;
    }
    var best := BestOfCombinations(HandCombinations(cards.value));
    hand := if best.Some? then Some(best.value.cards) else None;
  }

  /** GetHandType: the category of the best combination, HighCard when there
      is none. */
  method GetHandType(cards: Option<seq<PlayingCard>>) returns (t: PokerHandType)
    ensures BestResult(cards).Some? ==> t == BestResult(cards).value.handType
    ensures BestResult(cards).None? ==> t == HighCard
  {
    if cards.None? || |cards.value| < 5 {
      return HighCard;
    }
    var best := BestOfCombinations(HandCombinations(cards.value));
    t := if best.Some? then best.value.handType else HighCard;
  }

  /** The list itself, with null read as no cards. */
  function CardsOrEmpty(cards: Option<seq<PlayingCard>>): seq<PlayingCard>
  {
    if cards.Some? then cards.value else []
  }

  /** What EvaluateBestHand returns: the best result, or a high card with
      score 0 carrying the input list. */
  function BestEvaluation(cards: Option<seq<PlayingCard>>): (r: PokerHandResult)
    ensures BestResult(cards).Some? ==> r == BestResult(cards).value
    ensures BestResult(cards).None? ==> r == PokerHandResult(HighCard, CardsOrEmpty(cards), 0)
  {
    var best := BestResult(cards);
    if best.Some? then best.value else PokerHandResult(HighCard, CardsOrEmpty(cards), 0)
  }

  method EvaluateBestHand(cards: Option<seq<PlayingCard>>) returns (r: PokerHandResult)
    ensures r == BestEvaluation(cards)
  {
    if cards.None? || |cards.value| < 5 {
      return PokerHandResult(HighCard, CardsOrEmpty(cards), 0);
    }
    var best := BestOfCombinations(HandCombinations(cards.value));
    r := if best.Some? then best.value else PokerHandResult(HighCard, cards.value, 0);
  }

  /** The difference CompareHands returns: of the category integers when the
      categories differ, of the scores otherwise. */
  function CompareResults(a: PokerHandResult, b: PokerHandResult): (d: int)
    ensures d >= 0 <==> IsBetterHand(a, b)
    ensures d == 0 <==> a.handType == b.handType && a.score == b.score
  {
    TypeValueInjective(a.handType, b.handType);
    if TypeValue(a.handType) != TypeValue(b.handType) then TypeValue(a.handType) - TypeValue(b.handType)
    else a.score - b.score
  }

  /** Swapping the hands negates the comparison. */
  lemma CompareAntisymmetric(a: PokerHandResult, b: PokerHandResult)
    ensures CompareResults(a, b) == -CompareResults(b, a)
  {
  }

  method CompareHands(hand1: Option<seq<PlayingCard>>, hand2: Option<seq<PlayingCard>>) returns (d: int)
    ensures d == CompareResults(BestEvaluation(hand1), BestEvaluation(hand2))
    ensures d >= 0 <==> IsBetterHand(BestEvaluation(hand1), BestEvaluation(hand2))
  {
    var result1 := EvaluateBestHand(hand1);
    var result2 := EvaluateBestHand(hand2);
    d := CompareResults(result1, result2);
  }

  /** GetResult: both best hands, their categories, and whether the player
      wins; an equal category and score is a win for the player. */
  method GetResult(myCards: Option<seq<PlayingCard>>, enemyCards: Option<seq<PlayingCard>>)
    returns (myHandCards: Option<seq<PlayingCard>>, myHandsType: PokerHandType,
             enemyHandCards: Option<seq<PlayingCard>>, enemyHandsType: PokerHandType, win: bool)
    ensures myHandCards.Some? <==> BestResult(myCards).Some?
    ensures myHandCards.Some? ==> myHandCards.value == BestResult(myCards).value.cards
    ensures enemyHandCards.Some? <==> BestResult(enemyCards).Some?
    ensures enemyHandCards.Some? ==> enemyHandCards.value == BestResult(enemyCards).value.cards
    ensures myHandsType == BestEvaluation(myHandCards).handType
    ensures enemyHandsType == BestEvaluation(enemyHandCards).handType
    ensures win <==> IsBetterHand(BestEvaluation(myHandCards), BestEvaluation(enemyHandCards))
  {
    win := false;
    myHandCards := GetBestCard(myCards);
    myHandsType := GetHandType(myHandCards);
    enemyHandCards := GetBestCard(enemyCards);
    enemyHandsType := GetHandType(enemyHandCards);
    var d := CompareHands(myHandCards, enemyHandCards);
    win := d >= 0;
  }

  // ---------------------------------------------------------------------
  // What the best result is.

  lemma CombinationsExist(cards: seq<PlayingCard>)
    requires |cards| >= 5
    ensures |HandCombinations(cards)| > 0
  {
    CombinationsCount(SortDesc(cards), 5);
    BinomialPositive(|cards|, 5);
  }

  /** There is a best result exactly when there are at least five cards. */
  lemma BestResultExists(cards: Option<seq<PlayingCard>>)
    ensures BestResult(cards).Some? <==> cards.Some? && |cards.value| >= 5
  {
    if cards.Some? && |cards.value| >= 5 {
      CombinationsExist(cards.value);
      BestOfSome(Evaluations(HandCombinations(cards.value)));
    }
  }

  /** The best result is at least as good as the evaluation of every five
      cards taken in descending rank order, and it is itself such an
      evaluation. */
  lemma BestResultIsBest(cards: seq<PlayingCard>, h: seq<PlayingCard>)
    requires |cards| >= 5 && |h| == 5 && IsSubsequence(h, SortDesc(cards))
    ensures BestResult(Some(cards)).Some?
    ensures IsBetterHand(BestResult(Some(cards)).value, EvaluateSingleHand(h))
  {
    var combos := HandCombinations(cards);
    CombinationsComplete(SortDesc(cards), 5, h);
    var k :| 0 <= k < |combos| && combos[k] == h;
    var rs := Evaluations(combos);
    var j := BestOfIndex(rs);
  }

  /** The best result evaluates some five of the cards, and among the
      combinations that tie with it, it is the last one enumerated. */
  lemma BestResultIsLastBest(cards: seq<PlayingCard>) returns (j: nat)
    requires |cards| >= 5
    ensures j < |HandCombinations(cards)|
    ensures BestResult(Some(cards)) == Some(EvaluateSingleHand(HandCombinations(cards)[j]))
    ensures forall k :: j < k < |HandCombinations(cards)| ==>
      !IsBetterHand(EvaluateSingleHand(HandCombinations(cards)[k]), BestResult(Some(cards)).value)
  {
    CombinationsExist(cards);
    j := BestOfIndex(Evaluations(HandCombinations(cards)));
  }

  /** A subsequence of a descending list is descending. */
  lemma {:induction false} SubsequenceDescending(c: seq<PlayingCard>, s: seq<PlayingCard>)
    requires IsSubsequence(c, s) && Descending(s)
    ensures Descending(c)
    decreases |s|
  {
    if c != [] {
      assert Descending(s[1..]);
      if c[0] == s[0] && IsSubsequence(c[1..], s[1..]) {
        SubsequenceDescending(c[1..], s[1..]);
        SubsequenceMultiset(c[1..], s[1..]);
        forall k | 0 < k < |c|
          ensures Rank(c[0]) >= Rank(c[k])
        {
          assert c[k] in multiset(c[1..]);
          assert c[k] in s[1..];
        }
      } else {
        SubsequenceDescending(c, s[1..]);
      }
    }
  }

  /** GetBestCard, GetHandType and EvaluateBestHand sort the cards in
      descending order first, so every hand they evaluate is descending. */
  lemma EvaluatedHandsDescending(cards: seq<PlayingCard>, h: seq<PlayingCard>)
    requires h in HandCombinations(cards)
    ensures Descending(h)
  {
    CombinationsSound(SortDesc(cards), 5, h);
    SortDescProperties(cards);
    SubsequenceDescending(h, SortDesc(cards));
  }

  /** Through the public entry points, a full house always scores
      1000 x triple + 10 x pair + the lower of the two ranks: the input order
      cannot change it. */
  lemma EvaluatedFullHouseScore(cards: seq<PlayingCard>, h: seq<PlayingCard>, three: int, pair: int)
    requires h in HandCombinations(cards) && EvaluateSingleHand(h).handType == FullHouse
    requires Count(h, three) == 3 && Count(h, pair) == 2
    ensures EvaluateSingleHand(h).score == three * 1000 + pair * 10 + (if three < pair then three else pair)
  {
    EvaluatedHandsDescending(cards, h);
    DescendingFullHouseScore(h, three, pair);
  }

  /** The best hand is five of the player's own cards. */
  lemma BestCardsFromInput(cards: seq<PlayingCard>)
    requires |cards| >= 5
    ensures BestResult(Some(cards)).Some?
    ensures |BestResult(Some(cards)).value.cards| == 5
    ensures multiset(BestResult(Some(cards)).value.cards) <= multiset(cards)
  {
    var j := BestResultIsLastBest(cards);
    var c := HandCombinations(cards)[j];
    CombinationsSound(SortDesc(cards), 5, c);
    SubsequenceMultiset(c, SortDesc(cards));
    SortDescProperties(cards);
    EvaluateKeepsCards(c);
  }

  /** With fewer than five cards on either side neither has a best hand, both
      evaluate as a high card of score 0, and the player wins the tie. */
  lemma ShortHandsTie(myHand: Option<seq<PlayingCard>>, enemyHand: Option<seq<PlayingCard>>)
    requires myHand.None? || |myHand.value| < 5
    requires enemyHand.None? || |enemyHand.value| < 5
    ensures IsBetterHand(BestEvaluation(myHand), BestEvaluation(enemyHand))
  {
  }
}
