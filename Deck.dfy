/** The card deck system: the 54-card deck, dealing from its front at round
    start, drawing single cards, returning the table to the deck at round end,
    and the Fisher–Yates shuffle with its random indices given as inputs. */
module Deck {
  import opened Optional
  import opened Cards

  /** Suits in enum order, as Enum.GetValues enumerates them. */
  const AllSuits: seq<CardSuit> := [Spade, Heart, Club, Diamond]

  /** The thirteen non-Joker ranks in the order InitializeCardDeck adds them. */
  const NormalRanks: seq<CardRank> :=
    [Ace, Two, Three, Four, Five, Six, Seven, Eight, Nine, Ten, Jack, Queen, King]

  /** Cards dealt at round start: 2 to the player, 5 to the board, 2 to the enemy. */
  const DealSize: nat := 9

  /** The i-th card InitializeCardDeck appends. */
  function DeckCardAt(i: nat): PlayingCard
    requires i < 54
  {
    if i < 52 then NewPlayingCard(AllSuits[i / 13], NormalRanks[i % 13])
    else if i == 52 then NewPlayingCard(Spade, Joker)
    else NewPlayingCard(Heart, Joker)
  }

  /** The deck InitializeCardDeck builds: each suit with its thirteen normal
      ranks, then the Spade Joker and the Heart Joker. */
  function FullDeck(): (d: seq<PlayingCard>)
    ensures |d| == 54
  {
    seq(54, i requires 0 <= i < 54 => DeckCardAt(i))
  }

  lemma SuitIndex(s: CardSuit) returns (k: nat)
    ensures k < 4 && AllSuits[k] == s
  {
    k := match s case Spade => 0 case Heart => 1 case Club => 2 case Diamond => 3;
  }

  lemma RankIndex(r: CardRank) returns (k: nat)
    requires r != Joker
    ensures k < 13 && NormalRanks[k] == r
  {
    k := match r
      case Ace => 0 case Two => 1 case Three => 2 case Four => 3 case Five => 4
      case Six => 5 case Seven => 6 case Eight => 7 case Nine => 8 case Ten => 9
      case Jack => 10 case Queen => 11 case King => 12;
  }

  lemma DeckCardAtInjective(i: nat, j: nat)
    requires i < 54 && j < 54 && DeckCardAt(i) == DeckCardAt(j)
    ensures i == j
  {
    if i < 52 && j < 52 {
      assert AllSuits[i / 13] == AllSuits[j / 13];
      assert NormalRanks[i % 13] == NormalRanks[j % 13];
      assert i / 13 == j / 13;
      assert i % 13 == j % 13;
    }
  }

  lemma DeckCardAtNormal(s: nat, r: nat)
    requires s < 4 && r < 13
    ensures DeckCardAt(13 * s + r) == NewPlayingCard(AllSuits[s], NormalRanks[r])
  {
    if s == 0 {
    } else if s == 1 {
    } else if s == 2 {
    } else {
    }
  }

  /** `deck` is a prefix of the full deck. */
  ghost predicate InDeckOrder(deck: seq<PlayingCard>)
  {
    |deck| <= 54 && forall k :: 0 <= k < |deck| ==> deck[k] == DeckCardAt(k)
  }

  lemma InDeckOrderAppend(deck: seq<PlayingCard>, s: nat, r: nat)
    requires s < 4 && r < 13 && |deck| == 13 * s + r && InDeckOrder(deck)
    ensures InDeckOrder(deck + [NewPlayingCard(AllSuits[s], NormalRanks[r])])
  {
    DeckCardAtNormal(s, r);
  }

  lemma InDeckOrderJokers(deck: seq<PlayingCard>)
    requires |deck| == 52 && InDeckOrder(deck)
    ensures deck + [NewPlayingCard(Spade, Joker)] + [NewPlayingCard(Heart, Joker)] == FullDeck()
  {
  }

  /** The 54 cards of InitializeCardDeck are pairwise distinct. */
  lemma FullDeckDistinct()
    ensures forall i, j :: 0 <= i < j < |FullDeck()| ==> FullDeck()[i] != FullDeck()[j]
  {
    forall i, j | 0 <= i < j < |FullDeck()|
      ensures FullDeck()[i] != FullDeck()[j]
    {
      if FullDeck()[i] == FullDeck()[j] {
        DeckCardAtInjective(i, j);
      }
    }
  }

  /** A card is in the full deck exactly when its constructor built it and it
      is not a Club or Diamond Joker: 4 suits x 13 ranks plus two Jokers. */
  lemma FullDeckContents(c: PlayingCard)
    ensures c in FullDeck() <==>
      c == NewPlayingCard(c.suit, c.rank) && (c.rank == Joker ==> c.suit == Spade || c.suit == Heart)
  {
    if c in FullDeck() {
      var i :| 0 <= i < 54 && FullDeck()[i] == c;
      assert c == DeckCardAt(i);
    }
    if c == NewPlayingCard(c.suit, c.rank) && (c.rank == Joker ==> c.suit == Spade || c.suit == Heart) {
      if c.rank == Joker {
        var i := if c.suit == Spade then 52 else 53;
        assert FullDeck()[i] == c;
      } else {
        var a := SuitIndex(c.suit);
        var b := RankIndex(c.rank);
        var i := a * 13 + b;
        assert i / 13 == a && i % 13 == b;
        assert FullDeck()[i] == c;
      }
    }
  }

  /** Indices a shuffle may draw: position i (i >= 1) swaps with an index in [0, i],
      as Random.Range(0, i + 1) promises. */
  ghost predicate ValidPicks(picks: seq<int>, n: nat)
  {
    |picks| == n && forall i :: 0 < i < n ==> 0 <= picks[i] <= i
  }

  /** `s` with the elements at i and j exchanged. */
  function Exchange<T>(s: seq<T>, i: nat, j: nat): (r: seq<T>)
    requires i < |s| && j < |s|
    ensures |r| == |s| && r[i] == s[j] && r[j] == s[i]
    ensures forall k :: 0 <= k < |s| && k != i && k != j ==> r[k] == s[k]
  {
    seq(|s|, k requires 0 <= k < |s| => if k == i then s[j] else if k == j then s[i] else s[k])
  }

  lemma ExchangePermutes<T>(s: seq<T>, i: nat, j: nat)
    requires i < |s| && j < |s|
    ensures multiset(Exchange(s, i, j)) == multiset(s)
  {
    assert Exchange(s, i, j) == s[i := s[j]][j := s[i]];
  }

  /** The deck after the first m steps of the Fisher–Yates loop, which visits
      positions |s| - 1, |s| - 2, ..., 1 in turn. */
  function ShuffleSteps<T>(s: seq<T>, picks: seq<int>, m: nat): (r: seq<T>)
    requires ValidPicks(picks, |s|) && (m == 0 || m < |s|)
    ensures |r| == |s|
  {
    if m == 0 then s
    else
      var prev := ShuffleSteps(s, picks, m - 1);
      Exchange(prev, |s| - m, picks[|s| - m])
  }

  /** The deck after the whole Fisher–Yates loop. */
  function Shuffle<T>(s: seq<T>, picks: seq<int>): seq<T>
    requires ValidPicks(picks, |s|)
  {
    ShuffleSteps(s, picks, if |s| == 0 then 0 else |s| - 1)
  }

  lemma {:induction false} ShuffleStepsPermutes<T>(s: seq<T>, picks: seq<int>, m: nat)
    requires ValidPicks(picks, |s|) && (m == 0 || m < |s|)
    ensures |ShuffleSteps(s, picks, m)| == |s|
    ensures multiset(ShuffleSteps(s, picks, m)) == multiset(s)
  {
    if m > 0 {
      var prev := ShuffleSteps(s, picks, m - 1);
      ShuffleStepsPermutes(s, picks, m - 1);
      ExchangePermutes(prev, |s| - m, picks[|s| - m]);
      assert ShuffleSteps(s, picks, m) == Exchange(prev, |s| - m, picks[|s| - m]);
    }
  }

  /** Whatever indices the random source returns, the shuffle yields a
      permutation of the deck. */
  lemma ShufflePermutes<T>(s: seq<T>, picks: seq<int>)
    requires ValidPicks(picks, |s|)
    ensures |Shuffle(s, picks)| == |s| && multiset(Shuffle(s, picks)) == multiset(s)
  {
    ShuffleStepsPermutes(s, picks, if |s| == 0 then 0 else |s| - 1);
  }

  function Min(a: int, b: int): int
  {
    if a <= b then a else b
  }

  /** The nine dealt cards and the rest of the deck partition the deck. */
  lemma DealtSlices(d: seq<PlayingCard>)
    requires |d| >= DealSize
    ensures multiset(d) == multiset(d[DealSize..]) + multiset(d[..2] + d[7..9] + d[2..7])
  {
    assert d == d[..2] + d[2..7] + d[7..9] + d[9..];
  }

  class CardDeckSystem {
    var cardDeck: seq<PlayingCard>
    var isInRound: bool
    var playerCardObjects: seq<CardObject>
    var enemyCardObjects: seq<CardObject>
    var publicCardObjects: seq<CardObject>

    constructor ()
      ensures cardDeck == [] && !isInRound
      ensures playerCardObjects == [] && enemyCardObjects == [] && publicCardObjects == []
    {
      cardDeck := [];
      isInRound := false;
      playerCardObjects, enemyCardObjects, publicCardObjects := [], [], [];
    }

    function PlayerCardCount(): nat
      reads this
    {
      |playerCardObjects|
    }

    /** The card data on the table in the order EndCurrentRound collects it:
        player cards, enemy cards, public cards. */
    function TableData(): seq<PlayingCard>
      reads this
    {
      DataOf(playerCardObjects) + DataOf(enemyCardObjects) + DataOf(publicCardObjects)
    }

    /** Start: build the deck, then shuffle it with the given random indices. */
    method Start(picks: seq<int>)
      requires ValidPicks(picks, 54)
      modifies this`cardDeck
      ensures |cardDeck| == 54 && multiset(cardDeck) == multiset(FullDeck())
      ensures cardDeck == Shuffle(FullDeck(), picks)
    {
      InitializeCardDeck();
      ShuffleDeck(picks);
    }

    method InitializeCardDeck()
      modifies this`cardDeck
      ensures cardDeck == FullDeck()
    {
      var deck: seq<PlayingCard> := [];
      var s := 0;
      while s < 4
        invariant 0 <= s <= 4 && |deck| == 13 * s && InDeckOrder(deck)
      {
        var suit := AllSuits[s];
        var r := 0;
        while r < 13
          invariant 0 <= r <= 13 && |deck| == 13 * s + r && InDeckOrder(deck)
        {
          InDeckOrderAppend(deck, s, r);
          deck := deck + [NewPlayingCard(suit, NormalRanks[r])];
          r := r + 1;
        }
        s := s + 1;
      }
      InDeckOrderJokers(deck);
      deck := deck + [NewPlayingCard(Spade, Joker)];
      deck := deck + [NewPlayingCard(Heart, Joker)];
      cardDeck := deck;
    }

    /** Destroys every card object on the table and empties the three lists. */
    method ClearAllCardObjects()
      modifies this`playerCardObjects, this`enemyCardObjects, this`publicCardObjects
      ensures playerCardObjects == [] && enemyCardObjects == [] && publicCardObjects == []
    {
      playerCardObjects, enemyCardObjects, publicCardObjects := [], [], [];
    }

    /** Moves up to drawCount cards, one at a time, from the front of the deck
        to the end of the target hand. */
    method DrawCardsFromDeck(target: seq<PlayingCard>, drawCount: int) returns (hand: seq<PlayingCard>)
      modifies this`cardDeck
      ensures var k := Min(if drawCount < 0 then 0 else drawCount, |old(cardDeck)|);
        hand == target + old(cardDeck)[..k] && cardDeck == old(cardDeck)[k..]
    {
      ghost var k := Min(if drawCount < 0 then 0 else drawCount, |old(cardDeck)|);
      hand := target;
      var i := 0;
      while i < drawCount
        invariant 0 <= i <= k
        invariant hand == target + old(cardDeck)[..i]
        invariant cardDeck == old(cardDeck)[i..]
      {
        if |cardDeck| == 0 {
          break;
        }
        var drawnCard := cardDeck[0];
        hand := hand + [drawnCard];
        cardDeck := cardDeck[1..];
        assert old(cardDeck)[..i + 1] == old(cardDeck)[..i] + [drawnCard];
        i := i + 1;
      }
      assert i == k;
    }

    /** Clears the table; with at least nine cards in the deck, enters the round
        and deals 2 player, 5 public (face down) and 2 enemy cards from the
        front. Returns whether the round-state event fired. */
    method StartNewRound() returns (started: bool)
      modifies this
      ensures started <==> |old(cardDeck)| >= DealSize
      ensures !started ==> cardDeck == old(cardDeck) && isInRound == old(isInRound)
      ensures !started ==> playerCardObjects == [] && enemyCardObjects == [] && publicCardObjects == []
      ensures started ==> isInRound && cardDeck == old(cardDeck)[DealSize..]
      ensures started ==> playerCardObjects == SpawnAll(old(cardDeck)[..2], false)
      ensures started ==> publicCardObjects == SpawnAll(old(cardDeck)[2..7], true)
      ensures started ==> enemyCardObjects == SpawnAll(old(cardDeck)[7..9], false)
      ensures started ==> multiset(old(cardDeck)) == multiset(cardDeck) + multiset(TableData())
    {
      ClearAllCardObjects();
      if |cardDeck| < DealSize {
        started := false;
        return;
      }
      started := true;
      isInRound := true;
      ghost var d := cardDeck;

      var playerHand := DrawCardsFromDeck([], 2);
      playerCardObjects := playerCardObjects + SpawnAll(playerHand, false);
      assert playerCardObjects == SpawnAll(d[..2], false);

      var publicCards := DrawCardsFromDeck([], 5);
      publicCardObjects := publicCardObjects + SpawnAll(publicCards, true);
      assert d[2..][..5] == d[2..7];
      assert publicCardObjects == SpawnAll(d[2..7], true);

      var enemyHand := DrawCardsFromDeck([], 2);
      enemyCardObjects := enemyCardObjects + SpawnAll(enemyHand, false);
      assert d[7..][..2] == d[7..9];
      assert enemyCardObjects == SpawnAll(d[7..9], false);

      DataOfSpawnAll(d[..2], false);
      DataOfSpawnAll(d[2..7], true);
      DataOfSpawnAll(d[7..9], false);
      assert TableData() == d[..2] + d[7..9] + d[2..7];
      DealtSlices(d);
    }

    /** Appends the data of every card on the table to the deck, shuffles,
        clears the table and leaves the round. */
    method EndCurrentRound(picks: seq<int>)
      requires ValidPicks(picks, |cardDeck| + |TableData()|)
      modifies this
      ensures cardDeck == Shuffle(old(cardDeck) + old(TableData()), picks)
      ensures multiset(cardDeck) == multiset(old(cardDeck)) + multiset(old(TableData()))
      ensures playerCardObjects == [] && enemyCardObjects == [] && publicCardObjects == []
      ensures !isInRound
    {
      ghost var before := cardDeck + TableData();
      var drawnCards := DataOf(playerCardObjects) + DataOf(enemyCardObjects) + DataOf(publicCardObjects);
      cardDeck := cardDeck + drawnCards;
      assert cardDeck == before;
      ShuffleDeck(picks);
      assert |picks| == |before|;
      assert before == old(cardDeck) + old(TableData());
      ClearAllCardObjects();
      isInRound := false;
    }

    /** Draws the front card of the deck into the player's hand; nothing
        happens outside a round or with an empty deck. */
    method DrawOneCardToPlayerHand() returns (drawn: Option<PlayingCard>)
      modifies this`cardDeck, this`playerCardObjects
      ensures drawn.None? <==> !isInRound || |old(cardDeck)| == 0
      ensures drawn.None? ==> cardDeck == old(cardDeck) && playerCardObjects == old(playerCardObjects)
      ensures drawn.Some? ==> drawn.value == old(cardDeck)[0] && cardDeck == old(cardDeck)[1..]
      ensures drawn.Some? ==> playerCardObjects == old(playerCardObjects) + [Spawn(drawn.value, false)]
    {
      if !isInRound {
        return None;
      }
      if |cardDeck| == 0 {
        return None;
      }
      var drawnCard := cardDeck[0];
      cardDeck := cardDeck[1..];
      playerCardObjects := playerCardObjects + [Spawn(drawnCard, false)];
      drawn := Some(drawnCard);
    }

    /** Removes the player card object at `index`, if there is one. */
    method RemovePlayerCard(index: int)
      modifies this`playerCardObjects
      ensures 0 <= index < |old(playerCardObjects)| ==>
        playerCardObjects == old(playerCardObjects)[..index] + old(playerCardObjects)[index + 1..]
      ensures !(0 <= index < |old(playerCardObjects)|) ==> playerCardObjects == old(playerCardObjects)
    {
      if 0 <= index < |playerCardObjects| {
        playerCardObjects := playerCardObjects[..index] + playerCardObjects[index + 1..];
      }
    }

    /** Removes the public card object at `index`, if there is one. */
    method RemovePublicCard(index: int)
      modifies this`publicCardObjects
      ensures 0 <= index < |old(publicCardObjects)| ==>
        publicCardObjects == old(publicCardObjects)[..index] + old(publicCardObjects)[index + 1..]
      ensures !(0 <= index < |old(publicCardObjects)|) ==> publicCardObjects == old(publicCardObjects)
    {
      if 0 <= index < |publicCardObjects| {
        publicCardObjects := publicCardObjects[..index] + publicCardObjects[index + 1..];
      }
    }

    /** The Fisher–Yates shuffle of the deck in place: for i from the last
        index down to 1, exchange position i with position picks[i]. */
    method ShuffleDeck(picks: seq<int>)
      requires ValidPicks(picks, |cardDeck|)
      modifies this`cardDeck
      ensures cardDeck == Shuffle(old(cardDeck), picks)
      ensures |cardDeck| == |old(cardDeck)| && multiset(cardDeck) == multiset(old(cardDeck))
    {
      var deck := cardDeck;
      var i := |deck| - 1;
      while i > 0
        invariant |deck| == |old(cardDeck)| && (if |deck| == 0 then i == -1 else 0 <= i < |deck|)
        invariant deck == ShuffleSteps(old(cardDeck), picks, |deck| - 1 - i)
      {
        var randomIndex := picks[i];
        deck := Exchange(deck, i, randomIndex);
        i := i - 1;
      }
      cardDeck := deck;
      ShufflePermutes(old(cardDeck), picks);
    }
  }

  /** A round dealt from a deck with an empty table and then ended puts every
      card back: the deck holds the same cards as before. */
  method DealAndReturn(system: CardDeckSystem, picks: seq<int>)
    requires system.playerCardObjects == [] && system.enemyCardObjects == [] && system.publicCardObjects == []
    requires ValidPicks(picks, |system.cardDeck|)
    modifies system
    ensures multiset(system.cardDeck) == old(multiset(system.cardDeck))
    ensures !system.isInRound
  {
    ghost var before := system.cardDeck;
    var started := system.StartNewRound();
    if started {
      assert |system.cardDeck| + |system.TableData()| == |before| by {
        DataOfSpawnAll(before[..2], false);
        DataOfSpawnAll(before[2..7], true);
        DataOfSpawnAll(before[7..9], false);
      }
    }
    system.EndCurrentRound(picks);
  }
}
