/** BetCardSystemBridge: turns the board face up as the betting phase
    advances: three cards on the flop, four by the turn, all five by the
    river and at showdown. */
module Bridge {
  import opened Optional
  import opened Cards
  import opened Deck
  import opened BetPhases
  import opened Reveal

  /** Every object at an index below n turned face up. */
  function RevealPrefix(os: seq<CardObject>, n: int): (r: seq<CardObject>)
    ensures |r| == |os|
  {
    seq(|os|, i requires 0 <= i < |os| => if i < n then TurnFaceUp(os[i]) else os[i])
  }

  /** What RevealCommunityCards(n) promises: the first min(n, count) cards
      with a face controller show their front, later cards are unchanged,
      no card is turned face down and no card data changes. */
  lemma RevealPrefixProperties(os: seq<CardObject>, n: int, i: int)
    requires 0 <= i < |os|
    ensures var r := RevealPrefix(os, n);
      (i < n && os[i].face.Some? ==> ShowsFront(r[i]))
      && (n <= i ==> r[i] == os[i])
      && (ShowsFront(os[i]) ==> r[i] == os[i])
      && r[i].data == os[i].data
  {
  }

  /** Revealing the same prefix twice is revealing it once. */
  lemma RevealPrefixIdempotent(os: seq<CardObject>, n: int)
    ensures RevealPrefix(RevealPrefix(os, n), n) == RevealPrefix(os, n)
  {
    var once := RevealPrefix(os, n);
    var twice := RevealPrefix(once, n);
    forall i | 0 <= i < |os|
      ensures twice[i] == once[i]
    {
      RevealPrefixProperties(os, n, i);
    }
  }

  /** Revealing a then b cards is revealing max(a, b): the phases compose. */
  lemma RevealPrefixCompose(os: seq<CardObject>, a: int, b: int)
    ensures RevealPrefix(RevealPrefix(os, a), b) == RevealPrefix(os, if a < b then b else a)
  {
    var first := RevealPrefix(os, a);
    forall i | 0 <= i < |os|
      ensures RevealPrefix(first, b)[i] == RevealPrefix(os, if a < b then b else a)[i]
    {
      RevealPrefixProperties(os, a, i);
    }
  }

  /** The number of board cards OnPhaseChanged reveals; Preflop reveals
      nothing. RevealAllCommunityCards reveals five. */
  function PhaseRevealTotal(phase: BetPhase): (n: Option<int>)
    ensures n.None? <==> phase == Preflop
    ensures phase == Showdown ==> n == Some(5)
  {
    match phase
    case Preflop => None
    case Flop => Some(3)
    case Turn => Some(4)
    case River => Some(5)
    case Showdown => Some(5)
  }

  /** The phase totals only grow as the phases advance. */
  lemma PhaseTotalsIncrease()
    ensures PhaseRevealTotal(Flop).value < PhaseRevealTotal(Turn).value < PhaseRevealTotal(River).value
    ensures PhaseRevealTotal(River) == PhaseRevealTotal(Showdown)
  {
  }

  class BetCardSystemBridge {
    var cardDeckSystem: CardDeckSystem?

    constructor (cardDeckSystem: CardDeckSystem?)
      ensures this.cardDeckSystem == cardDeckSystem
    {
      this.cardDeckSystem := cardDeckSystem;
    }

    /** For i below totalToReveal, shows the front of public card i when
        there is one. */
    method RevealCommunityCards(totalToReveal: int)
      modifies cardDeckSystem
      ensures cardDeckSystem != null ==>
        cardDeckSystem.publicCardObjects == RevealPrefix(old(cardDeckSystem.publicCardObjects), totalToReveal)
        && unchanged(cardDeckSystem`cardDeck, cardDeckSystem`isInRound,
                     cardDeckSystem`playerCardObjects, cardDeckSystem`enemyCardObjects)
    {
      if cardDeckSystem == null {
        return;
      }
      var publicCards := cardDeckSystem.publicCardObjects;
      ghost var os := publicCards;
      var i := 0;
      while i < totalToReveal
        invariant 0 <= i && (i <= totalToReveal || i == 0)
        invariant publicCards == RevealPrefix(os, i)
      {
        if i < |publicCards| {
          publicCards := publicCards[i := TurnFaceUp(publicCards[i])];
        }
        i := i + 1;
      }
      cardDeckSystem.publicCardObjects := publicCards;
    }

    method RevealAllCommunityCards()
      modifies cardDeckSystem
      ensures cardDeckSystem != null ==>
        cardDeckSystem.publicCardObjects == RevealPrefix(old(cardDeckSystem.publicCardObjects), 5)
        && unchanged(cardDeckSystem`cardDeck, cardDeckSystem`isInRound,
                     cardDeckSystem`playerCardObjects, cardDeckSystem`enemyCardObjects)
    {
      RevealCommunityCards(5);
    }

    method OnPhaseChanged(phase: BetPhase)
      modifies cardDeckSystem
      ensures cardDeckSystem != null && phase != Preflop ==>
        cardDeckSystem.publicCardObjects ==
          RevealPrefix(old(cardDeckSystem.publicCardObjects), PhaseRevealTotal(phase).value)
      ensures cardDeckSystem != null && phase == Preflop ==>
        cardDeckSystem.publicCardObjects == old(cardDeckSystem.publicCardObjects)
      ensures cardDeckSystem != null ==>
        unchanged(cardDeckSystem`cardDeck, cardDeckSystem`isInRound,
                  cardDeckSystem`playerCardObjects, cardDeckSystem`enemyCardObjects)
    {
      match phase {
        case Preflop =>
        case Flop => RevealCommunityCards(3);
        case Turn => RevealCommunityCards(4);
        case River => RevealCommunityCards(5);
        case Showdown => RevealAllCommunityCards();
      }
    }
  }

  // ---------------------------------------------------------------------
  // The staged button and the phase bridge agree.

  /** A board whose first k cards show their front and the rest their back. */
  ghost predicate RevealedUpTo(os: seq<CardObject>, k: int)
  {
    forall j :: 0 <= j < |os| ==> os[j].face.Some? && (j < k <==> ShowsFront(os[j]))
  }

  lemma RevealPrefixCons(os: seq<CardObject>, n: int)
    requires |os| > 0
    ensures RevealPrefix(os, n) == [if 0 < n then TurnFaceUp(os[0]) else os[0]] + RevealPrefix(os[1..], n - 1)
  {
  }

  /** On such a board, turning the next c face-down cards is revealing the
      prefix of k + c cards. */
  lemma {:induction false} RevealHiddenIsPrefix(os: seq<CardObject>, k: nat, c: int)
    requires RevealedUpTo(os, k)
    ensures RevealHidden(os, c) == RevealPrefix(os, k + Pos(c))
  {
    if os == [] {
    } else if c <= 0 {
      forall j | 0 <= j < |os|
        ensures RevealPrefix(os, k)[j] == os[j]
      {
        RevealPrefixProperties(os, k, j);
      }
    } else {
      RevealPrefixCons(os, k + c);
      var rest := os[1..];
      if k > 0 {
        assert ShowsFront(os[0]);
        assert RevealedUpTo(rest, k - 1) by {
          forall j | 0 <= j < |rest|
            ensures rest[j].face.Some? && (j < k - 1 <==> ShowsFront(rest[j]))
          {
            assert rest[j] == os[j + 1];
          }
        }
        RevealHiddenIsPrefix(rest, k - 1, c);
      } else {
        assert ShowsBack(os[0]);
        assert RevealedUpTo(rest, 0) by {
          forall j | 0 <= j < |rest|
            ensures rest[j].face.Some? && (j < 0 <==> ShowsFront(rest[j]))
          {
            assert rest[j] == os[j + 1];
          }
        }
        RevealHiddenIsPrefix(rest, 0, c - 1);
      }
    }
  }

  lemma RevealPrefixRevealed(os: seq<CardObject>, n: nat)
    requires RevealedUpTo(os, 0)
    ensures RevealedUpTo(RevealPrefix(os, n), n)
  {
    var r := RevealPrefix(os, n);
    forall j | 0 <= j < |r|
      ensures r[j].face.Some? && (j < n <==> ShowsFront(r[j]))
    {
      RevealPrefixProperties(os, n, j);
    }
  }

  /** On a freshly dealt board, all face down, the button's three stages of
      3, 1 and 1 cards leave the same board as the flop, turn and river. */
  lemma StagesMatchPhases(os: seq<CardObject>)
    requires RevealedUpTo(os, 0)
    ensures RevealHidden(os, PhaseRevealCounts[1]) == RevealPrefix(os, PhaseRevealTotal(Flop).value)
    ensures RevealHidden(RevealPrefix(os, 3), PhaseRevealCounts[2]) == RevealPrefix(os, PhaseRevealTotal(Turn).value)
    ensures RevealHidden(RevealPrefix(os, 4), PhaseRevealCounts[3]) == RevealPrefix(os, PhaseRevealTotal(River).value)
  {
    RevealHiddenIsPrefix(os, 0, 3);
    RevealPrefixRevealed(os, 3);
    RevealHiddenIsPrefix(RevealPrefix(os, 3), 3, 1);
    RevealPrefixCompose(os, 3, 4);
    RevealPrefixRevealed(os, 4);
    RevealHiddenIsPrefix(RevealPrefix(os, 4), 4, 1);
    RevealPrefixCompose(os, 4, 5);
  }
}
