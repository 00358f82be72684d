/** PublicCardRevealButton: reveal the board in three stages of 3, 1 and 1
    cards; each click turns up the next face-down public cards in list order. */
module Reveal {
  import opened Optional
  import opened Cards
  import opened Deck

  /** Cards to reveal when entering stage 1, 2 and 3; entry 0 is unused. */
  const PhaseRevealCounts: seq<int> := [0, 3, 1, 1]

  /** The last stage; a click at this stage is refused. */
  const FinalPhase: int := |PhaseRevealCounts| - 1

  function Pos(n: int): nat
  {
    if n < 0 then 0 else n
  }

  /** How many objects show their back. */
  function HiddenCount(os: seq<CardObject>): (n: nat)
    ensures n <= |os|
  {
    if os == [] then 0 else (if ShowsBack(os[0]) then 1 else 0) + HiddenCount(os[1..])
  }

  /** The first `count` objects showing their back, in list order, turned
      face up. */
  function RevealHidden(os: seq<CardObject>, count: int): (r: seq<CardObject>)
    ensures |r| == |os|
  {
    if os == [] || count <= 0 then os
    else if ShowsBack(os[0]) then [TurnFaceUp(os[0])] + RevealHidden(os[1..], count - 1)
    else [os[0]] + RevealHidden(os[1..], count)
  }

  /** How many cards RevealHidden turns. */
  function RevealedCount(os: seq<CardObject>, count: int): nat
  {
    if os == [] || count <= 0 then 0
    else if ShowsBack(os[0]) then 1 + RevealedCount(os[1..], count - 1)
    else RevealedCount(os[1..], count)
  }

  /** RevealHidden turns min(count, hidden) cards. */
  lemma {:induction false} RevealedCountIsMin(os: seq<CardObject>, count: int)
    ensures RevealedCount(os, count) == Min(Pos(count), HiddenCount(os))
  {
    if os != [] && count > 0 {
      if ShowsBack(os[0]) {
        RevealedCountIsMin(os[1..], count - 1);
      } else {
        RevealedCountIsMin(os[1..], count);
      }
    }
  }

  /** Exactly min(count, hidden) cards stop showing their back. */
  lemma {:induction false} RevealHiddenCount(os: seq<CardObject>, count: int)
    ensures HiddenCount(RevealHidden(os, count)) == HiddenCount(os) - Min(Pos(count), HiddenCount(os))
  {
    if os != [] && count > 0 {
      var r := RevealHidden(os, count);
      if ShowsBack(os[0]) {
        RevealHiddenCount(os[1..], count - 1);
        assert r[1..] == RevealHidden(os[1..], count - 1);
      } else {
        RevealHiddenCount(os[1..], count);
        assert r[1..] == RevealHidden(os[1..], count);
      }
    }
  }

  /** Only face-down cards change, each by being turned face up; so face-up
      cards are untouched and no card is turned face down. */
  lemma {:induction false} RevealHiddenOnlyFlips(os: seq<CardObject>, count: int, i: int)
    requires 0 <= i < |os|
    ensures var r := RevealHidden(os, count);
      (r[i] == os[i] || (ShowsBack(os[i]) && r[i] == TurnFaceUp(os[i])))
      && (!ShowsBack(os[i]) ==> r[i] == os[i])
  {
    if count > 0 && i > 0 {
      if ShowsBack(os[0]) {
        RevealHiddenOnlyFlips(os[1..], count - 1, i - 1);
      } else {
        RevealHiddenOnlyFlips(os[1..], count, i - 1);
      }
    }
  }

  /** Cards are turned in list order: when a card is turned, every face-down
      card before it is turned too. */
  lemma {:induction false} RevealHiddenInOrder(os: seq<CardObject>, count: int, i: int, j: int)
    requires 0 <= i < j < |os|
    requires ShowsBack(os[i]) && ShowsBack(os[j]) && !ShowsBack(RevealHidden(os, count)[j])
    ensures !ShowsBack(RevealHidden(os, count)[i])
  {
    if count > 0 && i > 0 {
      if ShowsBack(os[0]) {
        RevealHiddenInOrder(os[1..], count - 1, i - 1, j - 1);
      } else {
        RevealHiddenInOrder(os[1..], count, i - 1, j - 1);
      }
    }
  }

  /** One step of the scan at position i. */
  lemma RevealHiddenAt(os: seq<CardObject>, i: int, c: int)
    requires 0 <= i < |os| && c > 0
    ensures RevealHidden(os[i..], c) ==
      if ShowsBack(os[i]) then [TurnFaceUp(os[i])] + RevealHidden(os[i + 1..], c - 1)
      else [os[i]] + RevealHidden(os[i + 1..], c)
    ensures RevealedCount(os[i..], c) ==
      if ShowsBack(os[i]) then 1 + RevealedCount(os[i + 1..], c - 1) else RevealedCount(os[i + 1..], c)
  {
    assert os[i..][1..] == os[i + 1..];
  }

  lemma Regroup<T>(a: seq<T>, x: T, b: seq<T>)
    ensures a + ([x] + b) == (a + [x]) + b
  {
  }

  /** The invariant of RevealLoop: the first i cards have been scanned into
      `done`, `revealed` of them turned, and scanning the rest with the
      remaining budget finishes the job. */
  ghost predicate ScanInv(os: seq<CardObject>, count: int, i: int, revealed: int, done: seq<CardObject>)
  {
    0 <= i <= |os| && |done| == i && 0 <= revealed <= Pos(count)
    && done + RevealHidden(os[i..], count - revealed) == RevealHidden(os, count)
    && revealed + RevealedCount(os[i..], count - revealed) == RevealedCount(os, count)
  }

  lemma ScanStart(os: seq<CardObject>, count: int)
    ensures ScanInv(os, count, 0, 0, [])
  {
    assert os[0..] == os;
  }

  /** A step over a face-down card turns it up ... */
  lemma ScanBack(os: seq<CardObject>, count: int, i: int, revealed: int, done: seq<CardObject>)
    requires ScanInv(os, count, i, revealed, done)
    requires i < |os| && revealed < count && ShowsBack(os[i])
    ensures ScanInv(os, count, i + 1, revealed + 1, done + [TurnFaceUp(os[i])])
  {
    RevealHiddenAt(os, i, count - revealed);
    Regroup(done, TurnFaceUp(os[i]), RevealHidden(os[i + 1..], count - (revealed + 1)));
  }

  /** ... and a step over any other card keeps it. */
  lemma ScanOther(os: seq<CardObject>, count: int, i: int, revealed: int, done: seq<CardObject>)
    requires ScanInv(os, count, i, revealed, done)
    requires i < |os| && revealed < count && !ShowsBack(os[i])
    ensures ScanInv(os, count, i + 1, revealed, done + [os[i]])
  {
    RevealHiddenAt(os, i, count - revealed);
    Regroup(done, os[i], RevealHidden(os[i + 1..], count - revealed));
  }

  /** When the list or the budget is used up, the scan is complete. */
  lemma ScanEnd(os: seq<CardObject>, count: int, i: int, revealed: int, done: seq<CardObject>)
    requires ScanInv(os, count, i, revealed, done)
    requires i == |os| || revealed >= count
    ensures done + os[i..] == RevealHidden(os, count)
    ensures revealed == Min(Pos(count), HiddenCount(os))
  {
    RevealedCountIsMin(os, count);
  }

  /** The foreach loop of RevealUnrevealedCards over the public card list. */
  method RevealLoop(os: seq<CardObject>, count: int) returns (objs: seq<CardObject>, revealed: int)
    ensures objs == RevealHidden(os, count)
    ensures revealed == Min(Pos(count), HiddenCount(os))
  {
    var done: seq<CardObject> := [];
    revealed := 0;
    var i := 0;
    ScanStart(os, count);
    while i < |os|
      invariant 0 <= i <= |os|
      invariant ScanInv(os, count, i, revealed, done)
    {
      if revealed >= count {
        break;
      }
      var publicCard := os[i];
      if ShowsBack(publicCard) {
        ScanBack(os, count, i, revealed, done);
        done := done + [TurnFaceUp(publicCard)];
        revealed := revealed + 1;
      } else {
        ScanOther(os, count, i, revealed, done);
        done := done + [publicCard];
      }
      i := i + 1;
    }
    ScanEnd(os, count, i, revealed, done);
    objs := done + os[i..];
  }

  class PublicCardRevealButton {
    var cardDeckSystem: CardDeckSystem?
    var currentPhase: int
    var interactable: bool

    /** currentPhase counts the stages done, 0 through 3. */
    predicate Valid()
      reads this
    {
      0 <= currentPhase <= FinalPhase
    }

    constructor (cardDeckSystem: CardDeckSystem?)
      ensures this.cardDeckSystem == cardDeckSystem && currentPhase == 0 && !interactable
      ensures Valid()
    {
      this.cardDeckSystem := cardDeckSystem;
      currentPhase := 0;
      interactable := false;
    }

    /** The button is enabled in a round, with public cards, before the last
        stage. */
    method UpdateButtonInteractable()
      modifies this`interactable
      ensures cardDeckSystem == null ==> interactable == old(interactable)
      ensures cardDeckSystem != null ==>
        (interactable <==> cardDeckSystem.isInRound && |cardDeckSystem.publicCardObjects| > 0 && currentPhase < FinalPhase)
    {
      if cardDeckSystem == null {
        return;
      }
      var isInRound := cardDeckSystem.isInRound;
      var publicCardCount := |cardDeckSystem.publicCardObjects|;
      var hasUnrevealed := currentPhase < |PhaseRevealCounts| - 1;
      interactable := isInRound && publicCardCount > 0 && hasUnrevealed;
    }

    /** Turns up to `count` face-down public cards face up, scanning the list
        from the front, and returns how many it turned. */
    method RevealUnrevealedCards(count: int) returns (revealed: int)
      modifies cardDeckSystem
      ensures cardDeckSystem == null ==> revealed == 0
      ensures cardDeckSystem != null ==>
        cardDeckSystem.publicCardObjects == RevealHidden(old(cardDeckSystem.publicCardObjects), count)
        && revealed == Min(Pos(count), HiddenCount(old(cardDeckSystem.publicCardObjects)))
      ensures cardDeckSystem != null ==>
        unchanged(cardDeckSystem`cardDeck, cardDeckSystem`isInRound,
                  cardDeckSystem`playerCardObjects, cardDeckSystem`enemyCardObjects)
    {
      if cardDeckSystem == null {
        return 0;
      }
      var objs;
      objs, revealed := RevealLoop(cardDeckSystem.publicCardObjects, count);
      cardDeckSystem.publicCardObjects := objs;
    }

    /** Reveals the next stage: 3, then 1, then 1 cards. The stage advances by
        one exactly when at least one card was turned. */
    method OnClickRevealPublicCard() returns (actualRevealed: int)
      requires Valid()
      modifies this, cardDeckSystem
      ensures Valid() && cardDeckSystem == old(cardDeckSystem)
      ensures old(currentPhase) >= FinalPhase ==>
        actualRevealed == 0 && currentPhase == old(currentPhase) && interactable == old(interactable)
        && (cardDeckSystem != null ==> unchanged(cardDeckSystem))
      ensures old(currentPhase) < FinalPhase ==>
        var need := PhaseRevealCounts[old(currentPhase) + 1];
        currentPhase == old(currentPhase) + (if actualRevealed > 0 then 1 else 0)
        && (cardDeckSystem == null ==> actualRevealed == 0 && interactable == old(interactable))
        && (cardDeckSystem != null ==>
              cardDeckSystem.publicCardObjects == RevealHidden(old(cardDeckSystem.publicCardObjects), need)
              && actualRevealed == Min(need, HiddenCount(old(cardDeckSystem.publicCardObjects)))
              && unchanged(cardDeckSystem`cardDeck, cardDeckSystem`isInRound,
                           cardDeckSystem`playerCardObjects, cardDeckSystem`enemyCardObjects)
              && (interactable <==> cardDeckSystem.isInRound && |cardDeckSystem.publicCardObjects| > 0
                                    && currentPhase < FinalPhase))
    {
      if currentPhase >= |PhaseRevealCounts| - 1 {
        return 0;
      }
      var needRevealCount := PhaseRevealCounts[currentPhase + 1];
      actualRevealed := RevealUnrevealedCards(needRevealCount);
      if actualRevealed > 0 {
        currentPhase := currentPhase + 1;
      }
      UpdateButtonInteractable();
    }

    /** A removed public card only refreshes the button. */
    method OnPublicCardRemoved(removedCard: Option<CardObject>)
      modifies this`interactable
      ensures removedCard.None? || cardDeckSystem == null ==> interactable == old(interactable)
      ensures removedCard.Some? && cardDeckSystem != null ==>
        (interactable <==> cardDeckSystem.isInRound && |cardDeckSystem.publicCardObjects| > 0 && currentPhase < FinalPhase)
    {
      if removedCard.None? {
        return;
      }
      UpdateButtonInteractable();
    }

    /** Entering a round resets the stages; leaving it disables the button. */
    method OnRoundStateChanged(isInRound: bool)
      modifies this`currentPhase, this`interactable
      ensures isInRound ==> currentPhase == 0 && interactable == old(interactable)
      ensures !isInRound ==> currentPhase == old(currentPhase) && !interactable
      ensures old(Valid()) ==> Valid()
    {
      if isInRound {
        currentPhase := 0;
      } else {
        interactable := false;
      }
    }
  }

  /** With every card face down, stage 1 turns up exactly the first three,
      and the count is min(3, number of cards). */
  lemma {:induction false} FirstStageReveals(os: seq<CardObject>, n: int, i: int)
    requires forall k :: 0 <= k < |os| ==> ShowsBack(os[k])
    requires 0 <= i < |os|
    ensures i < n ==> RevealHidden(os, n)[i] == TurnFaceUp(os[i])
    ensures n <= i ==> RevealHidden(os, n)[i] == os[i]
  {
    if n > 0 && i > 0 {
      FirstStageReveals(os[1..], n - 1, i - 1);
    }
  }
}
