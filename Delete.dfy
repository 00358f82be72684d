/** CardDeleteButton: in delete mode the player picks a hand card and a
    face-up public card, in either order; once both are picked, each is
    removed from its list, or, when it is a Joker, handed to ReturnJokerToDeck
    instead. Selections are indices into the CardDeckSystem's lists.

    The source logs the picked card's name right after a selection and right
    after each removal; for a card object without card data that line fails
    with a null dereference, which ends the handler there. The model ends the
    method at the same point. A removed card object is destroyed, and Unity
    then reports it as null: such a selection becomes None. */
module Delete {
  import opened Optional
  import opened Cards
  import opened Deck

  predicate IsJoker(o: CardObject)
  {
    o.data.Some? && o.data.value.rank == Joker
  }

  /** The list without the object at index i; other lists are returned as is. */
  function RemoveAt(s: seq<CardObject>, i: int): (r: seq<CardObject>)
  {
    if 0 <= i < |s| then s[..i] + s[i + 1..] else s
  }

  /** Removing drops exactly the object at i and keeps the others in order. */
  lemma RemoveAtKeepsOrder(s: seq<CardObject>, i: int)
    requires 0 <= i < |s|
    ensures |RemoveAt(s, i)| == |s| - 1
    ensures forall k :: 0 <= k < i ==> RemoveAt(s, i)[k] == s[k]
    ensures forall k :: i <= k < |s| - 1 ==> RemoveAt(s, i)[k] == s[k + 1]
    ensures multiset(RemoveAt(s, i)) + multiset{s[i]} == multiset(s)
  {
    assert s == s[..i] + [s[i]] + s[i + 1..];
  }

  /** A call of ReturnJokerToDeck: the Joker and whether it came from the
      player's hand (otherwise from the public cards). */
  datatype JokerReturn = JokerReturn(card: CardObject, fromPlayerHand: bool)

  class CardDeleteButton {
    const cardDeckSystem: CardDeckSystem
    var isDeleteMode: bool
    var selectedHandCard: Option<nat>
    var selectedPublicCard: Option<nat>
    var interactable: bool
    /** The ReturnJokerToDeck calls made so far, oldest first. */
    var returnedJokers: seq<JokerReturn>

    /** Selections name cards on the table, and a selected public card shows
        its front. */
    predicate Valid()
      reads this, cardDeckSystem
    {
      (selectedHandCard.Some? ==> selectedHandCard.value < |cardDeckSystem.playerCardObjects|)
      && (selectedPublicCard.Some? ==>
            selectedPublicCard.value < |cardDeckSystem.publicCardObjects|
            && ShowsFront(cardDeckSystem.publicCardObjects[selectedPublicCard.value]))
    }

    constructor (cardDeckSystem: CardDeckSystem)
      ensures this.cardDeckSystem == cardDeckSystem && !isDeleteMode && !interactable
      ensures selectedHandCard.None? && selectedPublicCard.None? && returnedJokers == []
      ensures Valid()
    {
      this.cardDeckSystem := cardDeckSystem;
      isDeleteMode, interactable := false, false;
      selectedHandCard, selectedPublicCard := None, None;
      returnedJokers := [];
    }

    /** The delete button is enabled in a round with a hand card and a public
        card on the table. */
    method UpdateButtonInteractable()
      modifies this`interactable
      ensures interactable <==> cardDeckSystem.isInRound && cardDeckSystem.PlayerCardCount() > 0
                                && |cardDeckSystem.publicCardObjects| > 0
    {
      interactable := cardDeckSystem.isInRound && cardDeckSystem.PlayerCardCount() > 0
                      && |cardDeckSystem.publicCardObjects| > 0;
    }

    /** Does nothing when already in delete mode; otherwise enters it with no
        selection. */
    method EnterDeleteMode()
      modifies this`isDeleteMode, this`selectedHandCard, this`selectedPublicCard
      ensures old(isDeleteMode) ==> isDeleteMode && selectedHandCard == old(selectedHandCard)
                                    && selectedPublicCard == old(selectedPublicCard)
      ensures !old(isDeleteMode) ==> isDeleteMode && selectedHandCard.None? && selectedPublicCard.None?
      ensures old(Valid()) ==> Valid()
    {
      if isDeleteMode {
        return;
      }
      isDeleteMode := true;
      selectedHandCard := None;
      selectedPublicCard := None;
    }

    method ExitDeleteMode()
      modifies this`isDeleteMode, this`selectedHandCard, this`selectedPublicCard
      ensures !isDeleteMode && selectedHandCard.None? && selectedPublicCard.None?
      ensures Valid()
    {
      isDeleteMode := false;
      selectedHandCard := None;
      selectedPublicCard := None;
    }

    /** The button flips delete mode; either way no card stays selected. */
    method ToggleDeleteMode()
      modifies this`isDeleteMode, this`selectedHandCard, this`selectedPublicCard
      ensures isDeleteMode == !old(isDeleteMode)
      ensures selectedHandCard.None? && selectedPublicCard.None? && Valid()
    {
      if isDeleteMode {
        ExitDeleteMode();
      } else {
        EnterDeleteMode();
      }
    }

    method ClearSelectedCards()
      modifies this`selectedHandCard, this`selectedPublicCard
      ensures selectedHandCard.None? && selectedPublicCard.None? && Valid()
    {
      selectedHandCard := None;
      selectedPublicCard := None;
    }

    /** What deleting hand card hi and public card pi of the lists `player`
        and `public` leaves behind. A Joker is handed to ReturnJokerToDeck and
        stays in its list; any other card is removed. The hand card is done
        first. When a removed card has no card data the handler ends right
        after that removal; otherwise delete mode ends with no selection. */
    twostate predicate DeleteOutcome(player: seq<CardObject>, public: seq<CardObject>, hi: nat, pi: nat)
      reads this, cardDeckSystem
    {
      hi < |player| && pi < |public|
      && interactable == old(interactable)
      && var h := player[hi];
         var p := public[pi];
         var jokerH := if IsJoker(h) then [JokerReturn(h, true)] else [];
         var jokerP := if IsJoker(p) then [JokerReturn(p, false)] else [];
         cardDeckSystem.playerCardObjects == (if IsJoker(h) then player else RemoveAt(player, hi))
         && if !IsJoker(h) && h.data.None? then
              cardDeckSystem.publicCardObjects == public && returnedJokers == old(returnedJokers)
              && selectedHandCard.None? && selectedPublicCard == Some(pi)
              && isDeleteMode == old(isDeleteMode)
            else
              cardDeckSystem.publicCardObjects == (if IsJoker(p) then public else RemoveAt(public, pi))
              && if !IsJoker(p) && p.data.None? then
                   returnedJokers == old(returnedJokers) + jokerH
                   && selectedHandCard == (if IsJoker(h) then Some(hi) else None)
                   && selectedPublicCard.None? && isDeleteMode == old(isDeleteMode)
                 else
                   returnedJokers == old(returnedJokers) + jokerH + jokerP
                   && selectedHandCard.None? && selectedPublicCard.None? && !isDeleteMode
    }

    /** Runs only with both selections made. */
    method DeleteSelectedCards()
      requires Valid()
      modifies this, cardDeckSystem`playerCardObjects, cardDeckSystem`publicCardObjects
      ensures old(selectedHandCard).None? || old(selectedPublicCard).None? ==>
        unchanged(this) && unchanged(cardDeckSystem)
      ensures old(selectedHandCard).Some? && old(selectedPublicCard).Some? ==>
        DeleteOutcome(old(cardDeckSystem.playerCardObjects), old(cardDeckSystem.publicCardObjects),
                      old(selectedHandCard).value, old(selectedPublicCard).value)
      ensures Valid()
    {
      if selectedHandCard.None? || selectedPublicCard.None? {
        return;
      }
      var hi := selectedHandCard.value;
      var pi := selectedPublicCard.value;
      var handCard := cardDeckSystem.playerCardObjects[hi];
      var publicCard := cardDeckSystem.publicCardObjects[pi];

      if IsJoker(handCard) {
        returnedJokers := returnedJokers + [JokerReturn(handCard, true)];
      } else {
        cardDeckSystem.RemovePlayerCard(hi);
        if handCard.data.None? {
          selectedHandCard := None;
          return;
        }
      }

      if IsJoker(publicCard) {
        returnedJokers := returnedJokers + [JokerReturn(publicCard, false)];
      } else {
        cardDeckSystem.RemovePublicCard(pi);
        if publicCard.data.None? {
          selectedPublicCard := None;
          if !IsJoker(handCard) {
            selectedHandCard := None;
          }
          return;
        }
      }

      ExitDeleteMode();
    }

    /** Outside delete mode, or for a card not in the hand, nothing happens.
        Otherwise the card is selected and, when a public card is already
        selected, both are deleted. */
    method SelectHandCardToDelete(handCard: int)
      requires Valid()
      modifies this, cardDeckSystem`playerCardObjects, cardDeckSystem`publicCardObjects
      ensures Valid()
      ensures !old(isDeleteMode) || !(0 <= handCard < |old(cardDeckSystem.playerCardObjects)|) ==>
        unchanged(this) && unchanged(cardDeckSystem)
      ensures old(isDeleteMode) && 0 <= handCard < |old(cardDeckSystem.playerCardObjects)| ==>
        if old(cardDeckSystem.playerCardObjects)[handCard].data.None? || old(selectedPublicCard).None? then
          selectedHandCard == Some(handCard) && selectedPublicCard == old(selectedPublicCard)
          && isDeleteMode && interactable == old(interactable) && returnedJokers == old(returnedJokers)
          && unchanged(cardDeckSystem)
        else
          DeleteOutcome(old(cardDeckSystem.playerCardObjects), old(cardDeckSystem.publicCardObjects),
                        handCard, old(selectedPublicCard).value)
    {
      if !isDeleteMode || !(0 <= handCard < |cardDeckSystem.playerCardObjects|) {
        return;
      }
      selectedHandCard := Some(handCard);
      if cardDeckSystem.playerCardObjects[handCard].data.None? {
        return;
      }
      if selectedPublicCard.Some? {
        DeleteSelectedCards();
      }
    }

    /** Outside delete mode, for a card not on the board, or for a card
        without a face controller or showing its back, nothing happens.
        Otherwise the card is selected and, when a hand card is already
        selected, both are deleted. */
    method SelectPublicCardToDelete(publicCard: int)
      requires Valid()
      modifies this, cardDeckSystem`playerCardObjects, cardDeckSystem`publicCardObjects
      ensures Valid()
      ensures !old(isDeleteMode) || !(0 <= publicCard < |old(cardDeckSystem.publicCardObjects)|)
              || !ShowsFront(old(cardDeckSystem.publicCardObjects)[publicCard]) ==>
        unchanged(this) && unchanged(cardDeckSystem)
      ensures old(isDeleteMode) && 0 <= publicCard < |old(cardDeckSystem.publicCardObjects)|
              && ShowsFront(old(cardDeckSystem.publicCardObjects)[publicCard]) ==>
        if old(cardDeckSystem.publicCardObjects)[publicCard].data.None? || old(selectedHandCard).None? then
          selectedPublicCard == Some(publicCard) && selectedHandCard == old(selectedHandCard)
          && isDeleteMode && interactable == old(interactable) && returnedJokers == old(returnedJokers)
          && unchanged(cardDeckSystem)
        else
          DeleteOutcome(old(cardDeckSystem.playerCardObjects), old(cardDeckSystem.publicCardObjects),
                        old(selectedHandCard).value, publicCard)
    {
      if !isDeleteMode || !(0 <= publicCard < |cardDeckSystem.publicCardObjects|) {
        return;
      }
      var cardFace := cardDeckSystem.publicCardObjects[publicCard].face;
      if cardFace.None? {
        return;
      }
      if cardFace.value.showingBack {
        return;
      }
      selectedPublicCard := Some(publicCard);
      if cardDeckSystem.publicCardObjects[publicCard].data.None? {
        return;
      }
      if selectedHandCard.Some? {
        DeleteSelectedCards();
      }
    }
  }

  /** When both picked cards carry data and neither is a Joker, a deletion
      removes exactly those two cards: each list loses one object and keeps
      the rest in order. */
  lemma DeleteRemovesBoth(player: seq<CardObject>, public: seq<CardObject>, hi: nat, pi: nat)
    requires hi < |player| && pi < |public|
    requires !IsJoker(player[hi]) && !IsJoker(public[pi])
    ensures multiset(RemoveAt(player, hi)) + multiset{player[hi]} == multiset(player)
    ensures multiset(RemoveAt(public, pi)) + multiset{public[pi]} == multiset(public)
    ensures |RemoveAt(player, hi)| == |player| - 1 && |RemoveAt(public, pi)| == |public| - 1
  {
    RemoveAtKeepsOrder(player, hi);
    RemoveAtKeepsOrder(public, pi);
  }
}
