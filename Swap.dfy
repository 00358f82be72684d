/** SwapCardHandPublic: in swap mode the player picks a hand card, then a
    public card, and the two exchange their card data. Selections are indices
    into the CardDeckSystem's player and public lists. */
module Swap {
  import opened Optional
  import opened Cards
  import opened Deck

  /** UpdateCardText: the label, when the object has one, shows `name`. */
  function Relabel(text: Option<string>, name: string): (t: Option<string>)
    ensures t.Some? <==> text.Some?
    ensures t.Some? ==> t.value == name
  {
    if text.Some? then Some(name) else None
  }

  /** The public card's face controller binds the new data; a face-down card
      is marked for a display refresh. */
  function SyncFace(f: Option<Face>, d: Option<PlayingCard>): (r: Option<Face>)
    ensures r.Some? <==> f.Some?
    ensures r.Some? ==> r.value.binding == d && r.value.showingBack == f.value.showingBack
    ensures r.Some? && f.value.showingBack ==> r.value.needRefresh
    ensures r.Some? && !f.value.showingBack ==> r.value.needRefresh == f.value.needRefresh
  {
    if f.None? then None
    else Some(f.value.(binding := d, needRefresh := if f.value.showingBack then true else f.value.needRefresh))
  }

  /** UpdateCardText on a card after the swap. The label is found with
      GetComponentInChildren, which skips inactive objects, and a card that
      shows its back has its label deactivated (ApplyFaceState): such a card
      keeps its old label. */
  function NewLabel(o: CardObject, name: string): (t: Option<string>)
    ensures ShowsBack(o) ==> t == o.text
    ensures !ShowsBack(o) ==> t == Relabel(o.text, name)
  {
    if ShowsBack(o) then o.text else Relabel(o.text, name)
  }

  /** The hand card after the swap: it carries the public card's data. */
  function SwappedHand(h: CardObject, p: CardObject): (r: CardObject)
    requires h.data.Some? && p.data.Some?
  {
    h.(data := p.data, text := NewLabel(h, p.data.value.cardName))
  }

  /** The public card after the swap: it carries the hand card's data. */
  function SwappedPublic(h: CardObject, p: CardObject): (r: CardObject)
    requires h.data.Some? && p.data.Some?
  {
    p.(data := h.data, face := SyncFace(p.face, h.data), text := NewLabel(p, h.data.value.cardName))
  }

  /** The two cards exchange exactly their data; the public card's binding is
      its new data and neither card changes side up. */
  lemma SwapExchanges(h: CardObject, p: CardObject)
    requires h.data.Some? && p.data.Some?
    ensures SwappedHand(h, p).data == p.data && SwappedPublic(h, p).data == h.data
    ensures SwappedHand(h, p).face == h.face
    ensures SwappedPublic(h, p).face.Some? ==> SwappedPublic(h, p).face.value.binding == SwappedPublic(h, p).data
    ensures ShowsBack(SwappedPublic(h, p)) == ShowsBack(p)
  {
  }

  /** A face-down public card keeps the label of the card it held before the
      swap, and turning it face up afterwards shows that old label next to
      the new card data: nothing rewrites the label on the way up. */
  lemma FaceDownSwapKeepsOldLabel(h: CardObject, p: CardObject)
    requires h.data.Some? && p.data.Some? && ShowsBack(p)
    ensures SwappedPublic(h, p).text == p.text
    ensures var up := TurnFaceUp(SwappedPublic(h, p));
      ShowsFront(up) && up.text == p.text && up.data == h.data
  {
  }

  /** A card whose label, while visible, shows its own card. */
  predicate HandInSync(o: CardObject)
  {
    o.data.Some? && (!ShowsBack(o) && o.text.Some? ==> o.text.value == o.data.value.cardName)
  }

  /** A public card whose visible label and face binding show its own card,
      and that awaits a refresh while face down. */
  predicate PublicInSync(o: CardObject)
  {
    HandInSync(o)
    && (o.face.Some? ==> o.face.value.binding == o.data && (o.face.value.showingBack ==> o.face.value.needRefresh))
  }

  /** A swap keeps both cards in sync, and swapping the same pair back
      restores both cards exactly, labels included. */
  lemma SwapTwiceRestores(h: CardObject, p: CardObject)
    requires HandInSync(h) && PublicInSync(p)
    ensures HandInSync(SwappedHand(h, p)) && PublicInSync(SwappedPublic(h, p))
    ensures SwappedHand(SwappedHand(h, p), SwappedPublic(h, p)) == h
    ensures SwappedPublic(SwappedHand(h, p), SwappedPublic(h, p)) == p
  {
  }

  class SwapCardHandPublic {
    const cardDeckSystem: CardDeckSystem
    var isSwapMode: bool
    var selectedHandCard: Option<nat>
    var selectedPublicCard: Option<nat>
    var isSwapping: bool
    var interactable: bool
    /** Whether the cards' click listeners point at the selection handlers. */
    var cardsClickable: bool

    /** Selections name cards that are on the table. */
    predicate Valid()
      reads this, cardDeckSystem
    {
      (selectedHandCard.Some? ==> selectedHandCard.value < |cardDeckSystem.playerCardObjects|)
      && (selectedPublicCard.Some? ==> selectedPublicCard.value < |cardDeckSystem.publicCardObjects|)
    }

    constructor (cardDeckSystem: CardDeckSystem)
      ensures this.cardDeckSystem == cardDeckSystem && !isSwapMode && !isSwapping && !cardsClickable
      ensures selectedHandCard.None? && selectedPublicCard.None? && !interactable
      ensures Valid()
    {
      this.cardDeckSystem := cardDeckSystem;
      isSwapMode, isSwapping, interactable, cardsClickable := false, false, false, false;
      selectedHandCard, selectedPublicCard := None, None;
    }

    /** The swap button is enabled in a round with a hand card and a public
        card on the table. */
    method UpdateSwapButtonInteractable()
      modifies this`interactable
      ensures interactable <==> cardDeckSystem.isInRound && cardDeckSystem.PlayerCardCount() > 0
                                && |cardDeckSystem.publicCardObjects| > 0
    {
      interactable := cardDeckSystem.isInRound && cardDeckSystem.PlayerCardCount() > 0
                      && |cardDeckSystem.publicCardObjects| > 0;
    }

    method ResetSelectState()
      modifies this`selectedHandCard, this`selectedPublicCard, this`isSwapping
      ensures selectedHandCard.None? && selectedPublicCard.None? && !isSwapping
      ensures Valid()
    {
      selectedHandCard := None;
      selectedPublicCard := None;
      isSwapping := false;
    }

    method SetCardClickable(isClickable: bool)
      modifies this`cardsClickable
      ensures cardsClickable == isClickable
    {
      cardsClickable := isClickable;
    }

    /** Outside a round nothing happens; otherwise the mode flips and both
        selections are cleared. */
    method ToggleSwapMode()
      modifies this`isSwapMode, this`selectedHandCard, this`selectedPublicCard, this`isSwapping, this`cardsClickable
      ensures !cardDeckSystem.isInRound ==>
        isSwapMode == old(isSwapMode) && selectedHandCard == old(selectedHandCard)
        && selectedPublicCard == old(selectedPublicCard) && isSwapping == old(isSwapping)
        && cardsClickable == old(cardsClickable)
      ensures cardDeckSystem.isInRound ==>
        isSwapMode == !old(isSwapMode) && selectedHandCard.None? && selectedPublicCard.None?
        && !isSwapping && cardsClickable == isSwapMode
      ensures old(Valid()) ==> Valid()
    {
      if !cardDeckSystem.isInRound {
        return;
      }
      isSwapMode := !isSwapMode;
      if isSwapMode {
        ResetSelectState();
        SetCardClickable(true);
      } else {
        ResetSelectState();
        SetCardClickable(false);
      }
    }

    /** Refused while a swap runs or once a public card is chosen; otherwise
        the clicked hand card becomes the selection. */
    method SelectHandCard(handCard: nat)
      requires handCard < |cardDeckSystem.playerCardObjects| && Valid()
      modifies this`selectedHandCard
      ensures Valid()
      ensures isSwapping || selectedPublicCard.Some? ==> selectedHandCard == old(selectedHandCard)
      ensures !isSwapping && selectedPublicCard.None? ==> selectedHandCard == Some(handCard)
    {
      if isSwapping || selectedPublicCard.Some? {
        return;
      }
      selectedHandCard := Some(handCard);
    }

    /** Accepted only with a hand card chosen, no public card chosen and no
        swap running; then the swap is triggered. */
    method SelectPublicCard(publicCard: nat)
      requires publicCard < |cardDeckSystem.publicCardObjects| && Valid()
      modifies this, cardDeckSystem`playerCardObjects, cardDeckSystem`publicCardObjects
      ensures Valid()
      ensures old(isSwapping) || old(selectedHandCard).None? || old(selectedPublicCard).Some? ==>
        unchanged(this) && unchanged(cardDeckSystem)
      ensures !old(isSwapping) && old(selectedHandCard).Some? && old(selectedPublicCard).None? ==>
        SwapOutcome(old(cardDeckSystem.playerCardObjects), old(cardDeckSystem.publicCardObjects),
                    old(selectedHandCard).value, publicCard, old(isSwapMode))
    {
      if isSwapping || selectedHandCard.None? || selectedPublicCard.Some? {
        return;
      }
      selectedPublicCard := Some(publicCard);
      TriggerCardValueSwap();
    }

    /** What a triggered swap of hand card hi and public card pi leaves
        behind. With data on both cards they exchange it, the selections are
        cleared and the mode is toggled (off, in a round); with data missing
        nothing is exchanged and the selections stay. The swap flag ends
        false either way. */
    twostate predicate SwapOutcome(player: seq<CardObject>, public: seq<CardObject>, hi: nat, pi: nat, mode: bool)
      reads this, cardDeckSystem
    {
      hi < |player| && pi < |public|
      && !isSwapping && Valid()
      && interactable == old(interactable)
      && var h := player[hi];
         var p := public[pi];
         if h.data.None? || p.data.None? then
           cardDeckSystem.playerCardObjects == player && cardDeckSystem.publicCardObjects == public
           && selectedHandCard == Some(hi) && selectedPublicCard == Some(pi)
           && isSwapMode == mode && cardsClickable == old(cardsClickable)
         else
           cardDeckSystem.playerCardObjects == player[hi := SwappedHand(h, p)]
           && cardDeckSystem.publicCardObjects == public[pi := SwappedPublic(h, p)]
           && selectedHandCard.None? && selectedPublicCard.None?
           && isSwapMode == (if cardDeckSystem.isInRound then !mode else mode)
           && (cardDeckSystem.isInRound ==> cardsClickable == isSwapMode)
           && (!cardDeckSystem.isInRound ==> cardsClickable == old(cardsClickable))
    }

    method TriggerCardValueSwap()
      requires Valid()
      modifies this, cardDeckSystem`playerCardObjects, cardDeckSystem`publicCardObjects
      ensures old(isSwapping) || old(selectedHandCard).None? || old(selectedPublicCard).None? ==>
        unchanged(this) && unchanged(cardDeckSystem)
      ensures !old(isSwapping) && old(selectedHandCard).Some? && old(selectedPublicCard).Some? ==>
        SwapOutcome(old(cardDeckSystem.playerCardObjects), old(cardDeckSystem.publicCardObjects),
                    old(selectedHandCard).value, old(selectedPublicCard).value, old(isSwapMode))
      ensures Valid()
    {
      if isSwapping || selectedHandCard.None? || selectedPublicCard.None? {
        return;
      }
      isSwapping := true;
      var hi := selectedHandCard.value;
      var pi := selectedPublicCard.value;
      var handCard := cardDeckSystem.playerCardObjects[hi];
      var publicCard := cardDeckSystem.publicCardObjects[pi];
      if handCard.data.None? || publicCard.data.None? {
        isSwapping := false;
        return;
      }
      cardDeckSystem.playerCardObjects := cardDeckSystem.playerCardObjects[hi := SwappedHand(handCard, publicCard)];
      cardDeckSystem.publicCardObjects := cardDeckSystem.publicCardObjects[pi := SwappedPublic(handCard, publicCard)];
      ResetSelectState();
      ToggleSwapMode();
      isSwapping := false;
    }
  }
}
