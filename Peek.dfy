/** PeekCardOverlayButton: a peek at the (at most two) public cards right
    after the last face-up one, shown as overlays copying their text. */
module Peek {
  import opened Optional
  import opened Cards
  import opened Deck

  /** The text CardFaceController.GetCardText falls back to ("unknown card"). */
  const UnknownCardText: string := "未知卡牌"

  /** GetCardText: the card name from the card data, else the label text,
      else the unknown-card text. */
  function CardText(o: CardObject): (t: string)
    ensures o.data.Some? ==> t == o.data.value.cardName
    ensures o.data.None? && o.text.None? ==> t == UnknownCardText
  {
    if o.data.Some? then o.data.value.cardName
    else if o.text.Some? then o.text.value
    else UnknownCardText
  }

  /** The index of the last public card showing its front, -1 if none. */
  function LastRevealed(os: seq<CardObject>): (r: int)
    ensures -1 <= r < |os|
    ensures r >= 0 ==> ShowsFront(os[r])
    decreases |os|
  {
    if os == [] then -1
    else if ShowsFront(os[|os| - 1]) then |os| - 1
    else LastRevealed(os[..|os| - 1])
  }

  /** No card after the one LastRevealed finds shows its front. */
  lemma {:induction false} LastRevealedIsLast(os: seq<CardObject>)
    ensures forall j :: LastRevealed(os) < j < |os| ==> !ShowsFront(os[j])
    decreases |os|
  {
    if os != [] && !ShowsFront(os[|os| - 1]) {
      LastRevealedIsLast(os[..|os| - 1]);
    }
  }

  /** HasPeekableCards: some card lies after the last face-up one. */
  predicate HasPeekable(os: seq<CardObject>)
  {
    |os| > 0 && LastRevealed(os) < |os| - 1
  }

  /** There is something to peek at exactly when the last public card does
      not show its front. */
  lemma HasPeekableIff(os: seq<CardObject>)
    ensures HasPeekable(os) <==> |os| > 0 && !ShowsFront(os[|os| - 1])
  {
    LastRevealedIsLast(os);
  }

  /** The peek window: it starts after the last face-up card and holds two
      cards, or one when only one is left, or none. */
  function PeekStart(os: seq<CardObject>): (s: int)
    ensures 0 <= s <= |os|
  {
    LastRevealed(os) + 1
  }

  function PeekCount(os: seq<CardObject>): (n: int)
    ensures 0 <= n <= 2 && PeekStart(os) + n <= |os|
    ensures n == Min(2, |os| - PeekStart(os))
  {
    var availableCount := |os| - PeekStart(os);
    if availableCount >= 2 then 2 else if availableCount >= 1 then 1 else 0
  }

  /** The window is empty exactly when there is nothing to peek at. */
  lemma PeekWindowEmptyIff(os: seq<CardObject>)
    ensures PeekCount(os) == 0 <==> !HasPeekable(os)
  {
  }

  /** An overlay copies the text of the public card at `index`. */
  datatype Overlay = Overlay(index: nat, text: string)

  /** A card gets an overlay when it has a face controller and known text. */
  predicate Copyable(o: CardObject)
  {
    o.face.Some? && CardText(o) != UnknownCardText
  }

  /** The overlay the window loop makes for index i, if any. */
  function OverlayAt(os: seq<CardObject>, i: int): seq<Overlay>
  {
    if 0 <= i < |os| && Copyable(os[i]) then [Overlay(i, CardText(os[i]))] else []
  }

  /** The overlays the window loop makes for indices lo up to hi. */
  function WindowOverlays(os: seq<CardObject>, lo: int, hi: int): (ov: seq<Overlay>)
    decreases hi - lo
  {
    if hi <= lo then [] else WindowOverlays(os, lo, hi - 1) + OverlayAt(os, hi - 1)
  }

  /** The overlays of a peek: one window after the last face-up card. */
  function PeekOverlays(os: seq<CardObject>): seq<Overlay>
  {
    WindowOverlays(os, PeekStart(os), PeekStart(os) + PeekCount(os))
  }

  /** At most one overlay per index of the window. */
  lemma {:induction false} WindowOverlaysLength(os: seq<CardObject>, lo: int, hi: int)
    ensures |WindowOverlays(os, lo, hi)| <= if hi <= lo then 0 else hi - lo
    decreases hi - lo
  {
    if hi > lo {
      WindowOverlaysLength(os, lo, hi - 1);
    }
  }

  /** Each overlay is for a copyable card of the window and shows that
      card's text. */
  lemma {:induction false} WindowOverlaysBounds(os: seq<CardObject>, lo: int, hi: int, k: int)
    requires 0 <= k < |WindowOverlays(os, lo, hi)|
    ensures var o := WindowOverlays(os, lo, hi)[k];
      lo <= o.index < hi && o.index < |os| && Copyable(os[o.index]) && o.text == CardText(os[o.index])
    decreases hi - lo
  {
    var prev := WindowOverlays(os, lo, hi - 1);
    if k < |prev| {
      WindowOverlaysBounds(os, lo, hi - 1, k);
    }
  }

  /** Past the end of the list the window adds nothing. */
  lemma {:induction false} WindowPastEnd(os: seq<CardObject>, lo: int, i: int, hi: int)
    requires lo <= i <= hi && |os| <= i
    ensures WindowOverlays(os, lo, hi) == WindowOverlays(os, lo, i)
    decreases hi - i
  {
    if i < hi {
      WindowPastEnd(os, lo, i, hi - 1);
    }
  }

  /** The for loop of CreatePeekOverlays over the window of `peekCount`
      cards from `peekStartIndex`. */
  method WindowLoop(publicCards: seq<CardObject>, peekStartIndex: int, peekCount: int) returns (made: seq<Overlay>)
    requires 0 <= peekStartIndex && 0 <= peekCount
    ensures made == WindowOverlays(publicCards, peekStartIndex, peekStartIndex + peekCount)
  {
    made := [];
    var i := peekStartIndex;
    while i < peekStartIndex + peekCount
      invariant peekStartIndex <= i <= peekStartIndex + peekCount
      invariant made == WindowOverlays(publicCards, peekStartIndex, i)
    {
      if i >= |publicCards| {
        break;
      }
      var originCard := publicCards[i];
      if originCard.face.None? || CardText(originCard) == UnknownCardText {
        i := i + 1;
        continue;
      }
      made := made + [Overlay(i, CardText(originCard))];
      i := i + 1;
    }
    if i < peekStartIndex + peekCount {
      WindowPastEnd(publicCards, peekStartIndex, i, peekStartIndex + peekCount);
    }
  }

  class PeekCardOverlayButton {
    const cardDeckSystem: CardDeckSystem
    var isPeeking: bool
    var overlayList: seq<Overlay>
    var interactable: bool

    /** Overlays exist only while peeking, and then for one window. */
    predicate Valid()
      reads this
    {
      (!isPeeking ==> overlayList == []) && |overlayList| <= 2
    }

    constructor (cardDeckSystem: CardDeckSystem)
      ensures this.cardDeckSystem == cardDeckSystem && !isPeeking && overlayList == [] && !interactable
      ensures Valid()
    {
      this.cardDeckSystem := cardDeckSystem;
      isPeeking := false;
      overlayList := [];
      interactable := false;
    }

    method GetLastRevealedCardIndex() returns (lastRevealedIndex: int)
      ensures lastRevealedIndex == LastRevealed(cardDeckSystem.publicCardObjects)
    {
      var publicCards := cardDeckSystem.publicCardObjects;
      lastRevealedIndex := -1;
      var i := 0;
      while i < |publicCards|
        invariant 0 <= i <= |publicCards|
        invariant lastRevealedIndex == LastRevealed(publicCards[..i])
      {
        assert publicCards[..i + 1][..i] == publicCards[..i];
        var ctrl := publicCards[i].face;
        if ctrl.Some? && !ctrl.value.showingBack {
          lastRevealedIndex := i;
        }
        i := i + 1;
      }
      assert publicCards[..i] == publicCards;
    }

    method HasPeekableCards() returns (b: bool)
      ensures b == HasPeekable(cardDeckSystem.publicCardObjects)
    {
      var publicCards := cardDeckSystem.publicCardObjects;
      if |publicCards| == 0 {
        return false;
      }
      var lastRevealedIndex := GetLastRevealedCardIndex();
      b := lastRevealedIndex < |publicCards| - 1;
    }

    /** The button is enabled in a round with something to peek at. */
    method UpdateButtonState()
      modifies this`interactable
      ensures interactable == (cardDeckSystem.isInRound && HasPeekable(cardDeckSystem.publicCardObjects))
    {
      var isInRound := cardDeckSystem.isInRound;
      var hasPeekableCards := HasPeekableCards();
      interactable := isInRound && hasPeekableCards;
    }

    /** Adds an overlay for each copyable card of the window; with an empty
        window it stops peeking instead. */
    method CreatePeekOverlays()
      modifies this`isPeeking, this`overlayList, this`interactable
      ensures var os := cardDeckSystem.publicCardObjects;
        if |os| == 0 then
          isPeeking == old(isPeeking) && overlayList == old(overlayList) && interactable == old(interactable)
        else if PeekCount(os) == 0 then
          !isPeeking && overlayList == old(overlayList)
          && interactable == (cardDeckSystem.isInRound && HasPeekable(os))
        else
          isPeeking == old(isPeeking) && interactable == old(interactable)
          && overlayList == old(overlayList) + PeekOverlays(os)
    {
      var publicCards := cardDeckSystem.publicCardObjects;
      if |publicCards| == 0 {
        return;
      }
      var lastRevealedIndex := GetLastRevealedCardIndex();
      var peekStartIndex := lastRevealedIndex + 1;
      var availableCount := |publicCards| - peekStartIndex;
      var peekCount := if availableCount >= 2 then 2 else if availableCount >= 1 then 1 else 0;
      if peekCount == 0 {
        isPeeking := false;
        UpdateButtonState();
        return;
      }
      var made := WindowLoop(publicCards, peekStartIndex, peekCount);
      overlayList := overlayList + made;
    }

    /** Removes every overlay. */
    method DestroyPeekOverlays()
      modifies this`overlayList
      ensures overlayList == []
    {
      overlayList := [];
    }

    /** Switches peeking on (making the window's overlays) or off (removing
        them). With no public cards at all, peeking is switched on and no
        overlay is made. */
    method TogglePeek()
      requires Valid()
      modifies this`isPeeking, this`overlayList, this`interactable
      ensures Valid()
      ensures old(isPeeking) ==> !isPeeking && overlayList == []
      ensures !old(isPeeking) ==> var os := cardDeckSystem.publicCardObjects;
        (isPeeking <==> |os| == 0 || HasPeekable(os))
        && overlayList == (if HasPeekable(os) then PeekOverlays(os) else [])
      ensures old(isPeeking) ==> interactable == old(interactable)
      ensures !old(isPeeking) ==> var os := cardDeckSystem.publicCardObjects;
        if |os| > 0 && !HasPeekable(os) then !interactable else interactable == old(interactable)
    {
      isPeeking := !isPeeking;
      if isPeeking {
        var os := cardDeckSystem.publicCardObjects;
        PeekWindowEmptyIff(os);
        WindowOverlaysLength(os, PeekStart(os), PeekStart(os) + PeekCount(os));
        CreatePeekOverlays();
      } else {
        DestroyPeekOverlays();
      }
    }

    method OnRoundEnd()
      modifies this`isPeeking, this`overlayList
      ensures !isPeeking && overlayList == [] && Valid()
    {
      isPeeking := false;
      DestroyPeekOverlays();
    }
  }

  /** Overlays only show cards after the last face-up one: at most two, each
      a card the player cannot otherwise see the front of. */
  lemma PeekOnlyHidden(os: seq<CardObject>, k: int)
    requires HasPeekable(os)
    requires 0 <= k < |PeekOverlays(os)|
    ensures |PeekOverlays(os)| <= 2
    ensures var o := PeekOverlays(os)[k];
      LastRevealed(os) < o.index <= LastRevealed(os) + 2 && o.index < |os| && !ShowsFront(os[o.index])
  {
    WindowOverlaysLength(os, PeekStart(os), PeekStart(os) + PeekCount(os));
    WindowOverlaysBounds(os, PeekStart(os), PeekStart(os) + PeekCount(os), k);
    LastRevealedIsLast(os);
  }
}
