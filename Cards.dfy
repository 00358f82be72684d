/** Card data of the poker table: suits, ranks with the integer values every
    comparison uses, the PlayingCard record, and the card objects that sit in
    the hand, enemy and public areas. */
module Cards {
  import opened Optional

  datatype CardSuit = Spade | Heart | Club | Diamond

  /** The ranks in enum declaration order; their integers are given by RankValue. */
  datatype CardRank =
    | Ace | Two | Three | Four | Five | Six | Seven
    | Eight | Nine | Ten | Jack | Queen | King | Joker

  /** The integer behind each CardRank member: Three..King are 3..13,
      Ace is 14, Two is 15 and Joker is 16. */
  function RankValue(r: CardRank): (v: int)
    ensures 3 <= v <= 16
    ensures v == 14 <==> r == Ace
    ensures v == 15 <==> r == Two
    ensures v == 16 <==> r == Joker
  {
    match r
    case Ace => 14
    case Two => 15
    case Three => 3
    case Four => 4
    case Five => 5
    case Six => 6
    case Seven => 7
    case Eight => 8
    case Nine => 9
    case Ten => 10
    case Jack => 11
    case Queen => 12
    case King => 13
    case Joker => 16
  }

  /** Casting an integer back to CardRank: the inverse of RankValue on 3..16. */
  function RankOfValue(v: int): (r: Option<CardRank>)
    ensures r.Some? <==> 3 <= v <= 16
    ensures r.Some? ==> RankValue(r.value) == v
  {
    match v
    case 3 => Some(Three)
    case 4 => Some(Four)
    case 5 => Some(Five)
    case 6 => Some(Six)
    case 7 => Some(Seven)
    case 8 => Some(Eight)
    case 9 => Some(Nine)
    case 10 => Some(Ten)
    case 11 => Some(Jack)
    case 12 => Some(Queen)
    case 13 => Some(King)
    case 14 => Some(Ace)
    case 15 => Some(Two)
    case 16 => Some(Joker)
    case _ => None
  }

  /** Distinct ranks have distinct integers, so ordering by the integer is a
      total order on ranks. */
  lemma RankValueInjective(a: CardRank, b: CardRank)
    ensures RankValue(a) == RankValue(b) ==> a == b
  {
    if RankValue(a) == RankValue(b) {
      assert RankOfValue(RankValue(a)) == Some(a);
      assert RankOfValue(RankValue(b)) == Some(b);
    }
  }

  /** The suit part of a card name. */
  function SuitName(s: CardSuit): (n: string)
    ensures |n| == 2
  {
    match s
    case Spade => "黑桃"
    case Heart => "红桃"
    case Club => "梅花"
    case Diamond => "方块"
  }

  /** The rank part of a card name. */
  function RankName(r: CardRank): (n: string)
    ensures 1 <= |n|
  {
    match r
    case Ace => "A"
    case Two => "2"
    case Three => "3"
    case Four => "4"
    case Five => "5"
    case Six => "6"
    case Seven => "7"
    case Eight => "8"
    case Nine => "9"
    case Ten => "10"
    case Jack => "J"
    case Queen => "Q"
    case King => "K"
    case Joker => "Joker"
  }

  datatype PlayingCard = PlayingCard(suit: CardSuit, rank: CardRank, cardName: string, rankValue: int)

  /** The display name a PlayingCard gets from its constructor. */
  function CardName(suit: CardSuit, rank: CardRank): string
  {
    if rank == Joker then RankName(rank) else SuitName(suit) + RankName(rank)
  }

  /** The PlayingCard constructor. */
  function NewPlayingCard(suit: CardSuit, rank: CardRank): (c: PlayingCard)
    ensures c.suit == suit && c.rank == rank
    ensures c.rankValue == RankValue(rank)
    ensures rank == Joker ==> c.cardName == "Joker"
    ensures rank != Joker ==> |c.cardName| >= 3 && c.cardName[..2] == SuitName(suit) && c.cardName[2..] == RankName(rank)
  {
    PlayingCard(suit, rank, CardName(suit, rank), RankValue(rank))
  }

  /** A card as its constructor built it. */
  ghost predicate WellFormed(c: PlayingCard)
  {
    c == NewPlayingCard(c.suit, c.rank)
  }

  /** Card names tell every non-Joker card apart: two constructed cards with the
      same name are the same card, unless both are Jokers (both Jokers are named
      "Joker" whatever their suit). */
  lemma CardNameDistinguishes(s1: CardSuit, r1: CardRank, s2: CardSuit, r2: CardRank)
    requires NewPlayingCard(s1, r1).cardName == NewPlayingCard(s2, r2).cardName
    ensures r1 == Joker <==> r2 == Joker
    ensures r1 != Joker ==> s1 == s2 && r1 == r2
  {
    var n := NewPlayingCard(s1, r1).cardName;
    if r1 != Joker && r2 != Joker {
      assert SuitName(s1) == n[..2] == SuitName(s2);
      assert RankName(r1) == n[2..] == RankName(r2);
    }
  }

  /** The face controller of a card object: the back-showing flag, the card
      data bound for display, and whether the display awaits a refresh. */
  datatype Face = Face(showingBack: bool, binding: Option<PlayingCard>, needRefresh: bool)

  /** A card object on the table: its CardDisplay data, its face controller and
      its Text label, each None when the component (or its value) is missing. */
  datatype CardObject = CardObject(data: Option<PlayingCard>, face: Option<Face>, text: Option<string>)

  predicate ShowsBack(o: CardObject)
  {
    o.face.Some? && o.face.value.showingBack
  }

  predicate ShowsFront(o: CardObject)
  {
    o.face.Some? && !o.face.value.showingBack
  }

  /** CardFaceController.ShowFrontFace on the controller of `o`, if it has one. */
  function TurnFaceUp(o: CardObject): (r: CardObject)
    ensures o.face.Some? ==> ShowsFront(r)
    ensures r.data == o.data && r.text == o.text && r.face.Some? == o.face.Some?
    ensures ShowsFront(o) ==> r == o
    ensures o.face.None? ==> r == o
  {
    if o.face.Some? then o.(face := Some(o.face.value.(showingBack := false))) else o
  }

  /** The card object SpawnSingleCard creates for `c`: public cards face down,
      hand cards face up, the label set to the card name. */
  function Spawn(c: PlayingCard, faceDown: bool): (o: CardObject)
    ensures o.data == Some(c) && o.face.Some? && o.text == Some(c.cardName)
    ensures ShowsBack(o) <==> faceDown
  {
    CardObject(Some(c), Some(Face(faceDown, None, false)), Some(c.cardName))
  }

  function SpawnAll(cs: seq<PlayingCard>, faceDown: bool): (os: seq<CardObject>)
    ensures |os| == |cs|
    ensures forall i :: 0 <= i < |cs| ==> os[i] == Spawn(cs[i], faceDown)
  {
    seq(|cs|, i requires 0 <= i < |cs| => Spawn(cs[i], faceDown))
  }

  /** The card data of a list of objects, skipping objects without data
      (GetCardDataFromObjects). */
  function DataOf(os: seq<CardObject>): (cs: seq<PlayingCard>)
    ensures |cs| <= |os|
    ensures forall c :: c in cs <==> exists o :: o in os && o.data == Some(c)
  {
    if os == [] then []
    else (if os[0].data.Some? then [os[0].data.value] else []) + DataOf(os[1..])
  }

  /** Collecting the data of spawned cards gives back the cards. */
  lemma {:induction false} DataOfSpawnAll(cs: seq<PlayingCard>, faceDown: bool)
    ensures DataOf(SpawnAll(cs, faceDown)) == cs
  {
    if cs != [] {
      assert SpawnAll(cs, faceDown)[1..] == SpawnAll(cs[1..], faceDown);
      DataOfSpawnAll(cs[1..], faceDown);
    }
  }

  /** The data of one object, as DataOf collects it. */
  function DataOfOne(o: CardObject): (cs: seq<PlayingCard>)
    ensures |cs| <= 1
  {
    if o.data.Some? then [o.data.value] else []
  }

  lemma DataOfCons(a: seq<CardObject>)
    requires a != []
    ensures DataOf(a) == DataOfOne(a[0]) + DataOf(a[1..])
  {
  }

  lemma {:induction false} DataOfAppend(a: seq<CardObject>, b: seq<CardObject>)
    ensures DataOf(a + b) == DataOf(a) + DataOf(b)
  {
    if a == [] {
      assert a + b == b;
    } else {
      var h := DataOfOne(a[0]);
      assert (a + b)[0] == a[0];
      assert (a + b)[1..] == a[1..] + b;
      DataOfCons(a + b);
      DataOfCons(a);
      DataOfAppend(a[1..], b);
      assert h + (DataOf(a[1..]) + DataOf(b)) == (h + DataOf(a[1..])) + DataOf(b);
    }
  }
}
