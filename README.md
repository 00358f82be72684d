# MaskCard card table, modelled in Dafny

MaskCard is a Unity poker game: a heads-up, Texas-style table between the
player and an automated enemy, with extra card tricks (peeking at, swapping
and deleting cards). This project models the game's table rules and proves
what they guarantee.

- **Judge** (`HandRank`, `HandEval`, `Subsets`, `Judge`, `HandCases`). This
  is the hand evaluator. It sorts the cards and lists every five-card
  combination in the evaluator's own order. It classifies each combination
  first-match, from RoyalFlush down to HighCard. It keeps the best one under
  "type first, then score", and the last of equal hands wins. The model
  proves:
  - the classification agrees with an independent category definition;
  - each branch keeps exactly its five input cards;
  - each branch's score formula;
  - the best hand beats every combination;
  - the combination list has exactly C(n, 5) members, sound and complete.
- **BetManager** (`Betting`). The chip ledger: forced bet, doubling raise,
  call, fold and settlement, with the pot, stake and event guarantees.
- **CardDeckSystem** (`Cards`, `Deck`). The 54-card deck with its names and
  rank values, and the Fisher–Yates shuffle with its swap indices given as a
  parameter. The model also covers dealing, drawing, ending a round and
  removing a card.
- **PublicCardRevealButton** (`Reveal`) and **BetCardSystemBridge**
  (`Bridge`). These turn the public cards face up, by stage (3, 1, 1) and by
  betting phase.
- **PeekCardOverlayButton** (`Peek`), **SwapCardHandPublic** (`Swap`) and
  **CardDeleteButton** (`Delete`). These are the selection state machines of
  the card tricks.
- **EnemyHealthSystem** (`EnemyHealth`) and **EnemyBetAI** (`EnemyAI`).
  These cover the enemy's saturating health counter, its turn guard and its
  one-raise-per-phase throttle.

Unity objects become values or fields:
- A card GameObject is a `CardObject` value. It optionally carries card data,
  a face controller (the `_isShowingBack` flag and the data it binds) and a
  label text.
- The scene's card lists are `seq` fields of the `CardDeckSystem` class.
- A selected card is an index into one of those lists.
- A null list passed to the Judge is `None`.
- Randomness is a parameter: the shuffle's swap indices and the enemy's
  policy answer.
- A coroutine waiting on a delay is a pending flag. Its resumption is a
  method of its own.

Behaviour of the code worth noting:
- BetManager.cs has no turn ownership, funds check, all-in or phase
  machine. Raises and calls always go through, and chips may go negative.
- Every raise doubles the maximum contribution. With the shipped bet of 1,
  the 31st raise of a round reaches 2^31, past the range of C#'s `int`
  (`Betting.ThirtyFirstRaisePassesInt32`).
- Two has rank value 15, so J-Q-K-A-2 is a straight. A-2-3-4-5 is not.
- Scores use fixed decimal weights. A Two (15) or a Joker (16) kicker can
  therefore outweigh a higher triple, quad or pair within the same hand type.
  `HandCases` proves concrete instances of this.
- The single-hand evaluator scores a full house with whatever card the
  input order puts fifth, so called directly it gives two orderings of the
  same five cards different scores (`HandCases.FullHouseDependsOnOrder`).
  The public entry points (GetBestCard, GetHandType, EvaluateBestHand) sort
  the cards in descending order first. Every hand they evaluate is therefore
  descending, and a full house always scores with its lower rank
  (`Judge.EvaluatedFullHouseScore`).
- Swapping a face-down public card leaves its label showing the old card.
  The relabel looks the label up with `GetComponentInChildren`, which skips
  the label that a face-down card has deactivated. Turning the card face up
  later shows that old label (`Swap.FaceDownSwapKeepsOldLabel`).
- Any list of five or more cards is evaluated, not only seven-card lists.

## Model

| member | source | states |
|---|---|---|
| Cards.RankValue | MaskCard/Assets/CardSystem/CardDeckSystem.cs:15-21 | rank values lie in 3..16; 14 exactly for Ace, 15 exactly for Two, 16 exactly for Joker |
| Cards.RankOfValue | MaskCard/Assets/CardSystem/CardDeckSystem.cs:15-21 | a value names a rank exactly when it lies in 3..16, and then that rank's value is the given value (inverse of RankValue) |
| Cards.RankValueInjective | MaskCard/Assets/CardSystem/CardDeckSystem.cs:15-21 | distinct ranks have distinct values |
| Cards.SuitName | MaskCard/Assets/CardSystem/CardDeckSystem.cs:37-44 | every suit string is two characters long |
| Cards.RankName | MaskCard/Assets/CardSystem/CardDeckSystem.cs:46-63 | every rank string is non-empty |
| Cards.NewPlayingCard | MaskCard/Assets/CardSystem/CardDeckSystem.cs:31-73 | the card keeps its suit and rank, its rankValue is the rank's enum value, and its name is "Joker" for a Joker and otherwise the suit string followed by the rank string |
| Cards.CardNameDistinguishes | MaskCard/Assets/CardSystem/CardDeckSystem.cs:65-72 | two cards with the same name are both Jokers, or both not Jokers with the same suit and rank |
| Cards.TurnFaceUp | MaskCard/Assets/CardSystem/CardFaceController.cs:67-71 | a card with a face controller ends face up; data and text are kept; a face-up card or one without a controller is unchanged |
| Cards.Spawn | MaskCard/Assets/CardSystem/CardDeckSystem.cs:246-300 | a spawned object carries the card's data, a face controller and the card's name as label, face down exactly when asked |
| Cards.SpawnAll | MaskCard/Assets/CardSystem/CardDeckSystem.cs:246-300 | one spawned object per card, in order |
| Cards.DataOf | MaskCard/Assets/CardSystem/CardDeckSystem.cs:406-419 | collecting the card data never yields more entries than objects, and a card is collected exactly when some object carries it |
| Cards.DataOfSpawnAll | MaskCard/Assets/CardSystem/CardDeckSystem.cs:406-419 | collecting the data of spawned cards gives back exactly the dealt cards |
| Cards.DataOfAppend | MaskCard/Assets/CardSystem/CardDeckSystem.cs:406-419 | the data of two concatenated lists is the concatenation of their data |
| Deck.FullDeck | MaskCard/Assets/CardSystem/CardDeckSystem.cs:125-147 | the initial deck holds 54 cards |
| Deck.DeckCardAtInjective | MaskCard/Assets/CardSystem/CardDeckSystem.cs:125-147 | no two deck positions hold the same card |
| Deck.DeckCardAtNormal | MaskCard/Assets/CardSystem/CardDeckSystem.cs:127-141 | position 13·s + r holds suit s with normal rank r (suits in enum order, ranks Ace, Two, Three..King) |
| Deck.InDeckOrderJokers | MaskCard/Assets/CardSystem/CardDeckSystem.cs:143-144 | the 52 normal cards followed by the Spade Joker and the Heart Joker form the full deck |
| Deck.FullDeckDistinct | MaskCard/Assets/CardSystem/CardDeckSystem.cs:125-147 | the 54 cards are pairwise distinct |
| Deck.FullDeckContents | MaskCard/Assets/CardSystem/CardDeckSystem.cs:125-147 | a card is in the deck exactly when it is a properly constructed card whose Joker, if it is one, is a Spade or Heart Joker |
| Deck.Exchange | MaskCard/Assets/CardSystem/CardDeckSystem.cs:426 | the two positions trade contents and every other position is unchanged |
| Deck.ExchangePermutes | MaskCard/Assets/CardSystem/CardDeckSystem.cs:426 | one exchange keeps the multiset of cards |
| Deck.ShuffleStepsPermutes | MaskCard/Assets/CardSystem/CardDeckSystem.cs:421-429 | any number of shuffle steps, for any swap indices in [0, i], keeps the length and the multiset |
| Deck.ShufflePermutes | MaskCard/Assets/CardSystem/CardDeckSystem.cs:421-429 | the finished shuffle is a permutation of its input, whatever swap indices are drawn |
| Deck.DealtSlices | MaskCard/Assets/CardSystem/CardDeckSystem.cs:157-198 | the remaining deck plus the three dealt hands is the multiset of the deck before dealing |
| Deck.CardDeckSystem.constructor | MaskCard/Assets/CardSystem/CardDeckSystem.cs:79-91 | a new table has an empty deck, empty card lists and no round |
| Deck.CardDeckSystem.Start | MaskCard/Assets/CardSystem/CardDeckSystem.cs:108-111 | the deck becomes a shuffle of the 54-card deck, so a permutation of it |
| Deck.CardDeckSystem.InitializeCardDeck | MaskCard/Assets/CardSystem/CardDeckSystem.cs:125-147 | the deck is the 54-card deck in construction order |
| Deck.CardDeckSystem.ClearAllCardObjects | MaskCard/Assets/CardSystem/CardDeckSystem.cs:387-404 | all three on-table lists are empty |
| Deck.CardDeckSystem.DrawCardsFromDeck | MaskCard/Assets/CardSystem/CardDeckSystem.cs:373-385 | min(drawCount, deck size) cards, never a negative number, move in order from the front of the deck to the end of the target |
| Deck.CardDeckSystem.StartNewRound | MaskCard/Assets/CardSystem/CardDeckSystem.cs:157-198 | the table is cleared first; with fewer than 9 cards nothing else changes; otherwise 2 cards go face up to the player, 5 face down to the board and 2 face up to the enemy, the deck loses those 9 and the round starts; deck plus table keeps the multiset |
| Deck.CardDeckSystem.EndCurrentRound | MaskCard/Assets/CardSystem/CardDeckSystem.cs:200-220 | every on-table card returns to the deck, which is then shuffled, so deck plus table keeps its multiset; the table is cleared and the round ends |
| Deck.CardDeckSystem.DrawOneCardToPlayerHand | MaskCard/Assets/CardSystem/CardDeckSystem.cs:222-244 | outside a round or with an empty deck it returns nothing and changes nothing; otherwise it returns the top card, removes it from the deck and adds it face up to the player's hand |
| Deck.CardDeckSystem.RemovePlayerCard | MaskCard/Assets/CardSystem/CardDeckSystem.cs:303-310 | the card at the given index leaves the player list and the others keep their order; an index outside the list changes nothing |
| Deck.CardDeckSystem.RemovePublicCard | MaskCard/Assets/CardSystem/CardDeleteButton.cs:153 | the public card at the given index leaves the board and the others keep their order; an index outside the list changes nothing |
| Deck.CardDeckSystem.ShuffleDeck | MaskCard/Assets/CardSystem/CardDeckSystem.cs:421-429 | the deck becomes a permutation of itself |
| Deck.DealAndReturn | MaskCard/Assets/CardSystem/CardDeckSystem.cs:157-220 | starting a round on an empty table and then ending it gives back a deck with the same multiset of cards, and the round is over |
| HandRank.Rank | MaskCard/Assets/Scripts/Judge.cs:99 | a card's comparison rank lies in 3..16 |
| HandRank.InsertByMembers | MaskCard/Assets/Scripts/Judge.cs:99 | inserting into a sorted list adds exactly the new card |
| HandRank.InsertBySorted | MaskCard/Assets/Scripts/Judge.cs:99 | inserting into an ordered list keeps it ordered |
| HandRank.SortByProperties | MaskCard/Assets/Scripts/Judge.cs:99 | the key sort is ordered by key and is a permutation of its input |
| HandRank.SortDescProperties | MaskCard/Assets/Scripts/Judge.cs:99 | OrderByDescending(rank) gives a descending permutation |
| HandRank.SortAscProperties | MaskCard/Assets/Scripts/Judge.cs:122 | OrderBy(rank) gives an ascending permutation |
| HandRank.Take | MaskCard/Assets/Scripts/Judge.cs:146 | Take(n) is the prefix of length min(n, size) |
| HandRank.WithRanks | MaskCard/Assets/Scripts/Judge.cs:155 | the filter keeps only input cards whose rank is in the set |
| HandRank.WithoutRanks | MaskCard/Assets/Scripts/Judge.cs:146 | the filter keeps only input cards whose rank is outside the set |
| HandRank.FilterPartition | MaskCard/Assets/Scripts/Judge.cs:146-155 | the two filters split the cards: sizes add up and multisets add up to the input |
| HandRank.FilterMember | MaskCard/Assets/Scripts/Judge.cs:146-155 | every input card reaches the filter its rank selects |
| HandRank.WithRanksUnion | MaskCard/Assets/Scripts/Judge.cs:155 | filtering by two disjoint rank sets together is filtering by each and joining the results |
| HandRank.CountPositive | MaskCard/Assets/Scripts/Judge.cs:123 | a rank has a positive count exactly when some card has it |
| HandRank.TwoCounts | MaskCard/Assets/Scripts/Judge.cs:155 | the counts of two distinct ranks add up to the size of their joint filter, at most the hand size |
| HandRank.RankList | MaskCard/Assets/Scripts/Judge.cs:128 | the rank list has one entry per card, in order |
| HandRank.Dedup | MaskCard/Assets/Scripts/Judge.cs:128 | Distinct keeps exactly the values that occur |
| HandRank.DedupDistinct | MaskCard/Assets/Scripts/Judge.cs:128 | Distinct leaves no repeated value |
| HandRank.SortByDistinct | MaskCard/Assets/Scripts/Judge.cs:128 | sorting a repetition-free list keeps it repetition-free |
| HandRank.RanksAscProperties | MaskCard/Assets/Scripts/Judge.cs:128 | the distinct ranks in ascending order are strictly increasing and are exactly the ranks present |
| HandRank.GroupKeyOrder | MaskCard/Assets/Scripts/Judge.cs:123-126 | one group key is above another exactly when its count is larger, or the counts are equal and its rank is higher |
| HandRank.GroupOrderProperties | MaskCard/Assets/Scripts/Judge.cs:123-126 | there is one group per rank present, ordered by count descending and then by rank descending |
| HandEval.TypeValue | MaskCard/Assets/Scripts/Judge.cs:8-51 | hand-type values lie in 0..9 |
| HandEval.TypeValueInjective | MaskCard/Assets/Scripts/Judge.cs:8-51 | distinct hand types have distinct values |
| HandEval.StraightIff | MaskCard/Assets/Scripts/Judge.cs:206-216 | IsStraight over the distinct ascending ranks holds exactly when the ranks present are five consecutive values |
| HandEval.RoyalIff | MaskCard/Assets/Scripts/Judge.cs:137 | for a straight, max 14 and min 10 holds exactly when the ranks are 10..14 |
| HandEval.FlushIff | MaskCard/Assets/Scripts/Judge.cs:131 | the flush test holds exactly when all cards share one suit |
| HandEval.GroupShape | MaskCard/Assets/Scripts/Judge.cs:123-126 | for five cards the first group has the largest count and the second group the largest count among the other ranks; with one group no other rank occurs |
| HandEval.FourIff | MaskCard/Assets/Scripts/Judge.cs:143 | the first group has four cards exactly when some rank occurs four times |
| HandEval.FullHouseIff | MaskCard/Assets/Scripts/Judge.cs:151 | the full-house test holds exactly when one rank occurs three times and another twice |
| HandEval.ThreeIff | MaskCard/Assets/Scripts/Judge.cs:172 | the first group has three cards exactly when some rank occurs three times |
| HandEval.TwoPairIff | MaskCard/Assets/Scripts/Judge.cs:180 | the two-pair test holds exactly when two distinct ranks occur twice each |
| HandEval.OnePairIff | MaskCard/Assets/Scripts/Judge.cs:190 | without trips or quads, the first group is a pair exactly when some rank occurs twice |
| HandEval.EvaluateCategory | MaskCard/Assets/Scripts/Judge.cs:120-201 | the first-match classification equals an independent category definition: royal or straight flush, quads, full house, flush, straight, trips, two pair, pair, high card |
| HandEval.FourKeeps | MaskCard/Assets/Scripts/Judge.cs:145-148 | the quads branch returns exactly the five input cards |
| HandEval.FullHouseKeeps | MaskCard/Assets/Scripts/Judge.cs:153-156 | the full-house branch returns exactly the five input cards |
| HandEval.ThreeKeeps | MaskCard/Assets/Scripts/Judge.cs:174-177 | the trips branch returns exactly the five input cards |
| HandEval.TwoPairKeeps | MaskCard/Assets/Scripts/Judge.cs:182-187 | the two-pair branch returns exactly the five input cards |
| HandEval.OnePairKeeps | MaskCard/Assets/Scripts/Judge.cs:192-195 | the pair branch returns exactly the five input cards |
| HandEval.EvaluateKeepsCards | MaskCard/Assets/Scripts/Judge.cs:143-200 | in every branch the result holds five cards whose multiset is the input's |
| HandEval.StraightScore | MaskCard/Assets/Scripts/Judge.cs:137-169 | a straight, straight flush or royal flush scores its highest rank |
| HandEval.FourOfAKindScore | MaskCard/Assets/Scripts/Judge.cs:145-148 | quads score quad rank × 10 + the kicker's rank |
| HandEval.FullHouseScore | MaskCard/Assets/Scripts/Judge.cs:153-156 | a full house scores triple × 1000 + pair × 10 + the rank of the fifth input card |
| HandEval.DescendingFullHouseScore | MaskCard/Assets/Scripts/Judge.cs:151-157 | a full house given in descending order scores triple × 1000 + pair × 10 + the lower of the two ranks |
| HandEval.FlushScore | MaskCard/Assets/Scripts/Judge.cs:161-162 | a flush scores its ranks in descending order weighted 10000, 1000, 100, 10, 1 |
| HandEval.FiveWeightLexicographic | MaskCard/Assets/Scripts/Judge.cs:162 | for distinct descending ranks the flush weight orders hands lexicographically |
| HandEval.ThreeOfAKindScore | MaskCard/Assets/Scripts/Judge.cs:174-177 | trips score triple × 10 + the best kicker |
| HandEval.TwoPairResultScore | MaskCard/Assets/Scripts/Judge.cs:182-187 | the two-pair formula is first pair × 100 + second pair × 10 + the lone kicker |
| HandEval.TwoPairScore | MaskCard/Assets/Scripts/Judge.cs:180-187 | two pair score high pair × 100 + low pair × 10 + kicker |
| HandEval.OnePairScore | MaskCard/Assets/Scripts/Judge.cs:192-195 | one pair scores only the pair rank, so kickers never break ties |
| HandEval.HighCardScore | MaskCard/Assets/Scripts/Judge.cs:199-200 | a high-card hand scores its top rank |
| HandCases.WrapAroundIsStraight | MaskCard/Assets/Scripts/Judge.cs:206-216 | J-Q-K-A-2 of mixed suits is a Straight scoring 15 |
| HandCases.AceLowIsHighCard | MaskCard/Assets/Scripts/Judge.cs:206-216 | A-2-3-4-5 of mixed suits is only HighCard, scoring 15 (the Two) |
| HandCases.TripsScore | MaskCard/Assets/Scripts/Judge.cs:172-178 | three cards of a rank with two different kickers are trips scoring triple × 10 + the larger kicker |
| HandCases.TripsKickerOutweighsTriple | MaskCard/Assets/Scripts/Judge.cs:177 | trip fours with a Two kicker (55) outscore trip fives (54) |
| HandCases.QuadsScore | MaskCard/Assets/Scripts/Judge.cs:143-149 | four of a rank and a kicker are quads scoring quad × 10 + kicker |
| HandCases.QuadsKickerOutweighsQuad | MaskCard/Assets/Scripts/Judge.cs:148 | quad fours with a Two kicker (55) outscore quad fives with a three (53) |
| HandCases.TwoPairHandScore | MaskCard/Assets/Scripts/Judge.cs:180-188 | two pairs and a kicker are TwoPair scoring high × 100 + low × 10 + kicker |
| HandCases.TwoPairKickerOutweighsPair | MaskCard/Assets/Scripts/Judge.cs:187 | kings and queens with a Two kicker (1435) outscore aces and threes (1434) |
| HandCases.FullHouseHandScore | MaskCard/Assets/Scripts/Judge.cs:151-157 | a triple and a pair of mixed suits are a FullHouse scoring triple × 1000 + pair × 10 + the fifth card |
| HandCases.ThreesFirstScore | MaskCard/Assets/Scripts/Judge.cs:151-157 | 333-KK in that order is a FullHouse scoring 3143 |
| HandCases.KingsFirstScore | MaskCard/Assets/Scripts/Judge.cs:151-157 | KK-333 in that order is a FullHouse scoring 3133 |
| HandCases.FullHouseDependsOnOrder | MaskCard/Assets/Scripts/Judge.cs:155-156 | the same five cards of a full house score 3143 or 3133 depending on their input order |
| Subsets.BinomialBelow | MaskCard/Assets/Scripts/Judge.cs:229 | choosing more items than there are gives no combination |
| Subsets.BinomialPositive | MaskCard/Assets/Scripts/Judge.cs:229 | choosing at most the available number gives at least one combination |
| Subsets.PrependAll | MaskCard/Assets/Scripts/Judge.cs:231-233 | each tail is kept, with the chosen head in front |
| Subsets.CombinationsCount | MaskCard/Assets/Scripts/Judge.cs:221-236 | GetCombinations yields exactly C(n, k) lists |
| Subsets.CombinationsFromCount | MaskCard/Assets/Scripts/Judge.cs:229-235 | the loop from start i yields C(n − i, k) lists |
| Subsets.SubsequenceLength | MaskCard/Assets/Scripts/Judge.cs:221-236 | a subsequence is never longer than its source |
| Subsets.CombinationsSound | MaskCard/Assets/Scripts/Judge.cs:221-236 | every yielded list has length k and is a subsequence of the input |
| Subsets.CombinationsComplete | MaskCard/Assets/Scripts/Judge.cs:221-236 | every length-k subsequence of the input is yielded |
| Subsets.SubsequenceMultiset | MaskCard/Assets/Scripts/Judge.cs:221-236 | a subsequence's cards are among the source's cards |
| Judge.BetterTotal | MaskCard/Assets/Scripts/Judge.cs:241-248 | IsBetterHand is reflexive and total, and holds both ways exactly for equal type and score |
| Judge.BetterTransitive | MaskCard/Assets/Scripts/Judge.cs:241-248 | IsBetterHand is transitive |
| Judge.Keep | MaskCard/Assets/Scripts/Judge.cs:108-111 | after seeing a result there is always a best so far |
| Judge.BestOfIndex | MaskCard/Assets/Scripts/Judge.cs:105-112 | the fold's answer is one of the results, at least as good as every result, and no later result is as good (on ties the last wins) |
| Judge.BestOfSome | MaskCard/Assets/Scripts/Judge.cs:103-114 | the fold finds a best result exactly when there is at least one result |
| Judge.Evaluations | MaskCard/Assets/Scripts/Judge.cs:107 | one evaluation per combination, in order |
| Judge.HandCombinations | MaskCard/Assets/Scripts/Judge.cs:99-102 | every combination of the sorted cards has five cards |
| Judge.BestOfCombinations | MaskCard/Assets/Scripts/Judge.cs:103-112 | the foreach loop computes the fold's best evaluation |
| Judge.GetBestCard | MaskCard/Assets/Scripts/Judge.cs:93-115 | null for a null list or one with fewer than 5 cards; otherwise the cards of the best evaluated combination |
| Judge.GetHandType | MaskCard/Assets/Scripts/Judge.cs:253-275 | the best combination's type, or HighCard when there is no best combination |
| Judge.BestEvaluation | MaskCard/Assets/Scripts/Judge.cs:294-316 | the best combination's result, or HighCard with score 0 over the given cards when there are fewer than 5 |
| Judge.EvaluateBestHand | MaskCard/Assets/Scripts/Judge.cs:294-316 | the loop returns the best evaluation |
| Judge.CompareResults | MaskCard/Assets/Scripts/Judge.cs:285-288 | the difference is non-negative exactly when the first hand is at least as good, and zero exactly when type and score agree |
| Judge.CompareAntisymmetric | MaskCard/Assets/Scripts/Judge.cs:280-289 | swapping the hands negates the comparison |
| Judge.CompareHands | MaskCard/Assets/Scripts/Judge.cs:280-289 | the comparison of the two best evaluations; it is non-negative exactly when the first is at least as good |
| Judge.GetResult | MaskCard/Assets/Scripts/Judge.cs:78-86 | each side gets its best cards and their type; win holds exactly when my best evaluation is at least as good as the enemy's, so ties go to me |
| Judge.CombinationsExist | MaskCard/Assets/Scripts/Judge.cs:102 | five or more cards have at least one combination |
| Judge.BestResultExists | MaskCard/Assets/Scripts/Judge.cs:95-114 | a best hand exists exactly for a list of at least five cards |
| Judge.BestResultIsBest | MaskCard/Assets/Scripts/Judge.cs:99-114 | the answer is at least as good as every five-card subsequence of the sorted cards |
| Judge.BestResultIsLastBest | MaskCard/Assets/Scripts/Judge.cs:105-112 | the answer is some combination's evaluation, and no later combination is at least as good |
| Judge.SubsequenceDescending | MaskCard/Assets/Scripts/Judge.cs:221-236 | any selection, in order, from a descending list is descending |
| Judge.EvaluatedHandsDescending | MaskCard/Assets/Scripts/Judge.cs:99-102 | every five-card hand the entry points evaluate is in descending rank order |
| Judge.EvaluatedFullHouseScore | MaskCard/Assets/Scripts/Judge.cs:99-157 | a full house reached through the entry points scores triple × 1000 + pair × 10 + the lower of the two ranks, whatever the input order |
| Judge.BestCardsFromInput | MaskCard/Assets/Scripts/Judge.cs:99-114 | the best hand is five of the input cards |
| Judge.ShortHandsTie | MaskCard/Assets/Scripts/Judge.cs:296-297 | two hands with fewer than five cards both evaluate to HighCard 0, so the first counts as at least as good |
| Betting.NegativeCheck | MaskCard/Assets/BetSystem/BetManager.cs:137-144 | onChipsNegative fires exactly when the chips are negative; no other event fires |
| Betting.ActionEvents | MaskCard/Assets/BetSystem/BetManager.cs:39-96 | after an action onChipsNegative fires exactly for negative chips, game over never fires, and the state-changed event comes last |
| Betting.Posted | MaskCard/Assets/BetSystem/BetManager.cs:30-37 | after the forced bet both contributions equal the stake initialBet, the pot is their sum and the player paid initialBet |
| Betting.SettlementEvents | MaskCard/Assets/BetSystem/BetManager.cs:123-135 | game over fires exactly when chips are negative at settlement |
| Betting.StartRoundInRound | MaskCard/Assets/BetSystem/BetManager.cs:30-37 | a new round satisfies the round invariant and holds a pot of twice the forced bet |
| Betting.RaiseProperties | MaskCard/Assets/BetSystem/BetManager.cs:55-72 | a raise doubles the stake, sets the raiser's contribution to it, leaves the other side's and keeps the pot balanced |
| Betting.PlayerStakeConserved | MaskCard/Assets/BetSystem/BetManager.cs:60-92 | player actions keep chips plus contribution; enemy actions never change the player's chips |
| Betting.CallProperties | MaskCard/Assets/BetSystem/BetManager.cs:79-94 | a player call pays the gap when the enemy leads and otherwise changes only the pot; an enemy call matches the player's contribution |
| Betting.ActionsKeepInRound | MaskCard/Assets/BetSystem/BetManager.cs:55-97 | raises and calls keep the round invariant (balanced pot, contributions at most the stake) |
| Betting.CallMatchesRaise | MaskCard/Assets/BetSystem/BetManager.cs:55-97 | a raise answered by the other side's call leaves both contributions at twice the old stake |
| Betting.SettlementProperties | MaskCard/Assets/BetSystem/BetManager.cs:99-135 | the winner's credit is the pot for the player and nothing for the enemy; settlement then starts a new round when chips are non-negative and otherwise only empties the pot |
| Betting.SettlementNet | MaskCard/Assets/BetSystem/BetManager.cs:111-121 | a player win nets the enemy's contribution over the round's starting stake; a loss nets minus the player's contribution |
| Betting.PlayKeepsRound | MaskCard/Assets/BetSystem/BetManager.cs:55-109 | any sequence of raises and calls keeps the round invariant and the player's chips plus contribution |
| Betting.PlayDoublesMax | MaskCard/Assets/BetSystem/BetManager.cs:55-97 | after any betting sequence the maximum contribution is the starting one times 2 to the power of the number of raises; calls leave it alone |
| Betting.ThirtyFirstRaisePassesInt32 | MaskCard/Assets/BetSystem/BetManager.cs:58 | from a maximum of 1, thirty-one raises bring it to 2^31, one past the largest C# int |
| Betting.BetManager.constructor | MaskCard/Assets/BetSystem/BetManager.cs:8-22 | the settings are stored and the ledger starts at zero with no events |
| Betting.BetManager.Start | MaskCard/Assets/BetSystem/BetManager.cs:24-28 | the chips are set to initialPlayerChips and the forced bet is posted |
| Betting.BetManager.StartRound | MaskCard/Assets/BetSystem/BetManager.cs:30-41 | the ledger becomes the posted forced bet, with its events |
| Betting.BetManager.Raise | MaskCard/Assets/BetSystem/BetManager.cs:55-75 | the ledger becomes the raised ledger, with its events |
| Betting.BetManager.Call | MaskCard/Assets/BetSystem/BetManager.cs:77-97 | the ledger becomes the called ledger, with its events |
| Betting.BetManager.Fold | MaskCard/Assets/BetSystem/BetManager.cs:99-104 | the folder's opponent wins and the round is settled |
| Betting.BetManager.UpdatePot | MaskCard/Assets/BetSystem/BetManager.cs:106-109 | the pot equals the two contributions |
| Betting.BetManager.PlayerWin | MaskCard/Assets/BetSystem/BetManager.cs:111-115 | the player is credited the pot and the round is settled |
| Betting.BetManager.EnemyWin | MaskCard/Assets/BetSystem/BetManager.cs:117-121 | the round is settled without credit |
| Betting.BetManager.EndSettlement | MaskCard/Assets/BetSystem/BetManager.cs:123-135 | the pot is emptied, then game over fires for negative chips or a new round starts |
| Betting.BetManager.CheckNegativeChips | MaskCard/Assets/BetSystem/BetManager.cs:137-144 | onChipsNegative is recorded exactly for negative chips |
| Reveal.HiddenCount | MaskCard/Assets/CardSystem/PublicCardRevealButton.cs:100 | at most every card is face down |
| Reveal.RevealHidden | MaskCard/Assets/CardSystem/PublicCardRevealButton.cs:95-106 | revealing keeps the number of public cards |
| Reveal.RevealedCountIsMin | MaskCard/Assets/CardSystem/PublicCardRevealButton.cs:94-107 | the number flipped is min(count, face-down cards) |
| Reveal.RevealHiddenCount | MaskCard/Assets/CardSystem/PublicCardRevealButton.cs:94-107 | the face-down count drops by exactly the number flipped |
| Reveal.RevealHiddenOnlyFlips | MaskCard/Assets/CardSystem/PublicCardRevealButton.cs:99-104 | each card is unchanged or was face down and is now face up; face-up cards are untouched and nothing turns face down |
| Reveal.RevealHiddenInOrder | MaskCard/Assets/CardSystem/PublicCardRevealButton.cs:95-106 | face-down cards are flipped in list order: a later one is flipped only if every earlier one is |
| Reveal.FirstStageReveals | MaskCard/Assets/CardSystem/PublicCardRevealButton.cs:95-106 | on an all-face-down board the first n cards turn face up and the rest stay |
| Reveal.RevealLoop | MaskCard/Assets/CardSystem/PublicCardRevealButton.cs:94-107 | the foreach loop flips the first count face-down cards and returns how many it flipped |
| Reveal.PublicCardRevealButton.constructor | MaskCard/Assets/CardSystem/PublicCardRevealButton.cs:12-14 | the stage starts at 0 |
| Reveal.PublicCardRevealButton.UpdateButtonInteractable | MaskCard/Assets/CardSystem/PublicCardRevealButton.cs:46-55 | the button is enabled exactly in a round, with public cards, before the final stage |
| Reveal.PublicCardRevealButton.RevealUnrevealedCards | MaskCard/Assets/CardSystem/PublicCardRevealButton.cs:90-108 | without a deck system nothing is flipped; otherwise the board becomes the revealed board, the count is min(count, face-down cards) and the other lists are untouched |
| Reveal.PublicCardRevealButton.OnClickRevealPublicCard | MaskCard/Assets/CardSystem/PublicCardRevealButton.cs:57-85 | after the final stage a click changes nothing; otherwise the stage's 3, 1 or 1 cards are flipped, the stage advances by one exactly when something was flipped (staying within 0..3) and the button is refreshed |
| Reveal.PublicCardRevealButton.OnPublicCardRemoved | MaskCard/Assets/CardSystem/PublicCardRevealButton.cs:113-119 | a null removal changes nothing; otherwise the button is refreshed and the stage is not touched |
| Reveal.PublicCardRevealButton.OnRoundStateChanged | MaskCard/Assets/CardSystem/PublicCardRevealButton.cs:121-134 | a new round resets the stage to 0; leaving a round disables the button |
| Bridge.RevealPrefix | MaskCard/Assets/BetSystem/BetCardSystemBridge.cs:89-96 | revealing by index keeps the number of public cards |
| Bridge.RevealPrefixProperties | MaskCard/Assets/BetSystem/BetCardSystemBridge.cs:89-96 | every card below n with a face controller ends face up, cards from n on are unchanged, face-up cards are untouched and no data changes |
| Bridge.RevealPrefixIdempotent | MaskCard/Assets/BetSystem/BetCardSystemBridge.cs:82-97 | revealing twice with the same n equals revealing once |
| Bridge.RevealPrefixCompose | MaskCard/Assets/BetSystem/BetCardSystemBridge.cs:82-97 | revealing up to a and then up to b equals revealing up to the larger |
| Bridge.PhaseRevealTotal | MaskCard/Assets/BetSystem/BetCardSystemBridge.cs:58-80 | Preflop reveals nothing, and Showdown reveals all 5 |
| Bridge.PhaseTotalsIncrease | MaskCard/Assets/BetSystem/BetCardSystemBridge.cs:58-80 | Flop, Turn and River reveal strictly more cards in turn (3, 4, 5), and Showdown the same as River |
| Bridge.BetCardSystemBridge.constructor | MaskCard/Assets/BetSystem/BetCardSystemBridge.cs:8-9 | the bridge holds the given deck system, possibly none |
| Bridge.BetCardSystemBridge.RevealCommunityCards | MaskCard/Assets/BetSystem/BetCardSystemBridge.cs:82-97 | the board becomes its reveal up to the requested total; the deck, round flag and hands are untouched |
| Bridge.BetCardSystemBridge.RevealAllCommunityCards | MaskCard/Assets/BetSystem/BetCardSystemBridge.cs:99-102 | the board becomes its reveal up to 5 |
| Bridge.BetCardSystemBridge.OnPhaseChanged | MaskCard/Assets/BetSystem/BetCardSystemBridge.cs:58-80 | Preflop leaves the board; every other phase reveals up to that phase's total |
| Bridge.RevealHiddenIsPrefix | MaskCard/Assets/BetSystem/BetCardSystemBridge.cs:89-96 | on a board revealed exactly up to k, the reveal button's count-c scan equals the bridge's reveal up to k + c |
| Bridge.StagesMatchPhases | MaskCard/Assets/BetSystem/BetCardSystemBridge.cs:58-80 | on a face-down board the button's stages 3, 1, 1 reveal the same cards as the bridge's Flop, Turn and River |
| Peek.CardText | MaskCard/Assets/CardSystem/CardFaceController.cs:35-50 | a card with data shows its name; without data and label it shows the unknown-card text |
| Peek.LastRevealed | MaskCard/Assets/CardSystem/PeekCardOverlayButton.cs:82-102 | the index lies in [-1, count − 1] and, when non-negative, names a face-up card |
| Peek.LastRevealedIsLast | MaskCard/Assets/CardSystem/PeekCardOverlayButton.cs:87-99 | no card after that index is face up |
| Peek.HasPeekableIff | MaskCard/Assets/CardSystem/PeekCardOverlayButton.cs:68-77 | there is something to peek at exactly when the board is non-empty and its last card is not face up |
| Peek.PeekCount | MaskCard/Assets/CardSystem/PeekCardOverlayButton.cs:130-135 | the window starts after the last face-up card and holds min(2, cards left) cards |
| Peek.PeekWindowEmptyIff | MaskCard/Assets/CardSystem/PeekCardOverlayButton.cs:130-140 | the window is empty exactly when there is nothing to peek at |
| Peek.WindowOverlaysLength | MaskCard/Assets/CardSystem/PeekCardOverlayButton.cs:137-193 | at most one overlay per window index |
| Peek.WindowOverlaysBounds | MaskCard/Assets/CardSystem/PeekCardOverlayButton.cs:137-193 | each overlay is for a window index on the board whose card has a controller and known text, and it copies that text |
| Peek.WindowLoop | MaskCard/Assets/CardSystem/PeekCardOverlayButton.cs:137-193 | the for loop makes exactly the window's overlays |
| Peek.PeekCardOverlayButton.constructor | MaskCard/Assets/CardSystem/PeekCardOverlayButton.cs:20-21 | not peeking and no overlays |
| Peek.PeekCardOverlayButton.GetLastRevealedCardIndex | MaskCard/Assets/CardSystem/PeekCardOverlayButton.cs:82-102 | the loop returns the index of the last face-up card |
| Peek.PeekCardOverlayButton.HasPeekableCards | MaskCard/Assets/CardSystem/PeekCardOverlayButton.cs:68-77 | false on an empty board; otherwise true exactly when a card follows the last face-up one |
| Peek.PeekCardOverlayButton.UpdateButtonState | MaskCard/Assets/CardSystem/PeekCardOverlayButton.cs:54-63 | the button is enabled exactly in a round with something to peek at |
| Peek.PeekCardOverlayButton.CreatePeekOverlays | MaskCard/Assets/CardSystem/PeekCardOverlayButton.cs:124-194 | an empty board changes nothing; an empty window stops peeking; otherwise the window's overlays are added |
| Peek.PeekCardOverlayButton.DestroyPeekOverlays | MaskCard/Assets/CardSystem/PeekCardOverlayButton.cs:199-210 | no overlay is left |
| Peek.PeekCardOverlayButton.TogglePeek | MaskCard/Assets/CardSystem/PeekCardOverlayButton.cs:107-119 | turning peeking off leaves no overlays and the button as it was; turning it on makes the window's overlays and keeps peeking only if there is something to peek at (or the board is empty), and a non-empty board with nothing to peek at disables the button |
| Peek.PeekCardOverlayButton.OnRoundEnd | MaskCard/Assets/CardSystem/PeekCardOverlayButton.cs:215-219 | peeking stops and no overlay is left |
| Peek.PeekOnlyHidden | MaskCard/Assets/CardSystem/PeekCardOverlayButton.cs:124-194 | at most two overlays, each for one of the two cards right after the last face-up one, never a face-up card |
| Swap.Relabel | MaskCard/Assets/CardSystem/SwapCardHandPublic.cs:275-282 | a card with a label shows the new name; a card without one stays without |
| Swap.SyncFace | MaskCard/Assets/CardSystem/SwapCardHandPublic.cs:239-246 | the face controller binds the new data and keeps its side; a face-down card is marked for refresh |
| Swap.NewLabel | MaskCard/Assets/CardSystem/SwapCardHandPublic.cs:275-282 | a card showing its back keeps its label; any other card with a label shows the new name |
| Swap.SwapExchanges | MaskCard/Assets/CardSystem/SwapCardHandPublic.cs:230-250 | the two cards trade exactly their data, the public card's binding is its new data, and neither card changes side |
| Swap.FaceDownSwapKeepsOldLabel | MaskCard/Assets/CardSystem/SwapCardHandPublic.cs:239-250 | a face-down public card keeps its old label through the swap, and turned face up it shows that label beside the new data |
| Swap.SwapTwiceRestores | MaskCard/Assets/CardSystem/SwapCardHandPublic.cs:230-250 | a swap keeps both cards consistent (data, face binding, and the label wherever it is visible), and swapping the pair back restores both exactly, labels included |
| Swap.SwapCardHandPublic.constructor | MaskCard/Assets/CardSystem/SwapCardHandPublic.cs:17-20 | not in swap mode, nothing selected, no swap running |
| Swap.SwapCardHandPublic.UpdateSwapButtonInteractable | MaskCard/Assets/CardSystem/SwapCardHandPublic.cs:58-66 | enabled exactly in a round with a hand card and a public card |
| Swap.SwapCardHandPublic.ResetSelectState | MaskCard/Assets/CardSystem/SwapCardHandPublic.cs:301-310 | both selections are cleared and no swap is running |
| Swap.SwapCardHandPublic.SetCardClickable | MaskCard/Assets/CardSystem/SwapCardHandPublic.cs:123-170 | the cards' click handlers point at the selection handlers exactly when asked |
| Swap.SwapCardHandPublic.ToggleSwapMode | MaskCard/Assets/CardSystem/SwapCardHandPublic.cs:98-121 | outside a round nothing changes; otherwise the mode flips, both selections clear and the cards are clickable exactly in swap mode |
| Swap.SwapCardHandPublic.SelectHandCard | MaskCard/Assets/CardSystem/SwapCardHandPublic.cs:172-188 | refused while a swap runs or once a public card is chosen; otherwise the clicked card replaces the hand selection |
| Swap.SwapCardHandPublic.SelectPublicCard | MaskCard/Assets/CardSystem/SwapCardHandPublic.cs:190-200 | accepted only with a hand card chosen, no public card chosen and no swap running, and then the swap outcome follows; otherwise nothing changes |
| Swap.SwapCardHandPublic.TriggerCardValueSwap | MaskCard/Assets/CardSystem/SwapCardHandPublic.cs:205-261 | refused while a swap runs or with a selection missing; otherwise, with data on both cards, exactly those two cards change (trading data, and relabelled unless face down) and the selections clear, and in a round swap mode toggles; with data missing nothing is exchanged and the selections stay; the swap flag ends false |
| Delete.RemoveAtKeepsOrder | MaskCard/Assets/CardSystem/CardDeleteButton.cs:123-156 | removing drops exactly the card at the index and keeps the others in order |
| Delete.CardDeleteButton.constructor | MaskCard/Assets/CardSystem/CardDeleteButton.cs:14-16 | not in delete mode and nothing selected |
| Delete.CardDeleteButton.UpdateButtonInteractable | MaskCard/Assets/CardSystem/CardDeleteButton.cs:54-59 | enabled exactly in a round with a hand card and a public card |
| Delete.CardDeleteButton.EnterDeleteMode | MaskCard/Assets/CardSystem/CardDeleteButton.cs:62-69 | does nothing when already in delete mode; otherwise turns it on with both selections cleared |
| Delete.CardDeleteButton.ExitDeleteMode | MaskCard/Assets/CardSystem/CardDeleteButton.cs:71-77 | turns delete mode off with both selections cleared |
| Delete.CardDeleteButton.ToggleDeleteMode | MaskCard/Assets/CardSystem/CardDeleteButton.cs:40-52 | enters or exits delete mode |
| Delete.CardDeleteButton.ClearSelectedCards | MaskCard/Assets/CardSystem/CardDeleteButton.cs:167-171 | both selections are cleared |
| Delete.CardDeleteButton.DeleteSelectedCards | MaskCard/Assets/CardSystem/CardDeleteButton.cs:118-162 | runs only with both cards selected; a Joker is kept and recorded as handed to ReturnJokerToDeck, any other card is removed from its list with the rest kept in order; once both are handled delete mode is off and nothing is selected; a removed card without data stops the method right after its removal, since its log line reads the missing data |
| Delete.CardDeleteButton.SelectHandCardToDelete | MaskCard/Assets/CardSystem/CardDeleteButton.cs:79-88 | ignored outside delete mode or for a card not in the hand; otherwise the card is selected, and deletion runs when the card has data and a public card is already selected |
| Delete.CardDeleteButton.SelectPublicCardToDelete | MaskCard/Assets/CardSystem/CardDeleteButton.cs:90-114 | ignored outside delete mode or for a public card that is not face up; otherwise the card is selected, and deletion runs when the card has data and a hand card is already selected |
| Delete.DeleteRemovesBoth | MaskCard/Assets/CardSystem/CardDeleteButton.cs:123-156 | deleting two non-Jokers removes exactly one card from each list |
| EnemyHealth.Hit | MaskCard/Assets/CardSystem/EnemyHealthEffect.cs:50 | a hit never leaves negative health, takes exactly one point from positive health, and leaves zero otherwise |
| EnemyHealth.HitsSaturate | MaskCard/Assets/CardSystem/EnemyHealthEffect.cs:47-61 | n hits from health h leave max(h − n, 0) |
| EnemyHealth.Deaths | MaskCard/Assets/CardSystem/EnemyHealthEffect.cs:57-60 | the death handler runs at most once per hit |
| EnemyHealth.DeathsFrom | MaskCard/Assets/CardSystem/EnemyHealthEffect.cs:57-60 | from health h the death handler first runs on the h-th hit and then on every later one |
| EnemyHealth.EnemyHealthSystem.constructor | MaskCard/Assets/CardSystem/EnemyHealthEffect.cs:25-42 | health starts at initialHealth |
| EnemyHealth.EnemyHealthSystem.TakeDamage | MaskCard/Assets/CardSystem/EnemyHealthEffect.cs:47-61 | health drops by one, not below zero; the death handler runs exactly when health is then zero; health stays within 0..initialHealth |
| EnemyHealth.EnemyHealthSystem.OnEnemyDie | MaskCard/Assets/CardSystem/EnemyHealthEffect.cs:86-92 | the death handler runs once more |
| EnemyHealth.EnemyHealthSystem.ResetHealth | MaskCard/Assets/CardSystem/EnemyHealthEffect.cs:97-102 | health is restored to initialHealth |
| EnemyAI.Decide | MaskCard/Assets/BetSystem/EnemyBetAI.cs:182-203 | the enemy raises exactly when the policy says raise and it has not raised this phase, folds exactly when the policy says fold, and has raised afterwards exactly when it had or was asked to |
| EnemyAI.DecideAll | MaskCard/Assets/BetSystem/EnemyBetAI.cs:182-203 | one command per policy answer over a phase |
| EnemyAI.OneRaisePerPhase | MaskCard/Assets/BetSystem/EnemyBetAI.cs:184-196 | over any decisions in one phase the enemy raises once if it had not raised and any decision asks for a raise, and never otherwise |
| EnemyAI.UnflippedBoard | MaskCard/Assets/BetSystem/EnemyBetAI.cs:163-169 | only public cards that are not face up reach the policy |
| EnemyAI.UnflippedBoardMembers | MaskCard/Assets/BetSystem/EnemyBetAI.cs:163-169 | a public card reaches the policy exactly when it is not face up |
| EnemyAI.EnemyBetAI.constructor | MaskCard/Assets/BetSystem/EnemyBetAI.cs:14-18 | not thinking, no raise this phase, nothing pending or sent |
| EnemyAI.EnemyBetAI.CheckTurn | MaskCard/Assets/BetSystem/EnemyBetAI.cs:89-116 | a decision starts exactly when a BetManager is present, none is under way, the deck system is in a round, it is the enemy's turn, the phase is not Showdown and settlement is not locked |
| EnemyAI.EnemyBetAI.CollectUnflipped | MaskCard/Assets/BetSystem/EnemyBetAI.cs:162-169 | the foreach loop collects exactly the public cards that are not face up |
| EnemyAI.EnemyBetAI.MakeDecision | MaskCard/Assets/BetSystem/EnemyBetAI.cs:151-204 | without a Judge or deck system the enemy calls; otherwise the policy's answer for the enemy's hand and the unflipped board is sent, a raise becoming a call after one raise this phase |
| EnemyAI.EnemyBetAI.ResumeThinking | MaskCard/Assets/BetSystem/EnemyBetAI.cs:118-149 | after the delay nothing is sent at Showdown or under a settlement lock, a failing policy falls back to a call, and the thinking flag is cleared in every case |
| EnemyAI.EnemyBetAI.OnPhaseChanged | MaskCard/Assets/BetSystem/EnemyBetAI.cs:66-70 | a new phase allows a raise again, then the turn is checked |
| EnemyAI.EnemyBetAI.OnNewRound | MaskCard/Assets/BetSystem/EnemyBetAI.cs:72-80 | a new round cancels any pending decision, allows a raise again and schedules the first-turn check |
| EnemyAI.EnemyBetAI.ResumeFirstTurnCheck | MaskCard/Assets/BetSystem/EnemyBetAI.cs:82-87 | after the one-second delay the turn is checked once |
| EnemyAI.EnemyBetAI.OnCardRoundStateChanged | MaskCard/Assets/BetSystem/EnemyBetAI.cs:50-62 | entering a round checks the turn; leaving it cancels every pending step and clears the thinking flag |

## Left out

- Betting.Raised: C#'s 32-bit `int` is not modelled. `currentMaxContribution *= 2` wraps after 31 raises in one round from a bet of 1, and `playerChips -= additional` can wrap as well. The model's integers are unbounded. `Betting.ThirtyFirstRaisePassesInt32` states where the wrap would start.
- Betting.BetManager.Raise: its new state is the unbounded `Raised` ledger, which differs from the source once the doubling passes the `int` range.
- Betting.PlayKeepsRound: the invariant holds for unbounded integers only. In the source it can fail after the 31st raise of a round, when the doubled maximum wraps negative.
- Rendering and layout are not modelled: sprites, colours, highlight and hover effects, `RectTransform` placement (`Rearrange*`), label fonts and `Debug.Log`. None of them affects the table rules.
- `Instantiate` and `Destroy` are not modelled. A spawned card is a value placed in a list, and a destroyed card is a value removed from it. Spawning always succeeds, because the prefab and card areas are taken to be wired.
- Null card objects inside the table lists are not modelled. For example, the `publicCard == null` break in `RevealUnrevealedCards` is not represented.
- Null button references and the `Start` bail-outs on missing references are not modelled. Handlers are modelled as if their buttons exist. Only the `cardDeckSystem` null checks of the reveal button, the bridge and the enemy AI are kept.
- Selections are list indices, and methods that take one require it to name a card on the table (`Valid`). A stale reference to a destroyed object is therefore not representable.
- Deck.CardDeckSystem.RemovePlayerCard: the source finds the card by reference (`Contains`/`Remove`). The model removes it by index, so two equal card values cannot be told apart.
- Deck.CardDeckSystem.RemovePublicCard: `CardDeckSystem.RemovePublicCard` is called from CardDeleteButton.cs but is not part of this model's source. It is modelled as removal at an index.
- `ReturnJokerToDeck` is not part of this model's source. Delete records each call with its card and its side, and does not interpret it.
- An exception thrown by the enemy policy is modelled as a `policyFails` input, thrown before any command is sent.
- `Judge.GetRateNow`, `GetAIBehavior` and `GetComponentsInChildren` are not part of this model's source. The policy's answer is a function parameter. The enemy's hand is taken from the deck system's enemy list.
- The enemy policy receives the board cards that are not face up, exactly as the source's filter selects them. The model does not change this.
- Randomness is a parameter: the shuffle's swap indices and the think-time delay. The delay itself is not modelled.
- Coroutines, `WaitForSeconds`, `Invoke` delays and `StopAllCoroutines` are modelled as pending flags and explicit resume methods. The reveal button's delayed refresh after a new round is left to the next `Update`.
- Per-frame `Update` polling is not modelled as a loop. The polled methods are modelled once each.
- `BetCardSystemBridge.OnBettingRoundRestarted` is not modelled. It only simulates clicks on the start and end round buttons, whose handlers are modelled in the Deck module.
- `BetPhase`, `TurnState`, `currentPhase`, `isSettlementLocked`, `onNewRoundStarted` and `onPhaseChanged` belong to a BetManager version that is not part of this model. The enemy AI and the bridge take them as inputs, as a `BetView` value.
- The BetUIController, wild-card event scripts, draw and add-card button wrappers, and the mouse, hover and burn effects are outside the modelled table rules.
- EnemyHealth.EnemyHealthSystem.constructor: a negative `initialHealth` is allowed, as in the source. The health-bounds invariant is then stated only for `initialHealth >= 0`.
- The health bar's float fill ratio and its text are not modelled.
- Peek.CardText: the source falls back first to the card's own label and then to a label it finds among the children. Both are modelled as one optional label.
- Judge.HandCombinations and Subsets.Combinations return every combination as a list. The source's lazy `yield` enumeration is not modelled, but its order is kept.
