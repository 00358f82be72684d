/** BetManager: the chip and pot ledger of one table. The player pays from
    `playerChips`; the enemy has unlimited chips, so only its contribution is
    tracked. The three UnityEvents are recorded, in order, in `events`. */
module Betting {

  datatype BetEvent = ChipsNegative | GameOver | GameStateChanged

  /** The integer state fields of BetManager. */
  datatype Ledger = Ledger(
    playerChips: int,
    currentPot: int,
    currentMaxContribution: int,
    playerContributedThisRound: int,
    enemyContributedThisRound: int)

  /** The pot holds exactly what both sides put in this round. */
  predicate PotBalanced(l: Ledger)
  {
    l.currentPot == l.playerContributedThisRound + l.enemyContributedThisRound
  }

  /** The player's chips counting what is already in the pot. */
  function Stake(l: Ledger): int
  {
    l.playerChips + l.playerContributedThisRound
  }

  /** The state every action keeps while a round runs: the pot is balanced
      and no contribution is negative or above the current maximum. */
  predicate InRound(l: Ledger)
  {
    PotBalanced(l)
    && 0 <= l.playerContributedThisRound <= l.currentMaxContribution
    && 0 <= l.enemyContributedThisRound <= l.currentMaxContribution
  }

  /** CheckNegativeChips: the warning fires exactly when chips are negative. */
  function NegativeCheck(chips: int): (es: seq<BetEvent>)
    ensures ChipsNegative in es <==> chips < 0
    ensures GameOver !in es && GameStateChanged !in es
  {
    if chips < 0 then [ChipsNegative] else []
  }

  /** The events StartRound, Raise and Call end with. */
  function ActionEvents(l: Ledger): (es: seq<BetEvent>)
    ensures ChipsNegative in es <==> l.playerChips < 0
    ensures GameOver !in es
    ensures |es| > 0 && es[|es| - 1] == GameStateChanged
  {
    NegativeCheck(l.playerChips) + [GameStateChanged]
  }

  /** StartRound: both sides post the forced bet. */
  function Posted(l: Ledger, initialBet: int): (r: Ledger)
    ensures PotBalanced(r)
    ensures r.currentMaxContribution == initialBet
    ensures r.playerContributedThisRound == r.currentMaxContribution == r.enemyContributedThisRound
    ensures r.playerChips == l.playerChips - initialBet
  {
    Ledger(l.playerChips - initialBet, initialBet * 2, initialBet, initialBet, initialBet)
  }

  /** Raise: the maximum contribution doubles and the raiser brings its
      contribution up to it. */
  function Raised(l: Ledger, isPlayer: bool): (r: Ledger)
  {
    var m := l.currentMaxContribution * 2;
    if isPlayer then
      var additional := m - l.playerContributedThisRound;
      l.(currentMaxContribution := m, playerChips := l.playerChips - additional,
         playerContributedThisRound := m, currentPot := m + l.enemyContributedThisRound)
    else
      l.(currentMaxContribution := m, enemyContributedThisRound := m,
         currentPot := l.playerContributedThisRound + m)
  }

  /** Call: the player pays what it lacks to match the enemy, if anything;
      the enemy simply matches the player. */
  function Called(l: Ledger, isPlayer: bool): (r: Ledger)
  {
    if isPlayer then
      var needed := l.enemyContributedThisRound - l.playerContributedThisRound;
      var l' := if needed > 0 then
          l.(playerChips := l.playerChips - needed,
             playerContributedThisRound := l.enemyContributedThisRound)
        else l;
      l'.(currentPot := l'.playerContributedThisRound + l'.enemyContributedThisRound)
    else
      l.(enemyContributedThisRound := l.playerContributedThisRound,
         currentPot := l.playerContributedThisRound + l.playerContributedThisRound)
  }

  /** EndSettlement: the pot is emptied; a new round starts unless the
      player is in debt. */
  function Settled(l: Ledger, initialBet: int): (r: Ledger)
  {
    var emptied := l.(currentPot := 0);
    if emptied.playerChips < 0 then emptied else Posted(emptied, initialBet)
  }

  function SettlementEvents(l: Ledger, initialBet: int): (es: seq<BetEvent>)
    ensures GameOver in es <==> l.playerChips < 0
  {
    if l.playerChips < 0 then [GameOver] else ActionEvents(Posted(l.(currentPot := 0), initialBet))
  }

  /** PlayerWin: the player collects the pot; EnemyWin: the pot is lost. */
  function Won(l: Ledger, playerWins: bool): (r: Ledger)
  {
    if playerWins then l.(playerChips := l.playerChips + l.currentPot) else l
  }

  // ---------------------------------------------------------------------
  // Properties of the ledger.

  lemma StartRoundInRound(l: Ledger, initialBet: int)
    requires initialBet >= 0
    ensures InRound(Posted(l, initialBet))
    ensures Posted(l, initialBet).currentPot == 2 * initialBet
  {
  }

  /** A raise doubles the maximum, the raiser's contribution reaches it, and
      the pot stays balanced. */
  lemma RaiseProperties(l: Ledger, isPlayer: bool)
    ensures Raised(l, isPlayer).currentMaxContribution == 2 * l.currentMaxContribution
    ensures PotBalanced(Raised(l, isPlayer))
    ensures isPlayer ==> Raised(l, isPlayer).playerContributedThisRound == 2 * l.currentMaxContribution
    ensures isPlayer ==> Raised(l, isPlayer).enemyContributedThisRound == l.enemyContributedThisRound
    ensures !isPlayer ==> Raised(l, isPlayer).enemyContributedThisRound == 2 * l.currentMaxContribution
    ensures !isPlayer ==> Raised(l, isPlayer).playerContributedThisRound == l.playerContributedThisRound
  {
  }

  /** Player actions only move chips into the pot; enemy actions never touch
      the player's chips. */
  lemma PlayerStakeConserved(l: Ledger, isPlayer: bool)
    ensures isPlayer ==> Stake(Raised(l, isPlayer)) == Stake(l) && Stake(Called(l, isPlayer)) == Stake(l)
    ensures !isPlayer ==> Raised(l, isPlayer).playerChips == l.playerChips && Called(l, isPlayer).playerChips == l.playerChips
  {
  }

  /** A player call equalises when the enemy is ahead and otherwise changes only
      the pot; an enemy call sets its contribution to the player's. */
  lemma CallProperties(l: Ledger)
    ensures PotBalanced(Called(l, true)) && PotBalanced(Called(l, false))
    ensures l.enemyContributedThisRound > l.playerContributedThisRound ==>
      Called(l, true).playerContributedThisRound == l.enemyContributedThisRound
      && Called(l, true).playerChips == l.playerChips - (l.enemyContributedThisRound - l.playerContributedThisRound)
    ensures l.enemyContributedThisRound <= l.playerContributedThisRound ==>
      Called(l, true) == l.(currentPot := l.playerContributedThisRound + l.enemyContributedThisRound)
    ensures Called(l, false).enemyContributedThisRound == l.playerContributedThisRound
    ensures Called(l, false).playerChips == l.playerChips
  {
  }

  /** Raises and calls keep the in-round state. */
  lemma ActionsKeepInRound(l: Ledger, isPlayer: bool)
    requires InRound(l)
    ensures InRound(Raised(l, isPlayer)) && InRound(Called(l, isPlayer))
  {
  }

  /** A call answering a raise leaves both sides at the new maximum. */
  lemma CallMatchesRaise(l: Ledger, raiserIsPlayer: bool)
    requires InRound(l)
    ensures var r := Called(Raised(l, raiserIsPlayer), !raiserIsPlayer);
      r.playerContributedThisRound == r.enemyContributedThisRound == 2 * l.currentMaxContribution
  {
  }

  /** Settling a round: the winner's side gets the pot, the pot empties, and a
      new round starts with the forced bet exactly when the player is not in
      debt. */
  lemma SettlementProperties(l: Ledger, playerWins: bool, initialBet: int)
    ensures var w := Won(l, playerWins);
      var r := Settled(w, initialBet);
      (w.playerChips >= 0 ==> r == Posted(w, initialBet))
      && (w.playerChips < 0 ==> r == w.(currentPot := 0))
    ensures playerWins ==> Won(l, playerWins).playerChips == l.playerChips + l.currentPot
    ensures !playerWins ==> Won(l, playerWins) == l
  {
  }

  /** With a balanced pot, winning returns the player's contribution plus the
      enemy's, and losing forfeits the player's contribution. */
  lemma SettlementNet(l: Ledger, playerWins: bool)
    requires PotBalanced(l)
    ensures playerWins ==> Won(l, playerWins).playerChips == Stake(l) + l.enemyContributedThisRound
    ensures !playerWins ==> Won(l, playerWins).playerChips == Stake(l) - l.playerContributedThisRound
  {
  }

  /** A raise or a call by either side. */
  datatype Action = RaiseBy(isPlayer: bool) | CallBy(isPlayer: bool)

  function Apply(l: Ledger, a: Action): Ledger
  {
    match a
    case RaiseBy(p) => Raised(l, p)
    case CallBy(p) => Called(l, p)
  }

  /** The ledger after a sequence of raises and calls, first to last. */
  function Play(l: Ledger, actions: seq<Action>): Ledger
    decreases |actions|
  {
    if actions == [] then l else Play(Apply(l, actions[0]), actions[1..])
  }

  /** Through any betting sequence of a round the pot stays balanced, no
      contribution leaves [0, max], and the player's chips plus contribution
      never change: chips only move into the pot. */
  lemma {:induction false} PlayKeepsRound(l: Ledger, actions: seq<Action>)
    requires InRound(l)
    ensures InRound(Play(l, actions))
    ensures Stake(Play(l, actions)) == Stake(l)
    decreases |actions|
  {
    if actions != [] {
      var a := actions[0];
      ActionsKeepInRound(l, a.isPlayer);
      PlayerStakeConserved(l, a.isPlayer);
      PlayKeepsRound(Apply(l, actions[0]), actions[1..]);
    }
  }

  /** The number of raises in a betting sequence. */
  function RaisesIn(actions: seq<Action>): nat
  {
    if actions == [] then 0 else (if actions[0].RaiseBy? then 1 else 0) + RaisesIn(actions[1..])
  }

  function Pow2(n: nat): nat
  {
    if n == 0 then 1 else 2 * Pow2(n - 1)
  }

  /** Calls leave the maximum contribution alone and every raise doubles it,
      so after k raises it is the starting maximum times 2^k. */
  lemma {:induction false} PlayDoublesMax(l: Ledger, actions: seq<Action>)
    ensures Play(l, actions).currentMaxContribution == l.currentMaxContribution * Pow2(RaisesIn(actions))
    decreases |actions|
  {
    if actions != [] {
      var l' := Apply(l, actions[0]);
      PlayDoublesMax(l', actions[1..]);
      var k := RaisesIn(actions[1..]);
      if actions[0].RaiseBy? {
        assert l'.currentMaxContribution == l.currentMaxContribution * 2;
        calc {
          l'.currentMaxContribution * Pow2(k);
          l.currentMaxContribution * (2 * Pow2(k));
          l.currentMaxContribution * Pow2(k + 1);
        }
      }
    }
  }

  /** With the shipped bet of 1, the 31st raise of a round brings the maximum
      contribution to 2^31, one past the largest C# int; the source's
      `currentMaxContribution *= 2` wraps there, the model's integers do not. */
  lemma ThirtyFirstRaisePassesInt32(l: Ledger, actions: seq<Action>)
    requires l.currentMaxContribution == 1 && RaisesIn(actions) == 31
    ensures Play(l, actions).currentMaxContribution == 0x8000_0000 == 0x7FFF_FFFF + 1
  {
    PlayDoublesMax(l, actions);
    Pow2Add(8, 8);
    Pow2Add(16, 8);
    Pow2Add(24, 7);
  }

  lemma {:induction false} Pow2Add(a: nat, b: nat)
    ensures Pow2(a + b) == Pow2(a) * Pow2(b)
  {
    if a > 0 {
      Pow2Add(a - 1, b);
    }
  }

  class BetManager {
    const initialPlayerChips: int
    const initialBet: int

    var playerChips: int
    var currentPot: int
    var currentMaxContribution: int
    var playerContributedThisRound: int
    var enemyContributedThisRound: int
    var events: seq<BetEvent>

    /** The inspector settings; the shipped defaults are 20 chips and a bet of 1. */
    constructor (initialPlayerChips: int, initialBet: int)
      ensures this.initialPlayerChips == initialPlayerChips && this.initialBet == initialBet
      ensures State() == Ledger(0, 0, 0, 0, 0) && events == []
    {
      this.initialPlayerChips := initialPlayerChips;
      this.initialBet := initialBet;
      playerChips, currentPot, currentMaxContribution := 0, 0, 0;
      playerContributedThisRound, enemyContributedThisRound := 0, 0;
      events := [];
    }

    function State(): Ledger
      reads this
    {
      Ledger(playerChips, currentPot, currentMaxContribution,
             playerContributedThisRound, enemyContributedThisRound)
    }

    /** Start: the player gets the initial chips and the first round starts. */
    method Start()
      modifies this
      ensures State() == Posted(old(State()).(playerChips := initialPlayerChips), initialBet)
      ensures events == old(events) + ActionEvents(State())
    {
      playerChips := initialPlayerChips;
      StartRound();
    }

    method StartRound()
      modifies this
      ensures State() == Posted(old(State()), initialBet)
      ensures events == old(events) + ActionEvents(State())
    {
      currentMaxContribution := initialBet;
      playerContributedThisRound := initialBet;
      enemyContributedThisRound := initialBet;
      playerChips := playerChips - initialBet;
      currentPot := initialBet * 2;
      CheckNegativeChips();
      events := events + [GameStateChanged];
    }

    /** PlayerRaise is Raise(true), EnemyRaise is Raise(false). */
    method Raise(isPlayer: bool)
      modifies this
      ensures State() == Raised(old(State()), isPlayer)
      ensures events == old(events) + ActionEvents(State())
    {
      currentMaxContribution := currentMaxContribution * 2;
      if isPlayer {
        var additional := currentMaxContribution - playerContributedThisRound;
        playerChips := playerChips - additional;
        playerContributedThisRound := currentMaxContribution;
      } else {
        enemyContributedThisRound := currentMaxContribution;
      }
      UpdatePot();
      CheckNegativeChips();
      events := events + [GameStateChanged];
    }

    /** PlayerCall is Call(true), EnemyCall is Call(false). */
    method Call(isPlayer: bool)
      modifies this
      ensures State() == Called(old(State()), isPlayer)
      ensures events == old(events) + ActionEvents(State())
    {
      if isPlayer {
        var needed := enemyContributedThisRound - playerContributedThisRound;
        if needed > 0 {
          playerChips := playerChips - needed;
          playerContributedThisRound := enemyContributedThisRound;
        }
      } else {
        enemyContributedThisRound := playerContributedThisRound;
      }
      UpdatePot();
      CheckNegativeChips();
      events := events + [GameStateChanged];
    }

    /** PlayerFold is Fold(true): the enemy wins; EnemyFold is Fold(false):
        the player wins. */
    method Fold(isPlayer: bool)
      modifies this
      ensures State() == Settled(Won(old(State()), !isPlayer), initialBet)
      ensures events == old(events) + SettlementEvents(Won(old(State()), !isPlayer), initialBet)
    {
      if isPlayer {
        EnemyWin();
      } else {
        PlayerWin();
      }
    }

    method UpdatePot()
      modifies this`currentPot
      ensures PotBalanced(State())
    {
      currentPot := playerContributedThisRound + enemyContributedThisRound;
    }

    method PlayerWin()
      modifies this
      ensures State() == Settled(Won(old(State()), true), initialBet)
      ensures events == old(events) + SettlementEvents(Won(old(State()), true), initialBet)
    {
      playerChips := playerChips + currentPot;
      EndSettlement();
    }

    method EnemyWin()
      modifies this
      ensures State() == Settled(Won(old(State()), false), initialBet)
      ensures events == old(events) + SettlementEvents(Won(old(State()), false), initialBet)
    {
      EndSettlement();
    }

    method EndSettlement()
      modifies this
      ensures State() == Settled(old(State()), initialBet)
      ensures events == old(events) + SettlementEvents(old(State()), initialBet)
    {
      currentPot := 0;
      if playerChips < 0 {
        events := events + [GameOver];
      } else {
        StartRound();
      }
    }

    method CheckNegativeChips()
      modifies this`events
      ensures events == old(events) + NegativeCheck(playerChips)
    {
      if playerChips < 0 {
        events := events + [ChipsNegative];
      }
    }
  }
}
