/** The betting phase and turn state that BetCardSystemBridge and EnemyBetAI
    read from their BetManager. These members are not part of BetManager.cs;
    here they are plain inputs. */
module BetPhases {

  datatype BetPhase = Preflop | Flop | Turn | River | Showdown

  /** Dealing and EnemyTurn are the states EnemyBetAI tests for; PlayerTurn
      stands for every other state. */
  datatype TurnState = Dealing | PlayerTurn | EnemyTurn

  /** What EnemyBetAI reads from BetManager. */
  datatype BetView = BetView(turnState: TurnState, currentPhase: BetPhase, isSettlementLocked: bool)
}
