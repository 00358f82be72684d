/** EnemyBetAI: the enemy's turn guard, its think-then-act step and the
    one-raise-per-phase throttle. The betting policy (the Judge's
    GetAIBehavior) and the BetManager state it reads are inputs; the commands
    the AI sends to BetManager are recorded in order. A coroutine waiting on
    its delay is a pending flag, and its resumption is a method of its own. */
module EnemyAI {
  import opened Optional
  import opened Cards
  import opened Deck
  import opened BetPhases

  /** The policy's answer (behaviorType). */
  datatype Behavior = RaiseBehavior | FoldBehavior | CallBehavior

  /** The BetManager entry points the AI calls. */
  datatype Command = EnemyRaise | EnemyCall | EnemyFold

  /** The command for a desired behaviour, and whether the enemy has raised
      this phase afterwards: a raise becomes a call when the enemy has
      already raised this phase. */
  function Decide(b: Behavior, hasRaised: bool): (r: (Command, bool))
    ensures r.0 == EnemyRaise <==> b == RaiseBehavior && !hasRaised
    ensures r.0 == EnemyFold <==> b == FoldBehavior
    ensures r.1 <==> hasRaised || b == RaiseBehavior
  {
    match b
    case RaiseBehavior => if hasRaised then (EnemyCall, true) else (EnemyRaise, true)
    case FoldBehavior => (EnemyFold, hasRaised)
    case CallBehavior => (EnemyCall, hasRaised)
  }

  /** The commands for successive decisions within one phase. */
  function DecideAll(bs: seq<Behavior>, hasRaised: bool): (cs: seq<Command>)
    ensures |cs| == |bs|
  {
    if bs == [] then []
    else
      var (c, raised) := Decide(bs[0], hasRaised);
      [c] + DecideAll(bs[1..], raised)
  }

  function RaiseCount(cs: seq<Command>): nat
  {
    if cs == [] then 0 else (if cs[0] == EnemyRaise then 1 else 0) + RaiseCount(cs[1..])
  }

  /** Within a phase the enemy raises at most once: exactly once when it has
      not raised yet and the policy asks for a raise at least once, and never
      otherwise. */
  lemma {:induction false} OneRaisePerPhase(bs: seq<Behavior>, hasRaised: bool)
    ensures RaiseCount(DecideAll(bs, hasRaised)) == if !hasRaised && RaiseBehavior in bs then 1 else 0
  {
    if bs != [] {
      var (c, raised) := Decide(bs[0], hasRaised);
      OneRaisePerPhase(bs[1..], raised);
      assert DecideAll(bs, hasRaised)[1..] == DecideAll(bs[1..], raised);
      assert RaiseBehavior in bs <==> bs[0] == RaiseBehavior || RaiseBehavior in bs[1..] by {
        assert bs == [bs[0]] + bs[1..];
      }
    }
  }

  /** The public cards handed to the policy: those whose face controller is
      missing or shows its back, in board order. */
  function UnflippedBoard(os: seq<CardObject>): (r: seq<CardObject>)
    ensures |r| <= |os|
    ensures forall k :: 0 <= k < |r| ==> r[k] in os && !ShowsFront(r[k])
    decreases |os|
  {
    if os == [] then []
    else
      var last := os[|os| - 1];
      UnflippedBoard(os[..|os| - 1]) + (if !ShowsFront(last) then [last] else [])
  }

  /** A public card reaches the policy exactly when it does not show its
      front. */
  lemma {:induction false} UnflippedBoardMembers(os: seq<CardObject>, o: CardObject)
    ensures o in UnflippedBoard(os) <==> o in os && !ShowsFront(o)
    decreases |os|
  {
    if os != [] {
      var init := os[..|os| - 1];
      UnflippedBoardMembers(init, o);
      assert os == init + [os[|os| - 1]];
    }
  }

  /** The guard of CheckTurn: a BetManager is present, no decision is under
      way, the deck system is in a round, it is the enemy's turn (not
      Dealing), the phase is not Showdown and settlement is not locked. */
  predicate ShouldAct(isThinking: bool, deckInRound: bool, view: Option<BetView>)
  {
    view.Some? && !isThinking && deckInRound
    && view.value.turnState == EnemyTurn
    && view.value.currentPhase != Showdown
    && !view.value.isSettlementLocked
  }

  class EnemyBetAI {
    var cardDeckSystem: CardDeckSystem?
    var isThinking: bool
    var hasRaisedThisPhase: bool
    /** ThinkAndAct is waiting out its thinking delay. */
    var thinkPending: bool
    /** ForceFirstTurnCheck is waiting out its one-second delay. */
    var firstCheckPending: bool
    /** The commands sent to BetManager, oldest first. */
    var commands: seq<Command>

    /** The thinking flag is set exactly while a decision waits on its delay,
        so at most one decision is under way. */
    predicate Valid()
      reads this
    {
      isThinking == thinkPending
    }

    constructor (cardDeckSystem: CardDeckSystem?)
      ensures this.cardDeckSystem == cardDeckSystem && !isThinking && !hasRaisedThisPhase
      ensures !thinkPending && !firstCheckPending && commands == []
      ensures Valid()
    {
      this.cardDeckSystem := cardDeckSystem;
      isThinking, hasRaisedThisPhase := false, false;
      thinkPending, firstCheckPending := false, false;
      commands := [];
    }

    predicate DeckInRound()
      reads this, cardDeckSystem
    {
      cardDeckSystem != null && cardDeckSystem.isInRound
    }

    /** Starts ThinkAndAct, which sets the thinking flag and waits, exactly
        when the guard holds; otherwise nothing changes. */
    method CheckTurn(view: Option<BetView>) returns (started: bool)
      requires Valid()
      modifies this`isThinking, this`thinkPending
      ensures Valid()
      ensures started <==> ShouldAct(old(isThinking), DeckInRound(), view)
      ensures started ==> isThinking && thinkPending
      ensures !started ==> isThinking == old(isThinking) && thinkPending == old(thinkPending)
    {
      if view.None? || isThinking {
        return false;
      }
      if cardDeckSystem == null || !cardDeckSystem.isInRound {
        return false;
      }
      if view.value.turnState == Dealing {
        return false;
      }
      if view.value.turnState != EnemyTurn {
        return false;
      }
      if view.value.currentPhase == Showdown {
        return false;
      }
      if view.value.isSettlementLocked {
        return false;
      }
      isThinking := true;
      thinkPending := true;
      started := true;
    }

    /** The cards the source collects for the policy: the enemy's hand, then
        the unflipped public cards, skipping objects without data. */
    function FullHand(): seq<PlayingCard>
      requires cardDeckSystem != null
      reads this, cardDeckSystem
    {
      DataOf(cardDeckSystem.enemyCardObjects) + DataOf(UnflippedBoard(cardDeckSystem.publicCardObjects))
    }

    /** The foreach loop that collects the public cards for the policy. */
    method CollectUnflipped() returns (publicCardFlip: seq<CardObject>)
      requires cardDeckSystem != null
      ensures publicCardFlip == UnflippedBoard(cardDeckSystem.publicCardObjects)
    {
      var os := cardDeckSystem.publicCardObjects;
      publicCardFlip := [];
      var i := 0;
      while i < |os|
        invariant 0 <= i <= |os|
        invariant publicCardFlip == UnflippedBoard(os[..i])
      {
        assert os[..i + 1][..i] == os[..i];
        var item := os[i];
        if item.face.None? || item.face.value.showingBack {
          publicCardFlip := publicCardFlip + [item];
        }
        i := i + 1;
      }
      assert os[..i] == os;
    }

    /** Without a Judge or a deck system the enemy calls. Otherwise the
        policy's answer for the collected cards is sent, a raise becoming a
        call after one raise this phase. */
    method MakeDecision(judgePresent: bool, policy: seq<PlayingCard> -> Behavior)
      modifies this`hasRaisedThisPhase, this`commands
      ensures !judgePresent || cardDeckSystem == null ==>
        commands == old(commands) + [EnemyCall] && hasRaisedThisPhase == old(hasRaisedThisPhase)
      ensures judgePresent && cardDeckSystem != null ==>
        var (c, raised) := Decide(policy(FullHand()), old(hasRaisedThisPhase));
        commands == old(commands) + [c] && hasRaisedThisPhase == raised
    {
      if !judgePresent || cardDeckSystem == null {
        commands := commands + [EnemyCall];
        return;
      }
      var enemyHand := DataOf(cardDeckSystem.enemyCardObjects);
      var publicCardFlip := CollectUnflipped();
      var fullHand := enemyHand + DataOf(publicCardFlip);
      var behavior := policy(fullHand);
      match behavior {
        case RaiseBehavior =>
          if hasRaisedThisPhase {
            commands := commands + [EnemyCall];
          } else {
            hasRaisedThisPhase := true;
            commands := commands + [EnemyRaise];
          }
        case FoldBehavior =>
          commands := commands + [EnemyFold];
        case CallBehavior =>
          commands := commands + [EnemyCall];
      }
    }

    /** ThinkAndAct after its delay. With no BetManager the state re-check
        fails and no command is sent; at Showdown or under a settlement lock
        nothing is sent; when the policy fails the enemy calls. The thinking
        flag is cleared in every case. Nothing happens when no decision is
        waiting. */
    method ResumeThinking(view: Option<BetView>, judgePresent: bool, policyFails: bool,
                          policy: seq<PlayingCard> -> Behavior)
      requires Valid()
      modifies this`isThinking, this`thinkPending, this`hasRaisedThisPhase, this`commands
      ensures Valid()
      ensures !old(thinkPending) ==>
        isThinking == old(isThinking) && thinkPending == old(thinkPending)
        && hasRaisedThisPhase == old(hasRaisedThisPhase) && commands == old(commands)
      ensures old(thinkPending) ==> !isThinking && !thinkPending
      ensures old(thinkPending) && (view.None? || view.value.currentPhase == Showdown || view.value.isSettlementLocked) ==>
        hasRaisedThisPhase == old(hasRaisedThisPhase) && commands == old(commands)
      ensures old(thinkPending) && view.Some? && view.value.currentPhase != Showdown && !view.value.isSettlementLocked ==>
        if policyFails && judgePresent && cardDeckSystem != null then
          hasRaisedThisPhase == old(hasRaisedThisPhase) && commands == old(commands) + [EnemyCall]
        else if !judgePresent || cardDeckSystem == null then
          hasRaisedThisPhase == old(hasRaisedThisPhase) && commands == old(commands) + [EnemyCall]
        else
          var (c, raised) := Decide(policy(FullHand()), old(hasRaisedThisPhase));
          commands == old(commands) + [c] && hasRaisedThisPhase == raised
    {
      if !thinkPending {
        return;
      }
      thinkPending := false;
      if view.Some? && view.value.currentPhase != Showdown && !view.value.isSettlementLocked {
        if policyFails && judgePresent && cardDeckSystem != null {
          commands := commands + [EnemyCall];
        } else {
          MakeDecision(judgePresent, policy);
        }
      }
      isThinking := false;
    }

    /** A new phase allows a raise again, then the turn is checked. */
    method OnPhaseChanged(view: Option<BetView>) returns (started: bool)
      requires Valid()
      modifies this`hasRaisedThisPhase, this`isThinking, this`thinkPending
      ensures Valid() && !hasRaisedThisPhase
      ensures started <==> ShouldAct(old(isThinking), DeckInRound(), view)
      ensures started ==> isThinking && thinkPending
      ensures !started ==> isThinking == old(isThinking) && thinkPending == old(thinkPending)
    {
      hasRaisedThisPhase := false;
      started := CheckTurn(view);
    }

    /** A new round cancels any waiting decision, allows a raise again and
        schedules the one-second first-turn check. */
    method OnNewRound()
      modifies this`isThinking, this`hasRaisedThisPhase, this`thinkPending, this`firstCheckPending
      ensures !isThinking && !hasRaisedThisPhase && !thinkPending && firstCheckPending
      ensures Valid()
    {
      isThinking := false;
      hasRaisedThisPhase := false;
      thinkPending, firstCheckPending := false, false;
      firstCheckPending := true;
    }

    /** ForceFirstTurnCheck after its delay: the turn is checked once. */
    method ResumeFirstTurnCheck(view: Option<BetView>) returns (started: bool)
      requires Valid()
      modifies this`firstCheckPending, this`isThinking, this`thinkPending
      ensures Valid() && !firstCheckPending
      ensures !old(firstCheckPending) ==> !started && isThinking == old(isThinking)
      ensures old(firstCheckPending) ==> (started <==> ShouldAct(old(isThinking), DeckInRound(), view))
      ensures started ==> isThinking && thinkPending
      ensures !started ==> isThinking == old(isThinking) && thinkPending == old(thinkPending)
    {
      if !firstCheckPending {
        return false;
      }
      firstCheckPending := false;
      started := CheckTurn(view);
    }

    /** Entering a round checks the turn; leaving it cancels every waiting
        coroutine and clears the thinking flag. */
    method OnCardRoundStateChanged(isInRound: bool, view: Option<BetView>) returns (started: bool)
      requires Valid()
      modifies this`isThinking, this`thinkPending, this`firstCheckPending
      ensures Valid()
      ensures isInRound ==> (started <==> ShouldAct(old(isThinking), DeckInRound(), view))
                            && firstCheckPending == old(firstCheckPending)
      ensures !isInRound ==> !started && !isThinking && !thinkPending && !firstCheckPending
    {
      if isInRound {
        started := CheckTurn(view);
      } else {
        thinkPending, firstCheckPending := false, false;
        isThinking := false;
        started := false;
      }
    }
  }
}
