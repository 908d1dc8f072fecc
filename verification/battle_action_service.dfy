/**
  The turn orchestrator (`BattleActionService`): guard the turn order on the
  freshly locked row, run the combat engine, fold a swap narration into the last
  log slot, persist status/winner/end time and write one audit record.

  The combat engine (`BattleEngine::applyAction`) is not part of this model; it
  is a parameter. `Err` stands for the `InvalidArgumentException` it may throw,
  which rolls the transaction back.
 */
module BattleActionService {
  import opened Common
  import opened BattleModel

  /** Every reason a submitted action can be turned away, by any entry point. */
  datatype ActError =
    | NotParticipant        // 403 "You are not part of this battle."
    | BattleNotActive       // "Battle is not active."
    | FaintedCannotAct      // 422 "Fainted monsters can't act."
    | WaitingForOpponent    // 422 "Waiting for opponent to swap."
    | MustSwap              // 422 "You must swap to continue."
    | NotYourTurn           // 400 "It is not your turn."
    | InvalidAction(message: string)  // the engine's InvalidArgumentException

  /** What the engine returns: `[$state, $result, $hasEnded, $winnerId]`. */
  datatype EngineOutcome = EngineOutcome(state: BattleState, result: TurnResult, hasEnded: bool, winnerId: Option<UserId>)

  type Engine = (Battle, UserId, Action) -> Result<EngineOutcome, string>

  /** What `handleAction` returns after committing. */
  datatype ActionOutcome = ActionOutcome(
    battle: Battle, state: BattleState, result: TurnResult, hasEnded: bool, winnerId: Option<UserId>, audit: BattleTurn)

  /** `guardTurnOrder`: the acceptance predicate of the turn state machine. */
  function GuardTurnOrder(s: BattleState, actor: UserId, action: Action): (r: Outcome<ActError>)
    // Accepted exactly when it is the actor's turn and no switch is pending, or the actor is the
    // pending switcher submitting a swap (and is still the next actor).
    ensures r.Pass? <==>
              && s.nextActorId == Some(actor)
              && (s.forcedSwitchUserId.None? || (s.forcedSwitchUserId == Some(actor) && action.Swap?))
    ensures s.forcedSwitchUserId.Some? && s.forcedSwitchUserId != Some(actor) ==> r == Fail(WaitingForOpponent)
    ensures s.forcedSwitchUserId == Some(actor) && !action.Swap? ==> r == Fail(MustSwap)
    // With no switch in the way, anyone but the next actor is told it is not their turn.
    ensures s.forcedSwitchUserId.None? && s.nextActorId != Some(actor) ==> r == Fail(NotYourTurn)
    ensures s.forcedSwitchUserId == Some(actor) && action.Swap? && s.nextActorId != Some(actor) ==> r == Fail(NotYourTurn)
    ensures r.Fail? ==> r.error in {WaitingForOpponent, MustSwap, NotYourTurn}
  {
    var forced := s.forcedSwitchUserId;
    if forced.Some? && forced.value != actor then Fail(WaitingForOpponent)
    else if forced == Some(actor) && !action.Swap? then Fail(MustSwap)
    else if s.nextActorId != Some(actor) then Fail(NotYourTurn)
    else Pass
  }

  /** `appendSwapLog`: add "<player> swapped to <monster>." to the result and write the result over
      the last log slot. Without an active monster for the result's actor, nothing changes. */
  function AppendSwapLog(s: BattleState, result: TurnResult, player: PlayerName): (r: (BattleState, TurnResult))
    // The log never grows: at most its last slot is replaced, every earlier entry stays.
    ensures |r.0.log| == |s.log|
    ensures forall i :: 0 <= i < |s.log| - 1 ==> r.0.log[i] == s.log[i]
    ensures r.0 == s.(log := r.0.log)
    // The result keeps its turn, actor and action; its events gain at most the one narration.
    ensures r.1 == result.(events := r.1.events)
    ensures var m := if result.actorUserId.Some? then ActiveMonsterOf(s, result.actorUserId.value) else None;
            if m.None? then r == (s, result)
            else
              && r.1.events == result.events + [LogEvent(SwappedTo(player, m.value.name.GetOr("Unknown monster")))]
              && (|s.log| > 0 ==> r.0.log[|s.log| - 1] == r.1)
  {
    var active := if result.actorUserId.Some? then ActiveMonsterOf(s, result.actorUserId.value) else None;
    if active.None? then (s, result)
    else
      var result' := result.(events := result.events + [LogEvent(SwappedTo(player, active.value.name.GetOr("Unknown monster")))]);
      if |s.log| == 0 then (s, result')
      else (s.(log := s.log[|s.log| - 1 := result']), result')
  }

  /** `handleAction`: the transaction body run on the locked, freshly loaded battle `b`. */
  function HandleAction(b: Battle, actor: User, action: Action, engine: Engine, now: int): (r: Result<ActionOutcome, ActError>)
    // The guard decides before the engine runs; its rejections are the service's.
    ensures GuardTurnOrder(b.state, actor.id, action).Fail? ==> r == Err(GuardTurnOrder(b.state, actor.id, action).error)
    ensures r.Ok? <==> GuardTurnOrder(b.state, actor.id, action).Pass? && engine(b, actor.id, action).Ok?
    ensures r.Ok? ==>
              var e := engine(b, actor.id, action).value;
              var o := r.value;
              // Persisted from the engine outcome: completed exactly when it says the battle ended.
              && (o.battle.status == Completed <==> e.hasEnded)
              && (o.battle.status == Active <==> !e.hasEnded)
              && (o.battle.endedAt.Some? <==> e.hasEnded)
              && (e.hasEnded ==> o.battle.endedAt == Some(now))
              && o.battle.winnerUserId == e.winnerId
              && o.hasEnded == e.hasEnded && o.winnerId == e.winnerId
              && o.battle.state == o.state
              // Only a swap touches the engine's log and result.
              && (!action.Swap? ==> o.state == e.state && o.result == e.result)
              && (action.Swap? ==> (o.state, o.result) == AppendSwapLog(e.state, e.result, DisplayName(actor)))
              // One audit record, numbered by the result's turn and attributed to the actor.
              && o.audit == BattleTurn(b.id, o.result.turn, actor.id, action, o.result)
              // The row's identity and players are untouched.
              && o.battle.id == b.id && o.battle.player1Id == b.player1Id && o.battle.player2Id == b.player2Id
  {
    match GuardTurnOrder(b.state, actor.id, action)
    case Fail(err) => Err(err)
    case Pass =>
      match engine(b, actor.id, action)
      case Err(msg) => Err(InvalidAction(msg))
      case Ok(e) =>
        var (state, result) := if action.Swap? then AppendSwapLog(e.state, e.result, DisplayName(actor))
                               else (e.state, e.result);
        var battle := b.(state := state,
                         status := if e.hasEnded then Completed else Active,
                         winnerUserId := e.winnerId,
                         endedAt := if e.hasEnded then Some(now) else None);
        Ok(ActionOutcome(battle, state, result, e.hasEnded, e.winnerId, BattleTurn(b.id, result.turn, actor.id, action, result)))
  }

  /** A rejected action never reaches the engine: any two engines give the same answer. */
  lemma GuardRejectsBeforeEngine(b: Battle, actor: User, action: Action, e1: Engine, e2: Engine, now: int)
    requires GuardTurnOrder(b.state, actor.id, action).Fail?
    ensures HandleAction(b, actor, action, e1, now) == HandleAction(b, actor, action, e2, now)
    ensures HandleAction(b, actor, action, e1, now).Err?
  {
  }

  /** The forced switcher who is not also the next actor is turned away even with a swap. */
  lemma SwitcherMustAlsoBeNextActor(s: BattleState, actor: UserId, target: int)
    requires s.forcedSwitchUserId == Some(actor) && s.nextActorId != Some(actor)
    ensures GuardTurnOrder(s, actor, Swap(target)) == Fail(NotYourTurn)
  {
  }

  /** The persisted row keeps its invariant whenever the engine names a winner only at the end. */
  lemma HandleActionKeepsRowConsistent(b: Battle, actor: User, action: Action, engine: Engine, now: int)
    requires HandleAction(b, actor, action, engine, now).Ok?
    requires var e := engine(b, actor.id, action).value; e.winnerId.Some? ==> e.hasEnded
    ensures RowConsistent(HandleAction(b, actor, action, engine, now).value.battle)
  {
  }
}
