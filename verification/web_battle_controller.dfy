/**
  The Web (form-post) battle controller: `assertParticipant` and the `act`
  pre-checks, which re-state the service guard on the unlocked row, then the
  service call and ranking.
 */
module WebBattleController {
  import opened Common
  import opened BattleModel
  import opened BattleActionService
  import PvpRanking

  /** `assertParticipant`: a stranger is turned away with 403. */
  function AssertParticipant(b: Battle, user: User): (r: Result<User, ActError>)
    ensures r.Ok? <==> user.id == b.player1Id || user.id == b.player2Id
    ensures r.Ok? ==> r.value == user
    ensures r.Err? ==> r.error == NotParticipant
  {
    if IsParticipant(b, user.id) then Ok(user) else Err(NotParticipant)
  }

  /** The pre-checks of `act`. Past the participant and status checks they give exactly the
      service guard's verdict, error for error. */
  function WebActPrecheck(b: Battle, actor: User, action: Action): (r: Outcome<ActError>)
    ensures r == (if !IsParticipant(b, actor.id) then Fail(NotParticipant)
                  else if b.status != Active then Fail(BattleNotActive)
                  else GuardTurnOrder(b.state, actor.id, action))
    ensures r.Pass? <==> IsParticipant(b, actor.id) && b.status == Active && GuardTurnOrder(b.state, actor.id, action).Pass?
  {
    match AssertParticipant(b, actor)
    case Err(e) => Fail(e)
    case Ok(user) =>
      if b.status != Active then Fail(BattleNotActive)
      else if b.state.forcedSwitchUserId.Some? && b.state.forcedSwitchUserId.value != user.id then Fail(WaitingForOpponent)
      else if b.state.forcedSwitchUserId.Some? && !action.Swap? then Fail(MustSwap)
      else if b.state.nextActorId != Some(user.id) then Fail(NotYourTurn)
      else Pass
  }

  datatype ActSuccess = ActSuccess(outcome: ActionOutcome, profiles: PvpRanking.Profiles, rankingInvoked: bool)

  /** `act`: pre-checks on the route-bound row `seen`, the service on the re-read row `locked`;
      an engine error comes back as a form error, otherwise ranking follows an end with a winner. */
  function WebAct(seen: Battle, locked: Battle, actor: User, action: Action, engine: Engine, now: int,
                  ps: PvpRanking.Profiles, elo: PvpRanking.EloCalculator): (r: Result<ActSuccess, ActError>)
    ensures WebActPrecheck(seen, actor, action).Fail? ==> r == Err(WebActPrecheck(seen, actor, action).error)
    ensures r.Ok? <==> WebActPrecheck(seen, actor, action).Pass? && HandleAction(locked, actor, action, engine, now).Ok?
    // An engine error ranks nothing.
    ensures (&& WebActPrecheck(seen, actor, action).Pass?
             && GuardTurnOrder(locked.state, actor.id, action).Pass?
             && engine(locked, actor.id, action).Err?)
            ==> r == Err(InvalidAction(engine(locked, actor.id, action).error))
    ensures r.Ok? ==> GuardTurnOrder(locked.state, actor.id, action).Pass?
    ensures r.Ok? ==> r.value.outcome == HandleAction(locked, actor, action, engine, now).value
    ensures r.Ok? ==> (r.value.rankingInvoked <==> r.value.outcome.hasEnded && r.value.outcome.winnerId.Some?)
    ensures r.Ok? && !r.value.rankingInvoked ==> r.value.profiles == ps
    ensures r.Ok? && r.value.rankingInvoked ==> r.value.profiles == PvpRanking.HandleBattleCompletion(ps, r.value.outcome.battle, elo)
  {
    match WebActPrecheck(seen, actor, action)
    case Fail(e) => Err(e)
    case Pass =>
      match HandleAction(locked, actor, action, engine, now)
      case Err(e) => Err(e)
      case Ok(o) =>
        var rank := o.hasEnded && o.winnerId.Some?;
        Ok(ActSuccess(o, if rank then PvpRanking.HandleBattleCompletion(ps, o.battle, elo) else ps, rank))
  }
}
