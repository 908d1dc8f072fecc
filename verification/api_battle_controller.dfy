/**
  The JSON API battle controller: the `challenge` checks and the `act`
  pre-checks, which run on the route-bound row (`seen`) before the service
  reloads it under lock (`locked`).
 */
module ApiBattleController {
  import opened Common
  import opened BattleModel
  import opened BattleActionService
  import PvpRanking

  datatype ChallengeError = UnknownOpponent | CannotChallengeSelf | PartyNotOwned

  /** The `monster_instances` table as `id -> user_id`. */
  type Ownership = map<int, UserId>

  /** Ids of the requested monsters that `uid` owns: what the `whereIn` query returns. */
  function OwnedAmong(owner: Ownership, uid: UserId, partyIds: seq<int>): set<int> {
    set id | id in partyIds && id in owner && owner[id] == uid
  }

  /** `loadParty`: the query must return one row per requested id. */
  function LoadParty(owner: Ownership, uid: UserId, partyIds: seq<int>): (r: Result<set<int>, ChallengeError>)
    ensures r.Ok? ==> r.value == OwnedAmong(owner, uid, partyIds)
    ensures r.Err? ==> r.error == PartyNotOwned
  {
    var party := OwnedAmong(owner, uid, partyIds);
    if |party| != |partyIds| then Err(PartyNotOwned) else Ok(party)
  }

  /** The count comparison accepts exactly the parties of distinct monsters all owned by `uid`:
      an id listed twice is refused as surely as a foreign one. */
  lemma LoadPartyAcceptsOwnedDistinct(owner: Ownership, uid: UserId, partyIds: seq<int>)
    ensures LoadParty(owner, uid, partyIds).Ok? <==>
              && NoDups(partyIds)
              && forall i :: 0 <= i < |partyIds| ==> partyIds[i] in owner && owner[partyIds[i]] == uid
  {
    var owned := OwnedAmong(owner, uid, partyIds);
    var listed := set id | id in partyIds;
    assert owned <= listed;
    SetCardinalityAtMostLength(partyIds);
    if forall i :: 0 <= i < |partyIds| ==> partyIds[i] in owner && owner[partyIds[i]] == uid {
      assert owned == listed;
      if NoDups(partyIds) {
        NoDupsCardinality(partyIds);
      } else {
        DupsCardinality(partyIds);
      }
    } else {
      var i :| 0 <= i < |partyIds| && !(partyIds[i] in owner && owner[partyIds[i]] == uid);
      assert partyIds[i] in listed - owned;
      assert listed == owned + (listed - owned);
      assert |listed| == |owned| + |listed - owned|;
    }
  }

  /** `challenge`: open an active battle between the challenger (player 1) and the opponent. */
  function Challenge(users: map<UserId, User>, owner: Ownership, challenger: User, opponentId: UserId,
                     playerParty: seq<int>, opponentParty: seq<int>, seedInput: Option<int>, randomSeed: int,
                     battleId: int, now: int,
                     initialize: (UserId, UserId, set<int>, set<int>, int) -> BattleState): (r: Result<Battle, ChallengeError>)
    ensures opponentId !in users ==> r == Err(UnknownOpponent)
    ensures opponentId in users && challenger.id == opponentId ==> r == Err(CannotChallengeSelf)
    ensures r.Ok? <==>
              && opponentId in users && challenger.id != opponentId
              && LoadParty(owner, challenger.id, playerParty).Ok?
              && LoadParty(owner, opponentId, opponentParty).Ok?
    ensures r.Ok? ==>
              && r.value.status == Active && r.value.player1Id == challenger.id && r.value.player2Id == opponentId
              && r.value.player1Id != r.value.player2Id
              && r.value.winnerUserId.None? && r.value.endedAt.None? && r.value.startedAt == Some(now)
              && r.value.seed == seedInput.GetOr(randomSeed)
  {
    if opponentId !in users then Err(UnknownOpponent)
    else if challenger.id == opponentId then Err(CannotChallengeSelf)
    else
      match LoadParty(owner, challenger.id, playerParty)
      case Err(e) => Err(e)
      case Ok(mine) =>
        match LoadParty(owner, opponentId, opponentParty)
        case Err(e) => Err(e)
        case Ok(theirs) =>
          var seed := seedInput.GetOr(randomSeed);
          Ok(Battle(battleId, seed, Active, challenger.id, opponentId, challenger.name, users[opponentId].name,
                    None, Some(now), None, initialize(challenger.id, opponentId, mine, theirs, seed)))
  }

  /** A battle the challenge opens starts out satisfying both row invariants every later step keeps. */
  lemma ChallengeOpensConsistentRow(users: map<UserId, User>, owner: Ownership, challenger: User, opponentId: UserId,
                                    playerParty: seq<int>, opponentParty: seq<int>, seedInput: Option<int>,
                                    randomSeed: int, battleId: int, now: int,
                                    initialize: (UserId, UserId, set<int>, set<int>, int) -> BattleState)
    requires Challenge(users, owner, challenger, opponentId, playerParty, opponentParty, seedInput, randomSeed,
                       battleId, now, initialize).Ok?
    ensures var b := Challenge(users, owner, challenger, opponentId, playerParty, opponentParty, seedInput,
                               randomSeed, battleId, now, initialize).value;
            RowConsistent(b) && NoTurnUnlessActive(b)
  {
  }

  /** The acting side's active monster counts as fainted when missing or at zero hp (`?? 0`). */
  predicate ActorFainted(s: BattleState, actor: UserId) {
    var m := ActiveMonsterOf(s, actor);
    m.None? || m.value.currentHp.GetOr(0) <= 0
  }

  /** The pre-checks of `act`, in the order the controller runs them. Past the participant and
      status checks they are the service guard plus one extra rule: a fainted (or missing) active
      monster may only swap. So they accept a subset of what the guard accepts. */
  function ApiActPrecheck(b: Battle, actor: UserId, action: Action): (r: Outcome<ActError>)
    ensures !IsParticipant(b, actor) ==> r == Fail(NotParticipant)
    ensures IsParticipant(b, actor) && b.status != Active ==> r == Fail(BattleNotActive)
    ensures r.Pass? <==>
              && IsParticipant(b, actor) && b.status == Active
              && GuardTurnOrder(b.state, actor, action).Pass?
              && (action.Swap? || !ActorFainted(b.state, actor))
    ensures IsParticipant(b, actor) && b.status == Active && (action.Swap? || !ActorFainted(b.state, actor)) ==>
              r == GuardTurnOrder(b.state, actor, action)
  {
    if !IsParticipant(b, actor) then Fail(NotParticipant)
    else if b.status != Active then Fail(BattleNotActive)
    else if ActorFainted(b.state, actor) && !action.Swap? then Fail(FaintedCannotAct)
    else if b.state.forcedSwitchUserId.Some? && b.state.forcedSwitchUserId.value != actor then Fail(WaitingForOpponent)
    else if b.state.forcedSwitchUserId.Some? && !action.Swap? then Fail(MustSwap)
    else if b.state.nextActorId != Some(actor) then Fail(NotYourTurn)
    else Pass
  }

  /** The subset is strict: the guard lets a move with a fainted monster through, the API does not. */
  lemma ApiPrecheckStrictlyNarrower()
    ensures var s := EmptyState().(nextActorId := Some(1),
                                   participants := map[1 := Participant(1, Some(0), [Monster(7, None, 40, Some(0))])]);
            var b := Battle(1, 0, Active, 1, 2, None, None, None, None, None, s);
            && GuardTurnOrder(b.state, 1, Move(1)).Pass?
            && ApiActPrecheck(b, 1, Move(1)) == Fail(FaintedCannotAct)
  {
  }

  /** The response of `act`: the committed outcome, the profiles after ranking, and whether ranking ran. */
  datatype ActSuccess = ActSuccess(outcome: ActionOutcome, profiles: PvpRanking.Profiles, rankingInvoked: bool)

  /** `act`: pre-checks on the route-bound row `seen`, then the service on the re-read row `locked`,
      then ranking when the engine reports an end with a winner. */
  function ApiAct(seen: Battle, locked: Battle, actor: User, action: Action, engine: Engine, now: int,
                  ps: PvpRanking.Profiles, elo: PvpRanking.EloCalculator): (r: Result<ActSuccess, ActError>)
    // A pre-check failure or a service rejection writes nothing and ranks nothing.
    ensures ApiActPrecheck(seen, actor.id, action).Fail? ==> r == Err(ApiActPrecheck(seen, actor.id, action).error)
    ensures r.Ok? <==> ApiActPrecheck(seen, actor.id, action).Pass? && HandleAction(locked, actor, action, engine, now).Ok?
    // Whatever the unlocked row said, the turn order was enforced on the locked one.
    ensures r.Ok? ==> GuardTurnOrder(locked.state, actor.id, action).Pass?
    ensures r.Ok? ==> r.value.outcome == HandleAction(locked, actor, action, engine, now).value
    // Ranking runs exactly when the battle ended with a winner, and only then do profiles change.
    ensures r.Ok? ==> (r.value.rankingInvoked <==> r.value.outcome.hasEnded && r.value.outcome.winnerId.Some?)
    ensures r.Ok? && !r.value.rankingInvoked ==> r.value.profiles == ps
    ensures r.Ok? && r.value.rankingInvoked ==> r.value.profiles == PvpRanking.HandleBattleCompletion(ps, r.value.outcome.battle, elo)
  {
    match ApiActPrecheck(seen, actor.id, action)
    case Fail(e) => Err(e)
    case Pass =>
      match HandleAction(locked, actor, action, engine, now)
      case Err(e) => Err(e)
      case Ok(o) =>
        var rank := o.hasEnded && o.winnerId.Some?;
        Ok(ActSuccess(o, if rank then PvpRanking.HandleBattleCompletion(ps, o.battle, elo) else ps, rank))
  }
}
