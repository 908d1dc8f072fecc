/**
  The battle record and the combat blob (`meta_json`) it carries.

  Keys that the PHP code reads with `??` are `Option` fields; a missing key is
  `None`, like a null one. The `mode` key is read with a default that applies
  only to a missing key, so it keeps null apart. Times are integers (seconds),
  user ids are integers.
 */
module BattleModel {
  import opened Common

  type UserId = int

  datatype Status = Pending | Active | Completed

  /** The action payload a player submits, or the synthetic timeout. */
  datatype Action = Move(slot: int) | Swap(targetMonsterId: int) | Timeout

  /** How a player is named in narration: the account name, or "Player <id>" when it has none. */
  datatype PlayerName = Named(name: string) | Numbered(userId: UserId)

  /** The narration carried by a `log` event. */
  datatype Message =
    | TimedOut(who: PlayerName)                     // "<who> timed out."
    | FailedToSwap(who: PlayerName)                 // "<who> failed to swap in time."
    | SwappedTo(who: PlayerName, monster: string)   // "<who> swapped to <monster>."
    | Narration(text: string)                       // any other engine narration

  datatype Event = LogEvent(message: Message) | EngineEvent(kind: string)

  /** One entry of the battle log, and the `result_json` of an audit record. */
  datatype TurnResult = TurnResult(turn: int, actorUserId: Option<UserId>, action: Action, events: seq<Event>)

  /** A `meta_json` string key that may be missing, present but null, or a string. */
  datatype MetaText = Missing | Null | Text(value: string)

  datatype Monster = Monster(id: int, name: Option<string>, maxHp: int, currentHp: Option<int>)

  datatype Participant = Participant(userId: UserId, activeIndex: Option<int>, monsters: seq<Monster>)

  datatype BattleState = BattleState(
    turn: Option<int>,
    nextActorId: Option<UserId>,
    forcedSwitchUserId: Option<UserId>,
    forcedSwitchReason: Option<string>,
    turnStartedAt: Option<int>,
    turnExpiresAt: Option<int>,
    turnTimeoutSeconds: Option<int>,
    participants: map<UserId, Participant>,
    log: seq<TurnResult>,
    mode: MetaText,
    matchedAt: Option<int>)

  /** The `battles` row; `player1Name`/`player2Name` are the joined users' names. */
  datatype Battle = Battle(
    id: int,
    seed: int,
    status: Status,
    player1Id: UserId,
    player2Id: UserId,
    player1Name: Option<string>,
    player2Name: Option<string>,
    winnerUserId: Option<UserId>,
    startedAt: Option<int>,
    endedAt: Option<int>,
    state: BattleState)

  /** The `battle_turns` audit row written once per resolved turn. */
  datatype BattleTurn = BattleTurn(battleId: int, turnNumber: int, actorUserId: UserId, action: Action, result: TurnResult)

  datatype User = User(id: UserId, name: Option<string>)

  /** PHP truthiness of a nullable integer id: null and 0 are falsy. */
  predicate Truthy(o: Option<int>) {
    o.Some? && o.value != 0
  }

  predicate IsParticipant(b: Battle, uid: UserId) {
    uid == b.player1Id || uid == b.player2Id
  }

  /** A state with no participants, no log and every optional key missing. */
  function EmptyState(): BattleState {
    BattleState(None, None, None, None, None, None, None, map[], [], Missing, None)
  }

  /** The monster at the participant's `active_index`, if that index names one. */
  function ActiveMonster(p: Participant): (m: Option<Monster>)
    ensures m.Some? <==> p.activeIndex.Some? && 0 <= p.activeIndex.value < |p.monsters|
    ensures m.Some? ==> m.value in p.monsters
  {
    match p.activeIndex
    case None => None
    case Some(i) => if 0 <= i < |p.monsters| then Some(p.monsters[i]) else None
  }

  /** The active monster of user `uid`'s side, if the side and its active monster exist. */
  function ActiveMonsterOf(s: BattleState, uid: UserId): Option<Monster> {
    if uid in s.participants then ActiveMonster(s.participants[uid]) else None
  }

  /** The name a user goes by in narration. */
  function DisplayName(u: User): PlayerName {
    match u.name
    case Some(n) => Named(n)
    case None => Numbered(u.id)
  }

  /** The name a battle uses for one of its players; strangers are "Player <id>". */
  function PlayerNameIn(b: Battle, uid: UserId): PlayerName {
    if b.player1Id == uid then (if b.player1Name.Some? then Named(b.player1Name.value) else Numbered(uid))
    else if b.player2Id == uid then (if b.player2Name.Some? then Named(b.player2Name.value) else Numbered(uid))
    else Numbered(uid)
  }

  /** The battle-row invariant: completed exactly when ended, and a winner only once completed. */
  predicate RowConsistent(b: Battle) {
    && (b.status == Completed <==> b.endedAt.Some?)
    && (b.winnerUserId.Some? ==> b.status == Completed)
  }

  /** A row that is not active names nobody to move. */
  predicate NoTurnUnlessActive(b: Battle) {
    b.status != Active ==> b.state.nextActorId.None?
  }

  /** Exactly one of: someone is to move, someone must swap, the battle is over. */
  predicate ExactlyOneClaim(b: Battle) {
    var next := b.state.nextActorId.Some?;
    var forced := b.state.forcedSwitchUserId.Some?;
    var done := b.status == Completed;
    (next && !forced && !done) || (!next && forced && !done) || (!next && !forced && done)
  }
}
