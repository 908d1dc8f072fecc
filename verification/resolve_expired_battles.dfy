/**
  The clock-driven third actor (`ResolveExpiredBattles`): a battle whose turn
  deadline has passed either forfeits (a forced switch was pending) or skips the
  late player's turn. Each resolution is one atomic step on the locked row.
 */
module ResolveExpiredBattles {
  import opened Common
  import opened BattleModel
  import PvpRanking

  const DefaultTurnTimeoutSeconds: int := 30

  /** What one resolution writes: the new row, the log entry it appended and the audit record. */
  datatype Resolution = Resolution(battle: Battle, entry: TurnResult, audit: BattleTurn)

  /** `opponentId`: the other player of the battle; null for a stranger. */
  function OpponentId(b: Battle, uid: UserId): (r: Option<UserId>)
    ensures r.Some? <==> IsParticipant(b, uid)
    ensures r.Some? ==> IsParticipant(b, r.value)
    ensures b.player1Id != b.player2Id && r.Some? ==> r.value != uid
  {
    if uid == b.player1Id then Some(b.player2Id)
    else if uid == b.player2Id then Some(b.player1Id)
    else None
  }

  /** For two distinct players `OpponentId` is an involution on the participants. */
  lemma OpponentInvolution(b: Battle, uid: UserId)
    requires b.player1Id != b.player2Id && IsParticipant(b, uid)
    ensures OpponentId(b, OpponentId(b, uid).value) == Some(uid)
  {
  }

  /** `buildTimeoutLog`: a `timeout` entry carrying a single `log` event. */
  function BuildTimeoutLog(turnNumber: int, actor: UserId, message: Message): (e: TurnResult)
    ensures e.turn == turnNumber && e.actorUserId == Some(actor) && e.action == Timeout
    ensures |e.events| == 1 && e.events[0].LogEvent? && e.events[0].message == message
  {
    TurnResult(turnNumber, Some(actor), Timeout, [LogEvent(message)])
  }

  /** The database filter of the sweep: active, with a deadline that is not after `now`. */
  predicate SweepSelects(b: Battle, now: int) {
    b.status == Active && b.state.turnExpiresAt.Some? && b.state.turnExpiresAt.value <= now
  }

  /** The user whose clock ran out: the pending switcher if any, else the next actor. */
  function TimedOutUser(s: BattleState): Option<UserId> {
    if s.forcedSwitchUserId.Some? then s.forcedSwitchUserId else s.nextActorId
  }

  /** The stored timeout, or 30 seconds when the key is missing. */
  function TimeoutSeconds(s: BattleState): int {
    s.turnTimeoutSeconds.GetOr(DefaultTurnTimeoutSeconds)
  }

  /** `resolveBattle`, inside its transaction: `None` when nothing is written. */
  function ResolveBattle(b: Battle, now: int): (r: Option<Resolution>)
    // The three no-op exits, and the null opponent in the plain branch.
    ensures r.Some? <==>
              && SweepSelects(b, now)
              && Truthy(TimedOutUser(b.state))
              && (b.state.forcedSwitchUserId.Some? || Truthy(OpponentId(b, b.state.nextActorId.value)))
    // Exactly one log entry is appended, and it is the one the audit record carries.
    ensures r.Some? ==>
              var turn := b.state.turn.GetOr(1);
              var actor := TimedOutUser(b.state).value;
              && r.value.battle.state.log == b.state.log + [r.value.entry]
              && r.value.entry.turn == turn
              && r.value.entry.actorUserId == Some(actor)
              && r.value.entry.action == Timeout
              && |r.value.entry.events| == 1 && r.value.entry.events[0].LogEvent?
              && r.value.audit == BattleTurn(b.id, turn, actor, Timeout, r.value.entry)
              && r.value.battle.state.turn == Some(turn + 1)
    // Both branches clear any pending switch and keep the players, participants and settings.
    ensures r.Some? ==>
              var s' := r.value.battle.state;
              && s'.forcedSwitchUserId.None?
              && s'.participants == b.state.participants
              && s'.turnTimeoutSeconds == b.state.turnTimeoutSeconds
              && s'.mode == b.state.mode
              && r.value.battle.id == b.id
              && r.value.battle.player1Id == b.player1Id && r.value.battle.player2Id == b.player2Id
              && ExactlyOneClaim(r.value.battle)
    // Forced-switch forfeit: the opponent of the switcher wins and every clock key is cleared.
    ensures r.Some? && b.state.forcedSwitchUserId.Some? ==>
              var b' := r.value.battle;
              && b'.status == Completed
              && b'.winnerUserId == OpponentId(b, b.state.forcedSwitchUserId.value)
              && b'.endedAt == Some(now)
              && b'.state.nextActorId.None? && b'.state.forcedSwitchReason.None?
              && b'.state.turnStartedAt.None? && b'.state.turnExpiresAt.None?
              && r.value.entry.events[0].message.FailedToSwap?
    // Plain timeout: the turn passes to the opponent, whose clock starts now.
    ensures r.Some? && b.state.forcedSwitchUserId.None? ==>
              var b' := r.value.battle;
              && b'.status == Active
              && b'.winnerUserId == b.winnerUserId && b'.endedAt == b.endedAt
              && b'.state.nextActorId == OpponentId(b, b.state.nextActorId.value)
              && (b.player1Id != b.player2Id ==> b'.state.nextActorId != b.state.nextActorId)
              && b'.state.turnStartedAt == Some(now)
              && b'.state.turnExpiresAt == Some(now + TimeoutSeconds(b.state))
              && (TimeoutSeconds(b.state) > 0 ==> b'.state.turnExpiresAt.value > now)
              && r.value.entry.events[0].message.TimedOut?
  {
    if b.status != Active then None
    else if b.state.turnExpiresAt.None? || b.state.turnExpiresAt.value > now then None
    else
      var forced := b.state.forcedSwitchUserId;
      var timedOut := if forced.Some? then forced else b.state.nextActorId;
      if !Truthy(timedOut) then None
      else
        var actor := timedOut.value;
        var turnNumber := b.state.turn.GetOr(1);
        var message := if Truthy(forced) then FailedToSwap(PlayerNameIn(b, actor))
                       else TimedOut(PlayerNameIn(b, actor));
        var entry := BuildTimeoutLog(turnNumber, actor, message);
        var audit := BattleTurn(b.id, turnNumber, actor, Timeout, entry);
        if Truthy(forced) then
          var state' := b.state.(log := b.state.log + [entry],
                                 turn := Some(turnNumber + 1),
                                 nextActorId := None,
                                 forcedSwitchUserId := None,
                                 forcedSwitchReason := None,
                                 turnStartedAt := None,
                                 turnExpiresAt := None);
          var winner := OpponentId(b, actor);
          Some(Resolution(b.(state := state', status := Completed, winnerUserId := winner, endedAt := Some(now)),
                          entry, audit))
        else
          var next := OpponentId(b, actor);
          if !Truthy(next) then None
          else
            var state' := b.state.(log := b.state.log + [entry],
                                   turn := Some(turnNumber + 1),
                                   nextActorId := next,
                                   turnStartedAt := Some(now),
                                   turnExpiresAt := Some(now + TimeoutSeconds(b.state)));
            Some(Resolution(b.(state := state'), entry, audit))
  }

  /** One step of the sweep for one battle: resolve it, then rate it if it completed with a winner. */
  datatype StepResult = StepResult(battle: Battle, audit: Option<BattleTurn>, profiles: PvpRanking.Profiles, ranked: bool)

  function ResolveAndRank(b: Battle, now: int, ps: PvpRanking.Profiles, elo: PvpRanking.EloCalculator): (r: StepResult)
    ensures r.audit.Some? <==> ResolveBattle(b, now).Some?
    ensures r.audit.None? ==> r.battle == b && r.profiles == ps && !r.ranked
    ensures r.ranked <==> r.audit.Some? && r.battle.status == Completed && r.battle.winnerUserId.Some?
    ensures !r.ranked ==> r.profiles == ps
  {
    match ResolveBattle(b, now)
    case None => StepResult(b, None, ps, false)
    case Some(res) =>
      if res.battle.status == Completed && res.battle.winnerUserId.Some? then
        StepResult(res.battle, Some(res.audit), PvpRanking.HandleBattleCompletion(ps, res.battle, elo), true)
      else
        StepResult(res.battle, Some(res.audit), ps, false)
  }

  /** The deadline clock is sane: a stored timeout, if any, is positive. */
  predicate PositiveTimeout(b: Battle) {
    TimeoutSeconds(b.state) > 0
  }

  /** Resolving twice at the same instant is resolving once: the second call finds the battle
      completed (forfeit) or its new deadline in the future (plain timeout). */
  lemma ResolveIdempotent(b: Battle, now: int, ps: PvpRanking.Profiles, elo: PvpRanking.EloCalculator)
    requires PositiveTimeout(b)
    ensures var once := ResolveAndRank(b, now, ps, elo);
            ResolveAndRank(once.battle, now, once.profiles, elo) == StepResult(once.battle, None, once.profiles, false)
  {
    var once := ResolveAndRank(b, now, ps, elo);
    if once.audit.Some? {
      var b' := once.battle;
      assert ResolveBattle(b', now).None? by {
        if b.state.forcedSwitchUserId.None? {
          assert b'.state.turnExpiresAt.value > now;
        }
      }
    }
  }

  /** With a zero timeout the plain branch sets a deadline that is already due, so a second
      resolution at the same instant skips the other player's turn as well. */
  lemma ZeroTimeoutIsNotIdempotent()
    ensures var b := Battle(1, 0, Active, 10, 20, None, None, None, None, None,
                            EmptyState().(turn := Some(1), nextActorId := Some(10),
                                          turnExpiresAt := Some(0), turnTimeoutSeconds := Some(0)));
            var once := ResolveBattle(b, 0);
            && once.Some?
            && ResolveBattle(once.value.battle, 0).Some?
            && ResolveBattle(once.value.battle, 0).value.battle.state.nextActorId == Some(10)
  {
  }

  /** The sweep over the battles table (in id order) at one instant. */
  datatype SweepResult = SweepResult(battles: seq<Battle>, audits: seq<BattleTurn>, profiles: PvpRanking.Profiles)

  /** The row one battle is left as: its resolution, or the battle itself when there is none. */
  function Swept(b: Battle, now: int): Battle {
    if ResolveBattle(b, now).Some? then ResolveBattle(b, now).value.battle else b
  }

  /** The audit records of the battles among `db` that get resolved, in order. */
  function TimeoutAudits(db: seq<Battle>, now: int): seq<BattleTurn> {
    if |db| == 0 then []
    else (if ResolveBattle(db[0], now).Some? then [ResolveBattle(db[0], now).value.audit] else []) + TimeoutAudits(db[1..], now)
  }

  /** The battles whose resolution completes them with a winner, in order: the ones handed to ranking. */
  function RatedBattles(db: seq<Battle>, now: int): seq<Battle> {
    if |db| == 0 then []
    else
      var b' := Swept(db[0], now);
      (if ResolveBattle(db[0], now).Some? && b'.status == Completed && b'.winnerUserId.Some? then [b'] else [])
      + RatedBattles(db[1..], now)
  }

  /** The ranking service run on each battle in turn. */
  function RankAll(ps: PvpRanking.Profiles, bs: seq<Battle>, elo: PvpRanking.EloCalculator): PvpRanking.Profiles
    decreases |bs|
  {
    if |bs| == 0 then ps else RankAll(PvpRanking.HandleBattleCompletion(ps, bs[0], elo), bs[1..], elo)
  }

  function Sweep(db: seq<Battle>, now: int, ps: PvpRanking.Profiles, elo: PvpRanking.EloCalculator): (r: SweepResult)
    ensures |r.battles| == |db|
    ensures |r.audits| <= |db|
    ensures forall i :: 0 <= i < |db| ==> r.battles[i].id == db[i].id
    // A battle the filter does not select is left exactly as it was.
    ensures forall i :: 0 <= i < |db| && !SweepSelects(db[i], now) ==> r.battles[i] == db[i]
    // Every battle ends up as its own resolution, one audit record is written per resolution in
    // id order, and ranking runs on each battle a resolution completed, in the same order.
    ensures forall i :: 0 <= i < |db| ==> r.battles[i] == Swept(db[i], now)
    ensures r.audits == TimeoutAudits(db, now)
    ensures r.profiles == RankAll(ps, RatedBattles(db, now), elo)
    decreases |db|
  {
    if |db| == 0 then SweepResult([], [], ps)
    else
      var step := SweepStep(db[0], now, ps, elo);
      var rest := Sweep(db[1..], now, step.profiles, elo);
      SweepHead(db, now, ps, elo);
      SweepResult([step.battle] + rest.battles, AuditOf(step) + rest.audits, rest.profiles)
  }

  /** What the sweep does with one battle: resolve and rate it if the filter selects it. */
  function SweepStep(b: Battle, now: int, ps: PvpRanking.Profiles, elo: PvpRanking.EloCalculator): StepResult {
    if SweepSelects(b, now) then ResolveAndRank(b, now, ps, elo) else StepResult(b, None, ps, false)
  }

  function AuditOf(step: StepResult): seq<BattleTurn> {
    if step.audit.Some? then [step.audit.value] else []
  }

  /** The first battle's step is its resolution, writes its audit record and rates exactly the
      battle `RatedBattles` lists first. */
  lemma SweepHead(db: seq<Battle>, now: int, ps: PvpRanking.Profiles, elo: PvpRanking.EloCalculator)
    requires |db| > 0
    ensures var step := SweepStep(db[0], now, ps, elo);
            && step.battle == Swept(db[0], now)
            && step.battle.id == db[0].id
            && (!SweepSelects(db[0], now) ==> step.battle == db[0])
            && AuditOf(step) + TimeoutAudits(db[1..], now) == TimeoutAudits(db, now)
            && RankAll(step.profiles, RatedBattles(db[1..], now), elo) == RankAll(ps, RatedBattles(db, now), elo)
  {
    var step := SweepStep(db[0], now, ps, elo);
    var rated := RatedBattles(db, now);
    assert step.battle == Swept(db[0], now);
    assert step.ranked ==> rated == [step.battle] + RatedBattles(db[1..], now)
                           && RankAll(ps, rated, elo) == RankAll(step.profiles, RatedBattles(db[1..], now), elo);
    assert !step.ranked ==> rated == RatedBattles(db[1..], now) && step.profiles == ps;
  }

  /** A sweep run again at the same instant finds nothing to do. */
  lemma {:induction false} SweepIdempotent(db: seq<Battle>, now: int, ps: PvpRanking.Profiles, elo: PvpRanking.EloCalculator)
    requires forall i :: 0 <= i < |db| ==> PositiveTimeout(db[i])
    ensures var once := Sweep(db, now, ps, elo);
            Sweep(once.battles, now, once.profiles, elo) == SweepResult(once.battles, [], once.profiles)
    decreases |db|
  {
    if |db| > 0 {
      var once := Sweep(db, now, ps, elo);
      var step := SweepStep(db[0], now, ps, elo);
      var rest := Sweep(db[1..], now, step.profiles, elo);
      assert once.battles == [step.battle] + rest.battles;
      assert once.battles[1..] == rest.battles;
      SweepIdempotent(db[1..], now, step.profiles, elo);
      if SweepSelects(db[0], now) {
        ResolveIdempotent(db[0], now, ps, elo);
      }
      assert !SweepSelects(step.battle, now) || ResolveAndRank(step.battle, now, rest.profiles, elo).audit.None?;
    }
  }
}
