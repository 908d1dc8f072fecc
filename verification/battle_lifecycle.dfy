/**
  One battle's life under the three actors that drive it: requests to the JSON
  controller, requests to the web controller, and the expired-turn sweep. Each
  step runs on the row as it stands when the lock is granted.
 */
module BattleLifecycle {
  import opened Common
  import opened BattleModel
  import opened BattleActionService
  import PvpRanking
  import ApiBattleController
  import WebBattleController
  import ResolveExpiredBattles

  /** One event in a battle's life. A request carries `seen`, the copy of the row its pre-checks
      read before the lock was granted: the current row, or any earlier copy of it (the model
      admits any row there). */
  datatype Step =
    | ApiRequest(seen: Battle, actor: User, action: Action, now: int)
    | WebRequest(seen: Battle, actor: User, action: Action, now: int)
    | SweepRun(now: int)

  /** The battle row, the rating table, the audit trail and how often ranking ran. */
  datatype World = World(battle: Battle, profiles: PvpRanking.Profiles, audits: seq<BattleTurn>, rankings: nat)

  /** The engine names a winner only together with the end of the battle. */
  ghost predicate WinnerOnlyAtEnd(engine: Engine) {
    forall b, u, a :: engine(b, u, a).Ok? && engine(b, u, a).value.winnerId.Some? ==> engine(b, u, a).value.hasEnded
  }

  /** The engine names nobody to move once it reports the end of the battle. */
  ghost predicate EndNamesNoActor(engine: Engine) {
    forall b, u, a :: engine(b, u, a).Ok? && engine(b, u, a).value.hasEnded ==> engine(b, u, a).value.state.nextActorId.None?
  }

  function ApplyActed(w: World, o: ActionOutcome, profiles: PvpRanking.Profiles, ranked: bool): World {
    World(o.battle, profiles, w.audits + [o.audit], if ranked then w.rankings + 1 else w.rankings)
  }

  /** One step on the row as it stands when the lock is granted. A rejected request changes nothing. */
  function Apply(w: World, step: Step, engine: Engine, elo: PvpRanking.EloCalculator): (r: World)
    // Ranking runs at most once per step, and only on a step that leaves the battle completed.
    ensures r.rankings == w.rankings || r.rankings == w.rankings + 1
    ensures r.rankings == w.rankings + 1 ==> r.battle.status == Completed
    ensures r.rankings == w.rankings ==> r.profiles == w.profiles
    // While a row that is not active names nobody to move, a battle that is not active is final
    // (nobody passes the locked guard and the sweep skips it), so only completing an active
    // battle is ever rated.
    ensures NoTurnUnlessActive(w.battle) && w.battle.status != Active ==> r == w
    ensures NoTurnUnlessActive(w.battle) && r.rankings == w.rankings + 1 ==> w.battle.status == Active
    // Each accepted step leaves exactly one audit record, for this battle.
    ensures r.audits == w.audits || (|r.audits| == |w.audits| + 1 && r.audits[..|w.audits|] == w.audits
                                     && r.audits[|w.audits|].battleId == w.battle.id)
    // The row keeps its identity and players.
    ensures r.battle.id == w.battle.id
    ensures r.battle.player1Id == w.battle.player1Id && r.battle.player2Id == w.battle.player2Id
  {
    match step
    case ApiRequest(seen, actor, action, now) =>
      (match ApiBattleController.ApiAct(seen, w.battle, actor, action, engine, now, w.profiles, elo)
       case Err(_) => w
       case Ok(s) =>
         assert s.outcome == HandleAction(w.battle, actor, action, engine, now).value;
         ApplyActed(w, s.outcome, s.profiles, s.rankingInvoked))
    case WebRequest(seen, actor, action, now) =>
      (match WebBattleController.WebAct(seen, w.battle, actor, action, engine, now, w.profiles, elo)
       case Err(_) => w
       case Ok(s) =>
         assert s.outcome == HandleAction(w.battle, actor, action, engine, now).value;
         ApplyActed(w, s.outcome, s.profiles, s.rankingInvoked))
    case SweepRun(now) =>
      var res := ResolveExpiredBattles.ResolveAndRank(w.battle, now, w.profiles, elo);
      match res.audit
      case None => w
      case Some(a) =>
        var resolution := ResolveExpiredBattles.ResolveBattle(w.battle, now).value;
        assert a == resolution.audit && res.battle == resolution.battle;
        World(res.battle, res.profiles, w.audits + [a], if res.ranked then w.rankings + 1 else w.rankings)
  }

  function Run(w: World, steps: seq<Step>, engine: Engine, elo: PvpRanking.EloCalculator): World
    decreases |steps|
  {
    if |steps| == 0 then w else Run(Apply(w, steps[0], engine, elo), steps[1..], engine, elo)
  }

  /** With an engine that names nobody to move at the end, every step keeps a row that is not
      active from naming anyone to move: the service persists the engine's state, and the forfeit
      clears the next actor. */
  lemma ApplyKeepsNoTurnUnlessActive(w: World, step: Step, engine: Engine, elo: PvpRanking.EloCalculator)
    requires NoTurnUnlessActive(w.battle) && EndNamesNoActor(engine)
    ensures NoTurnUnlessActive(Apply(w, step, engine, elo).battle)
  {
    match step
    case ApiRequest(seen, actor, action, now) =>
      if ApiBattleController.ApiAct(seen, w.battle, actor, action, engine, now, w.profiles, elo).Ok? {
        assert engine(w.battle, actor.id, action).Ok?;
      }
    case WebRequest(seen, actor, action, now) =>
      if WebBattleController.WebAct(seen, w.battle, actor, action, engine, now, w.profiles, elo).Ok? {
        assert engine(w.battle, actor.id, action).Ok?;
      }
    case SweepRun(now) =>
  }

  /** Whatever the interleaving of requests (each pre-checked on any copy of the row) and sweeps,
      a battle whose rows keep `NoTurnUnlessActive` is rated at most once, and only once it has
      completed; a battle that is no longer active never changes again. */
  lemma {:induction false} RatedAtMostOnce(w: World, steps: seq<Step>, engine: Engine, elo: PvpRanking.EloCalculator)
    requires NoTurnUnlessActive(w.battle) && EndNamesNoActor(engine)
    ensures Run(w, steps, engine, elo).rankings <= w.rankings + 1
    ensures Run(w, steps, engine, elo).rankings == w.rankings + 1 ==> Run(w, steps, engine, elo).battle.status == Completed
    ensures Run(w, steps, engine, elo).rankings == w.rankings ==> Run(w, steps, engine, elo).profiles == w.profiles
    ensures w.battle.status != Active ==> Run(w, steps, engine, elo) == w
    decreases |steps|
  {
    if |steps| > 0 {
      var w' := Apply(w, steps[0], engine, elo);
      ApplyKeepsNoTurnUnlessActive(w, steps[0], engine, elo);
      RatedAtMostOnce(w', steps[1..], engine, elo);
    }
  }

  /** Without the engine hypothesis the bound fails: a player submits twice, both pre-checks read
      the active row, and an engine that reports the end but leaves the player named to move lets
      the second request through the locked guard, so the battle is rated twice. */
  lemma StaleDoubleSubmitRatesTwice()
    ensures var s := EmptyState().(nextActorId := Some(1),
                                   participants := map[1 := Participant(1, Some(0), [Monster(7, None, 40, Some(40))])]);
            var b := Battle(5, 0, Active, 1, 2, None, None, None, None, None, s);
            var result := TurnResult(1, Some(1), Move(0), []);
            var engine: Engine := (b: Battle, u: UserId, a: Action) => Ok(EngineOutcome(b.state, result, true, Some(u)));
            var elo := (x: int, y: int, p: real, q: real) => (x, y);
            var submit := ApiRequest(b, User(1, None), Move(0), 200);
            var w := Run(World(b, map[], [], 0), [submit, submit], engine, elo);
            && w.rankings == 2
            && 1 in w.profiles && w.profiles[1].wins == 2
            && w.battle.status == Completed
  {
    var s := EmptyState().(nextActorId := Some(1),
                           participants := map[1 := Participant(1, Some(0), [Monster(7, None, 40, Some(40))])]);
    var b := Battle(5, 0, Active, 1, 2, None, None, None, None, None, s);
    var result := TurnResult(1, Some(1), Move(0), []);
    var engine: Engine := (b: Battle, u: UserId, a: Action) => Ok(EngineOutcome(b.state, result, true, Some(u)));
    var elo := (x: int, y: int, p: real, q: real) => (x, y);
    var submit := ApiRequest(b, User(1, None), Move(0), 200);
    var w0 := World(b, map[], [], 0);
    var w1 := Apply(w0, submit, engine, elo);
    assert w1.rankings == 1 && w1.battle.state == s && 1 in w1.profiles && w1.profiles[1].wins == 1 by {
      assert ActiveMonsterOf(s, 1) == Some(Monster(7, None, 40, Some(40)));
    }
    var w2 := Apply(w1, submit, engine, elo);
    assert w2.rankings == 2 && 1 in w2.profiles && w2.profiles[1].wins == 2 && w2.battle.status == Completed by {
      assert ActiveMonsterOf(s, 1) == Some(Monster(7, None, 40, Some(40)));
    }
    assert Run(w0, [submit, submit], engine, elo) == Run(w1, [submit], engine, elo);
    assert Run(w1, [submit], engine, elo) == Run(w2, [], engine, elo);
  }

  /** With an engine that names a winner only at the end, every step keeps the row invariant
      (completed exactly when ended, a winner only once completed). */
  lemma ApplyKeepsRowConsistent(w: World, step: Step, engine: Engine, elo: PvpRanking.EloCalculator)
    requires RowConsistent(w.battle) && WinnerOnlyAtEnd(engine)
    ensures RowConsistent(Apply(w, step, engine, elo).battle)
  {
    match step
    case ApiRequest(seen, actor, action, now) =>
      if ApiBattleController.ApiAct(seen, w.battle, actor, action, engine, now, w.profiles, elo).Ok? {
        HandleActionKeepsRowConsistent(w.battle, actor, action, engine, now);
      }
    case WebRequest(seen, actor, action, now) =>
      if WebBattleController.WebAct(seen, w.battle, actor, action, engine, now, w.profiles, elo).Ok? {
        HandleActionKeepsRowConsistent(w.battle, actor, action, engine, now);
      }
    case SweepRun(now) =>
  }

  lemma {:induction false} RunKeepsRowConsistent(w: World, steps: seq<Step>, engine: Engine, elo: PvpRanking.EloCalculator)
    requires RowConsistent(w.battle) && WinnerOnlyAtEnd(engine)
    ensures RowConsistent(Run(w, steps, engine, elo).battle)
    decreases |steps|
  {
    if |steps| > 0 {
      ApplyKeepsRowConsistent(w, steps[0], engine, elo);
      RunKeepsRowConsistent(Apply(w, steps[0], engine, elo), steps[1..], engine, elo);
    }
  }

  /** A request whose pre-checks passed on a stale copy still cannot act on a row that completed
      in between, provided the completed row names no next actor: the guard on the locked row then
      refuses it. The service does not re-check the status itself. */
  lemma LateRequestRefused(seen: Battle, locked: Battle, actor: User, action: Action, engine: Engine, now: int,
                           ps: PvpRanking.Profiles, elo: PvpRanking.EloCalculator)
    requires locked.status == Completed && locked.state.nextActorId.None?
    ensures ApiBattleController.ApiAct(seen, locked, actor, action, engine, now, ps, elo).Err?
    ensures WebBattleController.WebAct(seen, locked, actor, action, engine, now, ps, elo).Err?
  {
    assert GuardTurnOrder(locked.state, actor.id, action).Fail?;
  }

  /** Without that invariant the locked row's status is not consulted: an engine that leaves the
      next actor set and reports no end turns a completed battle back into an active one. */
  lemma StaleSnapshotCanReviveCompletedBattle()
    ensures var s := EmptyState().(nextActorId := Some(1),
                                   participants := map[1 := Participant(1, Some(0), [Monster(7, None, 40, Some(40))])]);
            var seen := Battle(5, 0, Active, 1, 2, None, None, None, None, None, s);
            var locked := seen.(status := Completed, winnerUserId := Some(2), endedAt := Some(100));
            var result := TurnResult(1, Some(1), Move(0), []);
            var engine: Engine := (b: Battle, u: UserId, a: Action) => Ok(EngineOutcome(b.state, result, false, None));
            var r := ApiBattleController.ApiAct(seen, locked, User(1, None), Move(0), engine, 200, map[], (a: int, b: int, x: real, y: real) => (a, b));
            && r.Ok?
            && r.value.outcome.battle.status == Active
            && r.value.outcome.battle.winnerUserId.None?
            && r.value.outcome.battle.endedAt.None?
  {
    var s := EmptyState().(nextActorId := Some(1),
                           participants := map[1 := Participant(1, Some(0), [Monster(7, None, 40, Some(40))])]);
    assert ActiveMonsterOf(s, 1) == Some(Monster(7, None, 40, Some(40)));
  }
}
