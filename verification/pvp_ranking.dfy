/**
  Rating bookkeeping on battle completion (`PvpRankingService`).

  The Elo arithmetic itself is floating point and is a parameter here: any
  function from the two ratings and the two scores to two new ratings.
 */
module PvpRanking {
  import opened Common
  import opened BattleModel

  const DefaultMmr: int := 1000

  /** A `pvp_profiles` row; `wins` and `losses` are unsigned columns. */
  datatype Profile = Profile(mmr: int, wins: nat, losses: nat)

  /** The `pvp_profiles` table, keyed by its unique `user_id`. */
  type Profiles = map<UserId, Profile>

  /** `EloCalculator::calculate(ratingA, ratingB, scoreA, scoreB)`. */
  type EloCalculator = (int, int, real, real) -> (int, int)

  /** The profile a fresh `firstOrCreate` produces: the column defaults. */
  function FreshProfile(): Profile {
    Profile(DefaultMmr, 0, 0)
  }

  /** The profile of `uid`, or the one `ensureProfile` would create. */
  function ProfileOr(ps: Profiles, uid: UserId): Profile {
    if uid in ps then ps[uid] else FreshProfile()
  }

  /** `ensureProfile`: find the user's profile or create it with the defaults. */
  function EnsureProfile(ps: Profiles, uid: UserId): (r: Profiles)
    ensures r.Keys == ps.Keys + {uid}
    ensures uid in ps ==> r == ps
    ensures uid !in ps ==> r[uid] == Profile(1000, 0, 0)
    ensures forall u :: u in ps ==> r[u] == ps[u]
  {
    if uid in ps then ps else ps[uid := FreshProfile()]
  }

  /** `data_get($battle->meta_json, 'mode', 'ranked')`: the default applies to a missing key
      only, so a key stored as null reads as null (`None`). */
  function ModeOf(b: Battle): Option<string> {
    match b.state.mode
    case Missing => Some("ranked")
    case Null => None
    case Text(m) => Some(m)
  }

  /** A profile after one result: one more win for a positive score, one more loss for a zero score. */
  function Tally(p: Profile, newMmr: int, score: real): (r: Profile)
    ensures r.mmr == newMmr
    // A win for a positive score, a loss for a zero score, and neither otherwise.
    ensures score > 0.0 ==> r.wins == p.wins + 1 && r.losses == p.losses
    ensures score == 0.0 ==> r.losses == p.losses + 1 && r.wins == p.wins
    ensures score < 0.0 ==> r.wins == p.wins && r.losses == p.losses
  {
    Profile(newMmr,
            p.wins + (if score > 0.0 then 1 else 0),
            p.losses + (if score == 0.0 then 1 else 0))
  }

  /** `handleBattleCompletion`: rate a finished battle and count the win and the loss. */
  function HandleBattleCompletion(ps: Profiles, b: Battle, elo: EloCalculator): (r: Profiles)
    // Nothing to rate without a winner, or outside ranked play.
    ensures b.winnerUserId.None? ==> r == ps
    ensures ModeOf(b) != Some("ranked") ==> r == ps
    // Otherwise both profiles exist afterwards, and no one else's row is touched.
    ensures b.winnerUserId.Some? && ModeOf(b) == Some("ranked") ==>
              r.Keys == ps.Keys + {b.player1Id, b.player2Id}
    ensures forall u :: u in ps && u != b.player1Id && u != b.player2Id ==> r[u] == ps[u]
    // Counters never decrease.
    ensures forall u :: u in ps ==> u in r && r[u].wins >= ps[u].wins && r[u].losses >= ps[u].losses
  {
    if b.winnerUserId.None? then ps
    else if ModeOf(b) != Some("ranked") then ps
    else
      var ps1 := EnsureProfile(ps, b.player1Id);
      var prof1 := ps1[b.player1Id];
      var ps2 := EnsureProfile(ps1, b.player2Id);
      var prof2 := ps2[b.player2Id];
      var winner := b.winnerUserId.value;
      var score1 := if winner == b.player1Id then 1.0 else 0.0;
      var score2 := if winner == b.player2Id then 1.0 else 0.0;
      var mmrs := elo(prof1.mmr, prof2.mmr, score1, score2);
      ps2[b.player1Id := Tally(prof1, mmrs.0, score1)][b.player2Id := Tally(prof2, mmrs.1, score2)]
  }

  /** A ranked win by one of two distinct players: the winner gains exactly one win, the loser
      exactly one loss, the other counters stay, and both ratings are the calculator's outputs,
      computed from the ratings before the battle (1000 for a missing profile). */
  lemma RankedWinCounters(ps: Profiles, b: Battle, elo: EloCalculator, winner: UserId, loser: UserId)
    requires b.player1Id != b.player2Id
    requires b.winnerUserId == Some(winner) && ModeOf(b) == Some("ranked")
    requires (winner == b.player1Id && loser == b.player2Id) || (winner == b.player2Id && loser == b.player1Id)
    ensures var r := HandleBattleCompletion(ps, b, elo);
            && r[winner].wins == ProfileOr(ps, winner).wins + 1
            && r[winner].losses == ProfileOr(ps, winner).losses
            && r[loser].losses == ProfileOr(ps, loser).losses + 1
            && r[loser].wins == ProfileOr(ps, loser).wins
    ensures var r := HandleBattleCompletion(ps, b, elo);
            var p1 := ProfileOr(ps, b.player1Id);
            var p2 := ProfileOr(ps, b.player2Id);
            var s1 := if winner == b.player1Id then 1.0 else 0.0;
            (r[b.player1Id].mmr, r[b.player2Id].mmr) == elo(p1.mmr, p2.mmr, s1, 1.0 - s1)
  {
  }

  /** A winner who is neither player still gives both players a loss: the scores are both zero. */
  lemma StrangerWinnerCountsTwoLosses(ps: Profiles, b: Battle, elo: EloCalculator)
    requires b.player1Id != b.player2Id
    requires b.winnerUserId.Some? && !IsParticipant(b, b.winnerUserId.value) && ModeOf(b) == Some("ranked")
    ensures var r := HandleBattleCompletion(ps, b, elo);
            && r[b.player1Id].losses == ProfileOr(ps, b.player1Id).losses + 1
            && r[b.player2Id].losses == ProfileOr(ps, b.player2Id).losses + 1
            && r[b.player1Id].wins == ProfileOr(ps, b.player1Id).wins
            && r[b.player2Id].wins == ProfileOr(ps, b.player2Id).wins
  {
  }

  /** How `handleBattleCompletion` as written ends: it rates, or it throws after creating the
      profile rows (the rows it created stay). */
  datatype CompletionRun = Rated(profiles: Profiles) | NullRating(profiles: Profiles)

  /** `handleBattleCompletion` exactly as written. `firstOrCreate` with no values inserts the row
      with the column defaults but does not read them back, so a profile it has just created
      carries a null `mmr`; `calculate(int $ratingA, int $ratingB, …)` rejects that with a
      TypeError once both rows exist and before any counter is written. */
  function HandleBattleCompletionAsWritten(ps: Profiles, b: Battle, elo: EloCalculator): (r: CompletionRun)
    ensures b.winnerUserId.None? || ModeOf(b) != Some("ranked") ==> r == Rated(ps)
    // With both profiles already stored it rates exactly as intended.
    ensures b.player1Id in ps && b.player2Id in ps ==> r == Rated(HandleBattleCompletion(ps, b, elo))
    // A missing profile makes it throw: both rows now exist, and no row was rated.
    ensures b.winnerUserId.Some? && ModeOf(b) == Some("ranked") && (b.player1Id !in ps || b.player2Id !in ps) ==>
              && r.NullRating?
              && r.profiles.Keys == ps.Keys + {b.player1Id, b.player2Id}
              && forall u :: u in r.profiles ==> r.profiles[u] == ProfileOr(ps, u)
  {
    if b.winnerUserId.None? || ModeOf(b) != Some("ranked") then Rated(ps)
    else
      var ps2 := EnsureProfile(EnsureProfile(ps, b.player1Id), b.player2Id);
      if b.player1Id !in ps || b.player2Id !in ps then NullRating(ps2)
      else Rated(HandleBattleCompletion(ps, b, elo))
  }

  /** Two players without profiles finish a ranked battle: as written, the rows are created and
      the call throws, while the intended rating counts the win and the loss. */
  lemma NewPlayersFirstRankedWin(elo: EloCalculator)
    ensures var b := Battle(1, 0, Completed, 10, 20, None, None, Some(10), None, Some(5), EmptyState());
            && HandleBattleCompletionAsWritten(map[], b, elo) == NullRating(map[10 := FreshProfile(), 20 := FreshProfile()])
            && HandleBattleCompletion(map[], b, elo)[10].wins == 1
            && HandleBattleCompletion(map[], b, elo)[20].losses == 1
  {
    var b := Battle(1, 0, Completed, 10, 20, None, None, Some(10), None, Some(5), EmptyState());
    assert ModeOf(b) == Some("ranked");
  }
}
