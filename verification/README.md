# PvP battle core of game-monster-pvp, in Dafny

A model of the turn machinery behind the game's player-versus-player battles,
and proofs about it. It covers:

- **Turn orchestrator** (`BattleActionService`). The turn-order guard runs on
  the freshly locked row. Then the combat engine is applied, a swap narration
  is folded into the last log slot, status, winner and end time are persisted,
  and one audit record is written.
- **Controllers.** The JSON `BattleController` and the web
  `Web\BattleController` re-check the guard on the unlocked row before calling
  the service, then rate the battle when it ended with a winner. The JSON
  controller also opens battles (`challenge`, `loadParty`).
- **Expired-turn resolver** (`ResolveExpiredBattles`). A battle whose deadline
  has passed either forfeits (a forced switch was pending) or passes the turn
  to the opponent with a fresh deadline.
- **Ranked matchmaker** (`RunMatchmaker`). The ranked queue is sorted stably
  by rating and paired greedily by nearest rating. One pending battle is
  created per pair, and both queue rows are deleted.
- **Rating bookkeeping** (`PvpRankingService`). Profiles are created on
  demand. On a ranked result a win and a loss are counted, and the two new
  ratings are stored.
- **Queue** (`PvpQueueController`). Queueing upserts the user's row;
  dequeueing deletes it.
- **Life of one battle** (`BattleLifecycle`). Any interleaving of JSON
  requests, web requests and sweeps, each run as one atomic step on the locked
  row.

Records are immutable datatypes and every operation is a pure function. Time
is an integer, and one `now` is used per step. Keys of the `meta_json` blob
that the code reads with `??` are `Option` fields. The `mode` key, read with
`data_get` and a default, keeps a null value apart from a missing key
(`MetaText`). PHP truthiness of an id
(`if (! $id)`) is `Truthy`: present and non-zero. The combat engine and the
Elo calculator are function parameters. So are the roster check
`hasFullTeam`, the random battle seeds and the user names.

The files are:

- `common.dfy`: `Option`, `Result`, `Outcome` and small sequence facts.
- `battle_model.dfy`: the battle row, its state blob, log entries and audit
  records.
- `battle_action_service.dfy`: the guard and apply wrapper.
- `api_battle_controller.dfy`: the JSON controller.
- `web_battle_controller.dfy`: the web controller.
- `resolve_expired_battles.dfy`: the resolver and the sweep.
- `pvp_ranking.dfy`: rating bookkeeping.
- `pvp_queue.dfy`: the queue.
- `stable_sort.dfy`: the stable sort behind `sortBy`.
- `run_matchmaker.dfy`: the matchmaker.
- `battle_lifecycle.dfy`: the interleavings of one battle.

## Model

| member | source | states |
|---|---|---|
| ResolveExpiredBattles.OpponentId | app/Console/Commands/ResolveExpiredBattles.php:163-170 | Gives an answer exactly for the two players, and that answer is a player of the battle. When the players differ, it is never the user asked about. |
| ResolveExpiredBattles.OpponentInvolution | app/Console/Commands/ResolveExpiredBattles.php:163-170 | For two distinct players, taking the opponent twice returns the original player. |
| ResolveExpiredBattles.BuildTimeoutLog | app/Console/Commands/ResolveExpiredBattles.php:172-185 | A `timeout` entry for the given turn and actor, holding exactly one `log` event that carries the message. |
| ResolveExpiredBattles.ResolveBattle | app/Console/Commands/ResolveExpiredBattles.php:45-131 | **When it writes.** Only when all of these hold: the battle is active; its deadline is present and not after `now`; a timed-out user exists (the pending switcher, otherwise the next actor); and, in the plain branch, that user has an opponent. **What every write contains.** Exactly one log entry is appended. It carries the pre-resolution turn, the timed-out actor, a `timeout` action and one log event. The audit record matches it. The turn goes up by one, any pending switch is cleared, and afterwards the row names exactly one of next actor, switcher or completion. **Forfeit branch.** The battle completes, the switcher's opponent wins, and every clock key is cleared. **Plain branch.** The battle stays active and the turn passes to the opponent. The new deadline is `now` plus the stored timeout (default 30), which is later than `now` when the timeout is positive. |
| ResolveExpiredBattles.ResolveAndRank | app/Console/Commands/ResolveExpiredBattles.php:133-139 | Writes an audit record exactly when the resolution writes. Rates the battle exactly when the resolution completed it with a winner, and otherwise leaves the profiles alone. |
| ResolveExpiredBattles.ResolveIdempotent | app/Console/Commands/ResolveExpiredBattles.php:50-61 | With a positive timeout, a second resolution at the same instant writes nothing. After a forfeit the battle is no longer active; after a plain timeout its deadline is in the future. |
| ResolveExpiredBattles.ZeroTimeoutIsNotIdempotent | app/Console/Commands/ResolveExpiredBattles.php:111-118 | With a stored timeout of 0 the new deadline is already due, so a second resolution at the same instant skips the other player's turn as well. |
| ResolveExpiredBattles.Sweep | app/Console/Commands/ResolveExpiredBattles.php:27-43 | **Rows.** Every battle keeps its place and id. Each battle ends up exactly as its own resolution leaves it (`Swept`). A battle outside the filter (not active, or no deadline that has passed) is left exactly as it was. **Audits.** They are exactly the resolutions' audit records, in id order, so at most one per battle. **Profiles.** The ranking service runs on each battle a resolution completed with a winner, in the same order, and on nothing else (`RankAll`). |
| ResolveExpiredBattles.SweepIdempotent | app/Console/Commands/ResolveExpiredBattles.php:31-40 | When every timeout is positive, a second sweep at the same instant changes nothing and writes no audit record. |
| BattleActionService.GuardTurnOrder | app/Domain/Battle/BattleActionService.php:70-85 | Accepts exactly when the actor is the next actor and either no switch is pending or the actor is the switcher submitting a swap. Another user's pending switch and a non-swap from the switcher are refused with their own errors. Otherwise anyone but the next actor is refused as not their turn. |
| BattleActionService.SwitcherMustAlsoBeNextActor | app/Domain/Battle/BattleActionService.php:82-84 | A forced switcher who is not the next actor is refused even with a swap. |
| BattleActionService.AppendSwapLog | app/Domain/Battle/BattleActionService.php:87-106 | **No active monster.** State and result come back unchanged. **Otherwise.** Exactly one "swapped to" event naming the monster is appended to the result, and the result is written over the last log slot. The log keeps its length and every earlier entry. |
| BattleActionService.HandleAction | app/Domain/Battle/BattleActionService.php:21-57 | **Guard.** It decides before the engine runs, and its errors are the service's errors. **When it succeeds.** Exactly when the guard passes and the engine does not throw. **What is persisted.** Status is `completed` exactly when the engine reports an end. `ended_at` is set exactly then, to `now`. The winner is the engine's. Only a swap rewrites the engine's log and result. One audit record is written, numbered by the result's turn and attributed to the actor. |
| BattleActionService.GuardRejectsBeforeEngine | app/Domain/Battle/BattleActionService.php:24-29 | Once the guard refuses an action, the engine is never consulted: any two engines give the same rejection. |
| BattleActionService.HandleActionKeepsRowConsistent | app/Domain/Battle/BattleActionService.php:35-40 | If the engine names a winner only at the end, the persisted row is completed exactly when it has an end time, and has a winner only when completed. |
| ApiBattleController.LoadParty | app/Http/Controllers/BattleController.php:120-133 | On success returns exactly the requested monsters the user owns; otherwise refuses with the ownership error. |
| ApiBattleController.LoadPartyAcceptsOwnedDistinct | app/Http/Controllers/BattleController.php:128-130 | The count comparison accepts exactly a list of distinct ids that are all owned by the user. A repeated id is refused as surely as a foreign one. |
| ApiBattleController.Challenge | app/Http/Controllers/BattleController.php:27-53 | **Refusals.** An unknown opponent and a self-challenge are refused. **When it succeeds.** Exactly when both parties load. **The battle.** Active, challenger as player 1, the explicit seed when one was given, started now, no winner and no end. |
| ApiBattleController.ChallengeOpensConsistentRow | app/Http/Controllers/BattleController.php:44-53 | A battle the challenge opens satisfies both row invariants the later steps keep: completed exactly when ended, a winner only once completed, and nobody to move unless active. |
| ApiBattleController.ApiActPrecheck | app/Http/Controllers/BattleController.php:60-90 | **Refusals.** A stranger is refused first, then an inactive battle. **When it passes.** Exactly when the guard passes and the actor's active monster is present with hp above zero, or the action is a swap. When that monster rule holds, the verdict is the guard's. |
| ApiBattleController.ApiPrecheckStrictlyNarrower | app/Http/Controllers/BattleController.php:72-76 | A move with a fainted active monster passes the guard but is refused by the JSON pre-checks, so the subset is strict. |
| ApiBattleController.ApiAct | app/Http/Controllers/BattleController.php:58-105 | **Refusals.** A failed pre-check is returned as is. **When it succeeds.** Exactly when the pre-checks pass on the unlocked row and the service accepts on the locked row. The turn order is then enforced on the locked row. **Ranking.** Runs exactly when the outcome ended with a winner. Otherwise the profiles stay unchanged. |
| WebBattleController.AssertParticipant | app/Http/Controllers/Web/BattleController.php:103-112 | Returns the user exactly when they are one of the two players; otherwise refuses as not a participant. |
| WebBattleController.WebActPrecheck | app/Http/Controllers/Web/BattleController.php:61-83 | After the participant and status checks, the verdict is the guard's, error for error. So it accepts exactly what the guard accepts on active battles of participants. |
| WebBattleController.WebAct | app/Http/Controllers/Web/BattleController.php:61-98 | **When it succeeds.** Exactly when the pre-checks and the service accept. **Engine error.** It comes back as an error and nothing is rated. **Ranking.** Runs exactly when the outcome ended with a winner. |
| PvpRanking.EnsureProfile | app/Domain/Pvp/PvpRankingService.php:15-20 | Adds the user and nothing else. An existing profile is left alone; a new one has mmr 1000 and no wins or losses. |
| PvpRanking.Tally | app/Domain/Pvp/PvpRankingService.php:48-57 | Stores the new rating. A positive score adds exactly one win, a zero score exactly one loss, a negative score neither; the other counter stays. |
| PvpRanking.HandleBattleCompletion | app/Domain/Pvp/PvpRankingService.php:22-60 | **No change.** With no winner, or a mode other than `ranked`, nothing changes. A missing mode counts as ranked; a mode stored as null does not. **A ranked result.** Both players have profiles afterwards and nobody else's row changes. No counter decreases. A new profile enters the rating at 1000 (see Findings). |
| PvpRanking.HandleBattleCompletionAsWritten | app/Domain/Pvp/PvpRankingService.php:15-45 | **No change.** With no winner or outside ranked play it rates nothing. **Both profiles stored.** It rates exactly as `HandleBattleCompletion`. **A profile missing.** It fails with a null rating: both profile rows now exist with their defaults, and no row was rated. |
| PvpRanking.NewPlayersFirstRankedWin | app/Domain/Pvp/PvpRankingService.php:15-45 | Two players without profiles finish a ranked battle. As written, the rows are created and the rating fails; the intended rating gives the winner one win and the loser one loss. |
| PvpRanking.RankedWinCounters | app/Domain/Pvp/PvpRankingService.php:36-57 | For two distinct players: the winner gains exactly one win and the loser exactly one loss; their other counters stay. Both ratings are the calculator's outputs on the pre-battle ratings (1000 for a missing profile). |
| PvpRanking.StrangerWinnerCountsTwoLosses | app/Domain/Pvp/PvpRankingService.php:36-57 | A winner who is neither player scores both players 0, so each gets a loss and neither gets a win. |
| PvpQueue.Upsert | app/Http/Controllers/PvpQueueController.php:36-42 | **The user's row.** The user ends up with a row carrying the new mode and time, and no other row. A requeue rewrites the existing row in place; a first queue adds one row. **Everything else.** Other users' rows are untouched, and ids and users stay unique. |
| PvpQueue.Queue | app/Http/Controllers/PvpQueueController.php:22-51 | **Refusals.** A mode other than `ranked`/`casual` is refused. Ranked without a full team is refused. **When it succeeds.** Exactly otherwise. A profile then exists for the user, existing profiles are kept, and the table is the upsert of the user's row. |
| PvpQueue.Dequeue | app/Http/Controllers/PvpQueueController.php:53-60 | **The user's row.** Afterwards the user has no row; if they had none, nothing changes. **Everything else.** Every other user's row is kept, nothing is added, and the keys stay unique. |
| StableSort.SortBy | app/Console/Commands/RunMatchmaker.php:30 | The result is sorted by the key and is a permutation of the input. |
| StableSort.SortByIsStable | app/Console/Commands/RunMatchmaker.php:30 | The sort is stable: for every key, the elements with that key keep their original order. |
| StableSort.SortBySortedIsIdentity | app/Console/Commands/RunMatchmaker.php:30 | Sorting an already sorted sequence changes nothing. |
| RunMatchmaker.RankedOnly | app/Console/Commands/RunMatchmaker.php:18-22 | Keeps exactly the `ranked` rows of the table. |
| RunMatchmaker.TableOrderIsATimeOrder | app/Console/Commands/RunMatchmaker.php:18-22 | The query has an answer: the ranked rows sorted by queue time are every ranked row once, in `queued_at` order (`TimeOrder`). |
| RunMatchmaker.TimeOrderLength | app/Console/Commands/RunMatchmaker.php:18-22 | Any answer of the query has exactly as many rows as the table has ranked rows. |
| RunMatchmaker.ClosestIndex | app/Console/Commands/RunMatchmaker.php:35-45 | **No partner.** Happens exactly when every gap reaches PHP_INT_MAX. **Otherwise.** The index of a minimal rating gap, and the earliest one on a tie (strict `<`). |
| RunMatchmaker.Pair | app/Console/Commands/RunMatchmaker.php:33-53 | The loop makes at most ⌊n/2⌋ pairings. |
| RunMatchmaker.PairCount | app/Console/Commands/RunMatchmaker.php:33-53 | With ratings in the column's range, the loop makes exactly ⌊n/2⌋ pairings, so at most one entry is left over. |
| RunMatchmaker.PairUsesEntriesOnce | app/Console/Commands/RunMatchmaker.php:34-52 | The entries of all pairings, taken together, are a sub-multiset of the queue. So pairings are disjoint and no entry is paired with itself. |
| RunMatchmaker.SortedPairsAreAdjacent | app/Console/Commands/RunMatchmaker.php:30-53 | On a queue sorted by rating, the greedy nearest-rating loop pairs neighbours: first with second, third with fourth, and so on. |
| RunMatchmaker.GreedyChoice | app/Console/Commands/RunMatchmaker.php:34-45 | At each step, the first member has the lowest rating among the entries not yet paired. The second has the smallest gap to it among those entries. |
| RunMatchmaker.MatchOrderFacts | app/Console/Commands/RunMatchmaker.php:18-30 | For any answer of the query, the matching order is exactly the table's ranked rows, each once. Each is rated from its profile, or 1000 without one. The order is sorted by rating, with no user or row id twice. |
| RunMatchmaker.Commit | app/Console/Commands/RunMatchmaker.php:55-70 | One pending battle per pairing, in order, with consecutive ids. Rows are only ever deleted from the queue. |
| RunMatchmaker.CommitDeletesPairedRows | app/Console/Commands/RunMatchmaker.php:68 | The rows left are exactly those whose id is not the id of a paired entry. |
| RunMatchmaker.Matchmake | app/Console/Commands/RunMatchmaker.php:16-75 | Takes the rows the query returned. **Fewer than two rows.** Nothing is created and nothing is deleted. **Otherwise.** At most ⌊n/2⌋ battles. Each is pending, in ranked mode with the match time, and has the next id. Rows are only deleted. |
| RunMatchmaker.CommitStamps | app/Console/Commands/RunMatchmaker.php:55-66 | Every battle a commit creates is pending, in ranked mode with the run's time, and numbered consecutively from the next id. |
| RunMatchmaker.MatchmakeBattles | app/Console/Commands/RunMatchmaker.php:33-66 | For every order the query may return, with equal queue times in any order: for n ranked rows there are exactly ⌊n/2⌋ battles, one per neighbouring pair of the matching order, with the first entry as player 1. Each battle has two distinct players, and no player is in two battles. |
| RunMatchmaker.MatchmakeQueue | app/Console/Commands/RunMatchmaker.php:18-70 | For every order the query may return: afterwards the queue holds every casual row. Of the ranked rows it keeps only the odd one out, the last of the matching order (a highest-rated one), when their number is odd. |
| RunMatchmaker.MatchmakeKeepsQueueWellFormed | app/Console/Commands/RunMatchmaker.php:68 | The queue stays keyed by row id and by user. |
| RunMatchmaker.WorkedExample | app/Console/Commands/RunMatchmaker.php:30-53 | Ratings 1000, 1050, 1200, 1210 pair as (1000, 1050) and (1200, 1210). |
| RunMatchmaker.TieOrderDecidesLeftover | app/Console/Commands/RunMatchmaker.php:18-30 | Three unrated ranked rows queued at the same instant: the query may return them in either direction, and each direction leaves a different player unmatched. |
| BattleLifecycle.Apply | app/Domain/Battle/BattleActionService.php:23-48 | A request carries the copy of the row its pre-checks read (`seen`), which may be stale; the service runs on the row as it stands. **Ranking.** A step rates at most once, and only when it leaves the battle completed. **A row that is not active and names nobody to move.** It never changes, so only completing an active battle is rated. **Every accepted step.** It adds exactly one audit record, for this battle, and the row keeps its id and players. |
| BattleLifecycle.ApplyKeepsNoTurnUnlessActive | app/Domain/Battle/BattleActionService.php:35-40 | With an engine that names nobody to move once it reports the end, every step keeps a row that is not active from naming anyone to move. |
| BattleLifecycle.RatedAtMostOnce | app/Console/Commands/ResolveExpiredBattles.php:47-52 | Whatever the interleaving of requests (each pre-checked on any copy of the row, stale or not) and sweeps, and given such an engine, a battle is rated at most once, and only when it ends completed. A battle that is no longer active is never touched again. |
| BattleLifecycle.StaleDoubleSubmitRatesTwice | app/Domain/Battle/BattleActionService.php:24-40 | Without that engine property the bound fails: two submissions pre-checked on the same active row, with an engine that ends the battle but leaves the player to move, rate the battle twice. |
| BattleLifecycle.RunKeepsRowConsistent | app/Domain/Battle/BattleActionService.php:35-40 | With an engine that names a winner only at the end, every interleaving keeps the row invariant: completed exactly when ended, and a winner only once completed. |
| BattleLifecycle.LateRequestRefused | app/Domain/Battle/BattleActionService.php:24-27 | A request whose pre-checks passed on a stale copy is refused if the row completed in between and names no next actor. |
| BattleLifecycle.StaleSnapshotCanReviveCompletedBattle | app/Domain/Battle/BattleActionService.php:24-40 | The service re-checks only the turn order under the lock, not the status. If the completed row still names the actor as next, a request whose pre-checks passed earlier is accepted. It sets the status back to `active` and clears the winner. |

## Left out

- The combat engine (`BattleEngine::applyAction`, `initialize`) is not part of this model. It is a function parameter; a thrown `InvalidArgumentException` is its `Err`.
- The Elo calculator (`EloCalculator`) is floating point, and is a function parameter returning two integers.
- Transactions, `lockForUpdate` and the `chunk(50)` paging of the sweep are left out; each resolution and each action is one atomic step. The model reads the locked row as a second argument (`locked`) next to the route-bound row (`seen`). The sweep is modelled as visiting the filtered battles once in id order. The code pages the filtered query by offset while each resolution takes its row out of the filter, so more than 50 due battles can leave some for the next run.
- Broadcasting (`BattleUpdated`), HTTP status codes, redirects, flash messages and response serialisation are left out; a refusal is an error value.
- Random seeds (`random_int`) are parameters: `randomSeed` for a challenge, and `seeds` for the matchmaker's battles.
- New row ids (auto-increment) are parameters (`battleId`, `nextId`), or one more than the largest id in use for queue rows.
- Log messages are structured values (`Message`), not formatted strings. A player's name is the stored name or "Player <id>", and the matchmaker's battles take names through `nameOf`.
- Time is an integer, and one `now` is used per step. The resolver's ISO-string comparison in SQL and its Carbon comparison under the lock are the same `<=` test.
- The roster check `LiveMatchmaker::hasFullTeam` is a parameter of `PvpQueue.Queue`. Request validation of the party and opponent fields is left out.
- `StarterController`, the UI code, the migrations and the Eloquent models are left out.
- RunMatchmaker.PairCount: ⌊n/2⌋ pairings, and everything built on it, assume ratings fit the 32-bit `mmr` column (`InColumnRange`, `ProfilesInRange`). A gap of PHP_INT_MAX or more would end the loop early.
- ResolveExpiredBattles.ResolveIdempotent and ResolveExpiredBattles.SweepIdempotent assume a positive stored timeout. The code does not check the value, and `ZeroTimeoutIsNotIdempotent` shows the case it does not cover.
- The step that wins the lock would be expected to re-check the battle's status and deadline. The action service re-checks only the turn order; the resolver re-checks both. A completed battle is therefore protected only because the engine leaves no next actor on completion. `LateRequestRefused` and `StaleSnapshotCanReviveCompletedBattle` make this exact.
- BattleLifecycle.RatedAtMostOnce and BattleLifecycle.Apply promise at most one rating only for rows that name nobody to move unless active, under an engine that names nobody to move once it reports the end (`NoTurnUnlessActive`, `EndNamesNoActor`). The code does not enforce either, and `StaleDoubleSubmitRatesTwice` shows the double rating without them.
- PvpRanking.HandleBattleCompletion, PvpRanking.RankedWinCounters and PvpRanking.StrangerWinnerCountsTwoLosses describe the intended rating, in which a new profile enters at 1000. As written, a missing profile makes the rating fail (see Findings, `HandleBattleCompletionAsWritten`).
- RunMatchmaker.Matchmake and the lemmas about it take the rows the queue query returned as an input (`byTime`), because SQL leaves the order of equal `queued_at` values open. Their results are proved for every such order, not for one fixed order.
- ResolveExpiredBattles.ResolveAndRank and ResolveExpiredBattles.Sweep rate through the intended `HandleBattleCompletion`, not through `HandleBattleCompletionAsWritten`. As written, a forfeit in a ranked battle with a player who has no profile commits its resolution and then throws in the rating, which runs after the transaction (`ResolveExpiredBattles.php:133-139`). The exception leaves the `chunk` callback and `handle()`, so every later due battle of that run stays unresolved. `Sweep` promises that every battle ends as its resolution leaves it, which holds only for the intended rating.
- The JSON and web controllers and the lifecycle also rate through the intended `HandleBattleCompletion`. As written, the same failure happens there after the action is persisted, and the request ends in an error.

## Findings

| source | as written | input that shows it | evidently intended | confidence | as-written member | corrected member |
|---|---|---|---|---|---|---|
| app/Domain/Pvp/PvpRankingService.php:15-45 | `ensureProfile` calls `firstOrCreate` with no values. The new model holds only `user_id`, because the column default 1000 is not read back. `calculate(int $ratingA, int $ratingB, …)` then receives a null `mmr` and throws a TypeError, after the rows are created and before any counter is written. | Two players without profiles finish a ranked battle with a winner. | The new profile enters the rating at 1000 with no wins or losses, and the win and the loss are counted. | not executed | PvpRanking.HandleBattleCompletionAsWritten (exhibited by PvpRanking.NewPlayersFirstRankedWin) | PvpRanking.HandleBattleCompletion (with PvpRanking.RankedWinCounters) |
