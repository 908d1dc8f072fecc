/**
  The ranked matchmaker (`RunMatchmaker::handle`): sort the ranked queue by
  rating, repeatedly pair the lowest-rated entry with the nearest-rated one,
  then create one pending battle per pair and delete both queue rows.
 */
module RunMatchmaker {
  import opened Common
  import opened BattleModel
  import opened StableSort
  import opened PvpQueue
  import PvpRanking

  /** PHP_INT_MAX on a 64-bit build: the initial `$closestDiff`. */
  const PhpIntMax: int := 0x7fff_ffff_ffff_ffff

  /** The range of the `mmr` column (a SQL `integer`). */
  const Int32Min: int := -0x8000_0000
  const Int32Max: int := 0x7fff_ffff

  /** A queue row with the rating it is matched on. */
  datatype Candidate = Candidate(entry: QueueEntry, mmr: int)

  datatype Pairing = Pairing(first: Candidate, second: Candidate)

  function QueueTime(e: QueueEntry): int { e.queuedAt }

  function Rating(c: Candidate): int { c.mmr }

  /** The rows of the ranked queue, in table order. */
  function RankedOnly(q: QueueTable): (r: QueueTable)
    ensures |r| <= |q|
    ensures forall e :: e in r <==> e in q && e.mode == Ranked
  {
    if |q| == 0 then []
    else (if q[0].mode == Ranked then [q[0]] else []) + RankedOnly(q[1..])
  }

  /** `$entry->pvpProfile?->mmr ?? 1000`. */
  function MmrOf(ps: PvpRanking.Profiles, uid: UserId): int {
    if uid in ps then ps[uid].mmr else PvpRanking.DefaultMmr
  }

  function Rate(es: seq<QueueEntry>, ps: PvpRanking.Profiles): (r: seq<Candidate>)
    ensures |r| == |es|
    ensures forall i :: 0 <= i < |es| ==> r[i].entry == es[i] && r[i].mmr == MmrOf(ps, es[i].userId)
  {
    seq(|es|, i requires 0 <= i < |es| => Candidate(es[i], MmrOf(ps, es[i].userId)))
  }

  /** The queue rows of a matching order, in its order. */
  function EntriesOf(s: seq<Candidate>): (r: seq<QueueEntry>)
    ensures |r| == |s| && forall j :: 0 <= j < |s| ==> r[j] == s[j].entry
  {
    seq(|s|, j requires 0 <= j < |s| => s[j].entry)
  }

  /** What the `where('mode', 'ranked')->orderBy('queued_at')` query may return: every ranked row
      once, by queue time. SQL leaves the order of rows with equal times open, so any such order
      can come back. */
  predicate TimeOrder(q: QueueTable, byTime: seq<QueueEntry>) {
    SortedBy(byTime, QueueTime) && multiset(byTime) == multiset(RankedOnly(q))
  }

  /** Such an order exists: the ranked rows by queue time, equal times in table order. */
  lemma TableOrderIsATimeOrder(q: QueueTable)
    ensures TimeOrder(q, SortBy(RankedOnly(q), QueueTime))
  {
  }

  /** The query returns as many rows as the table has ranked ones. */
  lemma TimeOrderLength(q: QueueTable, byTime: seq<QueueEntry>)
    requires TimeOrder(q, byTime)
    ensures |byTime| == |RankedOnly(q)|
  {
    calc {
      |byTime|;
      |multiset(byTime)|;
      |multiset(RankedOnly(q))|;
      |RankedOnly(q)|;
    }
  }

  /** The queue the pairing loop works on: the query's rows, stably sorted by rating. */
  function MatchOrder(byTime: seq<QueueEntry>, ps: PvpRanking.Profiles): seq<Candidate> {
    SortBy(Rate(byTime, ps), Rating)
  }

  function Abs(x: int): nat { if x < 0 then -x else x }

  /** `abs($candidate mmr - $first mmr)`. */
  function Gap(first: Candidate, c: Candidate): nat { Abs(c.mmr - first.mmr) }

  /** The `foreach` over the remaining queue from index `i`, with the best index and gap so far. */
  function ClosestFrom(first: Candidate, rest: seq<Candidate>, i: nat, best: Option<nat>, bestGap: int): (r: Option<nat>)
    requires i <= |rest|
    requires best.None? ==> bestGap == PhpIntMax && forall j :: 0 <= j < i ==> Gap(first, rest[j]) >= PhpIntMax
    requires best.Some? ==>
               && best.value < i && bestGap == Gap(first, rest[best.value]) && bestGap < PhpIntMax
               && (forall j :: 0 <= j < i ==> Gap(first, rest[j]) >= bestGap)
               && (forall j :: 0 <= j < best.value ==> Gap(first, rest[j]) > bestGap)
    ensures r.None? ==> forall j :: 0 <= j < |rest| ==> Gap(first, rest[j]) >= PhpIntMax
    ensures r.Some? ==>
              && r.value < |rest| && Gap(first, rest[r.value]) < PhpIntMax
              && (forall j :: 0 <= j < |rest| ==> Gap(first, rest[j]) >= Gap(first, rest[r.value]))
              && (forall j :: 0 <= j < r.value ==> Gap(first, rest[j]) > Gap(first, rest[r.value]))
    decreases |rest| - i
  {
    if i == |rest| then best
    else
      var g := Gap(first, rest[i]);
      if g < bestGap then ClosestFrom(first, rest, i + 1, Some(i), g)
      else ClosestFrom(first, rest, i + 1, best, bestGap)
  }

  /** `$closestIndex`: the nearest-rated remaining entry, the earliest one on a tie (strict `<`);
      null only if every gap reaches PHP_INT_MAX. */
  function ClosestIndex(first: Candidate, rest: seq<Candidate>): (r: Option<nat>)
    ensures r.None? <==> forall j :: 0 <= j < |rest| ==> Gap(first, rest[j]) >= PhpIntMax
    ensures r.Some? ==>
              && r.value < |rest|
              && (forall j :: 0 <= j < |rest| ==> Gap(first, rest[j]) >= Gap(first, rest[r.value]))
              && (forall j :: 0 <= j < r.value ==> Gap(first, rest[j]) > Gap(first, rest[r.value]))
  {
    ClosestFrom(first, rest, 0, None, PhpIntMax)
  }

  function RemoveAt<T>(s: seq<T>, k: nat): (r: seq<T>)
    requires k < |s|
    ensures |r| == |s| - 1
    ensures multiset(r) + multiset{s[k]} == multiset(s)
  {
    assert s == s[..k] + [s[k]] + s[k + 1..];
    s[..k] + s[k + 1..]
  }

  /** The `while ($queue->count() > 1)` loop: shift the first entry, pull its nearest partner. */
  function Pair(q: seq<Candidate>): (r: seq<Pairing>)
    ensures |r| <= |q| / 2
    decreases |q|
  {
    if |q| <= 1 then []
    else
      var first := q[0];
      var rest := q[1..];
      match ClosestIndex(first, rest)
      case None => []
      case Some(k) => [Pairing(first, rest[k])] + Pair(RemoveAt(rest, k))
  }

  /** Every entry of each pairing, in order. */
  function Flatten(ps: seq<Pairing>): (r: seq<Candidate>)
    ensures |r| == 2 * |ps|
    ensures forall i :: 0 <= i < |ps| ==> r[2 * i] == ps[i].first && r[2 * i + 1] == ps[i].second
  {
    if |ps| == 0 then [] else [ps[0].first, ps[0].second] + Flatten(ps[1..])
  }

  /** The reference pairing: first with second, third with fourth, and so on. */
  function AdjacentPairs(q: seq<Candidate>): (r: seq<Pairing>)
    ensures |r| == |q| / 2
    ensures forall i :: 0 <= i < |r| ==> r[i] == Pairing(q[2 * i], q[2 * i + 1])
    decreases |q|
  {
    if |q| < 2 then [] else [Pairing(q[0], q[1])] + AdjacentPairs(q[2..])
  }

  /** Ratings fit the column, so no gap reaches PHP_INT_MAX. */
  predicate InColumnRange(q: seq<Candidate>) {
    forall i :: 0 <= i < |q| ==> Int32Min <= q[i].mmr <= Int32Max
  }

  /** With ratings in the column's range the nearest partner always exists: ⌊n/2⌋ pairings. */
  lemma {:induction false} PairCount(q: seq<Candidate>)
    requires InColumnRange(q)
    ensures |Pair(q)| == |q| / 2
    decreases |q|
  {
    if |q| > 1 {
      var rest := q[1..];
      assert Gap(q[0], rest[0]) < PhpIntMax;
      var k := ClosestIndex(q[0], rest).value;
      var rest' := RemoveAt(rest, k);
      assert forall x :: x in rest' ==> x in multiset(rest);
      assert InColumnRange(rest') by {
        forall i | 0 <= i < |rest'| ensures Int32Min <= rest'[i].mmr <= Int32Max {
          assert rest'[i] in multiset(rest);
        }
      }
      PairCount(rest');
    }
  }

  /** No entry is used more often than it is queued: the pairings are disjoint, and leave
      behind the rest of the queue. */
  lemma {:induction false} PairUsesEntriesOnce(q: seq<Candidate>)
    ensures multiset(Flatten(Pair(q))) <= multiset(q)
    decreases |q|
  {
    if |q| > 1 && ClosestIndex(q[0], q[1..]).Some? {
      var k := ClosestIndex(q[0], q[1..]).value;
      var rest' := RemoveAt(q[1..], k);
      PairStep(q, k);
      FlattenConsMultiset(Pairing(q[0], q[1..][k]), Pair(rest'));
      ShiftPull(q, k);
      PairUsesEntriesOnce(rest');
    }
  }

  /** One turn of the loop: the first entry is paired with its nearest partner `k`. */
  lemma PairStep(q: seq<Candidate>, k: nat)
    requires |q| > 1 && ClosestIndex(q[0], q[1..]) == Some(k)
    ensures k < |q| - 1
    ensures Pair(q) == [Pairing(q[0], q[1..][k])] + Pair(RemoveAt(q[1..], k))
  {
  }

  /** Shifting the first element and pulling the one at `k` of the rest takes both out. */
  lemma ShiftPull<T>(q: seq<T>, k: nat)
    requires k < |q| - 1
    ensures multiset(q) == multiset{q[0], q[1..][k]} + multiset(RemoveAt(q[1..], k))
  {
    assert q == [q[0]] + q[1..];
  }

  lemma FlattenConsMultiset(p: Pairing, ps: seq<Pairing>)
    ensures multiset(Flatten([p] + ps)) == multiset{p.first, p.second} + multiset(Flatten(ps))
  {
    FlattenCons(p, ps);
  }

  lemma FlattenCons(p: Pairing, ps: seq<Pairing>)
    ensures Flatten([p] + ps) == [p.first, p.second] + Flatten(ps)
  {
    assert ([p] + ps)[1..] == ps;
  }

  /** On a queue sorted by rating, the nearest-rated partner of the lowest entry is the next
      entry, so the greedy loop pairs neighbours. */
  lemma {:induction false} SortedPairsAreAdjacent(q: seq<Candidate>)
    requires SortedBy(q, Rating) && InColumnRange(q)
    ensures Pair(q) == AdjacentPairs(q)
    decreases |q|
  {
    if |q| > 1 {
      assert SortedBy(q[2..], Rating) && InColumnRange(q[2..]) by {
        assert forall i :: 0 <= i < |q[2..]| ==> q[2..][i] == q[i + 2];
      }
      calc {
        Pair(q);
        { SortedClosestIsNext(q); PairStep(q, 0); }
        [Pairing(q[0], q[1..][0])] + Pair(RemoveAt(q[1..], 0));
        { assert RemoveAt(q[1..], 0) == q[2..]; }
        [Pairing(q[0], q[1])] + Pair(q[2..]);
        { SortedPairsAreAdjacent(q[2..]); }
        [Pairing(q[0], q[1])] + AdjacentPairs(q[2..]);
        AdjacentPairs(q);
      }
    }
  }

  /** On a queue sorted by rating the nearest partner of the first entry is the next one: it is
      at least as near as any later entry, and the strict comparison keeps the earliest. */
  lemma SortedClosestIsNext(q: seq<Candidate>)
    requires SortedBy(q, Rating) && InColumnRange(q) && |q| > 1
    ensures ClosestIndex(q[0], q[1..]) == Some(0)
  {
    var rest := q[1..];
    assert Gap(q[0], rest[0]) < PhpIntMax;
    var k := ClosestIndex(q[0], rest).value;
    assert Rating(q[0]) <= Rating(q[1]) <= Rating(q[k + 1]);
    assert Gap(q[0], rest[0]) <= Gap(q[0], rest[k]);
  }

  /** The greedy choice, spelled out on a sorted queue: at step `i` the unpaired entries are
      `q[2i..]`; the first member has the lowest rating among them, and the second is the nearest
      rating to it, the earliest one among equally near. */
  lemma GreedyChoice(q: seq<Candidate>, i: nat)
    requires SortedBy(q, Rating) && InColumnRange(q)
    requires i < |q| / 2
    ensures i < |Pair(q)|
    ensures Pair(q)[i].first == q[2 * i] && Pair(q)[i].second == q[2 * i + 1]
    ensures forall j :: 2 * i <= j < |q| ==> Pair(q)[i].first.mmr <= q[j].mmr
    ensures forall j :: 2 * i < j < |q| ==> Gap(Pair(q)[i].first, Pair(q)[i].second) <= Gap(Pair(q)[i].first, q[j])
  {
    SortedPairsAreAdjacent(q);
    AdjacentChoice(q, i);
  }

  lemma AdjacentChoice(q: seq<Candidate>, i: nat)
    requires SortedBy(q, Rating)
    requires i < |q| / 2
    ensures i < |AdjacentPairs(q)|
    ensures AdjacentPairs(q)[i] == Pairing(q[2 * i], q[2 * i + 1])
    ensures forall j :: 2 * i <= j < |q| ==> q[2 * i].mmr <= q[j].mmr
    ensures forall j :: 2 * i < j < |q| ==> Gap(q[2 * i], q[2 * i + 1]) <= Gap(q[2 * i], q[j])
  {
    var a := 2 * i;
    forall j | a <= j < |q| ensures q[a].mmr <= q[j].mmr {
      if a < j { assert Rating(q[a]) <= Rating(q[j]); }
    }
    forall j | a < j < |q| ensures Gap(q[a], q[a + 1]) <= Gap(q[a], q[j]) {
      assert Rating(q[a]) <= Rating(q[a + 1]) <= Rating(q[j]);
    }
  }

  /** Ratings fit the `mmr` column for every stored profile. */
  predicate ProfilesInRange(ps: PvpRanking.Profiles) {
    forall u :: u in ps ==> Int32Min <= ps[u].mmr <= Int32Max
  }

  function UserOf(e: QueueEntry): int { e.userId }
  function IdOf(e: QueueEntry): int { e.id }
  function CandidateUser(c: Candidate): int { c.entry.userId }
  function CandidateId(c: Candidate): int { c.entry.id }

  /** The ranked rows are drawn from the table, so they keep its unique keys. */
  lemma {:induction false} RankedOnlyIsDrawn(q: QueueTable)
    ensures multiset(RankedOnly(q)) <= multiset(q)
  {
    if |q| > 0 {
      RankedOnlyIsDrawn(q[1..]);
      assert q == [q[0]] + q[1..];
    }
  }

  /** A position of `x` in any permutation of a sequence holding it. */
  function IndexIn<T(==)>(s: seq<T>, x: T): (j: nat)
    requires x in multiset(s)
    ensures j < |s| && s[j] == x
  {
    if s[0] == x then 0
    else
      assert s == [s[0]] + s[1..];
      1 + IndexIn(s[1..], x)
  }

  /** Every entry of the matching order is a ranked row of the table, rated from the profiles. */
  lemma MatchOrderDrawn(q: QueueTable, byTime: seq<QueueEntry>, ps: PvpRanking.Profiles)
    requires TimeOrder(q, byTime)
    ensures var s := MatchOrder(byTime, ps);
            forall j :: 0 <= j < |s| ==>
              s[j].entry in q && s[j].entry.mode == Ranked && s[j].mmr == MmrOf(ps, s[j].entry.userId)
  {
    var rated := Rate(byTime, ps);
    var s := SortBy(rated, Rating);
    assert s == MatchOrder(byTime, ps);
    forall j | 0 <= j < |s|
      ensures s[j].entry in q && s[j].entry.mode == Ranked && s[j].mmr == MmrOf(ps, s[j].entry.userId)
    {
      assert s[j] in multiset(rated);
      var k :| 0 <= k < |rated| && rated[k] == s[j];
      assert byTime[k] in multiset(RankedOnly(q));
    }
  }

  /** Every ranked row of the table appears in the matching order. */
  lemma MatchOrderCovers(q: QueueTable, byTime: seq<QueueEntry>, ps: PvpRanking.Profiles)
    requires TimeOrder(q, byTime)
    ensures var s := MatchOrder(byTime, ps);
            forall e :: e in q && e.mode == Ranked ==> e in EntriesOf(s)
  {
    var rated := Rate(byTime, ps);
    var s := SortBy(rated, Rating);
    assert s == MatchOrder(byTime, ps);
    forall e | e in q && e.mode == Ranked ensures e in EntriesOf(s) {
      assert e in multiset(RankedOnly(q));
      var k := IndexIn(byTime, e);
      assert rated[k] in multiset(rated);
      var j := IndexIn(s, rated[k]);
      assert EntriesOf(s)[j] == e;
    }
  }

  /** The matching order keeps the table's keys: no user and no row id occurs twice. */
  lemma MatchOrderKeys(q: QueueTable, byTime: seq<QueueEntry>, ps: PvpRanking.Profiles)
    requires TimeOrder(q, byTime)
    requires WellFormed(q)
    ensures UniqueBy(MatchOrder(byTime, ps), CandidateUser) && UniqueBy(MatchOrder(byTime, ps), CandidateId)
  {
    var rated := Rate(byTime, ps);
    RankedOnlyIsDrawn(q);
    assert UniqueBy(q, UserOf) && UniqueBy(q, IdOf);
    UniqueBySubMultiset(q, byTime, UserOf);
    UniqueBySubMultiset(q, byTime, IdOf);
    assert UniqueBy(rated, CandidateUser) && UniqueBy(rated, CandidateId);
    UniqueBySubMultiset(rated, SortBy(rated, Rating), CandidateUser);
    UniqueBySubMultiset(rated, SortBy(rated, Rating), CandidateId);
    assert SortBy(rated, Rating) == MatchOrder(byTime, ps);
  }

  /** What the commit step needs of a matching order `s` for table `q`: both keyed uniquely, `s`
      sorted by ratings in the column's range, and `s` holding exactly the table's ranked rows. */
  predicate Matchable(q: QueueTable, s: seq<Candidate>) {
    && UniqueIds(q) && UniqueBy(s, CandidateId) && UniqueBy(s, CandidateUser)
    && SortedBy(s, Rating) && InColumnRange(s)
    && (forall j :: 0 <= j < |s| ==> s[j].entry in q && s[j].entry.mode == Ranked)
    && (forall x :: x in q && x.mode == Ranked ==> x in EntriesOf(s))
  }

  lemma MatchOrderMatchable(q: QueueTable, byTime: seq<QueueEntry>, ps: PvpRanking.Profiles)
    requires TimeOrder(q, byTime)
    requires WellFormed(q) && ProfilesInRange(ps)
    ensures Matchable(q, MatchOrder(byTime, ps))
  {
    MatchOrderFacts(q, byTime, ps);
  }

  /** The matching order of a well-formed table is matchable, rates every row from the profiles
      and holds as many entries as the ranked queue. */
  lemma MatchOrderFacts(q: QueueTable, byTime: seq<QueueEntry>, ps: PvpRanking.Profiles)
    requires TimeOrder(q, byTime)
    requires WellFormed(q) && ProfilesInRange(ps)
    ensures var s := MatchOrder(byTime, ps);
            && |s| == |RankedOnly(q)|
            && Matchable(q, s)
            && (forall j :: 0 <= j < |s| ==> s[j].mmr == MmrOf(ps, s[j].entry.userId))
  {
    var s := MatchOrder(byTime, ps);
    TimeOrderLength(q, byTime);
    MatchOrderDrawn(q, byTime, ps);
    MatchOrderCovers(q, byTime, ps);
    MatchOrderKeys(q, byTime, ps);
    assert forall j :: 0 <= j < |s| ==> Int32Min <= MmrOf(ps, s[j].entry.userId) <= Int32Max;
  }

  /** `meta_json` of a matched battle: ranked mode and the match time, nothing else. */
  function MatchedState(now: int): BattleState {
    EmptyState().(mode := Text("ranked"), matchedAt := Some(now))
  }

  /** The battle `Battle::create` writes for one pairing: pending, first entry as player 1. */
  function PendingBattle(p: Pairing, id: int, seed: int, now: int, nameOf: UserId -> Option<string>): Battle {
    var u1 := p.first.entry.userId;
    var u2 := p.second.entry.userId;
    Battle(id, seed, Pending, u1, u2, nameOf(u1), nameOf(u2), None, None, None, MatchedState(now))
  }

  /** `whereIn('id', …)->delete()`: the rows whose id is not listed, in order. */
  function DeleteIds(q: QueueTable, ids: set<int>): (r: QueueTable)
    ensures multiset(r) <= multiset(q)
    ensures forall e :: e in r <==> e in q && e.id !in ids
  {
    if |q| == 0 then []
    else
      assert q == [q[0]] + q[1..];
      (if q[0].id in ids then [] else [q[0]]) + DeleteIds(q[1..], ids)
  }

  /** The queue row ids of every paired entry. */
  function PairedIds(pairs: seq<Pairing>): set<int> {
    set c | c in Flatten(pairs) :: c.entry.id
  }

  lemma PairedIdsCons(pairs: seq<Pairing>)
    requires |pairs| > 0
    ensures PairedIds(pairs) == {pairs[0].first.entry.id, pairs[0].second.entry.id} + PairedIds(pairs[1..])
  {
    assert Flatten(pairs) == [pairs[0].first, pairs[0].second] + Flatten(pairs[1..]);
  }

  /** What the matchmaker leaves behind: the battles it created and the queue table. */
  datatype MatchResult = MatchResult(battles: seq<Battle>, queue: QueueTable)

  /** The transaction: for the `n`-th pairing onwards, create its battle (id `nextId`, the `n`-th
      random seed) and delete both of its rows. */
  function Commit(pairs: seq<Pairing>, q: QueueTable, nextId: int, now: int, seeds: nat -> int,
                  nameOf: UserId -> Option<string>, n: nat): (r: MatchResult)
    ensures |r.battles| == |pairs|
    ensures forall i :: 0 <= i < |pairs| ==> r.battles[i] == PendingBattle(pairs[i], nextId + i, seeds(n + i), now, nameOf)
    ensures multiset(r.queue) <= multiset(q)
    decreases |pairs|
  {
    if |pairs| == 0 then MatchResult([], q)
    else
      var p := pairs[0];
      var rest := Commit(pairs[1..], DeleteIds(q, {p.first.entry.id, p.second.entry.id}), nextId + 1, now, seeds, nameOf, n + 1);
      MatchResult([PendingBattle(p, nextId, seeds(n), now, nameOf)] + rest.battles, rest.queue)
  }

  /** Deleting pair by pair deletes exactly the rows of every paired entry. */
  lemma {:induction false} CommitDeletesPairedRows(pairs: seq<Pairing>, q: QueueTable, nextId: int, now: int,
                                                   seeds: nat -> int, nameOf: UserId -> Option<string>, n: nat)
    ensures forall e :: e in Commit(pairs, q, nextId, now, seeds, nameOf, n).queue <==> e in q && e.id !in PairedIds(pairs)
    decreases |pairs|
  {
    if |pairs| > 0 {
      var p := pairs[0];
      var q' := DeleteIds(q, {p.first.entry.id, p.second.entry.id});
      CommitDeletesPairedRows(pairs[1..], q', nextId + 1, now, seeds, nameOf, n + 1);
      PairedIdsCons(pairs);
    }
  }

  /** `handle`, given the rows `byTime` the queue query returned: pair them and commit the
      pairings; fewer than two rows is a no-op. */
  function Matchmake(q: QueueTable, byTime: seq<QueueEntry>, ps: PvpRanking.Profiles, now: int, nextId: int,
                     seeds: nat -> int, nameOf: UserId -> Option<string>): (r: MatchResult)
    ensures |byTime| < 2 ==> r == MatchResult([], q)
    ensures |r.battles| <= |byTime| / 2
    // Every battle is a pending ranked one, stamped with the run's time.
    ensures forall i :: 0 <= i < |r.battles| ==>
              r.battles[i].status == Pending && r.battles[i].state == MatchedState(now) && r.battles[i].id == nextId + i
    // Rows are only ever deleted.
    ensures multiset(r.queue) <= multiset(q)
  {
    if |byTime| < 2 then MatchResult([], q)
    else
      var pairs := Pair(SortBy(Rate(byTime, ps), Rating));
      CommitStamps(pairs, q, nextId, now, seeds, nameOf);
      Commit(pairs, q, nextId, now, seeds, nameOf, 0)
  }

  /** Every battle of a commit is pending, ranked, stamped with the run's time and numbered in turn. */
  lemma CommitStamps(pairs: seq<Pairing>, q: QueueTable, nextId: int, now: int, seeds: nat -> int,
                     nameOf: UserId -> Option<string>)
    ensures var bs := Commit(pairs, q, nextId, now, seeds, nameOf, 0).battles;
            forall i :: 0 <= i < |bs| ==> bs[i].status == Pending && bs[i].state == MatchedState(now) && bs[i].id == nextId + i
  {
    var bs := Commit(pairs, q, nextId, now, seeds, nameOf, 0).battles;
    forall i | 0 <= i < |bs| ensures bs[i].status == Pending && bs[i].state == MatchedState(now) && bs[i].id == nextId + i {
      assert bs[i] == PendingBattle(pairs[i], nextId + i, seeds(0 + i), now, nameOf);
    }
  }

  /** With two or more ranked rows, the run commits the pairing of the matching order. */
  lemma MatchmakeIsCommit(q: QueueTable, byTime: seq<QueueEntry>, ps: PvpRanking.Profiles, now: int, nextId: int,
                          seeds: nat -> int, nameOf: UserId -> Option<string>)
    requires TimeOrder(q, byTime)
    ensures |MatchOrder(byTime, ps)| == |RankedOnly(q)|
    ensures |RankedOnly(q)| >= 2 ==>
              Matchmake(q, byTime, ps, now, nextId, seeds, nameOf) == Commit(Pair(MatchOrder(byTime, ps)), q, nextId, now, seeds, nameOf, 0)
  {
    TimeOrderLength(q, byTime);
  }

  lemma {:induction false} FlattenAdjacent(s: seq<Candidate>)
    ensures Flatten(AdjacentPairs(s)) == s[..2 * (|s| / 2)]
    decreases |s|
  {
    if |s| >= 2 {
      FlattenAdjacent(s[2..]);
      assert AdjacentPairs(s)[1..] == AdjacentPairs(s[2..]);
      assert s[..2 * (|s| / 2)] == [s[0], s[1]] + s[2..][..2 * ((|s| - 2) / 2)];
    }
  }

  /** A row survives the commit exactly when it is casual, or it is the ranked row the loop left
      over: the last of an odd-sized matching order. */
  lemma RemainsIff(q: QueueTable, s: seq<Candidate>, e: QueueEntry)
    requires Matchable(q, s) && e in q
    ensures (forall j :: 0 <= j < 2 * (|s| / 2) ==> s[j].entry.id != e.id) <==>
              (e.mode != Ranked || (|s| % 2 == 1 && e == s[|s| - 1].entry))
  {
    assert UniqueBy(q, IdOf);
    if e.mode != Ranked {
      forall j | 0 <= j < 2 * (|s| / 2) ensures s[j].entry.id != e.id {
        assert s[j].entry != e;
      }
    } else {
      var k := IndexIn(EntriesOf(s), e);
      if k >= 2 * (|s| / 2) {
        forall j | 0 <= j < 2 * (|s| / 2) ensures s[j].entry.id != e.id {
          assert CandidateId(s[j]) != CandidateId(s[k]);
        }
      }
    }
  }

  /** Players of a battle. */
  function Players(b: Battle): set<UserId> { {b.player1Id, b.player2Id} }

  /** The queue row ids the commit deletes are those of the first ⌊n/2⌋·2 entries of the order. */
  lemma PairedIdsOfOrder(s: seq<Candidate>, id: int)
    requires SortedBy(s, Rating) && InColumnRange(s)
    ensures id in PairedIds(Pair(s)) <==> exists j :: 0 <= j < 2 * (|s| / 2) && s[j].entry.id == id
  {
    SortedPairsAreAdjacent(s);
    FlattenAdjacent(s);
    IdsOfPrefix(s, 2 * (|s| / 2), id);
  }

  /** The row ids of a prefix of an order are the ids at its positions. */
  lemma IdsOfPrefix(s: seq<Candidate>, n: nat, id: int)
    requires n <= |s|
    ensures id in (set c | c in s[..n] :: c.entry.id) <==> exists j :: 0 <= j < n && s[j].entry.id == id
  {
    if id in (set c | c in s[..n] :: c.entry.id) {
      var c :| c in s[..n] && c.entry.id == id;
      var j :| 0 <= j < n && s[..n][j] == c;
      assert s[j] == c;
    }
    if exists j :: 0 <= j < n && s[j].entry.id == id {
      var j :| 0 <= j < n && s[j].entry.id == id;
      assert s[..n][j] == s[j];
    }
  }

  /** What the commit of a sorted order's pairing leaves of a table whose ranked rows it covers. */
  lemma RemainingAfterCommit(q: QueueTable, s: seq<Candidate>, nextId: int, now: int, seeds: nat -> int,
                             nameOf: UserId -> Option<string>)
    requires Matchable(q, s)
    ensures forall e :: e in Commit(Pair(s), q, nextId, now, seeds, nameOf, 0).queue <==>
              e in q && (e.mode != Ranked || (|s| % 2 == 1 && e == s[|s| - 1].entry))
  {
    CommitDeletesPairedRows(Pair(s), q, nextId, now, seeds, nameOf, 0);
    forall e | e in q
      ensures e in Commit(Pair(s), q, nextId, now, seeds, nameOf, 0).queue <==>
                (e.mode != Ranked || (|s| % 2 == 1 && e == s[|s| - 1].entry))
    {
      RemainsIff(q, s, e);
      PairedIdsOfOrder(s, e.id);
    }
  }

  /** With fewer than two ranked rows nothing is paired and every row stays. */
  lemma FewRankedKeepsQueue(q: QueueTable, s: seq<Candidate>)
    requires |s| < 2 && Matchable(q, s)
    ensures forall e :: e in q ==> e.mode != Ranked || (|s| % 2 == 1 && e == s[|s| - 1].entry)
  {
    forall e | e in q ensures e.mode != Ranked || (|s| % 2 == 1 && e == s[|s| - 1].entry) {
      RemainsIff(q, s, e);
    }
  }

  /** What remains of the queue: every casual row, and of the ranked rows only the odd one out.
      This holds for every order the query may return; which row is the odd one out depends on
      that order when ratings and queue times tie (see `TieOrderDecidesLeftover`). */
  lemma MatchmakeQueue(q: QueueTable, byTime: seq<QueueEntry>, ps: PvpRanking.Profiles, now: int, nextId: int,
                       seeds: nat -> int, nameOf: UserId -> Option<string>)
    requires TimeOrder(q, byTime)
    requires WellFormed(q) && ProfilesInRange(ps)
    ensures var s := MatchOrder(byTime, ps);
            var r := Matchmake(q, byTime, ps, now, nextId, seeds, nameOf);
            forall e :: e in r.queue <==> e in q && (e.mode != Ranked || (|s| % 2 == 1 && e == s[|s| - 1].entry))
  {
    MatchmakeIsCommit(q, byTime, ps, now, nextId, seeds, nameOf);
    if |RankedOnly(q)| >= 2 {
      MatchOrderMatchable(q, byTime, ps);
      MatchmakeQueueMany(q, byTime, ps, now, nextId, seeds, nameOf);
    } else {
      MatchmakeQueueFew(q, byTime, ps);
    }
  }

  lemma MatchmakeQueueMany(q: QueueTable, byTime: seq<QueueEntry>, ps: PvpRanking.Profiles, now: int, nextId: int,
                           seeds: nat -> int, nameOf: UserId -> Option<string>)
    requires Matchable(q, MatchOrder(byTime, ps))
    ensures var s := MatchOrder(byTime, ps);
            forall e :: e in Commit(Pair(s), q, nextId, now, seeds, nameOf, 0).queue <==>
              e in q && (e.mode != Ranked || (|s| % 2 == 1 && e == s[|s| - 1].entry))
  {
    RemainingAfterCommit(q, MatchOrder(byTime, ps), nextId, now, seeds, nameOf);
  }

  lemma MatchmakeQueueFew(q: QueueTable, byTime: seq<QueueEntry>, ps: PvpRanking.Profiles)
    requires TimeOrder(q, byTime)
    requires WellFormed(q) && ProfilesInRange(ps) && |MatchOrder(byTime, ps)| < 2
    ensures var s := MatchOrder(byTime, ps);
            forall e :: e in q ==> e.mode != Ranked || (|s| % 2 == 1 && e == s[|s| - 1].entry)
  {
    MatchOrderMatchable(q, byTime, ps);
    FewRankedKeepsQueue(q, MatchOrder(byTime, ps));
  }

  /** The queue stays keyed by row id and by user. */
  lemma MatchmakeKeepsQueueWellFormed(q: QueueTable, byTime: seq<QueueEntry>, ps: PvpRanking.Profiles, now: int, nextId: int,
                                      seeds: nat -> int, nameOf: UserId -> Option<string>)
    requires TimeOrder(q, byTime)
    requires WellFormed(q)
    ensures WellFormed(Matchmake(q, byTime, ps, now, nextId, seeds, nameOf).queue)
  {
    var r := Matchmake(q, byTime, ps, now, nextId, seeds, nameOf);
    assert UniqueBy(q, UserOf) && UniqueBy(q, IdOf);
    UniqueBySubMultiset(q, r.queue, UserOf);
    UniqueBySubMultiset(q, r.queue, IdOf);
    assert UniqueBy(r.queue, UserOf) && UniqueBy(r.queue, IdOf);
  }

  /** Two different neighbouring pairs of an order without repeated users share no user. */
  lemma NeighbourPairsDisjoint(s: seq<Candidate>, i: nat, j: nat)
    requires UniqueBy(s, CandidateUser) && i < j && 2 * j + 1 < |s|
    ensures {s[2 * i].entry.userId, s[2 * i + 1].entry.userId} !! {s[2 * j].entry.userId, s[2 * j + 1].entry.userId}
  {
    var a, b := 2 * i, 2 * j;
    assert a + 1 < b;
    assert CandidateUser(s[a]) != CandidateUser(s[b]) && CandidateUser(s[a]) != CandidateUser(s[b + 1]);
    assert CandidateUser(s[a + 1]) != CandidateUser(s[b]) && CandidateUser(s[a + 1]) != CandidateUser(s[b + 1]);
  }

  /** The battles: one per neighbouring pair of the matching order, ⌊n/2⌋ of them for n ranked
      rows, each between two distinct players, and no player in two of them, for every order the
      query may return. */
  lemma MatchmakeBattles(q: QueueTable, byTime: seq<QueueEntry>, ps: PvpRanking.Profiles, now: int, nextId: int,
                         seeds: nat -> int, nameOf: UserId -> Option<string>)
    requires TimeOrder(q, byTime)
    requires WellFormed(q) && ProfilesInRange(ps)
    ensures var s := MatchOrder(byTime, ps);
            var r := Matchmake(q, byTime, ps, now, nextId, seeds, nameOf);
            && |r.battles| == |RankedOnly(q)| / 2
            && (forall i :: 0 <= i < |r.battles| ==>
                  r.battles[i] == PendingBattle(Pairing(s[2 * i], s[2 * i + 1]), nextId + i, seeds(i), now, nameOf))
            && (forall i :: 0 <= i < |r.battles| ==> r.battles[i].player1Id != r.battles[i].player2Id)
            && (forall i, j :: 0 <= i < j < |r.battles| ==> Players(r.battles[i]) !! Players(r.battles[j]))
  {
    var s := MatchOrder(byTime, ps);
    MatchOrderFacts(q, byTime, ps);
    MatchmakeIsCommit(q, byTime, ps, now, nextId, seeds, nameOf);
    if |s| >= 2 {
      SortedPairsAreAdjacent(s);
      CommitNeighbours(s, q, nextId, now, seeds, nameOf);
    }
  }

  /** Committing the neighbouring pairs of an order without repeated users. */
  lemma CommitNeighbours(s: seq<Candidate>, q: QueueTable, nextId: int, now: int, seeds: nat -> int,
                         nameOf: UserId -> Option<string>)
    requires UniqueBy(s, CandidateUser)
    ensures var bs := Commit(AdjacentPairs(s), q, nextId, now, seeds, nameOf, 0).battles;
            && |bs| == |s| / 2
            && (forall i :: 0 <= i < |bs| ==> bs[i] == PendingBattle(Pairing(s[2 * i], s[2 * i + 1]), nextId + i, seeds(i), now, nameOf))
            && (forall i :: 0 <= i < |bs| ==> bs[i].player1Id != bs[i].player2Id)
            && (forall i, j :: 0 <= i < j < |bs| ==> Players(bs[i]) !! Players(bs[j]))
  {
    var bs := Commit(AdjacentPairs(s), q, nextId, now, seeds, nameOf, 0).battles;
    forall i, j | 0 <= i < j < |bs| ensures Players(bs[i]) !! Players(bs[j]) {
      NeighbourPairsDisjoint(s, i, j);
    }
    forall i | 0 <= i < |bs| ensures bs[i].player1Id != bs[i].player2Id {
      assert CandidateUser(s[2 * i]) != CandidateUser(s[2 * i + 1]);
    }
  }

  /** The pairing of the worked example: 1000 with 1050 and 1200 with 1210. */
  lemma WorkedExample()
    ensures var c := (n: int, m: int) => Candidate(QueueEntry(n, n, Ranked, 0), m);
            var s := [c(1, 1000), c(2, 1050), c(3, 1200), c(4, 1210)];
            Pair(s) == [Pairing(c(1, 1000), c(2, 1050)), Pairing(c(3, 1200), c(4, 1210))]
  {
    var c := (n: int, m: int) => Candidate(QueueEntry(n, n, Ranked, 0), m);
    var s := [c(1, 1000), c(2, 1050), c(3, 1200), c(4, 1210)];
    assert SortedBy(s, Rating) && InColumnRange(s);
    SortedPairsAreAdjacent(s);
  }

  /** Three ranked rows queued at the same instant by players without profiles: the query may
      return them in either of two orders, and each leaves a different player unmatched. */
  lemma TieOrderDecidesLeftover()
    ensures var a, b, c := QueueEntry(1, 10, Ranked, 0), QueueEntry(2, 20, Ranked, 0), QueueEntry(3, 30, Ranked, 0);
            var q := [a, b, c];
            && TimeOrder(q, [a, b, c]) && TimeOrder(q, [c, b, a])
            && |MatchOrder([a, b, c], map[])| == 3 && MatchOrder([a, b, c], map[])[2].entry == c
            && |MatchOrder([c, b, a], map[])| == 3 && MatchOrder([c, b, a], map[])[2].entry == a
  {
    var a, b, c := QueueEntry(1, 10, Ranked, 0), QueueEntry(2, 20, Ranked, 0), QueueEntry(3, 30, Ranked, 0);
    TiedRanked(a, b, c);
    UnratedInOrder(a, b, c);
    UnratedInOrder(c, b, a);
  }

  /** Three ranked rows with equal queue times, in either direction, are orders the query may return. */
  lemma TiedRanked(a: QueueEntry, b: QueueEntry, c: QueueEntry)
    requires a.mode == Ranked && b.mode == Ranked && c.mode == Ranked
    requires a.queuedAt == b.queuedAt == c.queuedAt
    ensures TimeOrder([a, b, c], [a, b, c]) && TimeOrder([a, b, c], [c, b, a])
  {
    AllRankedThree(a, b, c);
    ReversedThree(a, b, c);
    SameTimeSorted(a, b, c);
    SameTimeSorted(c, b, a);
  }

  lemma AllRankedThree(a: QueueEntry, b: QueueEntry, c: QueueEntry)
    requires a.mode == Ranked && b.mode == Ranked && c.mode == Ranked
    ensures RankedOnly([a, b, c]) == [a, b, c]
  {
    var q := [a, b, c];
    assert q[1..] == [b, c] && q[1..][1..] == [c] && q[1..][1..][1..] == [];
  }

  lemma ReversedThree<T>(x: T, y: T, z: T)
    ensures multiset([z, y, x]) == multiset([x, y, z])
  {
    calc {
      multiset([z, y, x]);
      multiset{z, y, x};
      multiset{x, y, z};
      multiset([x, y, z]);
    }
  }

  lemma SameTimeSorted(x: QueueEntry, y: QueueEntry, z: QueueEntry)
    requires x.queuedAt == y.queuedAt == z.queuedAt
    ensures SortedBy([x, y, z], QueueTime)
  {
  }

  /** Players without profiles all rate 1000, so the rating sort keeps the query's order. */
  lemma UnratedInOrder(x: QueueEntry, y: QueueEntry, z: QueueEntry)
    ensures var s := MatchOrder([x, y, z], map[]);
            |s| == 3 && s[0].entry == x && s[1].entry == y && s[2].entry == z
  {
    var rated := Rate([x, y, z], map[]);
    assert rated == [Candidate(x, 1000), Candidate(y, 1000), Candidate(z, 1000)];
    SortBySortedIsIdentity(rated, Rating);
  }
}
