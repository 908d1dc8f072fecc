/**
  The matchmaking queue (`PvpQueueController` on the `matchmaking_queue` table):
  queueing is an upsert keyed on the user, dequeueing deletes the user's row.
 */
module PvpQueue {
  import opened Common
  import opened BattleModel
  import PvpRanking

  /** The two queues; the request's `mode` string is validated into one of them. */
  datatype QueueMode = Ranked | Casual

  datatype QueueEntry = QueueEntry(id: int, userId: UserId, mode: QueueMode, queuedAt: int)

  /** The table's rows in storage order. */
  type QueueTable = seq<QueueEntry>

  datatype QueueError = InvalidMode | TeamIncomplete

  predicate UniqueUsers(q: QueueTable) {
    forall i, j :: 0 <= i < j < |q| ==> q[i].userId != q[j].userId
  }

  predicate UniqueIds(q: QueueTable) {
    forall i, j :: 0 <= i < j < |q| ==> q[i].id != q[j].id
  }

  /** Row ids are keys and a user has at most one row. */
  predicate WellFormed(q: QueueTable) {
    UniqueIds(q) && UniqueUsers(q)
  }

  predicate Queued(q: QueueTable, user: UserId) {
    exists i :: 0 <= i < |q| && q[i].userId == user
  }

  /** Every row that does not belong to `user`, in order. */
  function OthersOf(q: QueueTable, user: UserId): (r: QueueTable)
    ensures |r| <= |q|
    ensures forall e :: e in r <==> e in q && e.userId != user
  {
    if |q| == 0 then []
    else (if q[0].userId != user then [q[0]] else []) + OthersOf(q[1..], user)
  }

  /** The position of `user`'s row, if any. */
  function IndexOfUser(q: QueueTable, user: UserId): (r: Option<nat>)
    ensures r.Some? ==> r.value < |q| && q[r.value].userId == user
    ensures r.None? <==> !Queued(q, user)
  {
    if |q| == 0 then None
    else if q[0].userId == user then Some(0)
    else match IndexOfUser(q[1..], user)
         case None => None
         case Some(i) => Some(i + 1)
  }

  /** An id larger than every id in use: the auto-increment key of a new row. */
  function FreshId(q: QueueTable): (r: int)
    ensures forall i :: 0 <= i < |q| ==> q[i].id < r
  {
    if |q| == 0 then 1
    else var rest := FreshId(q[1..]); if q[0].id < rest then rest else q[0].id + 1
  }

  lemma {:induction false} OthersOfUpdate(q: QueueTable, i: nat, e: QueueEntry, user: UserId)
    requires i < |q| && q[i].userId == user && e.userId == user
    ensures OthersOf(q[i := e], user) == OthersOf(q, user)
  {
    if i > 0 {
      OthersOfUpdate(q[1..], i - 1, e, user);
      assert q[i := e][1..] == q[1..][i - 1 := e];
    } else {
      assert q[i := e][1..] == q[1..];
    }
  }

  lemma {:induction false} OthersOfAppend(q: QueueTable, e: QueueEntry, user: UserId)
    requires e.userId == user
    ensures OthersOf(q + [e], user) == OthersOf(q, user)
  {
    if |q| == 0 {
      assert OthersOf([e], user) == [] + OthersOf([e][1..], user);
      assert [e][1..] == [];
    } else {
      assert (q + [e])[1..] == q[1..] + [e];
      OthersOfAppend(q[1..], e, user);
    }
  }

  /** `updateOrCreate(['user_id' => …], ['mode' => …, 'queued_at' => now])`. */
  function Upsert(q: QueueTable, user: UserId, mode: QueueMode, now: int): (r: QueueTable)
    // The user ends up with a row carrying the new mode and time, and with no other row.
    ensures exists i :: 0 <= i < |r| && r[i].userId == user && r[i].mode == mode && r[i].queuedAt == now
    ensures UniqueUsers(q) ==> forall i :: 0 <= i < |r| && r[i].userId == user ==> r[i].mode == mode && r[i].queuedAt == now
    // A requeue keeps the row (and its id); a first queue adds one row.
    ensures Queued(q, user) ==> |r| == |q|
    ensures !Queued(q, user) ==> |r| == |q| + 1
    // Everyone else's rows are untouched, and the table stays well formed.
    ensures OthersOf(r, user) == OthersOf(q, user)
    ensures WellFormed(q) ==> WellFormed(r)
  {
    match IndexOfUser(q, user)
    case Some(i) =>
      var e := q[i].(mode := mode, queuedAt := now);
      OthersOfUpdate(q, i, e, user);
      UpdateKeepsKeys(q, i, e);
      assert q[i := e][i] == e;
      q[i := e]
    case None =>
      var e := QueueEntry(FreshId(q), user, mode, now);
      OthersOfAppend(q, e, user);
      AppendKeepsKeys(q, e);
      assert (q + [e])[|q|] == e;
      q + [e]
  }

  /** Rewriting a row in place with the same id and user keeps both keys unique. */
  lemma UpdateKeepsKeys(q: QueueTable, i: nat, e: QueueEntry)
    requires i < |q| && e.id == q[i].id && e.userId == q[i].userId
    ensures WellFormed(q) ==> WellFormed(q[i := e])
    ensures UniqueUsers(q) ==> var r := q[i := e]; forall j :: 0 <= j < |r| && r[j].userId == e.userId ==> j == i
  {
  }

  /** Appending a row with a fresh id for an unqueued user keeps both keys unique. */
  lemma AppendKeepsKeys(q: QueueTable, e: QueueEntry)
    requires !Queued(q, e.userId) && forall j :: 0 <= j < |q| ==> q[j].id < e.id
    ensures WellFormed(q) ==> WellFormed(q + [e])
    ensures forall j :: 0 <= j < |q + [e]| && (q + [e])[j].userId == e.userId ==> j == |q|
  {
    var r := q + [e];
    assert forall j :: 0 <= j < |q| ==> r[j] == q[j];
  }

  /** `queue`: validate the mode, demand a full team for ranked play, ensure a rating profile
      exists, then upsert the user's row. `hasFullTeam` is the roster check, not modelled here. */
  function Queue(q: QueueTable, ps: PvpRanking.Profiles, user: UserId, mode: string, hasFullTeam: UserId -> bool,
                 now: int): (r: Result<(QueueTable, PvpRanking.Profiles), QueueError>)
    ensures mode != "ranked" && mode != "casual" ==> r == Err(InvalidMode)
    ensures mode == "ranked" && !hasFullTeam(user) ==> r == Err(TeamIncomplete)
    ensures r.Ok? <==> mode == "casual" || (mode == "ranked" && hasFullTeam(user))
    ensures r.Ok? ==>
              && user in r.value.1
              && r.value.1[user] == PvpRanking.ProfileOr(ps, user)
              && (forall u :: u in ps ==> u in r.value.1 && r.value.1[u] == ps[u])
              && r.value.0 == Upsert(q, user, if mode == "ranked" then Ranked else Casual, now)
  {
    if mode != "ranked" && mode != "casual" then Err(InvalidMode)
    else if mode == "ranked" && !hasFullTeam(user) then Err(TeamIncomplete)
    else Ok((Upsert(q, user, if mode == "ranked" then Ranked else Casual, now), PvpRanking.EnsureProfile(ps, user)))
  }

  /** `dequeue`: delete the user's row (a no-op when there is none). */
  function Dequeue(q: QueueTable, user: UserId): (r: QueueTable)
    ensures !Queued(r, user)
    ensures forall e :: e in q && e.userId != user ==> e in r
    ensures forall e :: e in r ==> e in q
    ensures WellFormed(q) ==> WellFormed(r)
    ensures !Queued(q, user) ==> r == q
  {
    DequeueKeepsOrder(q, user);
    OthersOf(q, user)
  }

  lemma {:induction false} DequeueKeepsOrder(q: QueueTable, user: UserId)
    ensures !Queued(OthersOf(q, user), user)
    ensures UniqueIds(q) ==> UniqueIds(OthersOf(q, user))
    ensures UniqueUsers(q) ==> UniqueUsers(OthersOf(q, user))
    ensures !Queued(q, user) ==> OthersOf(q, user) == q
  {
    if UniqueIds(q) { OthersOfUniqueIds(q, user); }
    if UniqueUsers(q) { OthersOfUniqueUsers(q, user); }
    if !Queued(q, user) { OthersOfNobody(q, user); }
  }

  lemma {:induction false} OthersOfUniqueIds(q: QueueTable, user: UserId)
    requires UniqueIds(q)
    ensures UniqueIds(OthersOf(q, user))
  {
    if |q| > 0 {
      assert UniqueIds(q[1..]);
      OthersOfUniqueIds(q[1..], user);
      if q[0].userId != user {
        assert forall e :: e in q[1..] ==> e.id != q[0].id;
        ConsKeepsUniqueIds(q[0], OthersOf(q[1..], user));
      }
    }
  }

  lemma ConsKeepsUniqueIds(a: QueueEntry, t: QueueTable)
    requires UniqueIds(t) && forall e :: e in t ==> e.id != a.id
    ensures UniqueIds([a] + t)
  {
    var r := [a] + t;
    forall i, j | 0 <= i < j < |r| ensures r[i].id != r[j].id {
      assert r[j] == t[j - 1];
      if i > 0 { assert r[i] == t[i - 1]; }
    }
  }

  lemma {:induction false} OthersOfUniqueUsers(q: QueueTable, user: UserId)
    requires UniqueUsers(q)
    ensures UniqueUsers(OthersOf(q, user))
  {
    if |q| > 0 {
      assert UniqueUsers(q[1..]);
      OthersOfUniqueUsers(q[1..], user);
      if q[0].userId != user {
        assert forall e :: e in q[1..] ==> e.userId != q[0].userId;
        ConsKeepsUniqueUsers(q[0], OthersOf(q[1..], user));
      }
    }
  }

  lemma ConsKeepsUniqueUsers(a: QueueEntry, t: QueueTable)
    requires UniqueUsers(t) && forall e :: e in t ==> e.userId != a.userId
    ensures UniqueUsers([a] + t)
  {
    var r := [a] + t;
    forall i, j | 0 <= i < j < |r| ensures r[i].userId != r[j].userId {
      assert r[j] == t[j - 1];
      if i > 0 { assert r[i] == t[i - 1]; }
    }
  }

  lemma {:induction false} OthersOfNobody(q: QueueTable, user: UserId)
    requires !Queued(q, user)
    ensures OthersOf(q, user) == q
  {
    if |q| > 0 {
      assert q[0].userId != user;
      assert !Queued(q[1..], user) by {
        forall i | 0 <= i < |q[1..]| ensures q[1..][i].userId != user {
          assert q[1..][i] == q[i + 1];
        }
      }
      OthersOfNobody(q[1..], user);
      assert q == [q[0]] + q[1..];
    }
  }
}
