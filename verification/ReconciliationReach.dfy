/** Exactly which overdue deliveries one pass of the reconciler finishes, whatever Redis still holds,
    and so exactly when it finishes as many as its limit promises. */
module ReconciliationReach {
  import opened Wrappers
  import opened Persistence
  import opened Ordering
  import opened RealtimeRedis
  import opened Messaging
  import opened Reconciliation
  import opened ReconciliationLaws
  import opened ReconciliationIdempotence
  import Handshake

  // ---- The first loop ---------------------------------------------------------------

  /** The attempt of `m` is among the first 1000 that the index of deadlines names. */
  predicate Listed(r: Redis, m: MessageId) {
    m in r.attempts && m in r.deadlines && |Before(IndexKeys(r, All), Key(1, r.deadlines[m], m))| < ACTIVE_LIMIT
  }

  /** The attempt of `m` has not ended and there is a reason why it must fail. */
  predicate MustFail(db: Db, r: Redis, m: MessageId, now: Time) {
    m in r.attempts && !Terminal(r.attempts[m].phase) && FailureReason(db, r, m, r.attempts[m], None, now).Some?
  }

  /** A waiting row of a live event whose attempt the first loop reads and fails. */
  predicate FirstLoopEnds(db: Db, r: Redis, m: MessageId, now: Time) {
    IsPending(db, m, None, None) && db.events[m].expiresAt > now && Listed(r, m) && MustFail(db, r, m, now)
  }

  lemma FoundIffListed(r: Redis, m: MessageId)
    ensures m in Found(r, ActiveKeys(r, All)) <==> Listed(r, m)
  {
    var keys := ActiveKeys(r, All);
    FoundAreIds(r, keys, m);
    if m in r.deadlines {
      InFirst(IndexKeys(r, All), ACTIVE_LIMIT, Key(1, r.deadlines[m], m));
    }
    forall k | k in keys && k.id == m ensures m in r.deadlines && k == Key(1, r.deadlines[m], m) {
      assert k in Ascending(IndexKeys(r, All));
    }
  }

  lemma FinishedStays(a: Db, b: Db, now: Time, m: MessageId)
    requires Progress(a, b, now) && Finished(a, m)
    ensures Finished(b, m)
  {
    assert RowKept(a.deliveries[m], b.deliveries[m]);
  }

  lemma OwnAttempt(db: Db, r: Redis, m: MessageId, now: Time)
    requires IsPending(db, m, None, None) && db.events[m].expiresAt > now
    ensures var tx := AttemptTx(db, r, m, None, now);
            if MustFail(db, r, m, now) then Finished(tx.db, m) else Untouched(db, r, tx.db, Final(tx), m, now)
  {
  }

  lemma MustFailKept(db: Db, r: Redis, db': Db, r': Redis, m: MessageId, now: Time)
    requires Untouched(db, r, db', r', m, now)
    ensures MustFail(db', r', m, now) <==> MustFail(db, r, m, now)
    ensures IsPending(db, m, None, None) && db.events[m].expiresAt > now ==>
              IsPending(db', m, None, None) && db'.events[m].expiresAt > now
  {
    assert Get(r', m) == Get(r, m);
  }

  /** The loop finishes a waiting row exactly when it meets an attempt that must fail. */
  lemma {:induction false} AttemptsOnRow(db: Db, r: Redis, ms: seq<MessageId>, m: MessageId, now: Time)
    requires IsPending(db, m, None, None) && db.events[m].expiresAt > now
    ensures var (db', r') := RepairAttempts(db, r, ms, None, now);
            if m in ms && MustFail(db, r, m, now) then Finished(db', m) else Untouched(db, r, db', r', m, now)
  {
    if ms != [] {
      var init, last := ms[..|ms| - 1], ms[|ms| - 1];
      var (db1, r1) := RepairAttempts(db, r, init, None, now);
      AttemptsOnRow(db, r, init, m, now);
      assert ms == init + [last];
      if m in init && MustFail(db, r, m, now) {
        AttemptProgress(db1, r1, last, None, now);
        FinishedStays(db1, AttemptTx(db1, r1, last, None, now).db, now, m);
      } else {
        MustFailKept(db, r, db1, r1, m, now);
        if last == m { OwnAttempt(db1, r1, m, now); } else { AttemptTouchesOne(db1, r1, last, m, None, now); }
      }
    }
  }

  /** Both stores between the two loops. */
  ghost function Middle(db: Db, r: Redis, now: Time): (Db, Redis) {
    var keys := ActiveKeys(r, All);
    RepairAttempts(db, Sweep(r, All, keys), Found(r, keys), None, now)
  }

  lemma MiddleProgress(db: Db, r: Redis, now: Time)
    ensures Progress(db, Middle(db, r, now).0, now)
  {
    var keys := ActiveKeys(r, All);
    AttemptsProgress(db, Sweep(r, All, keys), Found(r, keys), None, now);
  }

  lemma SweptMustFail(db: Db, r: Redis, keys: seq<Key>, m: MessageId, now: Time)
    ensures MustFail(db, Sweep(r, All, keys), m, now) <==> MustFail(db, r, m, now)
  {
    SweepDrops(r, All, keys);
  }

  /** The first loop finishes exactly the waiting rows of live events whose attempt it reads and fails. */
  lemma FirstLoopFinishes(db: Db, r: Redis, now: Time, m: MessageId)
    requires IsPending(db, m, None, None)
    ensures Finished(Middle(db, r, now).0, m) <==> FirstLoopEnds(db, r, m, now)
  {
    var keys := ActiveKeys(r, All);
    MiddleProgress(db, r, now);
    if db.events[m].expiresAt > now {
      AttemptsOnRow(db, Sweep(r, All, keys), Found(r, keys), m, now);
      SweptMustFail(db, r, keys, m, now);
      FoundIffListed(r, m);
    }
  }

  // ---- The second loop --------------------------------------------------------------

  /** The pending rows, outlived ones included, that the first loop leaves waiting. */
  function LeftPending(db: Db, r: Redis, now: Time): set<Key> {
    set m | m in db.deliveries && IsPending(db, m, None, None) && !FirstLoopEnds(db, r, m, now) ::
        RowKey(m, db.deliveries[m])
  }

  /** Those of them that sort before `m`. */
  function AheadOf(db: Db, r: Redis, now: Time, m: MessageId): set<Key>
    requires m in db.deliveries
  {
    Before(LeftPending(db, r, now), RowKey(m, db.deliveries[m]))
  }

  lemma PendingThen(db: Db, mid: Db, now: Time, m: MessageId)
    requires Progress(db, mid, now)
    ensures IsPending(mid, m, None, None) <==> IsPending(db, m, None, None) && !Finished(mid, m)
    ensures m in db.deliveries ==> RowKey(m, mid.deliveries[m]) == RowKey(m, db.deliveries[m])
  {
    if m in db.deliveries { assert RowKept(db.deliveries[m], mid.deliveries[m]); }
  }

  lemma LeftIsPending(db: Db, r: Redis, now: Time)
    ensures PendingKeys(Middle(db, r, now).0, None, None) == LeftPending(db, r, now)
  {
    var mid := Middle(db, r, now).0;
    MiddleProgress(db, r, now);
    forall m | m in db.deliveries
      ensures IsPending(mid, m, None, None) <==> IsPending(db, m, None, None) && !FirstLoopEnds(db, r, m, now)
      ensures RowKey(m, mid.deliveries[m]) == RowKey(m, db.deliveries[m])
    {
      PendingThen(db, mid, now, m);
      if IsPending(db, m, None, None) { FirstLoopFinishes(db, r, now, m); }
    }
  }

  /** A row that the first loop leaves waiting is in the batch of the second exactly when fewer than
      1000 of the rows left sort before it. */
  lemma InBatch(db: Db, r: Redis, now: Time, m: MessageId)
    requires IsPending(db, m, None, None) && !FirstLoopEnds(db, r, m, now)
    ensures m in Ids(Batch(Middle(db, r, now).0, None, None)) <==> |AheadOf(db, r, now, m)| < PENDING_LIMIT
  {
    var mid := Middle(db, r, now).0;
    var k := RowKey(m, db.deliveries[m]);
    LeftIsPending(db, r, now);
    assert k in LeftPending(db, r, now);
    InFirst(LeftPending(db, r, now), PENDING_LIMIT, k);
    BatchIds(mid);
    MiddleProgress(db, r, now);
    PendingThen(db, mid, now, m);
  }

  lemma SecondLoopFinishes(mid: Db, r: Redis, now: Time, m: MessageId)
    requires IsOverdue(mid, m, now)
    ensures Finished(RepairRows(mid, r, Batch(mid, None, None), None, now).0, m) <==> m in Ids(Batch(mid, None, None))
  {
    var b := Batch(mid, None, None);
    if m in Ids(b) {
      var k :| k in b && k.id == m;
      RowsFinish(mid, r, b, None, now, k);
    } else {
      RowsLeave(mid, r, b, None, now, m);
    }
  }

  /** A pass finishes an overdue delivery exactly when the first loop reads an attempt of it that must
      fail, or fewer than 1000 of the pending rows that the first loop leaves sort before it. */
  lemma PassFinishes(db: Db, r: Redis, now: Time, m: MessageId)
    requires m in Overdue(db, now)
    ensures Finished(Pass(db, r, None, None, now).0, m)
       <==> FirstLoopEnds(db, r, m, now) || |AheadOf(db, r, now, m)| < PENDING_LIMIT
  {
    var (mid, r1) := Middle(db, r, now);
    var b := Batch(mid, None, None);
    MiddleProgress(db, r, now);
    FirstLoopFinishes(db, r, now, m);
    RowsProgress(mid, r1, b, None, now);
    if Finished(mid, m) {
      FinishedStays(mid, RepairRows(mid, r1, b, None, now).0, now, m);
    } else {
      OverdueShrinks(db, mid, now, m);
      InBatch(db, r, now, m);
      SecondLoopFinishes(mid, r1, now, m);
    }
  }

  // ---- When a pass finishes as many as its limit --------------------------------------

  /** The overdue rows that the first loop ends. */
  function Ended(db: Db, r: Redis, now: Time): set<MessageId> {
    set m | m in Overdue(db, now) && FirstLoopEnds(db, r, m, now)
  }

  /** A row that the first loop leaves and the batch of the second holds. */
  predicate Reaches(db: Db, r: Redis, m: MessageId, now: Time) {
    m in db.deliveries && !FirstLoopEnds(db, r, m, now) && |AheadOf(db, r, now, m)| < PENDING_LIMIT
  }

  function Reached(ms: set<MessageId>, db: Db, r: Redis, now: Time): set<MessageId> {
    set m | m in ms && Reaches(db, r, m, now)
  }

  predicate AllReached(db: Db, r: Redis, now: Time) {
    forall m :: m in Overdue(db, now) ==> FirstLoopEnds(db, r, m, now) || Reaches(db, r, m, now)
  }

  lemma UnionIs(due: set<MessageId>, after: Db, ended: set<MessageId>, reached: set<MessageId>)
    requires ended + reached <= due && ended !! reached
    requires forall m :: m in due ==> (Finished(after, m) <==> m in ended || m in reached)
    ensures FinishedOf(due, after) == ended + reached
    ensures |FinishedOf(due, after)| == |ended| + |reached|
  {
    assert FinishedOf(due, after) == ended + reached;
  }

  lemma EndsEitherWay(db: Db, r: Redis, now: Time, m: MessageId, after: Db)
    requires m in Overdue(db, now) && after == Pass(db, r, None, None, now).0
    ensures Finished(after, m) <==> m in Ended(db, r, now) || m in Reached(Overdue(db, now), db, r, now)
  {
    PassFinishes(db, r, now, m);
  }

  lemma FinishedAre(db: Db, r: Redis, now: Time, after: Db)
    requires after == Pass(db, r, None, None, now).0
    ensures |FinishedOf(Overdue(db, now), after)| == |Ended(db, r, now)| + |Reached(Overdue(db, now), db, r, now)|
  {
    var due := Overdue(db, now);
    forall m | m in due ensures Finished(after, m) <==> m in Ended(db, r, now) || m in Reached(due, db, r, now) {
      EndsEitherWay(db, r, now, m, after);
    }
    Disjoint(db, r, now);
    UnionIs(due, after, Ended(db, r, now), Reached(due, db, r, now));
  }

  lemma MiddleOverdue(db: Db, r: Redis, now: Time, m: MessageId)
    ensures var mid := Middle(db, r, now).0;
            && (m in Overdue(mid, now) <==> m in Overdue(db, now) && !FirstLoopEnds(db, r, m, now))
            && (m in Outlived(mid, now) <==> m in Outlived(db, now))
  {
    MiddleProgress(db, r, now);
    OverdueShrinks(db, Middle(db, r, now).0, now, m);
    if m in Overdue(db, now) { FirstLoopFinishes(db, r, now, m); }
  }

  lemma InBatchIff(db: Db, r: Redis, now: Time, m: MessageId)
    requires m in Outlived(db, now) || (m in Overdue(db, now) && !FirstLoopEnds(db, r, m, now))
    ensures m in Ids(Batch(Middle(db, r, now).0, None, None)) <==> Reaches(db, r, m, now)
  {
    InBatch(db, r, now, m);
  }

  /** A batch that leaves an overdue row out holds 1000 rows, all of them overdue or outlived. */
  lemma FullBatch(db: Db, r: Redis, now: Time, m: MessageId)
    requires m in Overdue(db, now) && !FirstLoopEnds(db, r, m, now) && !Reaches(db, r, m, now)
    ensures |Reached(Overdue(db, now), db, r, now)| + |Reached(Outlived(db, now), db, r, now)| == PENDING_LIMIT
  {
    var mid := Middle(db, r, now).0;
    var ids := Ids(Batch(mid, None, None));
    BatchIds(mid);
    BatchReaches(mid, now);
    MiddleOverdue(db, r, now, m);
    InBatchIff(db, r, now, m);
    forall x ensures x in Overdue(mid, now) <==> x in Overdue(db, now) && !FirstLoopEnds(db, r, x, now)
      ensures x in Outlived(mid, now) <==> x in Outlived(db, now)
    {
      MiddleOverdue(db, r, now, x);
    }
    forall x | x in Overdue(mid, now) || x in Outlived(mid, now) ensures x in ids <==> Reaches(db, r, x, now) {
      InBatchIff(db, r, now, x);
    }
    ReachedSplit(db, r, now, Overdue(mid, now), Outlived(mid, now), ids);
  }

  lemma ReachedSplit(db: Db, r: Redis, now: Time, left: set<MessageId>, stale: set<MessageId>, ids: set<MessageId>)
    requires ids <= left + stale && left !! stale
    requires forall m :: m in left <==> m in Overdue(db, now) && !FirstLoopEnds(db, r, m, now)
    requires forall m :: m in stale <==> m in Outlived(db, now)
    requires forall m :: m in left || m in stale ==> (m in ids <==> Reaches(db, r, m, now))
    ensures |Reached(Overdue(db, now), db, r, now)| + |Reached(Outlived(db, now), db, r, now)| == |ids|
  {
    assert Reached(Overdue(db, now), db, r, now) == ids * left;
    assert Reached(Outlived(db, now), db, r, now) == ids * stale;
    assert ids == ids * left + ids * stale;
  }

  lemma Disjoint(db: Db, r: Redis, now: Time)
    ensures Ended(db, r, now) + Reached(Overdue(db, now), db, r, now) <= Overdue(db, now)
    ensures Ended(db, r, now) !! Reached(Overdue(db, now), db, r, now)
  {
  }

  lemma EndedOrReached(db: Db, r: Redis, now: Time)
    requires AllReached(db, r, now)
    ensures Ended(db, r, now) + Reached(Overdue(db, now), db, r, now) == Overdue(db, now)
  {
  }

  lemma CountKeepsItsLimit(db: Db, r: Redis, now: Time, done: nat)
    requires done == |Ended(db, r, now)| + |Reached(Overdue(db, now), db, r, now)|
    ensures var n := |Overdue(db, now)|;
            (done >= Min(n, PENDING_LIMIT)
             <==> || AllReached(db, r, now)
                  || (n >= PENDING_LIMIT && |Ended(db, r, now)| >= |Reached(Outlived(db, now), db, r, now)|))
  {
    var due := Overdue(db, now);
    var ended, reached := Ended(db, r, now), Reached(due, db, r, now);
    Disjoint(db, r, now);
    assert |ended + reached| == done;
    if AllReached(db, r, now) {
      EndedOrReached(db, r, now);
    } else {
      var m :| m in due && !FirstLoopEnds(db, r, m, now) && !Reaches(db, r, m, now);
      FullBatch(db, r, now, m);
      SubsetSize(ended + reached, due - {m});
    }
  }

  /** A pass finishes min(1000, n) of n overdue deliveries exactly when it reaches every one that the
      first loop leaves, or n is at least 1000 and the first loop ends at least as many of them as there
      are outlived rows in the batch of the second. */
  lemma PassKeepsItsLimit(db: Db, r: Redis, now: Time)
    ensures var n, after := |Overdue(db, now)|, Pass(db, r, None, None, now).0;
            (|FinishedOf(Overdue(db, now), after)| >= Min(n, PENDING_LIMIT)
             <==> || AllReached(db, r, now)
                  || (n >= PENDING_LIMIT && |Ended(db, r, now)| >= |Reached(Outlived(db, now), db, r, now)|))
  {
    var after := Pass(db, r, None, None, now).0;
    FinishedAre(db, r, now, after);
    CountKeepsItsLimit(db, r, now, |FinishedOf(Overdue(db, now), after)|);
  }

  lemma SameDeadlineFails(db: Db, r: Redis, m: MessageId, now: Time)
    requires m in Overdue(db, now) && m in r.attempts && SameDelivery(db.events[m], db.deliveries[m], r.attempts[m])
    ensures MustFail(db, r, m, now) <==> Live(r.attempts[m])
  {
  }

  /** After any run a live attempt of an overdue row must fail, so the first loop ends exactly the overdue
      rows whose attempt is live and among the first 1000 of the index. */
  lemma OverdueEndsWhenListed(ls: seq<Handshake.Label>, k: Timeouts, m: MessageId)
    requires var s := Handshake.Exec(ls, k); Handshake.Valid(k) && m in Overdue(s.db, s.now)
    ensures var s := Handshake.Exec(ls, k);
            FirstLoopEnds(s.db, s.redis, m, s.now) <==> Listed(s.redis, m) && Live(s.redis.attempts[m])
  {
    var s := Handshake.Exec(ls, k);
    RunsAreConsistent(ls, k);
    if m in s.redis.attempts {
      SameDeadlineFails(s.db, s.redis, m, s.now);
    }
  }
}
