/** What one pass of the reconciler achieves from any state of the two stores. */
module ReconciliationLaws {
  import opened Wrappers
  import opened Persistence
  import opened Ordering
  import opened RealtimeRedis
  import opened Messaging
  import opened Reconciliation

  // ---- What the two loops leave alone -----------------------------------------------

  ghost predicate RowKept(a: Delivery, b: Delivery) {
    b == a.(status := b.status, receivedAt := b.receivedAt) && (a.status != Waiting ==> b == a)
  }

  /** Only waiting rows inside the life of their event are finished; nothing else in the tables changes. */
  ghost predicate Progress(a: Db, b: Db, now: Time) {
    && b.events == a.events && b.conversations == a.conversations && b.messages == a.messages
    && b.deliveries.Keys == a.deliveries.Keys
    && (forall m :: m in a.deliveries ==> RowKept(a.deliveries[m], b.deliveries[m]))
    && (forall m :: m in a.deliveries && State(a, m, now) == None ==> b.deliveries[m] == a.deliveries[m])
  }

  lemma FinishProgress(db: Db, m: MessageId, status: DeliveryStatus, now: Time)
    requires State(db, m, now).Some?
    ensures Progress(db, Finish(db, m, status, now), now)
  {
  }

  lemma ProgressTrans(a: Db, b: Db, c: Db, now: Time)
    requires Progress(a, b, now) && Progress(b, c, now)
    ensures Progress(a, c, now)
  {
    forall m | m in a.deliveries
      ensures RowKept(a.deliveries[m], c.deliveries[m])
      ensures State(a, m, now) == None ==> c.deliveries[m] == a.deliveries[m]
    {
      assert RowKept(a.deliveries[m], b.deliveries[m]) && RowKept(b.deliveries[m], c.deliveries[m]);
    }
  }

  lemma AttemptProgress(db: Db, r: Redis, m: MessageId, d: Option<ConnectionId>, now: Time)
    ensures Progress(db, AttemptTx(db, r, m, d, now).db, now)
  {
    if State(db, m, now).Some? {
      FinishProgress(db, m, Expired, now);
      FinishProgress(db, m, Failed, now);
    }
  }

  lemma RowProgress(db: Db, r: Redis, m: MessageId, d: Option<ConnectionId>, now: Time)
    ensures Progress(db, RowTx(db, r, m, d, now).db, now)
  {
    if State(db, m, now).Some? {
      FinishProgress(db, m, Expired, now);
      FinishProgress(db, m, Failed, now);
    }
  }

  lemma {:induction false} AttemptsProgress(db: Db, r: Redis, ms: seq<MessageId>, d: Option<ConnectionId>, now: Time)
    ensures Progress(db, RepairAttempts(db, r, ms, d, now).0, now)
  {
    if ms != [] {
      var (db', r') := RepairAttempts(db, r, ms[..|ms| - 1], d, now);
      AttemptsProgress(db, r, ms[..|ms| - 1], d, now);
      AttemptProgress(db', r', ms[|ms| - 1], d, now);
      ProgressTrans(db, db', AttemptTx(db', r', ms[|ms| - 1], d, now).db, now);
    }
  }

  lemma {:induction false} RowsProgress(db: Db, r: Redis, keys: seq<Key>, d: Option<ConnectionId>, now: Time)
    ensures Progress(db, RepairRows(db, r, keys, d, now).0, now)
  {
    if keys != [] {
      var (db', r') := RepairRows(db, r, keys[..|keys| - 1], d, now);
      RowsProgress(db, r, keys[..|keys| - 1], d, now);
      RowProgress(db', r', keys[|keys| - 1].id, d, now);
      ProgressTrans(db, db', RowTx(db', r', keys[|keys| - 1].id, d, now).db, now);
    }
  }

  // ---- Overdue deliveries -----------------------------------------------------------

  /** A waiting ephemeral delivery past its deadline, while its event is inside its 30-day life. */
  predicate IsOverdue(db: Db, m: MessageId, now: Time) {
    && WaitsEphemeral(db, m) && now < db.events[m].expiresAt
    && (db.deliveries[m].deadline.Some? ==> db.deliveries[m].deadline.value <= now)
  }

  /** A row of a message sent in ephemeral mode that has not ended. */
  predicate WaitsEphemeral(db: Db, m: MessageId) {
    m in db.events && m in db.deliveries && db.events[m].mode == Ephemeral && db.deliveries[m].status == Waiting
  }

  function Overdue(db: Db, now: Time): set<MessageId> {
    set m | m in db.deliveries && IsOverdue(db, m, now)
  }

  /** Waiting rows whose event has outlived its 30 days but is not purged yet: the pending query still
      returns them, and the repair of a row skips them. */
  function Outlived(db: Db, now: Time): set<MessageId> {
    set m | m in db.deliveries && WaitsEphemeral(db, m) && db.events[m].expiresAt <= now
  }

  predicate Finished(db: Db, m: MessageId) {
    m in db.deliveries && db.deliveries[m].status != Waiting
  }

  function FinishedOf(ms: set<MessageId>, db: Db): set<MessageId> {
    set m | m in ms && Finished(db, m)
  }

  lemma {:induction false} RowsFinish(db: Db, r: Redis, keys: seq<Key>, d: Option<ConnectionId>, now: Time, k: Key)
    requires k in keys && IsOverdue(db, k.id, now)
    ensures Finished(RepairRows(db, r, keys, d, now).0, k.id)
  {
    var init, last := keys[..|keys| - 1], keys[|keys| - 1];
    var (db', r') := RepairRows(db, r, init, d, now);
    RowsProgress(db, r, init, d, now);
    RowProgress(db', r', last.id, d, now);
    assert RowKept(db.deliveries[k.id], db'.deliveries[k.id]);
    if k in init {
      RowsFinish(db, r, init, d, now, k);
    }
  }

  lemma TakeIsPrefix(s: set<Key>, n: nat, k: Key, x: Key)
    requires k in Take(Ascending(s), n) && x in s && Less(x, k)
    ensures x in Take(Ascending(s), n)
  {
    SmallerComesFirst(Ascending(s), n, k, x);
  }

  function Ids(keys: seq<Key>): set<MessageId> {
    set k | k in keys :: k.id
  }

  lemma {:induction false} IdsSize(keys: seq<Key>)
    requires forall i, j :: 0 <= i < j < |keys| ==> keys[i].id != keys[j].id
    ensures |Ids(keys)| == |keys|
  {
    if keys != [] {
      var init, last := keys[..|keys| - 1], keys[|keys| - 1];
      IdsSize(init);
      assert keys == init + [last];
      assert Ids(keys) == Ids(init) + {last.id};
      assert last.id !in Ids(init);
    }
  }

  lemma BatchIds(db: Db)
    ensures |Ids(Batch(db, None, None))| == |Batch(db, None, None)|
    ensures forall k :: k in Batch(db, None, None) ==>
              IsPending(db, k.id, None, None) && k == RowKey(k.id, db.deliveries[k.id])
  {
    var all, b := Ascending(PendingKeys(db, None, None)), Batch(db, None, None);
    forall k | k in b ensures IsPending(db, k.id, None, None) && k == RowKey(k.id, db.deliveries[k.id]) {
      assert k in all && k in PendingKeys(db, None, None);
    }
    forall i, j | 0 <= i < j < |b| ensures b[i].id != b[j].id {
      assert all[i] == b[i] && all[j] == b[j] && Less(all[i], all[j]);
      assert b[i] in b && b[j] in b;
    }
    IdsSize(b);
  }

  /** Either the batch reaches every overdue row, or it is full of overdue and outlived rows. */
  lemma BatchReaches(db: Db, now: Time)
    ensures var b := Batch(db, None, None);
            || Overdue(db, now) <= Ids(b)
            || (|b| == PENDING_LIMIT && Ids(b) <= Overdue(db, now) + Outlived(db, now))
  {
    var s, b := PendingKeys(db, None, None), Batch(db, None, None);
    BatchIds(db);
    if k :| k in b && k.id !in Overdue(db, now) && k.id !in Outlived(db, now) {
      forall m | m in Overdue(db, now) ensures m in Ids(b) {
        var x := RowKey(m, db.deliveries[m]);
        assert x in s && Less(x, k);
        TakeIsPrefix(s, PENDING_LIMIT, k, x);
      }
    } else if |b| < PENDING_LIMIT {
      assert b == Ascending(s);
      forall m | m in Overdue(db, now) ensures m in Ids(b) {
        assert RowKey(m, db.deliveries[m]) in s;
      }
    }
  }

  lemma SplitSize<T>(a: set<T>, b: set<T>, c: set<T>)
    requires a <= b + c
    ensures |a * b| + |c| >= |a|
  {
    assert a == a * b + (a - b) && a - b <= c;
    SubsetSize(a - b, c);
  }

  lemma OverdueShrinks(a: Db, b: Db, now: Time, m: MessageId)
    requires Progress(a, b, now)
    ensures m in Outlived(b, now) <==> m in Outlived(a, now)
    ensures m in Overdue(b, now) ==> m in Overdue(a, now)
    ensures m in Overdue(a, now) ==> m in Overdue(b, now) || Finished(b, m)
  {
    if m in a.deliveries { assert RowKept(a.deliveries[m], b.deliveries[m]); }
  }

  lemma OverdueEnds(db: Db, mid: Db, after: Db, ids: set<MessageId>, now: Time)
    requires Progress(db, mid, now) && Progress(mid, after, now)
    requires forall m :: m in ids && IsOverdue(mid, m, now) ==> Finished(after, m)
    ensures Outlived(mid, now) == Outlived(db, now) && Overdue(mid, now) <= Overdue(db, now)
    ensures forall m :: m in Overdue(db, now) && (m in Overdue(mid, now) ==> m in ids) ==> Finished(after, m)
  {
    forall m ensures m in Outlived(mid, now) <==> m in Outlived(db, now) { OverdueShrinks(db, mid, now, m); }
    forall m | m in Overdue(mid, now) ensures m in Overdue(db, now) { OverdueShrinks(db, mid, now, m); }
    forall m | m in Overdue(db, now) && (m in Overdue(mid, now) ==> m in ids) ensures Finished(after, m) {
      OverdueShrinks(db, mid, now, m);
      assert RowKept(mid.deliveries[m], after.deliveries[m]);
    }
  }

  /** How many overdue rows end, given how the batch of the second loop relates to them. */
  lemma CountEnds(due: set<MessageId>, left: set<MessageId>, stale: set<MessageId>, ids: set<MessageId>,
                  done: set<MessageId>)
    requires left <= due && done <= due
    requires forall m :: m in due && (m in left ==> m in ids) ==> m in done
    requires left <= ids || (|ids| == PENDING_LIMIT && ids <= left + stale)
    ensures |done| + |stale| >= Min(|due|, PENDING_LIMIT)
    ensures |due| + |stale| < PENDING_LIMIT ==> done == due
  {
    if left <= ids {
      assert done == due;
    } else {
      SplitSize(ids, left, stale);
      SubsetSize(ids * left, done);
      SubsetSize(ids, left + stale);
      SubsetSize(left, due);
    }
  }

  /** From any state of both stores, one pass with no interference finishes every overdue delivery, or
      at least 1000 less the number of outlived rows that crowd its batch. */
  lemma OnePassProgress(db: Db, r: Redis, now: Time)
    ensures var after := Pass(db, r, None, None, now).0;
            |FinishedOf(Overdue(db, now), after)| + |Outlived(db, now)|
              >= Min(|Overdue(db, now)|, PENDING_LIMIT)
    ensures var after := Pass(db, r, None, None, now).0;
            |Overdue(db, now)| + |Outlived(db, now)| < PENDING_LIMIT ==>
              FinishedOf(Overdue(db, now), after) == Overdue(db, now)
  {
    var keys := ActiveKeys(r, All);
    var (mid, r1) := RepairAttempts(db, Sweep(r, All, keys), Found(r, keys), None, now);
    AttemptsProgress(db, Sweep(r, All, keys), Found(r, keys), None, now);
    var b := Batch(mid, None, None);
    var after := RepairRows(mid, r1, b, None, now).0;
    RowsProgress(mid, r1, b, None, now);
    BatchIds(mid);
    BatchReaches(mid, now);
    forall m | m in Ids(b) && IsOverdue(mid, m, now) ensures Finished(after, m) {
      var k :| k in b && k.id == m;
      RowsFinish(mid, r1, b, None, now, k);
    }
    OverdueEnds(db, mid, after, Ids(b), now);
    CountEnds(Overdue(db, now), Overdue(mid, now), Outlived(db, now), Ids(b), FinishedOf(Overdue(db, now), after));
  }

  /** A row outside the batch stays as it is. */
  lemma {:induction false} RowsLeave(db: Db, r: Redis, keys: seq<Key>, d: Option<ConnectionId>, now: Time, m: MessageId)
    requires m in db.deliveries && forall k :: k in keys ==> k.id != m
    ensures RepairRows(db, r, keys, d, now).0.deliveries.Keys == db.deliveries.Keys
    ensures RepairRows(db, r, keys, d, now).0.deliveries[m] == db.deliveries[m]
  {
    RowsProgress(db, r, keys, d, now);
    if keys != [] {
      RowsLeave(db, r, keys[..|keys| - 1], d, now, m);
    }
  }
}
