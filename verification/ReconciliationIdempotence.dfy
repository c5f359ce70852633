/** A second pass of the reconciler at the same instant and presence changes neither store. */
module ReconciliationIdempotence {
  import opened Wrappers
  import opened Persistence
  import opened Ordering
  import opened RealtimeRedis
  import opened Messaging
  import opened Reconciliation
  import opened ReconciliationLaws
  import Handshake
  import HandshakeRuns

  /** The committed row of a durable message and its attempt, if Redis has one, tell the same story. */
  ghost predicate Consistent(db: Db, r: Redis, now: Time) {
    forall m :: m in r.attempts && State(db, m, now).Some? ==>
        SameDelivery(db.events[m], db.deliveries[m], r.attempts[m])
  }

  predicate SameDelivery(e: Event, d: Delivery, a: Attempt) {
    && e.mode == Ephemeral && e.conversation == a.conversation && d.recipient == a.recipient
    && d.deadline == Some(a.deadline) && d.connection == a.connection && a.connection.Some?
  }

  /** The first loop has nothing left to do for `m`. */
  predicate AttemptSettled(db: Db, r: Redis, m: MessageId, d: Option<ConnectionId>, now: Time) {
    m !in r.attempts || Terminal(r.attempts[m].phase) || RepairOf(db, r, m, r.attempts[m], d, now) == Keep
  }

  /** The second loop has nothing left to do for `m`. */
  predicate RowSettled(db: Db, r: Redis, m: MessageId, d: Option<ConnectionId>, now: Time) {
    var st := State(db, m, now);
    st == None || st.value.delivery.status != Waiting
    || (!RowExpired(st.value.delivery, now) && !RowLost(r, st.value.delivery, d, now))
  }

  ghost predicate Submap<K, V>(a: map<K, V>, b: map<K, V>) {
    forall k :: k in a ==> k in b && a[k] == b[k]
  }

  /** The sorted sets of `b` hold nothing that those of `a` do not. */
  ghost predicate FewerEntries(a: Redis, b: Redis) {
    && Submap(b.deadlines, a.deadlines) && Submap(b.byConversation, a.byConversation)
    && Submap(b.byRecipient, a.byRecipient) && Submap(b.byConnection, a.byConnection)
  }

  /** What a pass may do to Redis: presence stays, attempts keep all but their phase and failure, and
      index entries only go away. */
  ghost predicate RedisProgress(a: Redis, b: Redis) {
    && b.presence == a.presence && b.attempts.Keys == a.attempts.Keys
    && (forall m :: m in a.attempts ==>
          b.attempts[m] == a.attempts[m].(phase := b.attempts[m].phase, failure := b.attempts[m].failure))
    && FewerEntries(a, b)
  }

  lemma RedisProgressTrans(a: Redis, b: Redis, c: Redis)
    requires RedisProgress(a, b) && RedisProgress(b, c)
    ensures RedisProgress(a, c)
  {
  }

  lemma FewerKeys(a: Redis, b: Redis, f: Filter)
    requires FewerEntries(a, b)
    ensures IndexKeys(b, f) <= IndexKeys(a, f)
  {
  }

  lemma ConsistentLater(db: Db, r: Redis, db': Db, r': Redis, now: Time)
    requires Consistent(db, r, now) && Progress(db, db', now) && RedisProgress(r, r')
    ensures Consistent(db', r', now)
  {
    forall m | m in r'.attempts && State(db', m, now).Some?
      ensures SameDelivery(db'.events[m], db'.deliveries[m], r'.attempts[m])
    {
      assert RowKept(db.deliveries[m], db'.deliveries[m]);
    }
  }

  /** A repair of an attempt writes Redis at most once: it ends the attempt. */
  ghost predicate Ends(r: Redis, m: MessageId, a: Attempt) {
    && m in r.attempts && !Terminal(r.attempts[m].phase) && Terminal(a.phase)
    && a == r.attempts[m].(phase := a.phase, failure := a.failure)
  }

  lemma AttemptShape(db: Db, r: Redis, m: MessageId, d: Option<ConnectionId>, now: Time) returns (a: Option<Attempt>)
    ensures var tx := AttemptTx(db, r, m, d, now);
            && (tx.db == db || tx.db == Finish(db, m, Expired, now) || tx.db == Finish(db, m, Failed, now))
            && (a == None ==> Final(tx) == r)
            && (a.Some? ==> Ends(r, m, a.value) && Final(tx) == Save(r, m, a.value))
  {
    a := None;
    if m in r.attempts && !Terminal(r.attempts[m].phase) {
      var was := r.attempts[m];
      match RepairOf(db, r, m, was, d, now) {
        case Keep =>
        case Mirror(phase) => a := Some(was.(phase := phase));
        case Fail(reason) => a := Some(was.(phase := AttemptFailed, failure := Some(reason)));
      }
    }
  }

  lemma SaveRedisProgress(r: Redis, m: MessageId, a: Attempt)
    requires Ends(r, m, a)
    ensures RedisProgress(r, Save(r, m, a))
  {
  }

  lemma AttemptRedis(db: Db, r: Redis, m: MessageId, d: Option<ConnectionId>, now: Time)
    ensures RedisProgress(r, Final(AttemptTx(db, r, m, d, now)))
  {
    var a := AttemptShape(db, r, m, d, now);
    if a.Some? {
      SaveRedisProgress(r, m, a.value);
    }
  }

  // ---- One transaction settles its message and unsettles no other --------------------

  lemma AttemptSettles(db: Db, r: Redis, m: MessageId, d: Option<ConnectionId>, now: Time)
    ensures var tx := AttemptTx(db, r, m, d, now); AttemptSettled(tx.db, Final(tx), m, d, now)
  {
  }

  lemma AttemptStaysSettled(db: Db, r: Redis, db': Db, r': Redis, x: MessageId, d: Option<ConnectionId>, now: Time)
    requires AttemptSettled(db, r, x, d, now)
    requires db'.conversations == db.conversations && r'.presence == r.presence
    requires State(db', x, now) == State(db, x, now) && Get(r', x) == Get(r, x)
    ensures AttemptSettled(db', r', x, d, now)
  {
  }

  /** Everything a repair of another message reads about `x`. */
  ghost predicate Untouched(db: Db, r: Redis, db': Db, r': Redis, x: MessageId, now: Time) {
    && db'.conversations == db.conversations && r'.presence == r.presence
    && State(db', x, now) == State(db, x, now) && Get(r', x) == Get(r, x)
  }

  lemma FinishUntouched(db: Db, m: MessageId, status: DeliveryStatus, now: Time, x: MessageId)
    requires x != m
    ensures Finish(db, m, status, now).conversations == db.conversations
    ensures State(Finish(db, m, status, now), x, now) == State(db, x, now)
  {
  }

  lemma AttemptTouchesOne(db: Db, r: Redis, m: MessageId, x: MessageId, d: Option<ConnectionId>, now: Time)
    requires x != m
    ensures var tx := AttemptTx(db, r, m, d, now); Untouched(db, r, tx.db, Final(tx), x, now)
  {
    var a := AttemptShape(db, r, m, d, now);
    FinishUntouched(db, m, Expired, now, x);
    FinishUntouched(db, m, Failed, now, x);
  }

  lemma RowIdle(db: Db, r: Redis, m: MessageId, d: Option<ConnectionId>, now: Time)
    requires RowSettled(db, r, m, d, now)
    ensures RowTx(db, r, m, d, now) == Idle(db, r, Quiet)
  {
  }

  lemma RowShape(db: Db, r: Redis, m: MessageId, d: Option<ConnectionId>, now: Time)
    ensures var tx := RowTx(db, r, m, d, now);
            || (tx.db == db && Final(tx) == r)
            || (m in db.deliveries && Final(tx) == DropPayload(r, m, db.deliveries[m].recipient)
                && tx.db == Finish(db, m, if RowExpired(db.deliveries[m], now) then Expired else Failed, now))
  {
    if RowSettled(db, r, m, d, now) {
      RowIdle(db, r, m, d, now);
    } else if RowExpired(db.deliveries[m], now) {
      assert RowTx(db, r, m, d, now).db == Finish(db, m, Expired, now);
    } else {
      assert RowTx(db, r, m, d, now).db == Finish(db, m, Failed, now);
    }
  }

  lemma RowRedis(db: Db, r: Redis, m: MessageId, d: Option<ConnectionId>, now: Time)
    ensures RedisProgress(r, Final(RowTx(db, r, m, d, now)))
  {
    RowShape(db, r, m, d, now);
  }

  lemma RowTouchesOne(db: Db, r: Redis, m: MessageId, x: MessageId, d: Option<ConnectionId>, now: Time)
    requires x != m
    ensures var tx := RowTx(db, r, m, d, now); Untouched(db, r, tx.db, Final(tx), x, now)
  {
    RowShape(db, r, m, d, now);
    FinishUntouched(db, m, Expired, now, x);
    FinishUntouched(db, m, Failed, now, x);
  }

  lemma OneAttempt(db: Db, r: Redis, m: MessageId, d: Option<ConnectionId>, now: Time)
    requires Consistent(db, r, now)
    ensures var tx := AttemptTx(db, r, m, d, now); Consistent(tx.db, Final(tx), now) && RedisProgress(r, Final(tx))
  {
    var tx := AttemptTx(db, r, m, d, now);
    AttemptRedis(db, r, m, d, now);
    AttemptProgress(db, r, m, d, now);
    ConsistentLater(db, r, tx.db, Final(tx), now);
  }

  lemma AttemptLeavesSettled(db: Db, r: Redis, m: MessageId, x: MessageId, d: Option<ConnectionId>, now: Time)
    requires x == m || AttemptSettled(db, r, x, d, now)
    ensures var tx := AttemptTx(db, r, m, d, now); AttemptSettled(tx.db, Final(tx), x, d, now)
  {
    if x == m {
      AttemptSettles(db, r, m, d, now);
    } else {
      var tx := AttemptTx(db, r, m, d, now);
      AttemptTouchesOne(db, r, m, x, d, now);
      AttemptStaysSettled(db, r, tx.db, Final(tx), x, d, now);
    }
  }

  lemma {:induction false} AttemptsSettle(db: Db, r: Redis, ms: seq<MessageId>, d: Option<ConnectionId>, now: Time)
    requires Consistent(db, r, now)
    ensures var (db', r') := RepairAttempts(db, r, ms, d, now);
            Consistent(db', r', now) && RedisProgress(r, r')
            && forall m :: m in ms ==> AttemptSettled(db', r', m, d, now)
  {
    if ms != [] {
      var init, last := ms[..|ms| - 1], ms[|ms| - 1];
      var (db1, r1) := RepairAttempts(db, r, init, d, now);
      AttemptsSettle(db, r, init, d, now);
      var (db2, r2) := RepairAttempts(db, r, ms, d, now);
      OneAttempt(db1, r1, last, d, now);
      RedisProgressTrans(r, r1, r2);
      forall m | m in ms ensures AttemptSettled(db2, r2, m, d, now) {
        assert m == last || m in init;
        AttemptLeavesSettled(db1, r1, last, m, d, now);
      }
    }
  }

  lemma RowSettles(db: Db, r: Redis, m: MessageId, d: Option<ConnectionId>, now: Time)
    ensures var tx := RowTx(db, r, m, d, now); RowSettled(tx.db, Final(tx), m, d, now)
  {
  }

  /** A row whose live attempt needs no repair needs none itself: both loops take the same decision. */
  lemma LoopsAgree(db: Db, r: Redis, m: MessageId, d: Option<ConnectionId>, now: Time)
    requires Consistent(db, r, now) && AttemptSettled(db, r, m, d, now)
    requires m in r.attempts && !Terminal(r.attempts[m].phase)
    ensures RowSettled(db, r, m, d, now)
  {
  }

  lemma RowKeepsAttemptSettled(db: Db, r: Redis, m: MessageId, x: MessageId, d: Option<ConnectionId>, now: Time)
    requires Consistent(db, r, now) && AttemptSettled(db, r, x, d, now)
    ensures var tx := RowTx(db, r, m, d, now); AttemptSettled(tx.db, Final(tx), x, d, now)
  {
    var tx := RowTx(db, r, m, d, now);
    RowRedis(db, r, m, d, now);
    if x != m {
      RowTouchesOne(db, r, m, x, d, now);
      AttemptStaysSettled(db, r, tx.db, Final(tx), x, d, now);
    } else if m in r.attempts && !Terminal(r.attempts[m].phase) {
      LoopsAgree(db, r, m, d, now);
    }
  }

  lemma RowStaysSettled(db: Db, r: Redis, m: MessageId, x: MessageId, d: Option<ConnectionId>, now: Time)
    requires RowSettled(db, r, x, d, now)
    ensures var tx := RowTx(db, r, m, d, now); RowSettled(tx.db, Final(tx), x, d, now)
  {
    if x != m { RowTouchesOne(db, r, m, x, d, now); }
  }

  lemma {:induction false} RowsSettle(db: Db, r: Redis, keys: seq<Key>, d: Option<ConnectionId>, now: Time)
    requires Consistent(db, r, now)
    ensures var (db', r') := RepairRows(db, r, keys, d, now);
            && Consistent(db', r', now) && RedisProgress(r, r')
            && (forall k :: k in keys ==> RowSettled(db', r', k.id, d, now))
            && (forall m :: AttemptSettled(db, r, m, d, now) ==> AttemptSettled(db', r', m, d, now))
  {
    if keys != [] {
      var init, last := keys[..|keys| - 1], keys[|keys| - 1];
      var (db1, r1) := RepairRows(db, r, init, d, now);
      RowsSettle(db, r, init, d, now);
      var tx := RowTx(db1, r1, last.id, d, now);
      RowRedis(db1, r1, last.id, d, now);
      RowProgress(db1, r1, last.id, d, now);
      ConsistentLater(db1, r1, tx.db, Final(tx), now);
      RedisProgressTrans(r, r1, Final(tx));
      RowSettles(db1, r1, last.id, d, now);
      forall k | k in keys ensures RowSettled(tx.db, Final(tx), k.id, d, now) {
        if k != last { assert k in init; RowStaysSettled(db1, r1, last.id, k.id, d, now); }
      }
      forall m | AttemptSettled(db, r, m, d, now) ensures AttemptSettled(tx.db, Final(tx), m, d, now) {
        RowKeepsAttemptSettled(db1, r1, last.id, m, d, now);
      }
    }
  }

  // ---- A settled pair of stores is a fixed point --------------------------------------

  /** Every indexed attempt and every pending row is settled, and no indexed attempt is missing. */
  ghost predicate AllSettled(db: Db, r: Redis, conversation: Option<ConversationId>, d: Option<ConnectionId>,
                             now: Time) {
    && (forall k :: k in IndexKeys(r, AttemptFilter(conversation, d)) ==>
            k.id in r.attempts && AttemptSettled(db, r, k.id, d, now))
    && (forall m :: m in db.deliveries && IsPending(db, m, conversation, d) ==> RowSettled(db, r, m, d, now))
  }

  lemma SettledAttemptIdle(db: Db, r: Redis, m: MessageId, d: Option<ConnectionId>, now: Time)
    requires AttemptSettled(db, r, m, d, now)
    ensures AttemptTx(db, r, m, d, now) == Idle(db, r, Quiet)
  {
  }

  lemma {:induction false} AttemptsIdle(db: Db, r: Redis, ms: seq<MessageId>, d: Option<ConnectionId>, now: Time)
    requires forall m :: m in ms ==> AttemptSettled(db, r, m, d, now)
    ensures RepairAttempts(db, r, ms, d, now) == (db, r)
  {
    if ms != [] {
      AttemptsIdle(db, r, ms[..|ms| - 1], d, now);
      SettledAttemptIdle(db, r, ms[|ms| - 1], d, now);
    }
  }

  lemma {:induction false} RowsIdle(db: Db, r: Redis, keys: seq<Key>, d: Option<ConnectionId>, now: Time)
    requires forall k :: k in keys ==> RowSettled(db, r, k.id, d, now)
    ensures RepairRows(db, r, keys, d, now) == (db, r)
  {
    if keys != [] {
      RowsIdle(db, r, keys[..|keys| - 1], d, now);
      RowIdle(db, r, keys[|keys| - 1].id, d, now);
    }
  }

  lemma {:induction false} FoundAreIds(r: Redis, keys: seq<Key>, m: MessageId)
    ensures m in Found(r, keys) <==> m in r.attempts && exists k :: k in keys && k.id == m
  {
    if keys != [] {
      var init, last := keys[..|keys| - 1], keys[|keys| - 1];
      FoundAreIds(r, init, m);
      assert keys == init + [last];
    }
  }

  lemma DropFewer(r: Redis, f: Filter, m: MessageId)
    ensures FewerEntries(r, DropEntry(r, f, m))
    ensures forall k :: k in IndexKeys(DropEntry(r, f, m), f) ==> k.id != m
  {
  }

  /** A read through an index drops every member it meets whose attempt is gone. */
  lemma {:induction false} SweepDrops(r: Redis, f: Filter, keys: seq<Key>)
    ensures var s := Sweep(r, f, keys);
            RedisProgress(r, s) && forall k :: k in keys && k in IndexKeys(s, f) ==> k.id in r.attempts
  {
    if keys != [] {
      var init, last := keys[..|keys| - 1], keys[|keys| - 1];
      var before, s := Sweep(r, f, init), Sweep(r, f, keys);
      SweepDrops(r, f, init);
      if last.id !in r.attempts {
        DropFewer(before, f, last.id);
        DropPresence(before, f, last.id);
        FewerKeys(before, s, f);
        RedisProgressTrans(r, before, s);
      }
      assert keys == init + [last];
    }
  }

  lemma DropPresence(r: Redis, f: Filter, m: MessageId)
    ensures DropEntry(r, f, m).presence == r.presence && DropEntry(r, f, m).attempts == r.attempts
  {
  }

  lemma BatchPending(db: Db, conversation: Option<ConversationId>, d: Option<ConnectionId>)
    ensures forall k :: k in Batch(db, conversation, d) ==>
              k.id in db.deliveries && IsPending(db, k.id, conversation, d)
    ensures |PendingKeys(db, conversation, d)| <= PENDING_LIMIT ==>
              forall m :: m in db.deliveries && IsPending(db, m, conversation, d) ==>
                            RowKey(m, db.deliveries[m]) in Batch(db, conversation, d)
  {
    var s := PendingKeys(db, conversation, d);
    forall k | k in Batch(db, conversation, d) ensures k.id in db.deliveries && IsPending(db, k.id, conversation, d) {
      assert k in Ascending(s);
    }
    forall m | m in db.deliveries && IsPending(db, m, conversation, d)
      ensures RowKey(m, db.deliveries[m]) in Ascending(s)
    {
      assert RowKey(m, db.deliveries[m]) in s;
    }
  }

  lemma SettledIsFixed(db: Db, r: Redis, conversation: Option<ConversationId>, d: Option<ConnectionId>, now: Time)
    requires AllSettled(db, r, conversation, d, now)
    ensures Pass(db, r, conversation, d, now) == (db, r)
  {
    var f := AttemptFilter(conversation, d);
    var keys := ActiveKeys(r, f);
    forall k | k in keys ensures k in IndexKeys(r, f) { assert k in Ascending(IndexKeys(r, f)); }
    SweepIsIdle(r, f, keys);
    forall m | m in Found(r, keys) ensures AttemptSettled(db, r, m, d, now) { FoundAreIds(r, keys, m); }
    AttemptsIdle(db, r, Found(r, keys), d, now);
    BatchPending(db, conversation, d);
    RowsIdle(db, r, Batch(db, conversation, d), d, now);
  }

  /** The first loop settles every attempt the index lists, and leaves no stale member in it. */
  lemma FirstLoopSettles(db: Db, r: Redis, f: Filter, d: Option<ConnectionId>, now: Time)
    requires Consistent(db, r, now) && |IndexKeys(r, f)| <= ACTIVE_LIMIT
    ensures var keys := ActiveKeys(r, f);
            var (db1, r1) := RepairAttempts(db, Sweep(r, f, keys), Found(r, keys), d, now);
            Consistent(db1, r1, now)
            && forall k :: k in IndexKeys(r1, f) ==> k.id in r1.attempts && AttemptSettled(db1, r1, k.id, d, now)
  {
    var keys := ActiveKeys(r, f);
    var swept, ms := Sweep(r, f, keys), Found(r, keys);
    SweepDrops(r, f, keys);
    var (db1, r1) := RepairAttempts(db, swept, ms, d, now);
    AttemptsSettle(db, swept, ms, d, now);
    FewerKeys(r, swept, f);
    FewerKeys(swept, r1, f);
    forall k | k in IndexKeys(r1, f) ensures k.id in r1.attempts && AttemptSettled(db1, r1, k.id, d, now) {
      assert k in keys;
      FoundAreIds(r, keys, k.id);
    }
  }

  /** The second loop settles every pending row, and keeps settled what the first one settled. */
  lemma SecondLoopSettles(db: Db, r: Redis, conversation: Option<ConversationId>, d: Option<ConnectionId>, now: Time)
    requires Consistent(db, r, now) && |PendingKeys(db, conversation, d)| <= PENDING_LIMIT
    requires forall k :: k in IndexKeys(r, AttemptFilter(conversation, d)) ==>
               k.id in r.attempts && AttemptSettled(db, r, k.id, d, now)
    ensures var (db', r') := RepairRows(db, r, Batch(db, conversation, d), d, now);
            AllSettled(db', r', conversation, d, now)
  {
    var b := Batch(db, conversation, d);
    var (db', r') := RepairRows(db, r, b, d, now);
    RowsSettle(db, r, b, d, now);
    RowsProgress(db, r, b, d, now);
    FewerKeys(r, r', AttemptFilter(conversation, d));
    BatchPending(db, conversation, d);
    forall m | m in db'.deliveries && IsPending(db', m, conversation, d) ensures RowSettled(db', r', m, d, now) {
      assert RowKept(db.deliveries[m], db'.deliveries[m]);
      assert RowKey(m, db.deliveries[m]) in b;
      assert RowKey(m, db.deliveries[m]).id == m;
    }
  }

  lemma StillPending(a: Db, b: Db, conversation: Option<ConversationId>, d: Option<ConnectionId>, now: Time)
    requires Progress(a, b, now)
    ensures |PendingKeys(b, conversation, d)| <= |PendingKeys(a, conversation, d)|
  {
    forall k | k in PendingKeys(b, conversation, d) ensures k in PendingKeys(a, conversation, d) {
      assert RowKept(a.deliveries[k.id], b.deliveries[k.id]);
      assert IsPending(a, k.id, conversation, d) && k == RowKey(k.id, a.deliveries[k.id]);
    }
    SubsetSize(PendingKeys(b, conversation, d), PendingKeys(a, conversation, d));
  }

  /** With at most 1000 candidates for each loop, a second pass of the same kind at the same instant
      and presence changes nothing in either store, whatever a crash left in the indexes. */
  lemma SecondPassIsIdle(db: Db, r: Redis, conversation: Option<ConversationId>, d: Option<ConnectionId>, now: Time)
    requires Consistent(db, r, now)
    requires |IndexKeys(r, AttemptFilter(conversation, d))| <= ACTIVE_LIMIT
    requires |PendingKeys(db, conversation, d)| <= PENDING_LIMIT
    ensures var (db', r') := Pass(db, r, conversation, d, now);
            Pass(db', r', conversation, d, now) == (db', r')
  {
    var f := AttemptFilter(conversation, d);
    var keys := ActiveKeys(r, f);
    var (db1, r1) := RepairAttempts(db, Sweep(r, f, keys), Found(r, keys), d, now);
    FirstLoopSettles(db, r, f, d, now);
    AttemptsProgress(db, Sweep(r, f, keys), Found(r, keys), d, now);
    StillPending(db, db1, conversation, d, now);
    SecondLoopSettles(db1, r1, conversation, d, now);
    var (db', r') := Pass(db, r, conversation, d, now);
    SettledIsFixed(db', r', conversation, d, now);
  }

  // ---- In every reachable state -------------------------------------------------------

  /** After any run - crashes, lost presence and a lost Redis included - the two stores are consistent. */
  lemma RunsAreConsistent(ls: seq<Handshake.Label>, k: Timeouts)
    requires Handshake.Valid(k)
    ensures var s := Handshake.Exec(ls, k); Consistent(s.db, s.redis, s.now)
  {
    var s := Handshake.Exec(ls, k);
    HandshakeRuns.RunInvariant(ls, k);
    forall m | m in s.redis.attempts && State(s.db, m, s.now).Some?
      ensures SameDelivery(s.db.events[m], s.db.deliveries[m], s.redis.attempts[m])
    {
      assert Handshake.AttemptOk(s.db, s.now, s.readied, m, s.redis.attempts[m]);
      assert Handshake.RowOk(s.db, s.now, s.readied, k, m);
    }
  }

  /** So reconciliation converges from whatever a run leaves: the second pass is the identity. */
  lemma SecondPassAfterAnyRun(ls: seq<Handshake.Label>, k: Timeouts, conversation: Option<ConversationId>,
                              d: Option<ConnectionId>)
    requires Handshake.Valid(k)
    requires var s := Handshake.Exec(ls, k);
             |IndexKeys(s.redis, AttemptFilter(conversation, d))| <= ACTIVE_LIMIT
             && |PendingKeys(s.db, conversation, d)| <= PENDING_LIMIT
    ensures var s := Handshake.Exec(ls, k);
            var (db', r') := Pass(s.db, s.redis, conversation, d, s.now);
            Pass(db', r', conversation, d, s.now) == (db', r')
  {
    var s := Handshake.Exec(ls, k);
    RunsAreConsistent(ls, k);
    SecondPassIsIdle(s.db, s.redis, conversation, d, s.now);
  }
}
