/** The reconciler (python/chat/reconciliation.py): a pass repairs Redis attempts first, then the
    durable rows that are still pending. */
module Reconciliation {
  import opened Wrappers
  import opened Persistence
  import opened Ordering
  import opened RealtimeRedis
  import opened Messaging

  const PENDING_LIMIT: nat := 1000

  /** Why an unfinished attempt must fail, if it must. */
  function FailureReason(db: Db, r: Redis, m: MessageId, a: Attempt, disconnected: Option<ConnectionId>,
                         now: Time): Option<Reason> {
    var st := State(db, m, now);
    if a.deadline <= now then Some(if st.Some? then DeliveryTimeout else OfferTimeout)
    else if a.connection.Some? && (a.connection == disconnected || !Connected(r, a.connection, a.recipient))
    then Some(RecipientDisconnected)
    else if st.Some? then None
    else if a.conversation !in db.conversations || db.conversations[a.conversation].status == Closed
    then Some(ConversationWasClosed)
    else if db.conversations[a.conversation].mode == Stored then Some(TemporaryUnavailable)
    else if VoteOpen(db.conversations[a.conversation], now) then Some(VoteIsOpen)
    else None
  }

  /** What the first loop does to an unfinished attempt: nothing, copy a durable end, or fail it. */
  datatype Repair = Keep | Mirror(phase: Phase) | Fail(reason: Reason)

  function RepairOf(db: Db, r: Redis, m: MessageId, a: Attempt, disconnected: Option<ConnectionId>, now: Time): Repair {
    var st := State(db, m, now);
    if st.Some? && st.value.delivery.status != Waiting
    then Mirror(if st.value.delivery.status == Delivered then AttemptDelivered else AttemptFailed)
    else
      match FailureReason(db, r, m, a, disconnected, now)
      case None => Keep
      case Some(reason) => Fail(reason)
  }

  /** The transaction of the first loop for one candidate. */
  function AttemptTx(db: Db, r: Redis, m: MessageId, disconnected: Option<ConnectionId>, now: Time): Tx {
    if m !in r.attempts || Terminal(r.attempts[m].phase) then Idle(db, r, Quiet)
    else
      var a := r.attempts[m];
      match RepairOf(db, r, m, a, disconnected, now)
      case Keep => Idle(db, r, Quiet)
      case Mirror(phase) => Tx(db, [r, Save(r, m, a.(phase := phase))], Quiet)
      case Fail(reason) =>
        Tx(if State(db, m, now).Some? then Finish(db, m, if reason == DeliveryTimeout then Expired else Failed, now)
          else db,
           [r, Save(r, m, a.(phase := AttemptFailed, failure := Some(reason)))], Notify(FailedNotice(reason)))
  }

  predicate RowExpired(d: Delivery, now: Time) {
    d.deadline == None || d.deadline.value <= now
  }

  predicate RowLost(r: Redis, d: Delivery, disconnected: Option<ConnectionId>, now: Time) {
    || (disconnected.Some? && d.connection == disconnected)
    || (d.connection.Some? && !RowExpired(d, now) && !Connected(r, d.connection, d.recipient))
  }

  /** The transaction of the second loop for one candidate. */
  function RowTx(db: Db, r: Redis, m: MessageId, disconnected: Option<ConnectionId>, now: Time): Tx {
    var st := State(db, m, now);
    if st == None || st.value.delivery.status != Waiting then Idle(db, r, Quiet)
    else
      var d := st.value.delivery;
      if RowExpired(d, now) then
        Tx(Finish(db, m, Expired, now), [r, DropPayload(r, m, d.recipient)], Notify(FailedNotice(DeliveryTimeout)))
      else if RowLost(r, d, disconnected, now) then
        Tx(Finish(db, m, Failed, now), [r, DropPayload(r, m, d.recipient)], Notify(FailedNotice(RecipientDisconnected)))
      else Idle(db, r, Quiet)
  }

  // ---- A whole pass -----------------------------------------------------------------

  function AttemptFilter(conversation: Option<ConversationId>, disconnected: Option<ConnectionId>): Filter {
    if conversation.Some? then OfConversation(conversation.value)
    else if disconnected.Some? then OfConnection(disconnected.value) else All
  }

  function RepairAttempts(db: Db, r: Redis, ms: seq<MessageId>, disconnected: Option<ConnectionId>,
                          now: Time): (Db, Redis) {
    if ms == [] then (db, r)
    else
      var (db', r') := RepairAttempts(db, r, ms[..|ms| - 1], disconnected, now);
      var tx := AttemptTx(db', r', ms[|ms| - 1], disconnected, now);
      (tx.db, Final(tx))
  }

  function RepairRows(db: Db, r: Redis, keys: seq<Key>, disconnected: Option<ConnectionId>, now: Time): (Db, Redis) {
    if keys == [] then (db, r)
    else
      var (db', r') := RepairRows(db, r, keys[..|keys| - 1], disconnected, now);
      var tx := RowTx(db', r', keys[|keys| - 1].id, disconnected, now);
      (tx.db, Final(tx))
  }

  /** ORDER BY deadline_at NULLS FIRST, id. */
  function RowKey(m: MessageId, d: Delivery): Key {
    if d.deadline == None then Key(0, 0, m) else Key(1, d.deadline.value, m)
  }

  predicate IsPending(db: Db, m: MessageId, conversation: Option<ConversationId>, connection: Option<ConnectionId>) {
    && m in db.events && m in db.deliveries
    && db.events[m].mode == Ephemeral && db.deliveries[m].status == Waiting
    && (conversation.Some? ==> db.events[m].conversation == conversation.value)
    && (connection.Some? ==> db.deliveries[m].connection == connection)
  }

  function PendingKeys(db: Db, conversation: Option<ConversationId>, connection: Option<ConnectionId>): set<Key> {
    set m | m in db.deliveries && IsPending(db, m, conversation, connection) :: RowKey(m, db.deliveries[m])
  }

  ghost function Batch(db: Db, conversation: Option<ConversationId>, connection: Option<ConnectionId>): seq<Key> {
    Take(Ascending(PendingKeys(db, conversation, connection)), PENDING_LIMIT)
  }

  /** Both loops at one instant. */
  ghost function Pass(db: Db, r: Redis, conversation: Option<ConversationId>, disconnected: Option<ConnectionId>,
                      now: Time): (Db, Redis) {
    var f := AttemptFilter(conversation, disconnected);
    var keys := ActiveKeys(r, f);
    var (db1, r1) := RepairAttempts(db, Sweep(r, f, keys), Found(r, keys), disconnected, now);
    RepairRows(db1, r1, Batch(db1, conversation, disconnected), disconnected, now)
  }

  /** The worker and the socket handlers, repairing through one messenger. */
  class Reconciler {
    const messenger: Messenger

    constructor (messenger: Messenger)
      ensures this.messenger == messenger
    {
      this.messenger := messenger;
    }

    /** Why the attempt must fail, if it must, given the durable state read before. */
    method FindReason(m: MessageId, attempt: Attempt, state: Option<MessageState>, disconnected: Option<ConnectionId>,
                      now: Time)
      returns (reason: Option<Reason>)
      requires state == State(messenger.database.View(), m, now)
      ensures reason == FailureReason(messenger.database.View(), messenger.redis.View(), m, attempt, disconnected, now)
    {
      var database, redis := messenger.database, messenger.redis;
      if attempt.deadline <= now {
        return Some(if state.Some? then DeliveryTimeout else OfferTimeout);
      }
      if attempt.connection.Some?
         && (attempt.connection == disconnected || !redis.IsConnected(attempt.connection, attempt.recipient)) {
        return Some(RecipientDisconnected);
      }
      if state == None {
        if attempt.conversation !in database.conversations
           || database.conversations[attempt.conversation].status == Closed {
          return Some(ConversationWasClosed);
        } else if database.conversations[attempt.conversation].mode == Stored {
          return Some(TemporaryUnavailable);
        } else if VoteOpen(database.conversations[attempt.conversation], now) {
          return Some(VoteIsOpen);
        }
      }
      return None;
    }

    method RepairAttempt(m: MessageId, disconnected: Option<ConnectionId>, now: Time) returns (reply: Reply)
      modifies messenger.database, messenger.redis
      ensures var tx := AttemptTx(old(messenger.database.View()), old(messenger.redis.View()), m, disconnected, now);
              tx.trace != [] && messenger.database.View() == tx.db && messenger.redis.View() == Final(tx)
                && reply == tx.reply
    {
      var redis := messenger.redis;
      if m !in redis.attempts {
        return Quiet;
      }
      var attempt := redis.attempts[m];
      if attempt.phase == AttemptFailed || attempt.phase == AttemptDelivered {
        return Quiet;
      }
      var state := messenger.ReadState(m, now);
      if state.Some? && state.value.delivery.status != Waiting {
        attempt := attempt.(phase := if state.value.delivery.status == Delivered then AttemptDelivered
          else AttemptFailed);
        redis.SaveAttempt(m, attempt);
        return Quiet;
      }
      var reason := FindReason(m, attempt, state, disconnected, now);
      if reason == None {
        return Quiet;
      }
      if state.Some? {
        messenger.FinishDelivery(m, if reason.value == DeliveryTimeout then Expired else Failed, now);
      }
      redis.SaveAttempt(m, attempt.(phase := AttemptFailed, failure := reason));
      return Notify(FailedNotice(reason.value));
    }

    method RepairRow(m: MessageId, disconnected: Option<ConnectionId>, now: Time) returns (reply: Reply)
      modifies messenger.database, messenger.redis
      ensures var tx := RowTx(old(messenger.database.View()), old(messenger.redis.View()), m, disconnected, now);
              tx.trace != [] && messenger.database.View() == tx.db && messenger.redis.View() == Final(tx)
                && reply == tx.reply
    {
      var state := messenger.ReadState(m, now);
      if state == None || state.value.delivery.status != Waiting {
        return Quiet;
      }
      var d := state.value.delivery;
      var expired := d.deadline == None || d.deadline.value <= now;
      var lost := disconnected.Some? && d.connection == disconnected;
      if d.connection.Some? && !expired {
        lost := lost || !messenger.redis.IsConnected(d.connection, d.recipient);
      }
      if !expired && !lost {
        return Quiet;
      }
      messenger.FinishDelivery(m, if expired then Expired else Failed, now);
      messenger.redis.DeletePayload(m, d.recipient);
      return Notify(FailedNotice(if expired then DeliveryTimeout else RecipientDisconnected));
    }

    /** DeliveryStore.pending. */
    method PendingBatch(conversation: Option<ConversationId>, connection: Option<ConnectionId>) returns (keys: seq<Key>)
      ensures keys == Batch(messenger.database.View(), conversation, connection)
    {
      var db := messenger.database;
      var rows := set m | m in db.deliveries && m in db.events
                          && db.events[m].mode == Ephemeral && db.deliveries[m].status == Waiting
                          && (conversation == None || db.events[m].conversation == conversation.value)
                          && (connection == None || db.deliveries[m].connection == connection)
                          :: RowKey(m, db.deliveries[m]);
      assert rows == PendingKeys(db.View(), conversation, connection);
      var sorted := Sort(rows);
      keys := Take(sorted, PENDING_LIMIT);
    }

    method RepairAllAttempts(ms: seq<MessageId>, disconnected: Option<ConnectionId>, now: Time)
      modifies messenger.database, messenger.redis
      ensures (messenger.database.View(), messenger.redis.View())
           == RepairAttempts(old(messenger.database.View()), old(messenger.redis.View()), ms, disconnected, now)
    {
      ghost var db, r := messenger.database.View(), messenger.redis.View();
      for i := 0 to |ms|
        invariant (messenger.database.View(), messenger.redis.View())
                  == RepairAttempts(db, r, ms[..i], disconnected, now)
      {
        assert ms[..i + 1][..i] == ms[..i];
        var reply := RepairAttempt(ms[i], disconnected, now);
      }
      assert ms[..|ms|] == ms;
    }

    method RepairAllRows(keys: seq<Key>, disconnected: Option<ConnectionId>, now: Time)
      modifies messenger.database, messenger.redis
      ensures (messenger.database.View(), messenger.redis.View())
           == RepairRows(old(messenger.database.View()), old(messenger.redis.View()), keys, disconnected, now)
    {
      ghost var db, r := messenger.database.View(), messenger.redis.View();
      for i := 0 to |keys|
        invariant (messenger.database.View(), messenger.redis.View()) == RepairRows(db, r, keys[..i], disconnected, now)
      {
        assert keys[..i + 1][..i] == keys[..i];
        var reply := RepairRow(keys[i].id, disconnected, now);
      }
      assert keys[..|keys|] == keys;
    }

    /** reconcile_once, with every transaction at the same instant and nobody in between. */
    method ReconcileOnce(conversation: Option<ConversationId>, disconnected: Option<ConnectionId>, now: Time)
      modifies messenger.database, messenger.redis
      ensures (messenger.database.View(), messenger.redis.View())
           == Pass(old(messenger.database.View()), old(messenger.redis.View()), conversation, disconnected, now)
    {
      var candidates := messenger.redis.Active(AttemptFilter(conversation, disconnected));
      RepairAllAttempts(candidates, disconnected, now);
      var rows := PendingBatch(conversation, disconnected);
      RepairAllRows(rows, disconnected, now);
    }
  }
}
