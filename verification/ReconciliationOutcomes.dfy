/** What each repair of the reconciler does: which attempts and rows it ends, why, and what it leaves alone. */
module ReconciliationOutcomes {
  import opened Wrappers
  import opened Persistence
  import opened Ordering
  import opened RealtimeRedis
  import opened Messaging
  import opened Reconciliation

  /** The message has an event inside its 30 days, and its row. */
  predicate Known(db: Db, m: MessageId, now: Time) {
    m in db.events && now < db.events[m].expiresAt && m in db.deliveries
  }

  /** The row waits no longer, and was not delivered. */
  function Lapsed(db: Db, m: MessageId, status: DeliveryStatus): Db
    requires m in db.deliveries
  {
    db.(deliveries := db.deliveries[m := db.deliveries[m].(status := status, receivedAt := None)])
  }

  /** Bound to a socket that just closed, or that its recipient no longer holds. */
  predicate Dropped(r: Redis, connection: Option<ConnectionId>, recipient: UserId, closed: Option<ConnectionId>) {
    connection.Some?
    && (connection == closed || connection.value !in r.presence || r.presence[connection.value] != recipient)
  }

  /** A message that was never recorded can no longer be: why. */
  function Hopeless(db: Db, id: ConversationId, now: Time): Option<Reason> {
    if id !in db.conversations || db.conversations[id].status == Closed then Some(ConversationWasClosed)
    else if db.conversations[id].mode == Stored then Some(TemporaryUnavailable)
    else if exists v :: v in db.conversations[id].votes && v.status == VoteStatus.Open && v.expiresAt > now
    then Some(VoteIsOpen) else None
  }

  /** The attempt ends as failed for `reason`, its payload goes, its row too if it has one, and the sender
      hears of it. */
  predicate FailsWith(db: Db, r: Redis, m: MessageId, a: Attempt, reason: Reason, now: Time, tx: Tx) {
    && tx.trace != [] && tx.reply == Notify(FailedNotice(reason))
    && Final(tx).attempts == r.attempts[m := a.(phase := AttemptFailed, failure := Some(reason))]
    && Final(tx).payloads == r.payloads - {PayloadKey(m, a.recipient)}
    && tx.db == if Known(db, m, now) then Lapsed(db, m, if reason == DeliveryTimeout then Expired else Failed) else db
  }

  lemma RepairIs(db: Db, r: Redis, m: MessageId, a: Attempt, closed: Option<ConnectionId>, now: Time)
    ensures RepairOf(db, r, m, a, closed, now)
         == if Known(db, m, now) && db.deliveries[m].status != Waiting
            then Mirror(if db.deliveries[m].status == Delivered then AttemptDelivered else AttemptFailed)
            else if a.deadline <= now then Fail(if Known(db, m, now) then DeliveryTimeout else OfferTimeout)
            else if Dropped(r, a.connection, a.recipient, closed) then Fail(RecipientDisconnected)
            else if !Known(db, m, now) && Hopeless(db, a.conversation, now).Some?
            then Fail(Hopeless(db, a.conversation, now).value) else Keep
  {
  }

  lemma FailingIs(db: Db, r: Redis, m: MessageId, closed: Option<ConnectionId>, now: Time, reason: Reason)
    requires m in r.attempts && !Terminal(r.attempts[m].phase)
    requires RepairOf(db, r, m, r.attempts[m], closed, now) == Fail(reason)
    ensures FailsWith(db, r, m, r.attempts[m], reason, now, AttemptTx(db, r, m, closed, now))
  {
  }

  /** The first loop on one unfinished attempt. A settled row is copied to it in silence. Else it fails when its
      deadline has passed, its socket is gone, or it has no row and can no longer get one; and otherwise it
      stays. */
  lemma AttemptRepairs(db: Db, r: Redis, m: MessageId, closed: Option<ConnectionId>, now: Time)
    requires m in r.attempts && r.attempts[m].phase != AttemptFailed && r.attempts[m].phase != AttemptDelivered
    ensures var a, tx := r.attempts[m], AttemptTx(db, r, m, closed, now);
            if Known(db, m, now) && db.deliveries[m].status != Waiting
            then
              && tx.trace != [] && tx.reply == Quiet && tx.db == db
              && Final(tx).attempts == r.attempts[m := a.(
                                         phase := if db.deliveries[m].status == Delivered then AttemptDelivered
                                         else AttemptFailed)]
              && Final(tx).payloads == r.payloads - {PayloadKey(m, a.recipient)}
            else if a.deadline <= now
            then FailsWith(db, r, m, a, if Known(db, m, now) then DeliveryTimeout else OfferTimeout, now, tx)
            else if Dropped(r, a.connection, a.recipient, closed)
            then FailsWith(db, r, m, a, RecipientDisconnected, now, tx)
            else if !Known(db, m, now) && Hopeless(db, a.conversation, now).Some?
            then FailsWith(db, r, m, a, Hopeless(db, a.conversation, now).value, now, tx)
            else tx == Idle(db, r, Quiet)
  {
    RepairIs(db, r, m, r.attempts[m], closed, now);
    match RepairOf(db, r, m, r.attempts[m], closed, now) {
      case Fail(reason) => FailingIs(db, r, m, closed, now, reason);
      case _ =>
    }
  }

  /** An attempt that has ended, or is not there any more, is left alone. */
  lemma EndedAttemptStays(db: Db, r: Redis, m: MessageId, closed: Option<ConnectionId>, now: Time)
    requires m in r.attempts ==> r.attempts[m].phase == AttemptFailed || r.attempts[m].phase == AttemptDelivered
    ensures AttemptTx(db, r, m, closed, now) == Idle(db, r, Quiet)
  {
  }

  /** The second loop on one row: a waiting row of a living event expires without a deadline ahead, fails when
      its socket is gone, and otherwise stays; of Redis only its payload goes. */
  lemma RowRepairs(db: Db, r: Redis, m: MessageId, closed: Option<ConnectionId>, now: Time)
    ensures var tx := RowTx(db, r, m, closed, now);
            if !Known(db, m, now) || db.deliveries[m].status != Waiting then tx == Idle(db, r, Quiet)
            else
              var d := db.deliveries[m];
              if d.deadline.Some? && now < d.deadline.value && !Dropped(r, d.connection, d.recipient, closed)
              then tx == Idle(db, r, Quiet)
              else
                var due := d.deadline.Some? ==> d.deadline.value <= now;
                && tx.db == Lapsed(db, m, if due then Expired else Failed)
                && tx.reply == Notify(FailedNotice(if due then DeliveryTimeout else RecipientDisconnected))
                && tx.trace == [r, r.(payloads := r.payloads - {PayloadKey(m, d.recipient)})]
  {
  }
}
