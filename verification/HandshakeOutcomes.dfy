/** What each operation of the handshake answers and changes, said in terms of the tables and keys it meets:
    when it succeeds, what it leaves behind, and which refusal every missing condition gives. */
module HandshakeOutcomes {
  import opened Wrappers
  import opened Persistence
  import opened RealtimeRedis
  import opened Messaging
  import opened Admission
  import opened Handshake

  function ReplyTo(s: Sys, l: Label, k: Timeouts): Reply
    requires IsTransaction(l) && Guard(s, l)
  {
    TxOf(s, l, k).reply
  }

  /** The message has an event inside its 30 days, and its row. */
  predicate Known(s: Sys, m: MessageId) {
    m in s.db.events && s.now < s.db.events[m].expiresAt && m in s.db.deliveries
  }

  predicate Online(s: Sys, connection: Option<ConnectionId>, user: UserId) {
    connection.Some? && connection.value in s.redis.presence && s.redis.presence[connection.value] == user
  }

  // ---- Sending in stored mode -----------------------------------------------------------------

  /** The tables with one more message: its event, its content if that is stored, and its waiting row. */
  function Recorded(db: Db, w: Write, now: Time): Db
    requires w.conversation in db.conversations
  {
    var c, until := db.conversations[w.conversation], now + 30 * 86_400_000;
    var grace := c.status == Pending;
    Db(db.conversations[w.conversation := c.(graceUsed := c.graceUsed + if grace then 1 else 0)],
       db.events[w.id := Event(w.conversation, w.sender, now, until, Fingerprint(w.content), c.mode)],
       if c.mode == Stored then db.messages[w.id := StoredContent(w.content, grace, until)] else db.messages,
       db.deliveries[w.id := Delivery(Other(c, w.sender), Waiting, None, None, None)])
  }

  /** What every recorded send needs, whatever the mode. */
  predicate MayRecord(s: Sys, c: ConnectionId, w: Write) {
    && Guard(s, SendFirst(c, w)) && c in s.redis.presence && w.id !in s.db.events
    && Inside(s.db, w.sender, w.conversation) && Both(s.db.conversations[w.conversation])
    && Writable(s.db.conversations[w.conversation], s.now)
  }

  lemma RecordsThen(db: Db, w: Write, now: Time)
    requires Inside(db, w.sender, w.conversation) && Both(db.conversations[w.conversation])
    requires Writable(db.conversations[w.conversation], now) && w.id !in db.events
    ensures Record(db, w, now, now).0.Created? && Record(db, w, now, now).1 == Recorded(db, w, now)
  {
  }

  /** A stored send that meets no obstacle records event, content and waiting row, stamped now, for the other
      member, touches nothing in Redis, and is answered with no frame: the message itself goes out. */
  lemma StoredSendIsRecorded(s: Sys, k: Timeouts, c: ConnectionId, w: Write)
    requires MayRecord(s, c, w) && s.db.conversations[w.conversation].mode == Stored && w.id !in s.redis.attempts
    ensures var l := SendFirst(c, w);
            && ReplyTo(s, l, k) == Quiet
            && Step(s, l, k).db == Recorded(s.db, w, s.now) && Step(s, l, k).redis == s.redis
            && Step(s, l, k).inflight == s.inflight
    ensures var db := Step(s, SendFirst(c, w), k).db;
            && db.messages[w.id].content == w.content
            && db.deliveries[w.id].recipient == Other(s.db.conversations[w.conversation], w.sender)
            && db.deliveries[w.id].status == Waiting
  {
    WhyNotWritable(s.db, w.sender, w.conversation, s.now);
    RecordsThen(s.db, w, s.now);
    assert SendFirstTx(s.db, s.redis, c, w, s.now, k) == (Idle(Recorded(s.db, w, s.now), s.redis, Quiet), None);
  }

  // ---- Sending in ephemeral mode ----------------------------------------------------------------

  /** The recipient answered this sender's offer in time and is still there. */
  predicate Ripe(s: Sys, w: Write) {
    && w.id in s.redis.attempts
    && var a := s.redis.attempts[w.id];
    && a.sender == w.sender && a.conversation == w.conversation && a.phase == ReadyToSend && s.now < a.deadline
    && Online(s, a.connection, a.recipient)
  }

  function Sending(a: Attempt, now: Time, k: Timeouts): Attempt {
    a.(phase := Phase.Sending, deadline := now + k.delivery)
  }

  /** An ephemeral send after a timely ready answer records the event and the waiting row with its socket and
      its deadline, no content, and hands the attempt on. */
  lemma EphemeralSendIsRecorded(s: Sys, k: Timeouts, c: ConnectionId, w: Write)
    requires MayRecord(s, c, w) && s.db.conversations[w.conversation].mode == Ephemeral && Ripe(s, w)
    ensures var l, a := SendFirst(c, w), s.redis.attempts[w.id];
            var t, recorded := Step(s, l, k), Recorded(s.db, w, s.now);
            && ReplyTo(s, l, k) == Quiet
            && t.db == recorded.(deliveries := recorded.deliveries[w.id := recorded.deliveries[w.id].(
                                   connection := a.connection, deadline := Some(s.now + k.delivery))])
            && t.inflight == s.inflight[w.id := Sending(a, s.now, k)]
            && t.redis.attempts == s.redis.attempts[w.id := Sending(a, s.now, k)]
            && t.redis.payloads == s.redis.payloads && t.redis.presence == s.redis.presence
  {
    WhyNotWritable(s.db, w.sender, w.conversation, s.now);
    RecordsThen(s.db, w, s.now);
    assert PlanSend(s.db, s.redis, c, w, s.now) == Proceed;
  }

  // ---- Why a send stops -------------------------------------------------------------------------

  /** A send of a message that is already known is answered from its row, and changes nothing. */
  lemma RepeatedSendAnswers(s: Sys, k: Timeouts, c: ConnectionId, w: Write)
    requires Guard(s, SendFirst(c, w)) && Inside(s.db, w.sender, w.conversation) && Known(s, w.id)
    ensures var e, d, reply := s.db.events[w.id], s.db.deliveries[w.id], ReplyTo(s, SendFirst(c, w), k);
            reply ==
            if e.conversation != w.conversation || e.sender != w.sender || e.fingerprint.of != w.content
            then Refuse(IdConflict)
            else if d.status == Delivered then Notify(DeliveredNotice(d.receivedAt))
            else if d.status == Waiting then Quiet else Notify(FailedNotice(DeliveryTimeout))
    ensures TxOf(s, SendFirst(c, w), k) == Idle(s.db, s.redis, ReplyTo(s, SendFirst(c, w), k))
  {
  }

  /** The answer to a new send that something forbids, in the order of the checks. */
  function Obstacle(s: Sys, c: ConnectionId, w: Write): Option<Reply>
  {
    if !Inside(s.db, w.sender, w.conversation) then Some(Refuse(NotFound))
    else
      var room := s.db.conversations[w.conversation];
      if room.status == Closed then Some(Notify(FailedNotice(ConversationWasClosed)))
      else if exists v :: v in room.votes && v.status == VoteStatus.Open && v.expiresAt > s.now
      then Some(Notify(FailedNotice(VoteIsOpen)))
      else if !Writable(room, s.now) then Some(Refuse(GraceLimitReached))
      else if c !in s.redis.presence then Some(Refuse(StoreUnavailable))
      else if w.id !in s.redis.attempts
      then if room.mode == Stored then None else Some(Notify(FailedNotice(OfferTimeout)))
      else
        var a := s.redis.attempts[w.id];
        if a.sender != w.sender || a.conversation != w.conversation then Some(Refuse(IdConflict))
        else if room.mode == Stored then Some(Notify(FailedNotice(TemporaryUnavailable)))
        else if a.phase != ReadyToSend || a.deadline <= s.now then Some(Notify(FailedNotice(OfferTimeout)))
        else if !Online(s, a.connection, a.recipient) then Some(Notify(FailedNotice(RecipientDisconnected)))
        else None
  }

  /** A send of an unknown message stops exactly when there is an obstacle, with the answer that names it. */
  lemma NewSendStopsIff(s: Sys, k: Timeouts, c: ConnectionId, w: Write)
    requires Guard(s, SendFirst(c, w)) && !Known(s, w.id)
    ensures PlanSend(s.db, s.redis, c, w, s.now).Proceed? <==> Obstacle(s, c, w) == None
    ensures Obstacle(s, c, w).Some? ==>
              TxOf(s, SendFirst(c, w), k) == Idle(s.db, s.redis, Obstacle(s, c, w).value)
              && Step(s, SendFirst(c, w), k).inflight == s.inflight
  {
    WhyNotWritable(s.db, w.sender, w.conversation, s.now);
  }

  // ---- Acknowledging ------------------------------------------------------------------------------

  /** A live row of the conversation whose recipient acknowledges it and is still inside. */
  predicate Addressed(s: Sys, l: Label) {
    && l.Ack? && Guard(s, l) && Inside(s.db, l.user, l.id) && Known(s, l.message)
    && s.db.events[l.message].conversation == l.id && s.db.deliveries[l.message].recipient == l.user
  }

  /** The tables with the row of `m` delivered at `now`. */
  function DeliveredDb(db: Db, m: MessageId, now: Time): Db
    requires m in db.deliveries
  {
    db.(deliveries := db.deliveries[m := db.deliveries[m].(status := Delivered, receivedAt := Some(now))])
  }

  /** The acknowledgement of a waiting stored message always delivers it, over whichever socket it comes. */
  lemma StoredAckDelivers(s: Sys, k: Timeouts, l: Label)
    requires Addressed(s, l) && s.db.events[l.message].mode == Stored && s.db.deliveries[l.message].status == Waiting
    ensures ReplyTo(s, l, k) == Notify(DeliveredNotice(Some(s.now)))
    ensures Step(s, l, k).db == DeliveredDb(s.db, l.message, s.now) && Step(s, l, k).redis == s.redis
  {
  }

  /** The payload that the attempt of `m` points to can still be read. */
  predicate Readable(s: Sys, m: MessageId) {
    && m in s.redis.attempts
    && var p := PayloadKey(m, s.redis.attempts[m].recipient);
    p in s.redis.payloads && s.redis.payloads[p] > s.now
  }

  /** That of a waiting ephemeral message delivers it exactly over the socket that answered ready, before the
      deadline and while the payload can be read; otherwise it is refused and changes nothing. */
  lemma EphemeralAckDeliversIff(s: Sys, k: Timeouts, l: Label)
    requires Addressed(s, l) && s.db.events[l.message].mode == Ephemeral
    requires s.db.deliveries[l.message].status == Waiting
    ensures var d, reply := s.db.deliveries[l.message], ReplyTo(s, l, k);
            if d.connection != Some(l.connection) then TxOf(s, l, k) == Idle(s.db, s.redis, Refuse(ForeignConnection))
            else if d.deadline == None || d.deadline.value <= s.now || !Readable(s, l.message)
            then TxOf(s, l, k) == Idle(s.db, s.redis, Refuse(DeliveryTimedOut))
            else && reply == Notify(DeliveredNotice(Some(s.now)))
                 && Step(s, l, k).db == DeliveredDb(s.db, l.message, s.now)
                 && Step(s, l, k).redis.attempts[l.message] == s.redis.attempts[l.message].(phase := AttemptDelivered)
  {
  }

  /** An acknowledgement of a settled row changes no table, and repeats a delivery or is refused. */
  lemma SettledAckAnswers(s: Sys, k: Timeouts, l: Label)
    requires Addressed(s, l) && s.db.deliveries[l.message].status != Waiting
    ensures var d := s.db.deliveries[l.message];
            ReplyTo(s, l, k)
            == if d.status == Delivered then Notify(DeliveredNotice(d.receivedAt)) else Refuse(DeliveryTimedOut)
    ensures Step(s, l, k).db == s.db
  {
  }

  /** Anybody else is told that there is no such message. */
  lemma ForeignAckIsRefused(s: Sys, k: Timeouts, l: Label)
    requires l.Ack? && Guard(s, l) && !Addressed(s, l)
    ensures TxOf(s, l, k) == Idle(s.db, s.redis, Refuse(NotFound))
  {
  }

  // ---- Offering and answering -----------------------------------------------------------------------

  /** A permitted offer of an unknown message makes an attempt that the other member has `k.offer` to answer;
      repeated in time it is published again, and otherwise it is refused. */
  lemma OfferAnswers(s: Sys, k: Timeouts, l: Label)
    requires l.Offer? && Guard(s, l) && Inside(s.db, l.user, l.id) && Writable(s.db.conversations[l.id], s.now)
    ensures var c, m := s.db.conversations[l.id], l.message;
            var tx := TxOf(s, l, k);
            if c.mode == Stored then tx == Idle(s.db, s.redis, Refuse(NotEphemeral))
            else if Known(s, m) then tx == Idle(s.db, s.redis, Refuse(IdConflict))
            else if m in s.redis.attempts then
              var a := s.redis.attempts[m];
              tx == Idle(s.db, s.redis,
                         if a.sender != l.user || a.conversation != l.id then Refuse(IdConflict)
                         else if a.phase != Offered || a.deadline <= s.now then Refuse(OfferTimedOut) else Quiet)
            else if !Inside(s.db, Other(c, l.user), l.id) then tx == Idle(s.db, s.redis, Refuse(ConversationShut))
            else && tx.reply == Quiet && tx.db == s.db
                 && Step(s, l, k).redis.attempts == s.redis.attempts[m := Attempt(
                      l.id, l.user, Other(c, l.user), s.now + k.offer, Offered, None, None, s.now + 30 * 86_400_000)]
  {
    WhyNotWritable(s.db, l.user, l.id, s.now);
  }

  /** A ready answer binds the attempt to its socket exactly when the offer is there for this user, open, in
      time and not bound to another socket. */
  lemma ReadyAnswers(s: Sys, k: Timeouts, l: Label)
    requires l.Ready? && Guard(s, l) && Inside(s.db, l.user, l.id) && Writable(s.db.conversations[l.id], s.now)
    ensures var m, tx := l.message, TxOf(s, l, k);
            if || m !in s.redis.attempts || s.redis.attempts[m].recipient != l.user
               || s.redis.attempts[m].conversation != l.id
            then tx == Idle(s.db, s.redis, Refuse(OfferUnknown))
            else
              var a := s.redis.attempts[m];
              if s.db.conversations[l.id].mode == Stored || a.deadline <= s.now
                 || (a.phase != Offered && a.phase != ReadyToSend)
                 || (a.connection.Some? && a.connection != Some(l.connection))
              then tx == Idle(s.db, s.redis, Refuse(OfferTimedOut))
              else && tx.reply == Quiet && tx.db == s.db
                   && Step(s, l, k).redis.attempts
                      == s.redis.attempts[m := a.(phase := ReadyToSend, connection := Some(l.connection))]
  {
    WhyNotWritable(s.db, l.user, l.id, s.now);
  }

  /** Without permission both are refused, with the reason. */
  lemma UnpermittedIsRefused(s: Sys, k: Timeouts, l: Label)
    requires (l.Offer? || l.Ready?) && Guard(s, l)
    requires Inside(s.db, l.user, l.id) ==> !Writable(s.db.conversations[l.id], s.now)
    ensures TxOf(s, l, k) == Idle(s.db, s.redis, Refuse(
                 if !Inside(s.db, l.user, l.id) then NotFound
                 else if s.db.conversations[l.id].status == Closed then ConversationShut
                 else if exists v :: v in s.db.conversations[l.id].votes && v.status == VoteStatus.Open
                                     && v.expiresAt > s.now
                 then VotingInProgress else GraceLimitReached))
  {
    WhyNotWritable(s.db, l.user, l.id, s.now);
  }

  // ---- The second half of a send -----------------------------------------------------------------------

  /** The second half publishes the payload until the deadline while the row waits, the recipient is there and
      the deadline ahead; a lost recipient fails the row, and otherwise nothing changes. */
  lemma SecondHalfAnswers(s: Sys, k: Timeouts, l: Label)
    requires l.SendSecond? && Guard(s, l)
    ensures var m, a := l.message, s.inflight[l.message];
            var tx, t := TxOf(s, l, k), Step(s, l, k);
            if !Known(s, m) then tx == Idle(s.db, s.redis, Refuse(StoreUnavailable))
            else if s.db.deliveries[m].status != Waiting
            then tx == Idle(s.db, s.redis, Notify(FailedNotice(DeliveryTimeout)))
            else if !Online(s, a.connection, a.recipient)
            then && tx.reply == Notify(FailedNotice(RecipientDisconnected))
                 && t.db == s.db.(deliveries := s.db.deliveries[m := s.db.deliveries[m].(
                                      status := Failed, receivedAt := None)])
                 && t.redis.attempts == s.redis.attempts[m := a.(
                                          phase := AttemptFailed, failure := Some(RecipientDisconnected))]
            else if a.deadline <= s.now then tx == Idle(s.db, s.redis, Refuse(DeliveryTimedOut))
            else && tx.reply == Quiet && t.db == s.db
                 && t.redis.payloads == s.redis.payloads[PayloadKey(m, a.recipient) := a.deadline]
                 && t.redis.attempts == s.redis.attempts[m := a.(phase := Sent)]
  {
  }

  /** Reading the status tells sender and recipient how the message stands, and expires it when it is due. */
  lemma StatusAnswers(db: Db, user: UserId, m: MessageId, now: Time)
    ensures var (status, after) := StatusTx(db, user, m, now);
            if m !in db.events || db.events[m].expiresAt <= now || m !in db.deliveries
               || (user != db.events[m].sender && user != db.deliveries[m].recipient)
               || !Inside(db, user, db.events[m].conversation)
            then status == None && after == db
            else
              var d := db.deliveries[m];
              if db.events[m].mode == Ephemeral && d.status == Waiting && d.deadline.Some? && d.deadline.value <= now
              then && status == Some(Expired)
                   && after == db.(deliveries := db.deliveries[m := d.(status := Expired, receivedAt := None)])
              else status == Some(d.status) && after == db
  {
  }
}
