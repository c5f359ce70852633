/** The ephemeral handshake offer - ready - send - new - ack, and the durable delivery row it
    drives (python/chat/messaging.py and delivery_store.py). A transaction is a function from the
    two stores to the database it commits and the successive Redis states its writes leave, so
    that a stop after any Redis write and before the commit can be told from a commit. */
module Messaging {
  import opened Wrappers
  import opened Persistence
  import opened RealtimeRedis

  datatype Timeouts = Timeouts(offer: Time, delivery: Time)

  datatype MessageState = MessageState(event: Event, delivery: Delivery)

  datatype Refusal =
    | NotFound | ConversationShut | VotingInProgress | GraceLimitReached | NotEphemeral | IdConflict
    | OfferTimedOut | OfferUnknown | ForeignConnection | DeliveryTimedOut | StoreUnavailable

  /** The two frames that tell a client how a delivery ended. */
  datatype Notice = DeliveredNotice(receivedAt: Option<Time>) | FailedNotice(reason: Reason)

  datatype Reply = Quiet | Notify(notice: Notice) | Refuse(refusal: Refusal)

  /** `trace` holds the Redis state before the transaction and after each of its writes. */
  datatype Tx = Tx(db: Db, trace: seq<Redis>, reply: Reply)

  function Final(tx: Tx): Redis
    requires tx.trace != []
  {
    tx.trace[|tx.trace| - 1]
  }

  function Idle(db: Db, r: Redis, reply: Reply): Tx {
    Tx(db, [r], reply)
  }

  /** The durable state, while the event is inside its life. */
  function State(db: Db, m: MessageId, now: Time): Option<MessageState> {
    if m in db.events && db.events[m].expiresAt > now && m in db.deliveries
    then Some(MessageState(db.events[m], db.deliveries[m])) else None
  }

  /** Only a waiting row can be finished. */
  function Finish(db: Db, m: MessageId, status: DeliveryStatus, now: Time): Db {
    if m in db.deliveries && db.deliveries[m].status == Waiting
    then db.(deliveries := db.deliveries[m := db.deliveries[m].(
             status := status, receivedAt := if status == Delivered then Some(now) else None)])
    else db
  }

  function SetDeadline(db: Db, m: MessageId, connection: ConnectionId, seconds: Time): Db
    requires m in db.deliveries && m in db.events
  {
    db.(deliveries := db.deliveries[m := db.deliveries[m].(
        connection := Some(connection), deadline := Some(db.events[m].sentAt + seconds))])
  }

  predicate InConversation(db: Db, user: UserId, id: ConversationId) {
    id in db.conversations && Present(db.conversations[id], user)
  }

  function Permitted(db: Db, user: UserId, id: ConversationId, now: Time): Option<Refusal> {
    if !InConversation(db, user, id) then Some(NotFound)
    else
      var c := db.conversations[id];
      if c.status == Closed then Some(ConversationShut)
      else if VoteOpen(c, now) then Some(VotingInProgress)
      else if GraceExhausted(c) then Some(GraceLimitReached)
      else None
  }

  function NewAttempt(c: Conversation, id: ConversationId, sender: UserId, now: Time, k: Timeouts): Attempt {
    Attempt(id, sender, Peer(c, sender), now + k.offer, Offered, None, None, now + RETENTION)
  }

  function OfferTx(db: Db, r: Redis, user: UserId, m: MessageId, id: ConversationId, now: Time, k: Timeouts): Tx {
    match Permitted(db, user, id, now)
    case Some(refusal) => Idle(db, r, Refuse(refusal))
    case None =>
      var c := db.conversations[id];
      if c.mode != Ephemeral then Idle(db, r, Refuse(NotEphemeral))
      else if State(db, m, now).Some? then Idle(db, r, Refuse(IdConflict))
      else if m in r.attempts then
        var a := r.attempts[m];
        if a.sender != user || a.conversation != id then Idle(db, r, Refuse(IdConflict))
        else if a.phase != Offered || a.deadline <= now then Idle(db, r, Refuse(OfferTimedOut))
        else Idle(db, r, Quiet)
      else if !Present(c, Peer(c, user)) then Idle(db, r, Refuse(ConversationShut))
      else Tx(db, [r, Create(r, m, NewAttempt(c, id, user, now, k))], Quiet)
  }

  function ReadyTx(db: Db, r: Redis, user: UserId, connection: ConnectionId, m: MessageId, id: ConversationId,
                   now: Time): Tx {
    match Permitted(db, user, id, now)
    case Some(refusal) => Idle(db, r, Refuse(refusal))
    case None =>
      if m !in r.attempts || r.attempts[m].recipient != user || r.attempts[m].conversation != id
      then Idle(db, r, Refuse(OfferUnknown))
      else
        var a := r.attempts[m];
        if db.conversations[id].mode != Ephemeral || a.deadline <= now
           || (a.phase != Offered && a.phase != ReadyToSend)
           || (a.connection.Some? && a.connection.value != connection)
        then Idle(db, r, Refuse(OfferTimedOut))
        else Tx(db, [r, Save(r, m, a.(phase := ReadyToSend, connection := Some(connection)))], Quiet)
  }

  /** The frame or refusal a sender gets when sending is not permitted. */
  function NotPermitted(refusal: Refusal): Reply {
    if refusal == ConversationShut then Notify(FailedNotice(ConversationWasClosed))
    else if refusal == VotingInProgress then Notify(FailedNotice(VoteIsOpen))
    else Refuse(refusal)
  }

  /** A repeated send answers with the durable state, and with nothing while it is pending. */
  function RepeatReply(db: Db, w: Write, st: MessageState, now: Time): Reply {
    if !Record(db, w, now, now).0.Duplicate? then Refuse(IdConflict)
    else if st.delivery.status == Delivered then Notify(DeliveredNotice(st.delivery.receivedAt))
    else if st.delivery.status == Waiting then Quiet
    else Notify(FailedNotice(DeliveryTimeout))
  }

  /** A send is answered before anything is written, or goes on to be recorded. */
  datatype Plan = Halt(reply: Reply) | Proceed

  function PlanSend(db: Db, r: Redis, connection: ConnectionId, w: Write, now: Time): (plan: Plan)
    ensures plan.Proceed? ==>
              && w.conversation in db.conversations && State(db, w.id, now) == None && connection in r.presence
              && (db.conversations[w.conversation].mode == Stored ==> w.id !in r.attempts)
              && (db.conversations[w.conversation].mode == Ephemeral ==>
                    && w.id in r.attempts
                    && var a := r.attempts[w.id];
                    && a.sender == w.sender && a.conversation == w.conversation
                    && a.phase == ReadyToSend && now < a.deadline && Connected(r, a.connection, a.recipient))
  {
    if !InConversation(db, w.sender, w.conversation) then Halt(Refuse(NotFound))
    else
      var st := State(db, w.id, now);
      if st.Some? then Halt(RepeatReply(db, w, st.value, now))
      else
        var refusal := Permitted(db, w.sender, w.conversation, now);
        var mode, attempt := db.conversations[w.conversation].mode, Get(r, w.id);
        if refusal.Some? then Halt(NotPermitted(refusal.value))
        else if connection !in r.presence then Halt(Refuse(StoreUnavailable))
        else if attempt.Some? && (attempt.value.sender != w.sender || attempt.value.conversation != w.conversation)
        then Halt(Refuse(IdConflict))
        else if attempt.Some? && mode == Stored then Halt(Notify(FailedNotice(TemporaryUnavailable)))
        else if mode == Stored then Proceed
        else if attempt == None || attempt.value.phase != ReadyToSend || attempt.value.deadline <= now
        then Halt(Notify(FailedNotice(OfferTimeout)))
        else if !Connected(r, attempt.value.connection, attempt.value.recipient)
        then Halt(Notify(FailedNotice(RecipientDisconnected)))
        else Proceed
  }

  /** A send goes on to be recorded exactly when it is new, permitted and over a socket that is present, and
      in stored mode meets no attempt, in ephemeral mode its own attempt, ready, in time and connected. */
  lemma PlanProceedsIff(db: Db, r: Redis, connection: ConnectionId, w: Write, now: Time)
    ensures PlanSend(db, r, connection, w, now).Proceed? <==>
              && InConversation(db, w.sender, w.conversation) && State(db, w.id, now) == None
              && Permitted(db, w.sender, w.conversation, now) == None && connection in r.presence
              && if db.conversations[w.conversation].mode == Stored then w.id !in r.attempts
                 else && w.id in r.attempts
                      && var a := r.attempts[w.id];
                      && a.sender == w.sender && a.conversation == w.conversation
                      && a.phase == ReadyToSend && now < a.deadline && Connected(r, a.connection, a.recipient)
  {
  }

  function SendingAttempt(a: Attempt, now: Time, k: Timeouts): Attempt {
    a.(phase := Sending, deadline := now + k.delivery)
  }

  /** What a send does once nothing stops it. */
  function ProceedTx(db: Db, r: Redis, w: Write, now: Time, k: Timeouts): (Tx, Option<Attempt>)
    requires w.id in r.attempts ==> r.attempts[w.id].connection.Some?
  {
    var (outcome, recorded) := Record(db, w, now, now);
    if !outcome.Created? then (Idle(db, r, if outcome.Duplicate? then Quiet else Refuse(IdConflict)), None)
    else if w.id !in r.attempts then (Idle(recorded, r, Quiet), None)
    else
      var sending := SendingAttempt(r.attempts[w.id], now, k);
      (Tx(SetDeadline(recorded, w.id, sending.connection.value, k.delivery), [r, Save(r, w.id, sending)], Quiet),
       Some(sending))
  }

  /** The first transaction of a send; it also hands the attempt on to the second, if there is one. */
  function SendFirstTx(db: Db, r: Redis, connection: ConnectionId, w: Write, now: Time,
                       k: Timeouts): (Tx, Option<Attempt>) {
    match PlanSend(db, r, connection, w, now)
    case Halt(reply) => (Idle(db, r, reply), None)
    case Proceed => ProceedTx(db, r, w, now, k)
  }

  /** How the second transaction of a send ends. */
  datatype Second = Vanished | Settled | PeerGone | TooLate | Publish

  function PlanSecond(db: Db, r: Redis, m: MessageId, a: Attempt, now: Time): Second {
    var st := State(db, m, now);
    if st == None then Vanished
    else if st.value.delivery.status != Waiting then Settled
    else if !Connected(r, a.connection, a.recipient) then PeerGone
    else if a.deadline <= now then TooLate
    else Publish
  }

  function LostAttempt(a: Attempt): Attempt {
    a.(phase := AttemptFailed, failure := Some(RecipientDisconnected))
  }

  /** The second transaction, with the attempt the first one kept in memory. */
  function SendSecondTx(db: Db, r: Redis, m: MessageId, a: Attempt, now: Time): Tx {
    match PlanSecond(db, r, m, a, now)
    case Vanished => Idle(db, r, Refuse(StoreUnavailable))
    case Settled => Idle(db, r, Notify(FailedNotice(DeliveryTimeout)))
    case PeerGone =>
      Tx(Finish(db, m, Failed, now), [r, Save(r, m, LostAttempt(a))], Notify(FailedNotice(RecipientDisconnected)))
    case TooLate => Idle(db, r, Refuse(DeliveryTimedOut))
    case Publish =>
      var loaded := PutPayload(r, m, a);
      Tx(db, [r, loaded, Save(loaded, m, a.(phase := Sent))], Quiet)
  }

  /** Why an acknowledgement is refused, if it is. */
  function AckRefused(db: Db, r: Redis, user: UserId, connection: ConnectionId, m: MessageId, id: ConversationId,
                      now: Time): (refusal: Option<Refusal>)
    ensures refusal == None ==>
              && State(db, m, now).Some?
              && var e, d := db.events[m], db.deliveries[m];
              && d.recipient == user && e.conversation == id && d.status != Failed && d.status != Expired
              && (e.mode == Ephemeral && d.status == Waiting ==>
                    && d.connection == Some(connection) && d.deadline.Some? && now < d.deadline.value
                    && m in r.attempts && HasPayload(r, m, r.attempts[m], now))
  {
    var st := State(db, m, now);
    if !InConversation(db, user, id) then Some(NotFound)
    else if st == None || st.value.event.conversation != id || st.value.delivery.recipient != user then Some(NotFound)
    else
      var e, d := st.value.event, st.value.delivery;
      if d.status == Failed || d.status == Expired then Some(DeliveryTimedOut)
      else if e.mode == Stored || d.status == Delivered then None
      else if d.connection != Some(connection) then Some(ForeignConnection)
      else if m !in r.attempts || d.deadline == None || d.deadline.value <= now || !HasPayload(r, m, r.attempts[m], now)
      then Some(DeliveryTimedOut)
      else None
  }

  /** An acknowledgement is accepted exactly for a live row of its user in its conversation that has not
      failed or expired, and, when that still waits in ephemeral mode, over its socket, in time and with its
      payload readable. */
  lemma AckAcceptedIff(db: Db, r: Redis, user: UserId, connection: ConnectionId, m: MessageId, id: ConversationId,
                       now: Time)
    ensures AckRefused(db, r, user, connection, m, id, now) == None <==>
              && InConversation(db, user, id) && State(db, m, now).Some?
              && var e, d := db.events[m], db.deliveries[m];
              && d.recipient == user && e.conversation == id && d.status != Failed && d.status != Expired
              && (e.mode == Ephemeral && d.status == Waiting ==>
                    && d.connection == Some(connection) && d.deadline.Some? && now < d.deadline.value
                    && m in r.attempts && HasPayload(r, m, r.attempts[m], now))
  {
  }

  function AckTx(db: Db, r: Redis, user: UserId, connection: ConnectionId, m: MessageId, id: ConversationId,
                 now: Time): Tx {
    match AckRefused(db, r, user, connection, m, id, now)
    case Some(refusal) => Idle(db, r, Refuse(refusal))
    case None =>
      var done := Finish(db, m, Delivered, now);
      var notice := Notify(DeliveredNotice(done.deliveries[m].receivedAt));
      if db.events[m].mode == Ephemeral && m in r.attempts
      then Tx(done, [r, Save(r, m, r.attempts[m].(phase := AttemptDelivered))], notice)
      else Idle(done, r, notice)
  }

  /** Reading the status applies a passed deadline without waiting for the reconciler. */
  function StatusTx(db: Db, user: UserId, m: MessageId, now: Time): (Option<DeliveryStatus>, Db) {
    var st := State(db, m, now);
    if st == None || (user != st.value.event.sender && user != st.value.delivery.recipient)
       || !InConversation(db, user, st.value.event.conversation) then (None, db)
    else if st.value.event.mode == Ephemeral && st.value.delivery.status == Waiting
            && st.value.delivery.deadline.Some? && st.value.delivery.deadline.value <= now
    then (Some(Expired), Finish(db, m, Expired, now))
    else (Some(st.value.delivery.status), db)
  }

  /** The services over one database and one Redis server, at clock readings given by the caller. */
  class Messenger {
    const database: Database
    const redis: RedisServer
    const timeouts: Timeouts

    constructor (database: Database, redis: RedisServer, timeouts: Timeouts)
      ensures this.database == database && this.redis == redis && this.timeouts == timeouts
    {
      this.database, this.redis, this.timeouts := database, redis, timeouts;
    }

    /** DeliveryStore.finish. */
    method FinishDelivery(m: MessageId, status: DeliveryStatus, now: Time)
      modifies database
      ensures database.View() == Finish(old(database.View()), m, status, now)
    {
      if m in database.deliveries {
        var d := database.deliveries[m];
        if d.status == Waiting {
          d := d.(status := status);
          d := d.(receivedAt := if status == Delivered then Some(now) else None);
          database.deliveries := database.deliveries[m := d];
        }
      }
    }

    /** DeliveryStore.state. */
    method ReadState(m: MessageId, now: Time) returns (st: Option<MessageState>)
      ensures st == State(database.View(), m, now)
    {
      if m !in database.events || m !in database.deliveries {
        return None;
      }
      if database.events[m].expiresAt <= now {
        return None;
      }
      return Some(MessageState(database.events[m], database.deliveries[m]));
    }

    method CheckPermitted(user: UserId, id: ConversationId, now: Time) returns (refusal: Option<Refusal>)
      ensures refusal == Permitted(database.View(), user, id, now)
    {
      if id !in database.conversations {
        return Some(NotFound);
      }
      var c := database.conversations[id];
      if !Present(c, user) {
        return Some(NotFound);
      }
      if c.status == Closed {
        return Some(ConversationShut);
      }
      if VoteOpen(c, now) {
        return Some(VotingInProgress);
      }
      if c.status == Pending && c.graceUsed >= Min(GRACE_CEILING, c.graceLimit) {
        return Some(GraceLimitReached);
      }
      return None;
    }

    method Offer(user: UserId, m: MessageId, id: ConversationId, now: Time) returns (reply: Reply)
      modifies redis
      ensures var tx := OfferTx(database.View(), old(redis.View()), user, m, id, now, timeouts);
              tx.trace != [] && redis.View() == Final(tx) && reply == tx.reply && tx.db == database.View()
    {
      var refusal := CheckPermitted(user, id, now);
      if refusal.Some? {
        return Refuse(refusal.value);
      }
      var c := database.conversations[id];
      if c.mode != Ephemeral {
        return Refuse(NotEphemeral);
      }
      var existing := ReadState(m, now);
      if existing.Some? {
        return Refuse(IdConflict);
      }
      if m in redis.attempts {
        var a := redis.attempts[m];
        if a.sender != user || a.conversation != id {
          return Refuse(IdConflict);
        }
        if a.phase != Offered || a.deadline <= now {
          return Refuse(OfferTimedOut);
        }
        return Quiet;
      }
      if !Present(c, Peer(c, user)) {
        return Refuse(ConversationShut);
      }
      var attempt := Attempt(id, user, Peer(c, user), now + timeouts.offer, Offered, None, None, now + RETENTION);
      var ok := redis.CreateAttempt(m, attempt);
      return Quiet;
    }

    method Ready(user: UserId, connection: ConnectionId, m: MessageId, id: ConversationId, now: Time)
      returns (reply: Reply)
      modifies redis
      ensures var tx := ReadyTx(database.View(), old(redis.View()), user, connection, m, id, now);
              tx.trace != [] && redis.View() == Final(tx) && reply == tx.reply && tx.db == database.View()
    {
      var refusal := CheckPermitted(user, id, now);
      if refusal.Some? {
        return Refuse(refusal.value);
      }
      if m !in redis.attempts {
        return Refuse(OfferUnknown);
      }
      var attempt := redis.attempts[m];
      if attempt.recipient != user || attempt.conversation != id {
        return Refuse(OfferUnknown);
      }
      if database.conversations[id].mode != Ephemeral || attempt.deadline <= now {
        return Refuse(OfferTimedOut);
      }
      if attempt.phase != Offered && attempt.phase != ReadyToSend {
        return Refuse(OfferTimedOut);
      }
      if attempt.connection.Some? && attempt.connection.value != connection {
        return Refuse(OfferTimedOut);
      }
      attempt := attempt.(phase := ReadyToSend);
      attempt := attempt.(connection := Some(connection));
      redis.SaveAttempt(m, attempt);
      return Quiet;
    }

    /** The branch of send for a message that is already known. */
    method AnswerRepeat(w: Write, existing: MessageState, now: Time) returns (reply: Reply)
      requires w.conversation in database.View().conversations
      requires State(database.View(), w.id, now) == Some(existing)
      modifies database
      ensures database.View() == old(database.View())
      ensures reply == RepeatReply(old(database.View()), w, existing, now)
    {
      var outcome := database.RecordMessage(w, now, now);
      if !outcome.Duplicate? {
        return Refuse(IdConflict);
      }
      if existing.delivery.status == Delivered {
        return Notify(DeliveredNotice(existing.delivery.receivedAt));
      }
      if existing.delivery.status == Failed || existing.delivery.status == Expired {
        return Notify(FailedNotice(DeliveryTimeout));
      }
      return Quiet;
    }

    method SendFirst(connection: ConnectionId, w: Write, now: Time)
      returns (reply: Reply, kept: Option<Attempt>)
      modifies database, redis
      ensures var (tx, attempt) := SendFirstTx(old(database.View()), old(redis.View()), connection, w, now, timeouts);
              tx.trace != [] && database.View() == tx.db && redis.View() == Final(tx) && reply == tx.reply
                && kept == attempt
    {
      kept := None;
      if w.conversation !in database.conversations || !Present(database.conversations[w.conversation], w.sender) {
        return Refuse(NotFound), None;
      }
      var existing := ReadState(w.id, now);
      if existing.Some? {
        reply := AnswerRepeat(w, existing.value, now);
        return reply, None;
      }
      var refusal := CheckPermitted(w.sender, w.conversation, now);
      if refusal.Some? {
        return NotPermitted(refusal.value), None;
      }
      var mode := database.conversations[w.conversation].mode;
      if connection !in redis.presence {
        return Refuse(StoreUnavailable), None;
      }
      var attempt := if w.id in redis.attempts then Some(redis.attempts[w.id]) else None;
      if attempt.Some? && (attempt.value.sender != w.sender || attempt.value.conversation != w.conversation) {
        return Refuse(IdConflict), None;
      }
      if attempt.Some? && mode == Stored {
        return Notify(FailedNotice(TemporaryUnavailable)), None;
      }
      if mode == Ephemeral {
        if attempt == None || attempt.value.phase != ReadyToSend || attempt.value.deadline <= now {
          return Notify(FailedNotice(OfferTimeout)), None;
        }
        if !redis.IsConnected(attempt.value.connection, attempt.value.recipient) {
          return Notify(FailedNotice(RecipientDisconnected)), None;
        }
      }
      reply, kept := RecordSend(w, attempt, now);
    }

    /** The rest of the first transaction: record, deadline, and the attempt on its way. */
    method RecordSend(w: Write, attempt: Option<Attempt>, now: Time) returns (reply: Reply, kept: Option<Attempt>)
      requires attempt == Get(redis.View(), w.id)
      requires attempt.Some? ==> attempt.value.connection.Some?
      modifies database, redis
      ensures var (tx, sending) := ProceedTx(old(database.View()), old(redis.View()), w, now, timeouts);
              tx.trace != [] && database.View() == tx.db && redis.View() == Final(tx) && reply == tx.reply
                && kept == sending
    {
      kept := None;
      var outcome := database.RecordMessage(w, now, now);
      if !outcome.Created? {
        return if outcome.Duplicate? then Quiet else Refuse(IdConflict), None;
      }
      if attempt.Some? {
        var d := database.deliveries[w.id];
        d := d.(connection := Some(attempt.value.connection.value));
        d := d.(deadline := Some(outcome.event.sentAt + timeouts.delivery));
        database.deliveries := database.deliveries[w.id := d];
        var sending := attempt.value.(phase := Sending);
        sending := sending.(deadline := outcome.event.sentAt + timeouts.delivery);
        redis.SaveAttempt(w.id, sending);
        kept := Some(sending);
      }
      return Quiet, kept;
    }

    method SendSecond(m: MessageId, attempt: Attempt, now: Time) returns (reply: Reply)
      modifies database, redis
      ensures var tx := SendSecondTx(old(database.View()), old(redis.View()), m, attempt, now);
              tx.trace != [] && database.View() == tx.db && redis.View() == Final(tx) && reply == tx.reply
    {
      var state := ReadState(m, now);
      if state == None {
        return Refuse(StoreUnavailable);
      }
      if state.value.delivery.status != Waiting {
        return Notify(FailedNotice(DeliveryTimeout));
      }
      if !redis.IsConnected(attempt.connection, attempt.recipient) {
        FinishDelivery(m, Failed, now);
        redis.SaveAttempt(m, attempt.(phase := AttemptFailed, failure := Some(RecipientDisconnected)));
        return Notify(FailedNotice(RecipientDisconnected));
      }
      var written := redis.WritePayload(m, attempt, now);
      if !written {
        return Refuse(DeliveryTimedOut);
      }
      redis.SaveAttempt(m, attempt.(phase := Sent));
      return Quiet;
    }

    method Ack(user: UserId, connection: ConnectionId, m: MessageId, id: ConversationId, now: Time)
      returns (reply: Reply)
      modifies database, redis
      ensures var tx := AckTx(old(database.View()), old(redis.View()), user, connection, m, id, now);
              tx.trace != [] && database.View() == tx.db && redis.View() == Final(tx) && reply == tx.reply
    {
      if id !in database.conversations || !Present(database.conversations[id], user) {
        return Refuse(NotFound);
      }
      var state := ReadState(m, now);
      if state == None || state.value.event.conversation != id || state.value.delivery.recipient != user {
        return Refuse(NotFound);
      }
      var event, delivery := state.value.event, state.value.delivery;
      if delivery.status == Failed || delivery.status == Expired {
        return Refuse(DeliveryTimedOut);
      }
      var attempt := None;
      if event.mode == Ephemeral && m in redis.attempts {
        attempt := Some(redis.attempts[m]);
      }
      if event.mode == Ephemeral && delivery.status == Waiting {
        if delivery.connection != Some(connection) {
          return Refuse(ForeignConnection);
        }
        if attempt == None || delivery.deadline == None || delivery.deadline.value <= now
           || !redis.PayloadPresent(m, attempt.value, now) {
          return Refuse(DeliveryTimedOut);
        }
      }
      FinishDelivery(m, Delivered, now);
      if attempt.Some? {
        redis.SaveAttempt(m, attempt.value.(phase := AttemptDelivered));
      }
      return Notify(DeliveredNotice(database.deliveries[m].receivedAt));
    }

    method ReadStatus(user: UserId, m: MessageId, now: Time) returns (status: Option<DeliveryStatus>)
      modifies database
      ensures (status, database.View()) == StatusTx(old(database.View()), user, m, now)
    {
      var state := ReadState(m, now);
      if state == None || (user != state.value.event.sender && user != state.value.delivery.recipient) {
        return None;
      }
      var id := state.value.event.conversation;
      if id !in database.conversations || !Present(database.conversations[id], user) {
        return None;
      }
      var delivery := state.value.delivery;
      if state.value.event.mode == Ephemeral && delivery.status == Waiting && delivery.deadline.Some?
         && delivery.deadline.value <= now {
        FinishDelivery(m, Expired, now);
      }
      return Some(database.deliveries[m].status);
    }
  }
}
