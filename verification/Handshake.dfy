/** The two stores as one step system: every transaction of the handshake and of the reconciler,
    a stop after any of its Redis writes, lost presence, a full Redis loss, expiry, conversation
    changes and the purge, in any order. The invariant here holds in every reachable state. */
module Handshake {
  import opened Wrappers
  import opened Persistence
  import Voting
  import VotingRuns
  import opened RealtimeRedis
  import opened Messaging
  import opened Reconciliation

  datatype Label =
    | Tick(to: Time)
    | Connect(user: UserId, connection: ConnectionId)
    | Vanish(connection: ConnectionId)
    | Flush
    | Forget(message: MessageId)
    | Discard(index: Filter, message: MessageId)
    | Offer(user: UserId, connection: ConnectionId, message: MessageId, id: ConversationId)
    | Ready(user: UserId, connection: ConnectionId, message: MessageId, id: ConversationId)
    | SendFirst(connection: ConnectionId, write: Write)
    | SendSecond(message: MessageId)
    | Abandon(message: MessageId)
    | Ack(user: UserId, connection: ConnectionId, message: MessageId, id: ConversationId)
    | ReadStatus(user: UserId, message: MessageId)
    | RepairAttempt(message: MessageId, disconnected: Option<ConnectionId>)
    | RepairRow(message: MessageId, disconnected: Option<ConnectionId>)
    | Admin(request: VotingRuns.Request)
    | Purge
    | Crash(of: Label, writes: nat)

  /** `user` answered ready for `message` over `connection`. */
  datatype ReadyFact = ReadyFact(message: MessageId, user: UserId, connection: ConnectionId)

  datatype OfferFact = OfferFact(message: MessageId, connection: ConnectionId)

  /** An outcome notice and the time it was committed. */
  datatype Told = Told(notice: Notice, at: Time)

  /** Besides the stores and the clock: who owns each socket ever opened, the attempts that suspended
      sends keep in memory, and three records of the past that no transaction reads: the outcome
      notices about each row, the ready answers, and until when an offer is retained. */
  datatype Sys = Sys(
    db: Db, redis: Redis, now: Time, owners: map<ConnectionId, UserId>, inflight: map<MessageId, Attempt>,
    notices: map<MessageId, set<Told>>, readied: set<ReadyFact>, offered: map<OfferFact, Time>)

  const START := Sys(VotingRuns.EMPTY, LOST, 0, map[], map[], map[], {}, map[])

  predicate Valid(k: Timeouts) {
    0 < k.offer && 0 < k.delivery <= EVENT_LIFE
  }

  predicate Owns(s: Sys, user: UserId, connection: ConnectionId) {
    connection in s.owners && s.owners[connection] == user
  }

  predicate Instant(r: VotingRuns.Request, now: Time) {
    match r
    case Redeem(_, _, _, _, _, at) => at == now
    case ChangeIt(_, _, _, at) => at == now
    case AccessIt(_, _, _, _, clock) => clock == Voting.Clock(now, now, now)
    case Visit(_, _, at) => at == now
    case _ => false
  }

  predicate IsTransaction(l: Label) {
    l.Offer? || l.Ready? || l.SendFirst? || l.SendSecond? || l.Ack? || l.RepairAttempt? || l.RepairRow?
  }

  /** What the environment guarantees before a step: fresh sockets that keep their owner, retention
      before an attempt expires, and no purge under a send that is still suspended. An index loses a member
      when a read finds its attempt gone, or when the whole sorted set expires, which outlasts every
      attempt that belongs there. */
  predicate Guard(s: Sys, l: Label) {
    match l
    case Tick(to) => to >= s.now
    case Connect(_, c) => c !in s.owners
    case Forget(m) => m in s.redis.attempts && s.now >= s.redis.attempts[m].retainUntil
    case Discard(f, m) => m in s.redis.attempts ==> !Selects(f, s.redis.attempts[m])
    case Offer(u, c, _, _) => Owns(s, u, c)
    case Ready(u, c, _, _) => Owns(s, u, c)
    case SendFirst(c, w) => Owns(s, w.sender, c)
    case SendSecond(m) => m in s.inflight
    case Abandon(m) => m in s.inflight
    case Ack(u, c, _, _) => Owns(s, u, c)
    case RepairRow(m, _) => m in s.db.events && s.db.events[m].mode == Ephemeral
    case Admin(r) => Instant(r, s.now)
    case Purge => forall m :: m in s.inflight && m in s.db.events ==> s.db.events[m].expiresAt > s.now
    case Crash(of, writes) => IsTransaction(of) && Guard(s, of)
    case _ => true
  }

  function TxOf(s: Sys, l: Label, k: Timeouts): (tx: Tx)
    requires IsTransaction(l) && Guard(s, l)
    ensures tx.trace != [] && tx.trace[0] == s.redis
  {
    match l
    case Offer(u, _, m, id) => OfferTx(s.db, s.redis, u, m, id, s.now, k)
    case Ready(u, c, m, id) => ReadyTx(s.db, s.redis, u, c, m, id, s.now)
    case SendFirst(c, w) => SendFirstTx(s.db, s.redis, c, w, s.now, k).0
    case SendSecond(m) => SendSecondTx(s.db, s.redis, m, s.inflight[m], s.now)
    case Ack(u, c, m, id) => AckTx(s.db, s.redis, u, c, m, id, s.now)
    case RepairAttempt(m, d) => AttemptTx(s.db, s.redis, m, d, s.now)
    case RepairRow(m, d) => RowTx(s.db, s.redis, m, d, s.now)
  }

  function MessageOf(l: Label): MessageId
    requires IsTransaction(l)
  {
    if l.SendFirst? then l.write.id else l.message
  }

  function Logged(s: Sys, m: MessageId): set<Told> {
    if m in s.notices then s.notices[m] else {}
  }

  function Max(a: Time, b: Time): Time { if a >= b then a else b }

  /** The bookkeeping of an offer: it is retained as long as the attempt it finds or makes. */
  function Remember(offered: map<OfferFact, Time>, l: Label, r: Redis): map<OfferFact, Time> {
    if !l.Offer? || l.message !in r.attempts then offered
    else
      var f, until := OfferFact(l.message, l.connection), r.attempts[l.message].retainUntil;
      offered[f := if f in offered then Max(offered[f], until) else until]
  }

  /** An accepted ready answer, that is, one that goes on to save the attempt. */
  predicate AcceptsReady(s: Sys, l: Label) {
    l.Ready? && |ReadyTx(s.db, s.redis, l.user, l.connection, l.message, l.id, s.now).trace| == 2
  }

  function Readied(s: Sys, l: Label): set<ReadyFact> {
    if AcceptsReady(s, l) then s.readied + {ReadyFact(l.message, l.user, l.connection)} else s.readied
  }

  function Suspended(s: Sys, l: Label, k: Timeouts): map<MessageId, Attempt>
    requires IsTransaction(l) && Guard(s, l)
  {
    match l
    case SendFirst(c, w) =>
      var kept := SendFirstTx(s.db, s.redis, c, w, s.now, k).1;
      if kept.Some? then s.inflight[w.id := kept.value] else s.inflight
    case SendSecond(m) => s.inflight - {m}
    case _ => s.inflight
  }

  /** Every notice about a message that has a row is logged; a new row starts with none. */
  function Notices(s: Sys, m: MessageId, tx: Tx): map<MessageId, set<Told>> {
    if m !in s.db.events && m in tx.db.events then s.notices[m := {}]
    else if tx.reply.Notify? && m in s.db.deliveries then s.notices[m := Logged(s, m) + {Told(tx.reply.notice, s.now)}]
    else s.notices
  }

  function Commit(s: Sys, l: Label, k: Timeouts): Sys
    requires IsTransaction(l) && Guard(s, l)
  {
    var tx := TxOf(s, l, k);
    s.(db := tx.db, redis := Final(tx), inflight := Suspended(s, l, k), notices := Notices(s, MessageOf(l), tx),
       readied := Readied(s, l), offered := Remember(s.offered, l, Final(tx)))
  }

  /** The process stops after so many Redis writes: they stay, nothing commits, and nobody is told. A ready
      answer counts once its attempt is saved. */
  function Stop(s: Sys, l: Label, writes: nat, k: Timeouts): Sys
    requires IsTransaction(l) && Guard(s, l)
  {
    var trace := TxOf(s, l, k).trace;
    var r := if writes < |trace| then trace[writes] else trace[|trace| - 1];
    s.(redis := r, inflight := if l.SendSecond? then s.inflight - {l.message} else s.inflight,
       readied := if writes >= 1 then Readied(s, l) else s.readied, offered := Remember(s.offered, l, r))
  }

  function Step(s: Sys, l: Label, k: Timeouts): Sys {
    if !Guard(s, l) then s
    else if IsTransaction(l) then Commit(s, l, k)
    else
      match l
      case Tick(to) => s.(now := to)
      case Connect(u, c) => s.(owners := s.owners[c := u], redis := s.redis.(presence := s.redis.presence[c := u]))
      case Vanish(c) => s.(redis := s.redis.(presence := s.redis.presence - {c}))
      case Flush => s.(redis := LOST)
      case Forget(m) => s.(redis := s.redis.(attempts := s.redis.attempts - {m}))
      case Discard(f, m) => s.(redis := DropEntry(s.redis, f, m))
      case Abandon(m) => s.(inflight := s.inflight - {m})
      case ReadStatus(u, m) => s.(db := StatusTx(s.db, u, m, s.now).1)
      case Admin(r) => s.(db := VotingRuns.Perform(s.db, r).1)
      case Purge => s.(db := Cleanup(s.db, s.now))
      case Crash(of, writes) => Stop(s, of, writes, k)
  }

  function Exec(ls: seq<Label>, k: Timeouts): Sys {
    if ls == [] then START else Step(Exec(ls[..|ls| - 1], k), ls[|ls| - 1], k)
  }

  // ---- The invariant ----------------------------------------------------------------

  /** The attempt and the committed row describe the same delivery. */
  predicate Matches(e: Event, d: Delivery, a: Attempt) {
    && e.mode == Ephemeral && e.conversation == a.conversation && e.sender == a.sender
    && d.deadline == Some(a.deadline) && d.connection == a.connection && d.recipient == a.recipient
  }

  predicate Durable(db: Db, m: MessageId, now: Time) {
    State(db, m, now).Some?
  }

  predicate PairOk(db: Db, id: ConversationId, sender: UserId, recipient: UserId) {
    && id in db.conversations && Voting.Member(db.conversations[id], sender)
    && recipient == Peer(db.conversations[id], sender)
  }

  predicate AnsweredReady(readied: set<ReadyFact>, m: MessageId, recipient: UserId, connection: Option<ConnectionId>) {
    connection.Some? ==> ReadyFact(m, recipient, connection.value) in readied
  }

  ghost predicate AttemptOk(db: Db, now: Time, readied: set<ReadyFact>, m: MessageId, a: Attempt) {
    && PairOk(db, a.conversation, a.sender, a.recipient)
    && AnsweredReady(readied, m, a.recipient, a.connection)
    && (Durable(db, m, now) ==> Matches(db.events[m], db.deliveries[m], a))
  }

  ghost predicate RowOk(db: Db, now: Time, readied: set<ReadyFact>, k: Timeouts, m: MessageId)
    requires m in db.events && m in db.deliveries
  {
    var e, d := db.events[m], db.deliveries[m];
    && PairOk(db, e.conversation, e.sender, d.recipient)
    && e.sentAt <= now && e.expiresAt == e.sentAt + EVENT_LIFE
    && AnsweredReady(readied, m, d.recipient, d.connection)
    && (e.mode == Ephemeral ==> d.deadline == Some(e.sentAt + k.delivery) && d.connection.Some?)
    && (e.mode == Stored ==> d.deadline == None && d.connection == None && d.status != Failed && d.status != Expired)
    && (d.status == Delivered <==> d.receivedAt.Some?)
  }

  ghost predicate InflightOk(db: Db, now: Time, attempts: map<MessageId, Attempt>, m: MessageId, a: Attempt) {
    && m in db.events && m in db.deliveries && Matches(db.events[m], db.deliveries[m], a)
    && a.connection.Some? && db.deliveries[m].status != Delivered
    && (m in attempts && Durable(db, m, now) ==> attempts[m].retainUntil == a.retainUntil)
  }

  /** A readable payload belongs to a waiting committed row whose deadline has not passed. */
  ghost predicate PayloadOk(db: Db, now: Time, inflight: map<MessageId, Attempt>, p: PayloadKey, until: Time) {
    now < until ==>
      && p.message in db.events && p.message in db.deliveries && p.message !in inflight
      && var d := db.deliveries[p.message];
      && db.events[p.message].mode == Ephemeral && d.status == Waiting && d.recipient == p.recipient
      && d.deadline.Some? && until <= d.deadline.value
  }

  predicate NoticeAgrees(n: Notice, d: Delivery) {
    match n
    case DeliveredNotice(at) => d.status == Delivered && d.receivedAt == at
    case FailedNotice(_) => d.status == Failed || d.status == Expired
  }

  ghost predicate OfferOk(now: Time, presence: map<ConnectionId, UserId>, attempts: map<MessageId, Attempt>,
                          f: OfferFact, until: Time) {
    now < until && f.connection in presence ==>
      f.message in attempts && attempts[f.message].retainUntil >= until
  }

  ghost predicate RowsOk(db: Db, now: Time, readied: set<ReadyFact>, k: Timeouts) {
    && db.deliveries.Keys == db.events.Keys
    && (forall m :: m in db.events ==> RowOk(db, now, readied, k, m))
    && (forall m :: m in db.messages ==> m in db.events && db.events[m].mode == Stored)
  }

  ghost predicate AttemptsOk(db: Db, now: Time, readied: set<ReadyFact>, attempts: map<MessageId, Attempt>) {
    forall m :: m in attempts ==> AttemptOk(db, now, readied, m, attempts[m])
  }

  ghost predicate InflightsOk(db: Db, now: Time, attempts: map<MessageId, Attempt>, inflight: map<MessageId, Attempt>) {
    forall m :: m in inflight ==> InflightOk(db, now, attempts, m, inflight[m])
  }

  ghost predicate PayloadsOk(db: Db, now: Time, inflight: map<MessageId, Attempt>, payloads: map<PayloadKey, Time>) {
    forall p :: p in payloads ==> PayloadOk(db, now, inflight, p, payloads[p])
  }

  /** What a client was told while the event lived agrees with the row; later it was told of a failure. */
  predicate ToldOk(e: Event, d: Delivery, now: Time, x: Told) {
    x.at <= now && if x.at < e.expiresAt then NoticeAgrees(x.notice, d) else x.notice.FailedNotice?
  }

  ghost predicate NoticesOk(db: Db, now: Time, notices: map<MessageId, set<Told>>) {
    forall m, x :: m in db.deliveries && m in db.events && m in notices && x in notices[m] ==>
                     ToldOk(db.events[m], db.deliveries[m], now, x)
  }

  ghost predicate OffersOk(now: Time, owners: map<ConnectionId, UserId>, presence: map<ConnectionId, UserId>,
                           attempts: map<MessageId, Attempt>, offered: map<OfferFact, Time>) {
    && (forall c :: c in presence ==> c in owners && owners[c] == presence[c])
    && (forall f :: f in offered ==> f.connection in owners && OfferOk(now, presence, attempts, f, offered[f]))
  }

  ghost predicate Inv(s: Sys, k: Timeouts) {
    && RowsOk(s.db, s.now, s.readied, k)
    && AttemptsOk(s.db, s.now, s.readied, s.redis.attempts)
    && InflightsOk(s.db, s.now, s.redis.attempts, s.inflight)
    && PayloadsOk(s.db, s.now, s.inflight, s.redis.payloads)
    && NoticesOk(s.db, s.now, s.notices)
    && OffersOk(s.now, s.owners, s.redis.presence, s.redis.attempts, s.offered)
  }

  /** No payload of `m` can be read. */
  ghost predicate Unreadable(s: Sys, m: MessageId) {
    forall u :: PayloadKey(m, u) in s.redis.payloads ==> s.redis.payloads[PayloadKey(m, u)] <= s.now
  }

  // ---- Elementary changes -----------------------------------------------------------

  lemma SetAttempt(db: Db, now: Time, readied: set<ReadyFact>, attempts: map<MessageId, Attempt>, m: MessageId,
                   a: Attempt)
    requires AttemptsOk(db, now, readied, attempts) && AttemptOk(db, now, readied, m, a)
    ensures AttemptsOk(db, now, readied, attempts[m := a])
  {
  }

  lemma SetAttemptInflight(db: Db, now: Time, attempts: map<MessageId, Attempt>, inflight: map<MessageId, Attempt>,
                           m: MessageId, a: Attempt)
    requires InflightsOk(db, now, attempts, inflight)
    requires m in inflight && Durable(db, m, now) ==> a.retainUntil == inflight[m].retainUntil
    ensures InflightsOk(db, now, attempts[m := a], inflight)
  {
    forall x | x in inflight ensures InflightOk(db, now, attempts[m := a], x, inflight[x]) {
      assert InflightOk(db, now, attempts, x, inflight[x]);
    }
  }

  lemma SetAttemptOffers(now: Time, owners: map<ConnectionId, UserId>, presence: map<ConnectionId, UserId>,
                         attempts: map<MessageId, Attempt>, offered: map<OfferFact, Time>, m: MessageId, a: Attempt)
    requires OffersOk(now, owners, presence, attempts, offered)
    requires m in attempts ==> a.retainUntil == attempts[m].retainUntil
    ensures OffersOk(now, owners, presence, attempts[m := a], offered)
  {
    forall f | f in offered ensures OfferOk(now, presence, attempts[m := a], f, offered[f]) {
      assert OfferOk(now, presence, attempts, f, offered[f]);
    }
  }

  lemma FewerPayloads(db: Db, now: Time, inflight: map<MessageId, Attempt>, payloads: map<PayloadKey, Time>,
                      gone: set<PayloadKey>)
    requires PayloadsOk(db, now, inflight, payloads)
    ensures PayloadsOk(db, now, inflight, payloads - gone)
  {
    forall p | p in payloads - gone ensures PayloadOk(db, now, inflight, p, (payloads - gone)[p]) {
      assert PayloadOk(db, now, inflight, p, payloads[p]);
    }
  }

  /** Saving an attempt that stays what it was, or that a suspended send kept, is safe. */
  lemma SaveKeeps(s: Sys, k: Timeouts, m: MessageId, a: Attempt)
    requires Inv(s, k) && AttemptOk(s.db, s.now, s.readied, m, a)
    requires m in s.redis.attempts ==> a.retainUntil == s.redis.attempts[m].retainUntil
    requires m in s.inflight && Durable(s.db, m, s.now) ==> a.retainUntil == s.inflight[m].retainUntil
    ensures Inv(s.(redis := Save(s.redis, m, a)), k)
  {
    SetAttempt(s.db, s.now, s.readied, s.redis.attempts, m, a);
    SetAttemptInflight(s.db, s.now, s.redis.attempts, s.inflight, m, a);
    SetAttemptOffers(s.now, s.owners, s.redis.presence, s.redis.attempts, s.offered, m, a);
    FewerPayloads(s.db, s.now, s.inflight, s.redis.payloads, {PayloadKey(m, a.recipient)});
  }

  /** After a terminal save no payload of a durable message is left to read. */
  lemma SaveDropsPayload(s: Sys, k: Timeouts, m: MessageId, a: Attempt)
    requires Inv(s, k) && Terminal(a.phase) && m in s.db.deliveries && s.db.deliveries[m].recipient == a.recipient
    ensures Unreadable(s.(redis := Save(s.redis, m, a)), m)
  {
    forall u | PayloadKey(m, u) in Save(s.redis, m, a).payloads
      ensures Save(s.redis, m, a).payloads[PayloadKey(m, u)] <= s.now
    {
      assert PayloadOk(s.db, s.now, s.inflight, PayloadKey(m, u), s.redis.payloads[PayloadKey(m, u)]);
    }
  }

  lemma DropKeeps(s: Sys, k: Timeouts, m: MessageId)
    requires Inv(s, k) && m in s.db.deliveries
    ensures var t := s.(redis := DropPayload(s.redis, m, s.db.deliveries[m].recipient)); Inv(t, k) && Unreadable(t, m)
  {
    var r := DropPayload(s.redis, m, s.db.deliveries[m].recipient);
    forall p | p in r.payloads ensures PayloadOk(s.db, s.now, s.inflight, p, r.payloads[p]) {
      assert PayloadOk(s.db, s.now, s.inflight, p, s.redis.payloads[p]);
    }
    forall u | PayloadKey(m, u) in r.payloads ensures r.payloads[PayloadKey(m, u)] <= s.now {
      assert PayloadOk(s.db, s.now, s.inflight, PayloadKey(m, u), s.redis.payloads[PayloadKey(m, u)]);
    }
  }

  lemma FinishRows(db: Db, now: Time, readied: set<ReadyFact>, k: Timeouts, m: MessageId, status: DeliveryStatus)
    requires RowsOk(db, now, readied, k) && m in db.events && status != Waiting
    requires db.events[m].mode == Stored ==> status == Delivered
    ensures RowsOk(Finish(db, m, status, now), now, readied, k)
  {
    var after := Finish(db, m, status, now);
    forall x | x in after.events ensures RowOk(after, now, readied, k, x) {
      assert RowOk(db, now, readied, k, x);
    }
  }

  lemma FinishAttempts(db: Db, now: Time, readied: set<ReadyFact>, attempts: map<MessageId, Attempt>, m: MessageId,
                       status: DeliveryStatus)
    requires AttemptsOk(db, now, readied, attempts)
    ensures AttemptsOk(Finish(db, m, status, now), now, readied, attempts)
  {
    var after := Finish(db, m, status, now);
    forall x | x in attempts ensures AttemptOk(after, now, readied, x, attempts[x]) {
      assert AttemptOk(db, now, readied, x, attempts[x]);
    }
  }

  lemma FinishInflight(db: Db, now: Time, attempts: map<MessageId, Attempt>, inflight: map<MessageId, Attempt>,
                       m: MessageId, status: DeliveryStatus)
    requires InflightsOk(db, now, attempts, inflight) && (status == Delivered ==> m !in inflight)
    ensures InflightsOk(Finish(db, m, status, now), now, attempts, inflight)
  {
    var after := Finish(db, m, status, now);
    forall x | x in inflight ensures InflightOk(after, now, attempts, x, inflight[x]) {
      assert InflightOk(db, now, attempts, x, inflight[x]);
    }
  }

  lemma FinishPayloads(s: Sys, m: MessageId, status: DeliveryStatus)
    requires PayloadsOk(s.db, s.now, s.inflight, s.redis.payloads) && Unreadable(s, m)
    ensures PayloadsOk(Finish(s.db, m, status, s.now), s.now, s.inflight, s.redis.payloads)
  {
    var after := Finish(s.db, m, status, s.now);
    forall p | p in s.redis.payloads ensures PayloadOk(after, s.now, s.inflight, p, s.redis.payloads[p]) {
      assert PayloadOk(s.db, s.now, s.inflight, p, s.redis.payloads[p]);
      assert p == PayloadKey(p.message, p.recipient);
    }
  }

  lemma FinishNotices(db: Db, now: Time, notices: map<MessageId, set<Told>>, m: MessageId, status: DeliveryStatus)
    requires NoticesOk(db, now, notices)
    ensures NoticesOk(Finish(db, m, status, now), now, notices)
  {
    var after := Finish(db, m, status, now);
    forall y, x | y in after.deliveries && y in after.events && y in notices && x in notices[y]
      ensures ToldOk(after.events[y], after.deliveries[y], now, x)
    {
      assert ToldOk(db.events[y], db.deliveries[y], now, x);
    }
  }

  /** Finishing a waiting row is safe once its payload is gone; delivering needs the send to be over. */
  lemma FinishKeeps(s: Sys, k: Timeouts, m: MessageId, status: DeliveryStatus)
    requires Inv(s, k) && m in s.db.events && status != Waiting && Unreadable(s, m)
    requires status == Delivered ==> m !in s.inflight
    requires s.db.events[m].mode == Stored ==> status == Delivered
    ensures Inv(s.(db := Finish(s.db, m, status, s.now)), k)
  {
    FinishRows(s.db, s.now, s.readied, k, m, status);
    FinishAttempts(s.db, s.now, s.readied, s.redis.attempts, m, status);
    FinishInflight(s.db, s.now, s.redis.attempts, s.inflight, m, status);
    FinishPayloads(s, m, status);
    FinishNotices(s.db, s.now, s.notices, m, status);
  }

  /** A notice that agrees with the row, or that comes late and tells of a failure, may be added. */
  lemma NoticeKeeps(s: Sys, k: Timeouts, m: MessageId, n: Notice)
    requires Inv(s, k) && m in s.db.deliveries && m in s.db.events
    requires ToldOk(s.db.events[m], s.db.deliveries[m], s.now, Told(n, s.now))
    ensures Inv(s.(notices := s.notices[m := Logged(s, m) + {Told(n, s.now)}]), k)
  {
  }

  // ---- Redis writes -----------------------------------------------------------------

  /** What a transaction does to the rest of the system before its first Redis write. */
  function Prepared(s: Sys, l: Label): Sys {
    s.(readied := Readied(s, l), inflight := if l.SendSecond? then s.inflight - {l.message} else s.inflight)
  }

  /** Every Redis state a transaction passes through is a good one, with nothing committed. */
  ghost predicate TraceOk(s: Sys, k: Timeouts, trace: seq<Redis>) {
    forall i :: 0 <= i < |trace| ==> Inv(s.(redis := trace[i]), k)
  }

  lemma PreparedKeeps(s: Sys, k: Timeouts, l: Label)
    requires Inv(s, k)
    ensures Inv(Prepared(s, l), k)
  {
    var t := Prepared(s, l);
    forall m | m in t.db.events ensures RowOk(t.db, t.now, t.readied, k, m) {
      assert RowOk(s.db, s.now, s.readied, k, m);
    }
    forall m | m in t.redis.attempts ensures AttemptOk(t.db, t.now, t.readied, m, t.redis.attempts[m]) {
      assert AttemptOk(s.db, s.now, s.readied, m, s.redis.attempts[m]);
    }
    forall p | p in t.redis.payloads ensures PayloadOk(t.db, t.now, t.inflight, p, t.redis.payloads[p]) {
      assert PayloadOk(s.db, s.now, s.inflight, p, s.redis.payloads[p]);
    }
    assert t.inflight.Items <= s.inflight.Items;
    forall m | m in t.inflight ensures InflightOk(t.db, t.now, t.redis.attempts, m, t.inflight[m]) {
      assert InflightOk(s.db, s.now, s.redis.attempts, m, s.inflight[m]);
    }
  }

  lemma CreateKeeps(s: Sys, k: Timeouts, m: MessageId, a: Attempt)
    requires Inv(s, k) && m !in s.redis.attempts && !Durable(s.db, m, s.now) && a.connection == None
    requires PairOk(s.db, a.conversation, a.sender, a.recipient)
    ensures Inv(s.(redis := Create(s.redis, m, a)), k)
  {
    SetAttempt(s.db, s.now, s.readied, s.redis.attempts, m, a);
    SetAttemptInflight(s.db, s.now, s.redis.attempts, s.inflight, m, a);
    SetAttemptOffers(s.now, s.owners, s.redis.presence, s.redis.attempts, s.offered, m, a);
  }

  lemma OfferTrace(s: Sys, k: Timeouts, l: Label)
    requires Inv(s, k) && l.Offer? && Guard(s, l)
    ensures TraceOk(Prepared(s, l), k, TxOf(s, l, k).trace)
    ensures TxOf(s, l, k).db == s.db && !TxOf(s, l, k).reply.Notify?
  {
    var tx := TxOf(s, l, k);
    PreparedKeeps(s, k, l);
    if |tx.trace| == 2 {
      CreateKeeps(Prepared(s, l), k, l.message, NewAttempt(s.db.conversations[l.id], l.id, l.user, s.now, k));
    }
  }

  function AnsweredAttempt(s: Sys, l: Label): Attempt
    requires l.Ready? && l.message in s.redis.attempts
  {
    s.redis.attempts[l.message].(phase := ReadyToSend, connection := Some(l.connection))
  }

  /** A ready answer changes nothing, or saves the attempt of its message for its user. */
  lemma ReadyTraceIs(s: Sys, k: Timeouts, l: Label)
    requires l.Ready? && Guard(s, l)
    ensures TxOf(s, l, k).db == s.db && !TxOf(s, l, k).reply.Notify?
    ensures if AcceptsReady(s, l)
            then l.message in s.redis.attempts && s.redis.attempts[l.message].recipient == l.user
                 && (s.redis.attempts[l.message].connection.Some? ==>
                         s.redis.attempts[l.message].connection == Some(l.connection))
                 && TxOf(s, l, k).trace == [s.redis, Save(s.redis, l.message, AnsweredAttempt(s, l))]
            else TxOf(s, l, k).trace == [s.redis]
  {
  }

  lemma ReadySaves(s: Sys, k: Timeouts, l: Label)
    requires Inv(s, k) && l.Ready? && Guard(s, l) && AcceptsReady(s, l)
    requires l.message in s.redis.attempts && s.redis.attempts[l.message].recipient == l.user
    requires s.redis.attempts[l.message].connection.Some? ==>
               s.redis.attempts[l.message].connection == Some(l.connection)
    ensures Inv(Prepared(s, l).(redis := Save(s.redis, l.message, AnsweredAttempt(s, l))), k)
  {
    var t, m := Prepared(s, l), l.message;
    PreparedKeeps(s, k, l);
    About(t, k, m);
    SaveKeeps(t, k, m, AnsweredAttempt(s, l));
  }

  lemma ReadyTrace(s: Sys, k: Timeouts, l: Label)
    requires Inv(s, k) && l.Ready? && Guard(s, l)
    ensures TraceOk(Prepared(s, l), k, TxOf(s, l, k).trace)
    ensures TxOf(s, l, k).db == s.db && !TxOf(s, l, k).reply.Notify?
  {
    ReadyTraceIs(s, k, l);
    PreparedKeeps(s, k, l);
    if AcceptsReady(s, l) {
      ReadySaves(s, k, l);
      TraceOfTwo(Prepared(s, l), k, s.redis, Save(s.redis, l.message, AnsweredAttempt(s, l)));
    }
  }

  lemma SendFirstTrace(s: Sys, k: Timeouts, l: Label)
    requires Inv(s, k) && l.SendFirst? && Guard(s, l)
    ensures TraceOk(Prepared(s, l), k, TxOf(s, l, k).trace)
  {
    var m := l.write.id;
    PreparedKeeps(s, k, l);
    About(s, k, m);
    if PlanSend(s.db, s.redis, l.connection, l.write, s.now).Proceed? && m in s.redis.attempts {
      SaveKeeps(Prepared(s, l), k, m, SendingAttempt(s.redis.attempts[m], s.now, k));
    }
  }

  lemma PayloadKeeps(s: Sys, k: Timeouts, m: MessageId, a: Attempt)
    requires Inv(s, k) && m !in s.inflight && Durable(s.db, m, s.now)
    requires Matches(s.db.events[m], s.db.deliveries[m], a) && s.db.deliveries[m].status == Waiting
    ensures Inv(s.(redis := PutPayload(s.redis, m, a)), k)
  {
    var r := PutPayload(s.redis, m, a);
    forall p | p in r.payloads ensures PayloadOk(s.db, s.now, s.inflight, p, r.payloads[p]) {
      if p in s.redis.payloads { assert PayloadOk(s.db, s.now, s.inflight, p, s.redis.payloads[p]); }
    }
  }

  lemma SuspendedAttemptOk(s: Sys, k: Timeouts, m: MessageId)
    requires Inv(s, k) && m in s.inflight
    ensures AttemptOk(s.db, s.now, s.readied, m, s.inflight[m])
  {
    assert InflightOk(s.db, s.now, s.redis.attempts, m, s.inflight[m]) && RowOk(s.db, s.now, s.readied, k, m);
  }

  /** What the invariant says about one message. */
  lemma About(s: Sys, k: Timeouts, m: MessageId)
    requires Inv(s, k)
    ensures m in s.db.events ==> RowOk(s.db, s.now, s.readied, k, m)
    ensures m in s.redis.attempts ==> AttemptOk(s.db, s.now, s.readied, m, s.redis.attempts[m])
    ensures m in s.inflight ==> InflightOk(s.db, s.now, s.redis.attempts, m, s.inflight[m])
    ensures forall u :: PayloadKey(m, u) in s.redis.payloads ==>
                          PayloadOk(s.db, s.now, s.inflight, PayloadKey(m, u), s.redis.payloads[PayloadKey(m, u)])
  {
  }

  lemma PublishKeeps(s: Sys, k: Timeouts, m: MessageId, a: Attempt)
    requires Inv(s, k) && m !in s.inflight && Durable(s.db, m, s.now) && AttemptOk(s.db, s.now, s.readied, m, a)
    requires s.db.deliveries[m].status == Waiting
    requires m in s.redis.attempts ==> a.retainUntil == s.redis.attempts[m].retainUntil
    ensures Inv(s.(redis := PutPayload(s.redis, m, a)), k)
    ensures Inv(s.(redis := Save(PutPayload(s.redis, m, a), m, a.(phase := Sent))), k)
  {
    PayloadKeeps(s, k, m, a);
    SaveKeeps(s.(redis := PutPayload(s.redis, m, a)), k, m, a.(phase := Sent));
  }

  lemma SendSecondPublishes(s: Sys, k: Timeouts, l: Label)
    requires Inv(s, k) && l.SendSecond? && Guard(s, l)
    requires PlanSecond(s.db, s.redis, l.message, s.inflight[l.message], s.now) == Publish
    ensures var t, a := Prepared(s, l), s.inflight[l.message];
            && Inv(t.(redis := PutPayload(s.redis, l.message, a)), k)
            && Inv(t.(redis := Save(PutPayload(s.redis, l.message, a), l.message, a.(phase := Sent))), k)
  {
    PreparedKeeps(s, k, l);
    SuspendedAttemptOk(s, k, l.message);
    About(s, k, l.message);
    PublishKeeps(Prepared(s, l), k, l.message, s.inflight[l.message]);
  }

  lemma SendSecondLoses(s: Sys, k: Timeouts, l: Label)
    requires Inv(s, k) && l.SendSecond? && Guard(s, l)
    requires PlanSecond(s.db, s.redis, l.message, s.inflight[l.message], s.now) == PeerGone
    ensures Inv(Prepared(s, l).(redis := Save(s.redis, l.message, LostAttempt(s.inflight[l.message]))), k)
  {
    PreparedKeeps(s, k, l);
    SuspendedAttemptOk(s, k, l.message);
    About(s, k, l.message);
    SaveKeeps(Prepared(s, l), k, l.message, LostAttempt(s.inflight[l.message]));
  }

  /** The Redis states a second transaction goes through. */
  lemma SendSecondTraceIs(s: Sys, k: Timeouts, l: Label)
    requires l.SendSecond? && Guard(s, l)
    ensures var m, a := l.message, s.inflight[l.message];
            var plan := PlanSecond(s.db, s.redis, m, a, s.now);
            TxOf(s, l, k).trace ==
            if plan == PeerGone then [s.redis, Save(s.redis, m, LostAttempt(a))]
            else if plan == Publish then [s.redis, PutPayload(s.redis, m, a),
                                          Save(PutPayload(s.redis, m, a), m, a.(phase := Sent))]
            else [s.redis]
  {
  }

  lemma SendSecondTrace(s: Sys, k: Timeouts, l: Label)
    requires Inv(s, k) && l.SendSecond? && Guard(s, l)
    ensures TraceOk(Prepared(s, l), k, TxOf(s, l, k).trace)
  {
    var t, a := Prepared(s, l), s.inflight[l.message];
    PreparedKeeps(s, k, l);
    SendSecondTraceIs(s, k, l);
    var plan := PlanSecond(s.db, s.redis, l.message, a, s.now);
    if plan == PeerGone {
      SendSecondLoses(s, k, l);
      TraceOfTwo(t, k, s.redis, Save(s.redis, l.message, LostAttempt(a)));
    } else if plan == Publish {
      SendSecondPublishes(s, k, l);
      var loaded := PutPayload(s.redis, l.message, a);
      TraceOfThree(t, k, s.redis, loaded, Save(loaded, l.message, a.(phase := Sent)));
    }
  }

  lemma TraceOfTwo(t: Sys, k: Timeouts, r0: Redis, r1: Redis)
    requires Inv(t.(redis := r0), k) && Inv(t.(redis := r1), k)
    ensures TraceOk(t, k, [r0, r1])
  {
  }

  lemma TraceOfThree(t: Sys, k: Timeouts, r0: Redis, r1: Redis, r2: Redis)
    requires Inv(t.(redis := r0), k) && Inv(t.(redis := r1), k) && Inv(t.(redis := r2), k)
    ensures TraceOk(t, k, [r0, r1, r2])
  {
  }

  lemma AckTrace(s: Sys, k: Timeouts, l: Label)
    requires Inv(s, k) && l.Ack? && Guard(s, l)
    ensures TraceOk(Prepared(s, l), k, TxOf(s, l, k).trace)
  {
    var tx, m := TxOf(s, l, k), l.message;
    PreparedKeeps(s, k, l);
    About(s, k, m);
    if |tx.trace| == 2 {
      SaveKeeps(Prepared(s, l), k, m, s.redis.attempts[m].(phase := AttemptDelivered));
    }
  }

  /** A repair of an attempt saves it at most once, ended. */
  lemma RepairAttemptTraceIs(s: Sys, k: Timeouts, l: Label) returns (phase: Phase, failure: Option<Reason>)
    requires l.RepairAttempt? && Guard(s, l)
    ensures TxOf(s, l, k).trace == [s.redis]
            || (l.message in s.redis.attempts
                && var ended := s.redis.attempts[l.message].(phase := phase, failure := failure);
                TxOf(s, l, k).trace == [s.redis, Save(s.redis, l.message, ended)])
  {
    phase, failure := AttemptFailed, None;
    var m := l.message;
    if m in s.redis.attempts && !Terminal(s.redis.attempts[m].phase) {
      match RepairOf(s.db, s.redis, m, s.redis.attempts[m], l.disconnected, s.now) {
        case Keep =>
        case Mirror(end) => phase, failure := end, s.redis.attempts[m].failure;
        case Fail(reason) => failure := Some(reason);
      }
    }
  }

  lemma EndedAttemptKeeps(s: Sys, k: Timeouts, m: MessageId, phase: Phase, failure: Option<Reason>)
    requires Inv(s, k) && m in s.redis.attempts
    ensures Inv(s.(redis := Save(s.redis, m, s.redis.attempts[m].(phase := phase, failure := failure))), k)
  {
    About(s, k, m);
    SaveKeeps(s, k, m, s.redis.attempts[m].(phase := phase, failure := failure));
  }

  lemma RepairAttemptTrace(s: Sys, k: Timeouts, l: Label)
    requires Inv(s, k) && l.RepairAttempt? && Guard(s, l)
    ensures TraceOk(Prepared(s, l), k, TxOf(s, l, k).trace)
  {
    var m := l.message;
    PreparedKeeps(s, k, l);
    var phase, failure := RepairAttemptTraceIs(s, k, l);
    if m in s.redis.attempts {
      EndedAttemptKeeps(Prepared(s, l), k, m, phase, failure);
      TraceOfTwo(Prepared(s, l), k, s.redis,
                 Save(s.redis, m, s.redis.attempts[m].(phase := phase, failure := failure)));
    }
  }

  lemma RepairRowTrace(s: Sys, k: Timeouts, l: Label)
    requires Inv(s, k) && l.RepairRow? && Guard(s, l)
    ensures TraceOk(Prepared(s, l), k, TxOf(s, l, k).trace)
  {
    PreparedKeeps(s, k, l);
    if |TxOf(s, l, k).trace| == 2 {
      DropKeeps(Prepared(s, l), k, l.message);
    }
  }

  lemma TransactionTrace(s: Sys, k: Timeouts, l: Label)
    requires Inv(s, k) && IsTransaction(l) && Guard(s, l)
    ensures TraceOk(Prepared(s, l), k, TxOf(s, l, k).trace)
  {
    match l {
      case Offer(_, _, _, _) => OfferTrace(s, k, l);
      case Ready(_, _, _, _) => ReadyTrace(s, k, l);
      case SendFirst(_, _) => SendFirstTrace(s, k, l);
      case SendSecond(_) => SendSecondTrace(s, k, l);
      case Ack(_, _, _, _) => AckTrace(s, k, l);
      case RepairAttempt(_, _) => RepairAttemptTrace(s, k, l);
      case RepairRow(_, _) => RepairRowTrace(s, k, l);
    }
  }

  lemma RememberKeeps(s: Sys, k: Timeouts, l: Label)
    requires Inv(s, k) && (l.Offer? ==> l.connection in s.owners)
    ensures Inv(s.(offered := Remember(s.offered, l, s.redis)), k)
  {
    var offered := Remember(s.offered, l, s.redis);
    forall f | f in offered
      ensures f.connection in s.owners && OfferOk(s.now, s.redis.presence, s.redis.attempts, f, offered[f])
    {
      if f in s.offered { assert OfferOk(s.now, s.redis.presence, s.redis.attempts, f, s.offered[f]); }
    }
  }

  lemma StopIsPrefix(s: Sys, k: Timeouts, l: Label, writes: nat)
    requires IsTransaction(l) && Guard(s, l) && (writes == 0 ==> !l.Ready?)
    ensures var trace := TxOf(s, l, k).trace;
            var t := Prepared(s, l).(redis := trace[if writes < |trace| then writes else |trace| - 1]);
            Stop(s, l, writes, k) == t.(offered := Remember(t.offered, l, t.redis))
  {
  }

  lemma UnsavedAnswerIsNothing(s: Sys, k: Timeouts, l: Label)
    requires l.Ready? && Guard(s, l)
    ensures Stop(s, l, 0, k) == s
  {
  }

  /** A stop after any Redis write of any transaction leaves a good state. */
  lemma StopKeeps(s: Sys, k: Timeouts, l: Label, writes: nat)
    requires Inv(s, k) && IsTransaction(l) && Guard(s, l)
    ensures Inv(Stop(s, l, writes, k), k)
  {
    if writes == 0 && l.Ready? {
      UnsavedAnswerIsNothing(s, k, l);
    } else {
      TransactionTrace(s, k, l);
      StopIsPrefix(s, k, l, writes);
      var trace := TxOf(s, l, k).trace;
      RememberKeeps(Prepared(s, l).(redis := trace[if writes < |trace| then writes else |trace| - 1]), k, l);
    }
  }

  // ---- Commits ----------------------------------------------------------------------

  /** A committed transaction whose only durable effect is to finish one row, and its notice. */
  function Settle(t: Sys, m: MessageId, status: DeliveryStatus, n: Notice): Sys {
    t.(db := Finish(t.db, m, status, t.now), notices := t.notices[m := Logged(t, m) + {Told(n, t.now)}])
  }

  lemma SettleKeeps(t: Sys, k: Timeouts, m: MessageId, status: DeliveryStatus, n: Notice)
    requires Inv(t, k) && Durable(t.db, m, t.now) && status != Waiting && Unreadable(t, m)
    requires status == Delivered ==> m !in t.inflight
    requires t.db.events[m].mode == Stored ==> status == Delivered
    requires NoticeAgrees(n, Finish(t.db, m, status, t.now).deliveries[m])
    ensures Inv(Settle(t, m, status, n), k)
  {
    FinishKeeps(t, k, m, status);
    SettleIs(t, m, status, n);
    NoticeKeeps(t.(db := Finish(t.db, m, status, t.now)), k, m, n);
  }

  lemma SettleIs(t: Sys, m: MessageId, status: DeliveryStatus, n: Notice)
    requires Durable(t.db, m, t.now) && NoticeAgrees(n, Finish(t.db, m, status, t.now).deliveries[m])
    ensures var u := t.(db := Finish(t.db, m, status, t.now));
            && Settle(t, m, status, n) == u.(notices := u.notices[m := Logged(u, m) + {Told(n, u.now)}])
            && m in u.db.events && m in u.db.deliveries
            && ToldOk(u.db.events[m], u.db.deliveries[m], u.now, Told(n, u.now))
  {
  }

  lemma NothingToRead(s: Sys, k: Timeouts, m: MessageId)
    requires Inv(s, k) && m in s.db.events
    requires s.db.events[m].mode == Stored || s.db.deliveries[m].status != Waiting
    ensures Unreadable(s, m)
  {
    About(s, k, m);
  }

  /** A commit that changes no table is a stop after the last write, and its notice if it has one. */
  lemma QuietIsStop(s: Sys, k: Timeouts, l: Label)
    requires IsTransaction(l) && Guard(s, l) && TxOf(s, l, k).db == s.db
    requires Suspended(s, l, k) == Prepared(s, l).inflight
    ensures var stopped, m, reply := Stop(s, l, |TxOf(s, l, k).trace| - 1, k), MessageOf(l), TxOf(s, l, k).reply;
            && stopped.db == s.db && stopped.now == s.now
            && Commit(s, l, k) ==
               if reply.Notify? && m in s.db.deliveries
               then stopped.(notices := stopped.notices[m := Logged(stopped, m) + {Told(reply.notice, s.now)}])
               else stopped
  {
  }

  /** What the transaction tells, if it tells anything about a row, may be told. */
  ghost predicate TellsWell(s: Sys, l: Label, k: Timeouts)
    requires IsTransaction(l) && Guard(s, l)
  {
    var tx, m := TxOf(s, l, k), MessageOf(l);
    tx.reply.Notify? && m in s.db.deliveries && m in s.db.events ==>
      ToldOk(s.db.events[m], s.db.deliveries[m], s.now, Told(tx.reply.notice, s.now))
  }

  lemma QuietCommit(s: Sys, k: Timeouts, l: Label)
    requires Inv(s, k) && IsTransaction(l) && Guard(s, l) && TxOf(s, l, k).db == s.db
    requires Suspended(s, l, k) == Prepared(s, l).inflight && TellsWell(s, l, k)
    ensures Inv(Commit(s, l, k), k)
  {
    var writes, m, reply := |TxOf(s, l, k).trace| - 1, MessageOf(l), TxOf(s, l, k).reply;
    QuietIsStop(s, k, l);
    StopKeeps(s, k, l, writes);
    if reply.Notify? && m in s.db.deliveries {
      NoticeKeeps(Stop(s, l, writes, k), k, m, reply.notice);
    }
  }

  lemma SendSecondLostIs(s: Sys, k: Timeouts, l: Label)
    requires l.SendSecond? && Guard(s, l)
    requires PlanSecond(s.db, s.redis, l.message, s.inflight[l.message], s.now) == PeerGone
    ensures |TxOf(s, l, k).trace| == 2
    ensures TxOf(s, l, k).trace[1] == Save(s.redis, l.message, LostAttempt(s.inflight[l.message]))
    ensures Commit(s, l, k) == Settle(Prepared(s, l).(redis := TxOf(s, l, k).trace[1]), l.message, Failed,
                                      FailedNotice(RecipientDisconnected))
  {
  }

  lemma SendSecondLost(s: Sys, k: Timeouts, l: Label)
    requires Inv(s, k) && l.SendSecond? && Guard(s, l)
    requires PlanSecond(s.db, s.redis, l.message, s.inflight[l.message], s.now) == PeerGone
    ensures Inv(Commit(s, l, k), k)
  {
    var m, t := l.message, Prepared(s, l);
    SendSecondTrace(s, k, l);
    SendSecondLostIs(s, k, l);
    PreparedKeeps(s, k, l);
    About(s, k, m);
    SaveDropsPayload(t, k, m, LostAttempt(s.inflight[m]));
    SettleKeeps(t.(redis := TxOf(s, l, k).trace[1]), k, m, Failed, FailedNotice(RecipientDisconnected));
  }

  lemma SendSecondCommit(s: Sys, k: Timeouts, l: Label)
    requires Inv(s, k) && l.SendSecond? && Guard(s, l)
    ensures Inv(Commit(s, l, k), k)
  {
    match PlanSecond(s.db, s.redis, l.message, s.inflight[l.message], s.now) {
      case PeerGone => SendSecondLost(s, k, l);
      case Settled => About(s, k, l.message); QuietCommit(s, k, l);
      case _ => QuietCommit(s, k, l);
    }
  }

  /** An accepted acknowledgement finds the send finished. */
  lemma AckFindsSendOver(s: Sys, k: Timeouts, l: Label)
    requires Inv(s, k) && l.Ack? && Guard(s, l)
    requires AckRefused(s.db, s.redis, l.user, l.connection, l.message, l.id, s.now) == None
    ensures l.message !in s.inflight
  {
    About(s, k, l.message);
  }

  lemma AckLeavesNothingToRead(s: Sys, k: Timeouts, l: Label)
    requires Inv(s, k) && l.Ack? && Guard(s, l)
    requires AckRefused(s.db, s.redis, l.user, l.connection, l.message, l.id, s.now) == None
    ensures Unreadable(Prepared(s, l).(redis := Final(TxOf(s, l, k))), l.message)
  {
    var m := l.message;
    About(s, k, m);
    PreparedKeeps(s, k, l);
    if s.db.events[m].mode == Ephemeral && m in s.redis.attempts {
      SaveDropsPayload(Prepared(s, l), k, m, s.redis.attempts[m].(phase := AttemptDelivered));
    } else {
      NothingToRead(Prepared(s, l), k, m);
    }
  }

  lemma AckCommitIs(s: Sys, k: Timeouts, l: Label)
    requires l.Ack? && Guard(s, l)
    requires AckRefused(s.db, s.redis, l.user, l.connection, l.message, l.id, s.now) == None
    ensures TxOf(s, l, k).reply.Notify?
    ensures var tx := TxOf(s, l, k);
            Commit(s, l, k) == Settle(Prepared(s, l).(redis := Final(tx)), l.message, Delivered, tx.reply.notice)
    ensures Durable(s.db, l.message, s.now)
  {
  }

  lemma AckCommits(s: Sys, k: Timeouts, l: Label)
    requires Inv(s, k) && l.Ack? && Guard(s, l)
    requires AckRefused(s.db, s.redis, l.user, l.connection, l.message, l.id, s.now) == None
    ensures Inv(Commit(s, l, k), k)
  {
    var u := Prepared(s, l).(redis := Final(TxOf(s, l, k)));
    AckTrace(s, k, l);
    assert Inv(u, k);
    AckFindsSendOver(s, k, l);
    AckLeavesNothingToRead(s, k, l);
    AckNoticeAgrees(s, k, l);
    AckCommitIs(s, k, l);
    SettleKeeps(u, k, l.message, Delivered, TxOf(s, l, k).reply.notice);
  }

  lemma AckCommit(s: Sys, k: Timeouts, l: Label)
    requires Inv(s, k) && l.Ack? && Guard(s, l)
    ensures Inv(Commit(s, l, k), k)
  {
    if AckRefused(s.db, s.redis, l.user, l.connection, l.message, l.id, s.now) == None {
      AckCommits(s, k, l);
    } else {
      QuietCommit(s, k, l);
    }
  }

  lemma AckNoticeAgrees(s: Sys, k: Timeouts, l: Label)
    requires Inv(s, k) && l.Ack? && Guard(s, l)
    requires AckRefused(s.db, s.redis, l.user, l.connection, l.message, l.id, s.now) == None
    ensures TxOf(s, l, k).reply.Notify?
    ensures NoticeAgrees(TxOf(s, l, k).reply.notice, Finish(s.db, l.message, Delivered, s.now).deliveries[l.message])
  {
  }

  function FailedAttempt(a: Attempt, reason: Reason): Attempt {
    a.(phase := AttemptFailed, failure := Some(reason))
  }

  lemma RepairAttemptFailsIs(s: Sys, k: Timeouts, l: Label, reason: Reason)
    requires l.RepairAttempt? && Guard(s, l) && Durable(s.db, l.message, s.now)
    requires l.message in s.redis.attempts && !Terminal(s.redis.attempts[l.message].phase)
    requires RepairOf(s.db, s.redis, l.message, s.redis.attempts[l.message], l.disconnected, s.now) == Fail(reason)
    ensures |TxOf(s, l, k).trace| == 2
    ensures TxOf(s, l, k).trace[1] == Save(s.redis, l.message, FailedAttempt(s.redis.attempts[l.message], reason))
    ensures Commit(s, l, k) == Settle(Prepared(s, l).(redis := TxOf(s, l, k).trace[1]), l.message,
                                      if reason == DeliveryTimeout then Expired else Failed, FailedNotice(reason))
  {
  }

  lemma RepairAttemptFails(s: Sys, k: Timeouts, l: Label, reason: Reason)
    requires Inv(s, k) && l.RepairAttempt? && Guard(s, l) && Durable(s.db, l.message, s.now)
    requires l.message in s.redis.attempts && !Terminal(s.redis.attempts[l.message].phase)
    requires RepairOf(s.db, s.redis, l.message, s.redis.attempts[l.message], l.disconnected, s.now) == Fail(reason)
    ensures Inv(Commit(s, l, k), k)
  {
    var m, t := l.message, Prepared(s, l);
    RepairAttemptTrace(s, k, l);
    RepairAttemptFailsIs(s, k, l, reason);
    PreparedKeeps(s, k, l);
    About(s, k, m);
    SaveDropsPayload(t, k, m, FailedAttempt(s.redis.attempts[m], reason));
    SettleKeeps(t.(redis := TxOf(s, l, k).trace[1]), k, m, if reason == DeliveryTimeout then Expired else Failed,
                FailedNotice(reason));
  }

  predicate FailsDurably(s: Sys, l: Label)
    requires l.RepairAttempt?
  {
    var m := l.message;
    && m in s.redis.attempts && !Terminal(s.redis.attempts[m].phase) && Durable(s.db, m, s.now)
    && RepairOf(s.db, s.redis, m, s.redis.attempts[m], l.disconnected, s.now).Fail?
  }

  /** Otherwise the repair leaves the tables alone; it may still tell of a failure when the event is over. */
  lemma RepairAttemptQuiet(s: Sys, k: Timeouts, l: Label)
    requires l.RepairAttempt? && Guard(s, l) && !FailsDurably(s, l)
    ensures TxOf(s, l, k).db == s.db && Suspended(s, l, k) == Prepared(s, l).inflight && TellsWell(s, l, k)
  {
  }

  lemma RepairAttemptCommit(s: Sys, k: Timeouts, l: Label)
    requires Inv(s, k) && l.RepairAttempt? && Guard(s, l)
    ensures Inv(Commit(s, l, k), k)
  {
    if FailsDurably(s, l) {
      RepairAttemptFails(s, k, l,
        RepairOf(s.db, s.redis, l.message, s.redis.attempts[l.message], l.disconnected, s.now).reason);
    } else {
      RepairAttemptQuiet(s, k, l);
      QuietCommit(s, k, l);
    }
  }

  predicate RowDue(s: Sys, l: Label)
    requires l.RepairRow?
  {
    && Durable(s.db, l.message, s.now) && s.db.deliveries[l.message].status == Waiting
    && (RowExpired(s.db.deliveries[l.message], s.now)
          || RowLost(s.redis, s.db.deliveries[l.message], l.disconnected, s.now))
  }

  lemma RepairRowIdleIs(s: Sys, k: Timeouts, l: Label)
    requires l.RepairRow? && Guard(s, l) && !RowDue(s, l)
    ensures TxOf(s, l, k) == Idle(s.db, s.redis, Quiet)
  {
  }

  lemma RepairRowEndsIs(s: Sys, k: Timeouts, l: Label)
    requires l.RepairRow? && Guard(s, l) && RowDue(s, l)
    ensures var d := s.db.deliveries[l.message];
            var late := RowExpired(d, s.now);
            Commit(s, l, k) ==
            Settle(Prepared(s, l).(redis := DropPayload(s.redis, l.message, d.recipient)), l.message,
                   if late then Expired else Failed,
                   FailedNotice(if late then DeliveryTimeout else RecipientDisconnected))
  {
  }

  lemma RepairRowCommit(s: Sys, k: Timeouts, l: Label)
    requires Inv(s, k) && l.RepairRow? && Guard(s, l)
    ensures Inv(Commit(s, l, k), k)
  {
    var m, t := l.message, Prepared(s, l);
    if !RowDue(s, l) {
      RepairRowIdleIs(s, k, l);
      QuietCommit(s, k, l);
    } else {
      var d := s.db.deliveries[m];
      var late := RowExpired(d, s.now);
      RepairRowEndsIs(s, k, l);
      PreparedKeeps(s, k, l);
      About(s, k, m);
      DropKeeps(t, k, m);
      SettleKeeps(t.(redis := DropPayload(s.redis, m, d.recipient)), k, m, if late then Expired else Failed,
                  FailedNotice(if late then DeliveryTimeout else RecipientDisconnected));
    }
  }

  // ---- Recording a new event --------------------------------------------------------

  lemma RecordedRows(s: Sys, k: Timeouts, w: Write, db: Db)
    requires Inv(s, k) && w.id !in s.db.events && w.conversation in s.db.conversations
    requires NewRow(s, k, w, db)
    ensures RowsOk(db, s.now, s.readied, k)
  {
    forall x | x in db.events ensures RowOk(db, s.now, s.readied, k, x) {
      if x != w.id { About(s, k, x); }
    }
  }

  /** `db` is the database of `s` with one new event, as Record and SetDeadline make it. */
  ghost predicate NewRow(s: Sys, k: Timeouts, w: Write, db: Db)
    requires w.conversation in s.db.conversations
  {
    var c, m := s.db.conversations[w.conversation], w.id;
    && db.conversations.Keys == s.db.conversations.Keys
    && (forall id :: id in db.conversations ==>
          db.conversations[id].host == s.db.conversations[id].host
            && db.conversations[id].guest == s.db.conversations[id].guest)
    && Voting.Member(c, w.sender)
    && m in db.events && db.events == s.db.events[m := db.events[m]]
    && m in db.deliveries && db.deliveries == s.db.deliveries[m := db.deliveries[m]]
    && var e, d := db.events[m], db.deliveries[m];
    && e == Event(w.conversation, w.sender, s.now, s.now + EVENT_LIFE, Fingerprint(w.content), c.mode)
    && d.recipient == Peer(c, w.sender) && d.status == Waiting && d.receivedAt == None
    && AnsweredReady(s.readied, m, d.recipient, d.connection)
    && (if c.mode == Ephemeral then d.deadline == Some(s.now + k.delivery) && d.connection.Some?
        else d.deadline == None && d.connection == None)
    && (if c.mode == Stored then db.messages.Keys == s.db.messages.Keys + {m} else db.messages == s.db.messages)
  }

  lemma RecordedAttempts(s: Sys, k: Timeouts, w: Write, db: Db)
    requires Inv(s, k) && w.id !in s.db.events && w.conversation in s.db.conversations && NewRow(s, k, w, db)
    requires w.id in s.redis.attempts ==> Matches(db.events[w.id], db.deliveries[w.id], s.redis.attempts[w.id])
    ensures AttemptsOk(db, s.now, s.readied, s.redis.attempts)
  {
    forall x | x in s.redis.attempts ensures AttemptOk(db, s.now, s.readied, x, s.redis.attempts[x]) { About(s, k, x); }
  }

  lemma RecordedInflight(s: Sys, k: Timeouts, w: Write, db: Db, inflight: map<MessageId, Attempt>)
    requires Inv(s, k) && w.id !in s.db.events && w.conversation in s.db.conversations && NewRow(s, k, w, db)
    requires inflight.Keys <= s.inflight.Keys + {w.id}
    requires forall x :: x in inflight && x != w.id ==> inflight[x] == s.inflight[x]
    requires w.id in inflight ==>
               && w.id in s.redis.attempts && s.redis.attempts[w.id] == inflight[w.id]
               && inflight[w.id].connection.Some?
               && Matches(db.events[w.id], db.deliveries[w.id], inflight[w.id])
    ensures InflightsOk(db, s.now, s.redis.attempts, inflight)
  {
    forall x | x in inflight ensures InflightOk(db, s.now, s.redis.attempts, x, inflight[x]) {
      if x != w.id { About(s, k, x); }
    }
  }

  lemma RecordedPayloads(s: Sys, k: Timeouts, w: Write, db: Db, inflight: map<MessageId, Attempt>)
    requires Inv(s, k) && w.id !in s.db.events && w.conversation in s.db.conversations && NewRow(s, k, w, db)
    requires inflight.Keys <= s.inflight.Keys + {w.id}
    ensures PayloadsOk(db, s.now, inflight, s.redis.payloads)
  {
    forall p | p in s.redis.payloads ensures PayloadOk(db, s.now, inflight, p, s.redis.payloads[p]) {
      assert PayloadOk(s.db, s.now, s.inflight, p, s.redis.payloads[p]);
    }
  }

  lemma NotSuspended(s: Sys, k: Timeouts, m: MessageId)
    requires Inv(s, k) && m !in s.db.events
    ensures m !in s.inflight
  {
    About(s, k, m);
  }

  /** Committing a new row is safe when the attempt, if any, already describes it. */
  lemma NewRowKeeps(s: Sys, k: Timeouts, w: Write, db: Db, kept: Option<Attempt>)
    requires Inv(s, k) && w.id !in s.db.events && w.conversation in s.db.conversations && NewRow(s, k, w, db)
    requires w.id in s.redis.attempts <==> kept.Some?
    requires kept.Some? ==>
               && s.redis.attempts[w.id] == kept.value && kept.value.connection.Some?
               && Matches(db.events[w.id], db.deliveries[w.id], kept.value)
    ensures Inv(s.(db := db, inflight := if kept.Some? then s.inflight[w.id := kept.value] else s.inflight,
                   notices := s.notices[w.id := {}]), k)
  {
    var inflight := if kept.Some? then s.inflight[w.id := kept.value] else s.inflight;
    NotSuspended(s, k, w.id);
    RecordedRows(s, k, w, db);
    RecordedAttempts(s, k, w, db);
    RecordedInflight(s, k, w, db, inflight);
    RecordedPayloads(s, k, w, db, inflight);
  }

  /** What a created record adds to the tables. */
  lemma RecordIs(db: Db, w: Write, at: Time)
    requires w.conversation in db.conversations && Record(db, w, at, at).0.Created?
    ensures var after, c := Record(db, w, at, at).1, db.conversations[w.conversation];
            && after.events == db.events[w.id := Event(w.conversation, w.sender, at, at + EVENT_LIFE,
                                                       Fingerprint(w.content), c.mode)]
            && after.deliveries == db.deliveries[w.id := Delivery(Peer(c, w.sender), Waiting, None, None, None)]
            && after.conversations
                  == db.conversations[w.conversation := c.(graceUsed := after.conversations[w.conversation].graceUsed)]
            && (if c.mode == Stored then after.messages.Keys == db.messages.Keys + {w.id}
                  else after.messages == db.messages)
            && Voting.Member(c, w.sender)
  {
  }

  lemma RecordMakesRow(s: Sys, k: Timeouts, w: Write, kept: Option<Attempt>, db: Db)
    requires w.conversation in s.db.conversations && Record(s.db, w, s.now, s.now).0.Created?
    requires db == if kept.Some? && kept.value.connection.Some?
                   then SetDeadline(Record(s.db, w, s.now, s.now).1, w.id, kept.value.connection.value, k.delivery)
                   else Record(s.db, w, s.now, s.now).1
    requires kept.Some? <==> s.db.conversations[w.conversation].mode == Ephemeral
    requires kept.Some? ==> kept.value.connection.Some?
                            && AnsweredReady(s.readied, w.id, kept.value.recipient, kept.value.connection)
                            && kept.value.recipient == Peer(s.db.conversations[w.conversation], w.sender)
    ensures NewRow(s, k, w, db)
  {
    RecordIs(s.db, w, s.now);
  }

  /** A repeated send tells what the row says, and any other send that halts tells of a failure. */
  lemma HaltTellsWell(s: Sys, k: Timeouts, l: Label)
    requires l.SendFirst? && Guard(s, l) && PlanSend(s.db, s.redis, l.connection, l.write, s.now).Halt?
    requires l.write.id in s.db.events && l.write.id in s.db.deliveries ==> RowOk(s.db, s.now, s.readied, k, l.write.id)
    ensures TellsWell(s, l, k)
  {
  }

  lemma SendFirstHalts(s: Sys, k: Timeouts, l: Label)
    requires Inv(s, k) && l.SendFirst? && Guard(s, l)
    requires PlanSend(s.db, s.redis, l.connection, l.write, s.now).Halt?
    ensures Inv(Commit(s, l, k), k)
  {
    About(s, k, l.write.id);
    HaltTellsWell(s, k, l);
    QuietCommit(s, k, l);
  }

  lemma SendFirstStores(s: Sys, k: Timeouts, l: Label)
    requires Inv(s, k) && l.SendFirst? && Guard(s, l)
    requires PlanSend(s.db, s.redis, l.connection, l.write, s.now).Proceed?
    requires Record(s.db, l.write, s.now, s.now).0.Created? && l.write.id !in s.redis.attempts
    ensures Inv(Commit(s, l, k), k)
  {
    var w := l.write;
    var db := Record(s.db, w, s.now, s.now).1;
    RecordMakesRow(s, k, w, None, db);
    NewRowKeeps(s, k, w, db, None);
    assert Commit(s, l, k) == s.(db := db, notices := s.notices[w.id := {}]);
  }

  function StartedDb(s: Sys, k: Timeouts, w: Write, a: Attempt): Db
    requires Record(s.db, w, s.now, s.now).0.Created? && a.connection.Some?
  {
    SetDeadline(Record(s.db, w, s.now, s.now).1, w.id, a.connection.value, k.delivery)
  }

  lemma SendFirstStartsIs(s: Sys, k: Timeouts, l: Label, a: Attempt)
    requires l.SendFirst? && Guard(s, l)
    requires PlanSend(s.db, s.redis, l.connection, l.write, s.now).Proceed?
    requires Record(s.db, l.write, s.now, s.now).0.Created? && l.write.id in s.redis.attempts
    requires a == SendingAttempt(s.redis.attempts[l.write.id], s.now, k) && a.connection.Some?
    ensures var w := l.write;
            TxOf(s, l, k).trace == [s.redis, Save(s.redis, w.id, a)]
            && Commit(s, l, k) == s.(redis := Save(s.redis, w.id, a), db := StartedDb(s, k, w, a),
                                     inflight := s.inflight[w.id := a], notices := s.notices[w.id := {}])
  {
  }

  /** Recording over an attempt that is already saved as sending. */
  lemma StartKeeps(t: Sys, k: Timeouts, w: Write, a: Attempt)
    requires Inv(t, k) && w.conversation in t.db.conversations && Record(t.db, w, t.now, t.now).0.Created?
    requires w.id in t.redis.attempts && t.redis.attempts[w.id] == a && a.connection.Some?
    requires t.db.conversations[w.conversation].mode == Ephemeral && a.conversation == w.conversation
    requires a.sender == w.sender
    requires a.recipient == Peer(t.db.conversations[w.conversation], w.sender) && a.deadline == t.now + k.delivery
    requires AnsweredReady(t.readied, w.id, a.recipient, a.connection)
    ensures Inv(t.(db := StartedDb(t, k, w, a), inflight := t.inflight[w.id := a], notices := t.notices[w.id := {}]), k)
  {
    var db := StartedDb(t, k, w, a);
    RecordMakesRow(t, k, w, Some(a), db);
    NewRowKeeps(t, k, w, db, Some(a));
  }

  lemma SendFirstStarts(s: Sys, k: Timeouts, l: Label)
    requires Inv(s, k) && l.SendFirst? && Guard(s, l)
    requires PlanSend(s.db, s.redis, l.connection, l.write, s.now).Proceed?
    requires Record(s.db, l.write, s.now, s.now).0.Created? && l.write.id in s.redis.attempts
    ensures Inv(Commit(s, l, k), k)
  {
    var w := l.write;
    var a := SendingAttempt(s.redis.attempts[w.id], s.now, k);
    About(s, k, w.id);
    SendFirstTrace(s, k, l);
    SendFirstStartsIs(s, k, l, a);
    assert TxOf(s, l, k).trace[1] == Save(s.redis, w.id, a);
    assert s.(redis := Save(s.redis, w.id, a)) == Prepared(s, l).(redis := Save(s.redis, w.id, a));
    StartKeeps(s.(redis := Save(s.redis, w.id, a)), k, w, a);
  }

  lemma SendFirstCommit(s: Sys, k: Timeouts, l: Label)
    requires Inv(s, k) && l.SendFirst? && Guard(s, l)
    ensures Inv(Commit(s, l, k), k)
  {
    var w := l.write;
    if PlanSend(s.db, s.redis, l.connection, w, s.now).Halt? {
      SendFirstHalts(s, k, l);
    } else if !Record(s.db, w, s.now, s.now).0.Created? {
      QuietCommit(s, k, l);
    } else if w.id in s.redis.attempts {
      SendFirstStarts(s, k, l);
    } else {
      SendFirstStores(s, k, l);
    }
  }

  lemma CommitKeeps(s: Sys, k: Timeouts, l: Label)
    requires Inv(s, k) && IsTransaction(l) && Guard(s, l)
    ensures Inv(Commit(s, l, k), k)
  {
    match l {
      case Offer(_, _, _, _) => OfferTrace(s, k, l); QuietCommit(s, k, l);
      case Ready(_, _, _, _) => ReadyTrace(s, k, l); QuietCommit(s, k, l);
      case SendFirst(_, _) => SendFirstCommit(s, k, l);
      case SendSecond(_) => SendSecondCommit(s, k, l);
      case Ack(_, _, _, _) => AckCommit(s, k, l);
      case RepairAttempt(_, _) => RepairAttemptCommit(s, k, l);
      case RepairRow(_, _) => RepairRowCommit(s, k, l);
    }
  }
}
