/** Safety of the ephemeral handshake over whole runs of the step system. */
module HandshakeRuns {
  import opened Wrappers
  import opened Persistence
  import Voting
  import VotingRuns
  import opened RealtimeRedis
  import opened Messaging
  import opened Reconciliation
  import opened Handshake

  // ---- Steps of the environment -----------------------------------------------------

  lemma TickRows(db: Db, now: Time, to: Time, readied: set<ReadyFact>, k: Timeouts)
    requires RowsOk(db, now, readied, k) && now <= to
    ensures RowsOk(db, to, readied, k)
  {
    forall m | m in db.events ensures RowOk(db, to, readied, k, m) {
      assert RowOk(db, now, readied, k, m);
    }
  }

  lemma TickKeeps(s: Sys, k: Timeouts, to: Time)
    requires Inv(s, k) && s.now <= to
    ensures Inv(s.(now := to), k)
  {
    TickRows(s.db, s.now, to, s.readied, k);
    forall m | m in s.redis.attempts ensures AttemptOk(s.db, to, s.readied, m, s.redis.attempts[m]) { About(s, k, m); }
    forall m | m in s.inflight ensures InflightOk(s.db, to, s.redis.attempts, m, s.inflight[m]) { About(s, k, m); }
    forall p | p in s.redis.payloads ensures PayloadOk(s.db, to, s.inflight, p, s.redis.payloads[p]) {
      assert PayloadOk(s.db, s.now, s.inflight, p, s.redis.payloads[p]);
    }
    forall f | f in s.offered ensures OfferOk(to, s.redis.presence, s.redis.attempts, f, s.offered[f]) {
      assert OfferOk(s.now, s.redis.presence, s.redis.attempts, f, s.offered[f]);
    }
  }

  lemma PresenceKeeps(s: Sys, k: Timeouts, l: Label)
    requires Inv(s, k) && Guard(s, l) && (l.Connect? || l.Vanish?)
    ensures Inv(Step(s, l, k), k)
  {
    var t := Step(s, l, k);
    forall f | f in t.offered
      ensures f.connection in t.owners && OfferOk(t.now, t.redis.presence, t.redis.attempts, f, t.offered[f])
    {
      assert OfferOk(s.now, s.redis.presence, s.redis.attempts, f, s.offered[f]);
    }
  }

  lemma FlushKeeps(s: Sys, k: Timeouts)
    requires Inv(s, k)
    ensures Inv(s.(redis := LOST), k)
  {
    forall m | m in s.inflight ensures InflightOk(s.db, s.now, LOST.attempts, m, s.inflight[m]) { About(s, k, m); }
  }

  lemma ForgetKeeps(s: Sys, k: Timeouts, m: MessageId)
    requires Inv(s, k) && m in s.redis.attempts && s.now >= s.redis.attempts[m].retainUntil
    ensures Inv(s.(redis := s.redis.(attempts := s.redis.attempts - {m})), k)
  {
    var attempts := s.redis.attempts - {m};
    forall x | x in attempts ensures AttemptOk(s.db, s.now, s.readied, x, attempts[x]) { About(s, k, x); }
    forall x | x in s.inflight ensures InflightOk(s.db, s.now, attempts, x, s.inflight[x]) { About(s, k, x); }
    forall f | f in s.offered ensures OfferOk(s.now, s.redis.presence, attempts, f, s.offered[f]) {
      assert OfferOk(s.now, s.redis.presence, s.redis.attempts, f, s.offered[f]);
    }
  }

  lemma AbandonKeeps(s: Sys, k: Timeouts, m: MessageId)
    requires Inv(s, k)
    ensures Inv(s.(inflight := s.inflight - {m}), k)
  {
    PreparedKeeps(s, k, Label.SendSecond(m));
  }

  lemma StatusKeeps(s: Sys, k: Timeouts, user: UserId, m: MessageId)
    requires Inv(s, k)
    ensures Inv(s.(db := StatusTx(s.db, user, m, s.now).1), k)
  {
    About(s, k, m);
    if StatusTx(s.db, user, m, s.now).1 != s.db {
      FinishKeeps(s, k, m, Expired);
    }
  }

  /** Conversation changes and votes leave events, deliveries and the two members alone. */
  ghost predicate SameEvents(a: Db, b: Db) {
    && b.events == a.events && b.deliveries == a.deliveries && b.messages.Keys <= a.messages.Keys
    && (forall id :: id in a.conversations ==>
          id in b.conversations && b.conversations[id].host == a.conversations[id].host
          && b.conversations[id].guest == a.conversations[id].guest)
  }

  lemma ResolveSameEvents(db: Db, id: ConversationId, index: nat, t: Time)
    requires Voting.HasVote(db, id, index)
    ensures SameEvents(db, Voting.ResolveVote(db, id, index, t))
  {
  }

  lemma SameEventsTrans(a: Db, b: Db, c: Db)
    requires SameEvents(a, b) && SameEvents(b, c)
    ensures SameEvents(a, c)
  {
  }

  lemma ReplaceSameEvents(db: Db, id: ConversationId, c: Conversation)
    requires id in db.conversations ==> c.host == db.conversations[id].host && c.guest == db.conversations[id].guest
    ensures SameEvents(db, db.(conversations := db.conversations[id := c]))
  {
  }

  lemma AccessSameEvents(db: Db, user: UserId, id: ConversationId, index: nat, choice: Option<bool>,
                         clock: Voting.Clock)
    ensures SameEvents(db, Voting.Access(db, user, id, index, choice, clock).1)
  {
    if Voting.HasVote(db, id, index) {
      var read := Voting.ResolveVote(db, id, index, clock.first);
      var after := Voting.AccessResolved(read, user, id, index, choice, clock).1;
      ResolveSameEvents(db, id, index, clock.first);
      ResolveSameEvents(read, id, index, clock.late);
      var v := read.conversations[id].votes[index];
      if choice.Some? {
        var c := read.conversations[id];
        var cast := c.(votes := c.votes[index := Voting.CastBallot(v, user, choice.value)]);
        ReplaceSameEvents(read, id, cast);
      }
      assert SameEvents(read, after);
      SameEventsTrans(db, read, after);
    }
  }

  lemma ChangeSameEvents(db: Db, user: UserId, id: ConversationId, action: Voting.Action, t: Time)
    ensures SameEvents(db, Voting.Change(db, user, id, action, t).1)
  {
    var d := VotingRuns.ChangeShape(db, user, id, action, t);
    if d.Some? && id in db.conversations && VotingRuns.Written(db.conversations[id], user, t, d.value) {
      ReplaceSameEvents(db, id, d.value);
    } else if id in db.conversations && db.conversations[id].votes != [] {
      ResolveSameEvents(db, id, Voting.LatestVote(db.conversations[id]), t);
    }
  }

  lemma AdminSameEvents(db: Db, r: VotingRuns.Request, now: Time)
    requires Instant(r, now)
    ensures SameEvents(db, VotingRuns.Perform(db, r).1)
  {
    match r {
      case AccessIt(user, id, index, choice, clock) => AccessSameEvents(db, user, id, index, choice, clock);
      case ChangeIt(user, id, action, at) => ChangeSameEvents(db, user, id, action, at);
      case Visit(id, index, at) => if Voting.HasVote(db, id, index) { ResolveSameEvents(db, id, index, at); }
      case Redeem(_, _, _, _, _, _) =>
    }
  }

  lemma SameEventsRow(s: Sys, k: Timeouts, db: Db, m: MessageId)
    requires Inv(s, k) && SameEvents(s.db, db)
    ensures m in db.events ==> RowOk(db, s.now, s.readied, k, m)
    ensures m in s.redis.attempts ==> AttemptOk(db, s.now, s.readied, m, s.redis.attempts[m])
    ensures m in s.inflight ==> InflightOk(db, s.now, s.redis.attempts, m, s.inflight[m])
  {
    About(s, k, m);
  }

  lemma SameEventsPayload(s: Sys, k: Timeouts, db: Db, p: PayloadKey)
    requires Inv(s, k) && SameEvents(s.db, db) && p in s.redis.payloads
    ensures PayloadOk(db, s.now, s.inflight, p, s.redis.payloads[p])
  {
    assert PayloadOk(s.db, s.now, s.inflight, p, s.redis.payloads[p]);
  }

  lemma SameEventsKeep(s: Sys, k: Timeouts, db: Db)
    requires Inv(s, k) && SameEvents(s.db, db)
    ensures Inv(s.(db := db), k)
  {
    forall m | m in db.events ensures RowOk(db, s.now, s.readied, k, m) { SameEventsRow(s, k, db, m); }
    forall m | m in s.redis.attempts
      ensures AttemptOk(db, s.now, s.readied, m, s.redis.attempts[m])
    {
      SameEventsRow(s, k, db, m);
    }
    forall m | m in s.inflight
      ensures InflightOk(db, s.now, s.redis.attempts, m, s.inflight[m])
    {
      SameEventsRow(s, k, db, m);
    }
    forall p | p in s.redis.payloads
      ensures PayloadOk(db, s.now, s.inflight, p, s.redis.payloads[p])
    {
      SameEventsPayload(s, k, db, p);
    }
  }

  lemma PurgedPayloads(s: Sys, k: Timeouts)
    requires Inv(s, k) && Valid(k) && Guard(s, Label.Purge)
    ensures PayloadsOk(Cleanup(s.db, s.now), s.now, s.inflight, s.redis.payloads)
  {
    var db := Cleanup(s.db, s.now);
    forall p | p in s.redis.payloads ensures PayloadOk(db, s.now, s.inflight, p, s.redis.payloads[p]) {
      assert PayloadOk(s.db, s.now, s.inflight, p, s.redis.payloads[p]);
      About(s, k, p.message);
    }
  }

  lemma PurgedRows(s: Sys, k: Timeouts)
    requires Inv(s, k)
    ensures RowsOk(Cleanup(s.db, s.now), s.now, s.readied, k)
  {
    var db := Cleanup(s.db, s.now);
    forall m | m in db.events ensures RowOk(db, s.now, s.readied, k, m) { About(s, k, m); }
  }

  lemma PurgedAttempts(s: Sys, k: Timeouts)
    requires Inv(s, k)
    ensures AttemptsOk(Cleanup(s.db, s.now), s.now, s.readied, s.redis.attempts)
  {
    var db := Cleanup(s.db, s.now);
    forall m | m in s.redis.attempts ensures AttemptOk(db, s.now, s.readied, m, s.redis.attempts[m]) { About(s, k, m); }
  }

  lemma PurgedInflight(s: Sys, k: Timeouts)
    requires Inv(s, k) && Guard(s, Label.Purge)
    ensures InflightsOk(Cleanup(s.db, s.now), s.now, s.redis.attempts, s.inflight)
  {
    var db := Cleanup(s.db, s.now);
    forall m | m in s.inflight ensures InflightOk(db, s.now, s.redis.attempts, m, s.inflight[m]) { About(s, k, m); }
  }

  lemma PurgeKeeps(s: Sys, k: Timeouts)
    requires Inv(s, k) && Valid(k) && Guard(s, Label.Purge)
    ensures Inv(s.(db := Cleanup(s.db, s.now)), k)
  {
    PurgedRows(s, k);
    PurgedAttempts(s, k);
    PurgedInflight(s, k);
    PurgedPayloads(s, k);
  }

  lemma DiscardKeeps(s: Sys, k: Timeouts, f: Filter, m: MessageId)
    requires Inv(s, k)
    ensures Inv(s.(redis := DropEntry(s.redis, f, m)), k)
  {
  }

  /** Every step of every process and of the environment keeps the invariant. */
  lemma StepKeeps(s: Sys, k: Timeouts, l: Label)
    requires Inv(s, k) && Valid(k)
    ensures Inv(Step(s, l, k), k)
  {
    if Guard(s, l) {
      if IsTransaction(l) {
        CommitKeeps(s, k, l);
      } else {
        match l {
          case Tick(to) => TickKeeps(s, k, to);
          case Connect(_, _) => PresenceKeeps(s, k, l);
          case Vanish(_) => PresenceKeeps(s, k, l);
          case Flush => FlushKeeps(s, k);
          case Forget(m) => ForgetKeeps(s, k, m);
          case Discard(f, m) => DiscardKeeps(s, k, f, m);
          case Abandon(m) => AbandonKeeps(s, k, m);
          case ReadStatus(u, m) => StatusKeeps(s, k, u, m);
          case Admin(r) =>
            AdminSameEvents(s.db, r, s.now);
            SameEventsKeep(s, k, VotingRuns.Perform(s.db, r).1);
          case Purge => PurgeKeeps(s, k);
          case Crash(of, writes) => StopKeeps(s, k, of, writes);
        }
      }
    }
  }

  lemma {:induction false} RunInvariant(ls: seq<Label>, k: Timeouts)
    requires Valid(k)
    ensures Inv(Exec(ls, k), k)
  {
    if ls != [] {
      RunInvariant(ls[..|ls| - 1], k);
      StepKeeps(Exec(ls[..|ls| - 1], k), k, ls[|ls| - 1]);
    }
  }

  // ---- What a client is told --------------------------------------------------------

  /** A notice that was committed while the event was alive. */
  predicate InTime(s: Sys, m: MessageId, x: Told)
    requires m in s.db.events
  {
    x.at < s.db.events[m].expiresAt
  }

  /** All outcome notices about a row that were committed while its event lived agree with the row: never
      both kinds, and a delivered notice carries the row's receipt time. Every later one tells of a failure,
      so all notices together agree with the row exactly when it ended so, or when none came late. */
  lemma OutcomesAgree(ls: seq<Label>, k: Timeouts, m: MessageId)
    requires Valid(k) && m in Exec(ls, k).db.events
    ensures m in Exec(ls, k).db.deliveries
    ensures var s := Exec(ls, k);
            var d, log := s.db.deliveries[m], Logged(s, m);
            && (forall x :: x in log && InTime(s, m, x) ==> NoticeAgrees(x.notice, d))
            && (forall x, y :: x in log && y in log && InTime(s, m, x) && InTime(s, m, y) ==>
                                 && (x.notice.DeliveredNotice? <==> y.notice.DeliveredNotice?)
                                 && (x.notice.DeliveredNotice? ==> x.notice == y.notice))
            && (forall x :: x in log && !InTime(s, m, x) ==> x.notice.FailedNotice?)
            && ((forall x :: x in log ==> NoticeAgrees(x.notice, d))
                <==> d.status == Failed || d.status == Expired || forall x :: x in log ==> InTime(s, m, x))
  {
    RunInvariant(ls, k);
    var s := Exec(ls, k);
    forall x | x in Logged(s, m) ensures ToldOk(s.db.events[m], s.db.deliveries[m], s.now, x) {
    }
  }

  lemma NotifiedSendHalts(s: Sys, k: Timeouts, l: Label)
    requires l.SendFirst? && Guard(s, l) && TxOf(s, l, k).reply.Notify?
    ensures TxOf(s, l, k).db == s.db
  {
  }

  lemma CommitIs(s: Sys, k: Timeouts, l: Label)
    requires IsTransaction(l) && Guard(s, l)
    ensures var tx, t := TxOf(s, l, k), Commit(s, l, k);
            t.db == tx.db && t.now == s.now && t.notices == Notices(s, MessageOf(l), tx)
  {
  }

  lemma OutlivedSend(s: Sys, k: Timeouts, l: Label)
    requires l.SendFirst? && Guard(s, l) && l.write.id in s.db.events && State(s.db, l.write.id, s.now) == None
    ensures TxOf(s, l, k).db == s.db
  {
  }

  lemma OutlivedAck(s: Sys, k: Timeouts, l: Label)
    requires l.Ack? && Guard(s, l) && State(s.db, l.message, s.now) == None
    ensures TxOf(s, l, k).db == s.db
  {
  }

  lemma OutlivedRepair(s: Sys, k: Timeouts, l: Label)
    requires (l.RepairAttempt? || l.RepairRow?) && Guard(s, l) && State(s.db, l.message, s.now) == None
    ensures TxOf(s, l, k).db == s.db
  {
  }

  lemma OutlivedSecond(s: Sys, k: Timeouts, l: Label)
    requires l.SendSecond? && Guard(s, l) && State(s.db, l.message, s.now) == None
    ensures TxOf(s, l, k).db == s.db
  {
  }

  lemma HandshakeLeavesTables(s: Sys, k: Timeouts, l: Label)
    requires (l.Offer? || l.Ready?) && Guard(s, l)
    ensures TxOf(s, l, k).db == s.db
  {
  }

  /** After the life of its event a row is out of reach: no transaction on its message changes any table. */
  lemma OutlivedUnmoved(s: Sys, k: Timeouts, l: Label)
    requires IsTransaction(l) && Guard(s, l) && MessageOf(l) in s.db.events && State(s.db, MessageOf(l), s.now) == None
    ensures TxOf(s, l, k).db == s.db
  {
    match l {
      case SendFirst(_, _) => OutlivedSend(s, k, l);
      case SendSecond(_) => OutlivedSecond(s, k, l);
      case Ack(_, _, _, _) => OutlivedAck(s, k, l);
      case Offer(_, _, _, _) => HandshakeLeavesTables(s, k, l);
      case Ready(_, _, _, _) => HandshakeLeavesTables(s, k, l);
      case _ => OutlivedRepair(s, k, l);
    }
  }

  lemma CommittedNotice(s: Sys, k: Timeouts, l: Label)
    requires IsTransaction(l) && Guard(s, l) && TxOf(s, l, k).reply.Notify?
    requires MessageOf(l) in s.db.deliveries && MessageOf(l) in s.db.events
    ensures var t, m := Commit(s, l, k), MessageOf(l);
            && m in t.db.events && m in t.db.deliveries && t.db.events[m] == s.db.events[m] && t.now == s.now
            && Told(TxOf(s, l, k).reply.notice, s.now) in Logged(t, m)
  {
    CommitIs(s, k, l);
    if l.SendFirst? {
      NotifiedSendHalts(s, k, l);
    } else {
      var status := OnlyFinishes(s, k, l);
      FinishKeepsKeys(s.db, l.message, status, s.now);
    }
  }

  lemma FinishKeepsKeys(db: Db, m: MessageId, status: DeliveryStatus, now: Time)
    ensures Finish(db, m, status, now).events == db.events
    ensures Finish(db, m, status, now).deliveries.Keys == db.deliveries.Keys
  {
  }

  lemma ToldWell(s: Sys, k: Timeouts, l: Label)
    requires Inv(s, k) && IsTransaction(l) && Guard(s, l) && TxOf(s, l, k).reply.Notify?
    requires MessageOf(l) in s.db.deliveries && MessageOf(l) in s.db.events
    ensures var t, m := Commit(s, l, k), MessageOf(l);
            m in t.db.deliveries
            && ToldOk(s.db.events[m], t.db.deliveries[m], s.now, Told(TxOf(s, l, k).reply.notice, s.now))
  {
    var t, m := Commit(s, l, k), MessageOf(l);
    CommitKeeps(s, k, l);
    CommittedNotice(s, k, l);
    NoticesSay(t, k, m, Told(TxOf(s, l, k).reply.notice, s.now));
  }

  lemma NoticesSay(t: Sys, k: Timeouts, m: MessageId, x: Told)
    requires Inv(t, k) && m in t.db.deliveries && m in t.db.events && x in Logged(t, m)
    ensures ToldOk(t.db.events[m], t.db.deliveries[m], t.now, x)
  {
  }

  lemma RowHasEvent(s: Sys, k: Timeouts, m: MessageId)
    requires Inv(s, k)
    ensures m in s.db.deliveries <==> m in s.db.events
  {
  }

  /** After any run, the notice of a transaction agrees with the row it leaves exactly when the event was
      alive or the row had failed or expired. */
  lemma NoticeAgreesIff(ls: seq<Label>, k: Timeouts, l: Label)
    requires var s := Exec(ls, k);
             Valid(k) && IsTransaction(l) && Guard(s, l) && TxOf(s, l, k).reply.Notify?
               && MessageOf(l) in s.db.deliveries
    ensures MessageOf(l) in Commit(Exec(ls, k), l, k).db.deliveries
    ensures var s, m := Exec(ls, k), MessageOf(l);
            var was := s.db.deliveries[m].status;
            (NoticeAgrees(TxOf(s, l, k).reply.notice, Commit(s, l, k).db.deliveries[m])
             <==> State(s.db, m, s.now).Some? || was == Failed || was == Expired)
  {
    var s, m := Exec(ls, k), MessageOf(l);
    RunInvariant(ls, k);
    RowHasEvent(s, k, m);
    ToldWell(s, k, l);
    RowThen(s, k, l);
    AgreesIff(s.db.events[m], s.db.deliveries[m], Commit(s, l, k).db.deliveries[m], s.now, TxOf(s, l, k).reply.notice);
  }

  lemma RowThen(s: Sys, k: Timeouts, l: Label)
    requires IsTransaction(l) && Guard(s, l) && MessageOf(l) in s.db.deliveries && MessageOf(l) in s.db.events
    requires TxOf(s, l, k).reply.Notify?
    ensures var t, m := Commit(s, l, k), MessageOf(l);
            && (State(s.db, m, s.now).Some? <==> s.now < s.db.events[m].expiresAt)
            && (State(s.db, m, s.now) == None ==> t.db == s.db)
  {
    if State(s.db, MessageOf(l), s.now) == None {
      OutlivedUnmoved(s, k, l);
      CommitIs(s, k, l);
    }
  }

  lemma AgreesIff(e: Event, before: Delivery, after: Delivery, now: Time, n: Notice)
    requires ToldOk(e, after, now, Told(n, now)) && (now >= e.expiresAt ==> after == before)
    ensures NoticeAgrees(n, after) <==> now < e.expiresAt || before.status == Failed || before.status == Expired
  {
  }

  lemma RowlessSend(s: Sys, k: Timeouts, l: Label)
    requires l.SendFirst? && Guard(s, l) && TxOf(s, l, k).reply.Notify? && State(s.db, l.write.id, s.now) == None
    ensures TxOf(s, l, k).reply.notice.FailedNotice?
  {
  }

  lemma RowlessOther(s: Sys, k: Timeouts, l: Label)
    requires IsTransaction(l) && !l.SendFirst? && Guard(s, l) && TxOf(s, l, k).reply.Notify?
    requires State(s.db, l.message, s.now) == None
    ensures TxOf(s, l, k).reply.notice.FailedNotice?
  {
  }

  /** A notice about a message without a row, never recorded or purged, is always a failure. */
  lemma RowlessNoticeFails(s: Sys, k: Timeouts, l: Label)
    requires IsTransaction(l) && Guard(s, l) && TxOf(s, l, k).reply.Notify? && MessageOf(l) !in s.db.deliveries
    ensures TxOf(s, l, k).reply.notice.FailedNotice?
  {
    if l.SendFirst? { RowlessSend(s, k, l); } else { RowlessOther(s, k, l); }
  }

  /** In every reachable state, stops included, a readable payload belongs to a committed row that is
      still waiting, of that recipient, and whose deadline has not passed. */
  lemma PayloadOnlyWhileWaiting(ls: seq<Label>, k: Timeouts, p: PayloadKey)
    requires Valid(k) && p in Exec(ls, k).redis.payloads && Exec(ls, k).now < Exec(ls, k).redis.payloads[p]
    ensures var s := Exec(ls, k);
            && p.message in s.db.deliveries && s.db.deliveries[p.message].status == Waiting
            && s.db.deliveries[p.message].recipient == p.recipient
            && s.db.deliveries[p.message].deadline.Some? && s.now < s.db.deliveries[p.message].deadline.value
  {
    RunInvariant(ls, k);
    assert PayloadOk(Exec(ls, k).db, Exec(ls, k).now, Exec(ls, k).inflight, p, Exec(ls, k).redis.payloads[p]);
  }

  /** The socket listener's test before it forwards an ephemeral `message.new`. */
  predicate Forwards(s: Sys, m: MessageId) {
    m in s.redis.attempts && s.redis.attempts[m].deadline > s.now && HasPayload(s.redis, m, s.redis.attempts[m], s.now)
  }

  lemma NothingForwardedAfterTheEnd(ls: seq<Label>, k: Timeouts, m: MessageId)
    requires Valid(k) && Forwards(Exec(ls, k), m)
    ensures m in Exec(ls, k).db.deliveries && Exec(ls, k).db.deliveries[m].status == Waiting
  {
    var s := Exec(ls, k);
    PayloadOnlyWhileWaiting(ls, k, PayloadKey(m, s.redis.attempts[m].recipient));
  }

  /** Message content is stored only for events sent in stored mode. */
  lemma ContentOnlyWhenStored(ls: seq<Label>, k: Timeouts, m: MessageId)
    requires Valid(k) && m in Exec(ls, k).db.messages
    ensures m in Exec(ls, k).db.events && Exec(ls, k).db.events[m].mode == Stored
  {
    RunInvariant(ls, k);
  }

  // ---- A settled delivery stays settled ---------------------------------------------

  ghost predicate RowUntouched(a: Db, b: Db, m: MessageId) {
    m in a.events && m in b.events ==>
      && b.events[m] == a.events[m]
      && (m in a.deliveries && a.deliveries[m].status != Waiting ==>
              m in b.deliveries && b.deliveries[m] == a.deliveries[m])
  }

  lemma FinishRow(db: Db, of: MessageId, status: DeliveryStatus, now: Time, m: MessageId)
    ensures RowUntouched(db, Finish(db, of, status, now), m)
  {
  }

  /** Apart from the first transaction of a send, a transaction at most finishes the row of its message. */
  lemma OnlyFinishes(s: Sys, k: Timeouts, l: Label) returns (status: DeliveryStatus)
    requires IsTransaction(l) && Guard(s, l) && !l.SendFirst?
    ensures TxOf(s, l, k).db == s.db || TxOf(s, l, k).db == Finish(s.db, l.message, status, s.now)
    ensures status == Delivered ==> l.Ack?
  {
    status := Failed;
    match l {
      case Ack(_, _, _, _) => status := Delivered;
      case RepairAttempt(m, d) =>
        if m in s.redis.attempts && RepairOf(s.db, s.redis, m, s.redis.attempts[m], d, s.now) == Fail(DeliveryTimeout) {
          status := Expired;
        }
      case RepairRow(m, d) =>
        if m in s.db.deliveries && RowExpired(s.db.deliveries[m], s.now) { status := Expired; }
      case _ =>
    }
  }

  lemma SendFirstRow(s: Sys, k: Timeouts, l: Label, m: MessageId)
    requires l.SendFirst? && Guard(s, l)
    ensures RowUntouched(s.db, TxOf(s, l, k).db, m)
  {
    if PlanSend(s.db, s.redis, l.connection, l.write, s.now).Proceed? {
      assert Record(s.db, l.write, s.now, s.now).0.Created? ==> l.write.id !in s.db.events;
    }
  }

  lemma TransactionRow(s: Sys, k: Timeouts, l: Label, m: MessageId)
    requires IsTransaction(l) && Guard(s, l)
    ensures RowUntouched(s.db, TxOf(s, l, k).db, m)
  {
    if l.SendFirst? {
      SendFirstRow(s, k, l, m);
    } else {
      var status := OnlyFinishes(s, k, l);
      FinishRow(s.db, l.message, status, s.now, m);
    }
  }

  lemma StepRow(s: Sys, k: Timeouts, l: Label, m: MessageId)
    ensures RowUntouched(s.db, Step(s, l, k).db, m)
  {
    if Guard(s, l) {
      if IsTransaction(l) { TransactionRow(s, k, l, m); }
      if l.Admin? { AdminSameEvents(s.db, l.request, s.now); }
    }
  }

  /** The event row of `m` is there at every point of the run from `p` to `p + q`. */
  ghost predicate RowLives(p: seq<Label>, q: seq<Label>, k: Timeouts, m: MessageId) {
    m in Exec(p + q, k).db.events && (q != [] ==> RowLives(p, q[..|q| - 1], k, m))
  }

  /** Once delivered, failed or expired, a row never changes again while its event is there. */
  lemma {:induction false} SettledForGood(p: seq<Label>, q: seq<Label>, k: Timeouts, m: MessageId)
    requires Valid(k) && RowLives(p, q, k, m) && m in Exec(p, k).db.events
    requires m in Exec(p, k).db.deliveries && Exec(p, k).db.deliveries[m].status != Waiting
    ensures m in Exec(p + q, k).db.deliveries && Exec(p + q, k).db.deliveries[m] == Exec(p, k).db.deliveries[m]
    ensures Exec(p + q, k).db.events[m] == Exec(p, k).db.events[m]
  {
    if q == [] {
      assert p + q == p;
    } else {
      var mid := q[..|q| - 1];
      assert mid == [] ==> p + mid == p;
      SettledForGood(p, mid, k, m);
      assert (p + q)[..|p + q| - 1] == p + mid;
      StepRow(Exec(p + mid, k), k, q[|q| - 1], m);
    }
  }

  // ---- Who can deliver --------------------------------------------------------------

  ghost predicate DeliveredEphemeral(s: Sys, m: MessageId) {
    m in s.db.events && s.db.events[m].mode == Ephemeral && m in s.db.deliveries
      && s.db.deliveries[m].status == Delivered
  }

  /** `l` is admitted and accepted, and acknowledges `m` as its recipient, over its recorded connection,
      before its deadline. */
  ghost predicate TimelyAck(s: Sys, l: Label, m: MessageId) {
    && l.Ack? && Guard(s, l) && l.message == m && m in s.db.deliveries
    && AckRefused(s.db, s.redis, l.user, l.connection, m, l.id, s.now) == None
    && var d := s.db.deliveries[m];
    && d.status == Waiting && l.user == d.recipient && d.connection == Some(l.connection)
    && d.deadline.Some? && s.now < d.deadline.value
    && ReadyFact(m, l.user, l.connection) in s.readied
  }

  lemma FinishDeliversNone(db: Db, of: MessageId, status: DeliveryStatus, now: Time, m: MessageId)
    requires status != Delivered && m in Finish(db, of, status, now).deliveries
    requires Finish(db, of, status, now).deliveries[m].status == Delivered
    ensures m in db.deliveries && db.deliveries[m].status == Delivered
    ensures Finish(db, of, status, now).events == db.events
  {
  }

  lemma SendDeliversNone(s: Sys, k: Timeouts, l: Label, m: MessageId)
    requires l.SendFirst? && Guard(s, l) && DeliveredEphemeral(Commit(s, l, k), m)
    ensures DeliveredEphemeral(s, m)
  {
    if PlanSend(s.db, s.redis, l.connection, l.write, s.now).Proceed? {
      assert Record(s.db, l.write, s.now, s.now).0.Created? ==> l.write.id !in s.db.events;
    }
  }

  /** Only an acknowledgement can turn a row to delivered. */
  lemma OthersDoNotDeliver(s: Sys, k: Timeouts, l: Label, m: MessageId)
    requires IsTransaction(l) && Guard(s, l) && !l.Ack?
    requires DeliveredEphemeral(Commit(s, l, k), m)
    ensures DeliveredEphemeral(s, m)
  {
    if l.SendFirst? {
      SendDeliversNone(s, k, l, m);
    } else {
      var status := OnlyFinishes(s, k, l);
      assert Commit(s, l, k).db == TxOf(s, l, k).db;
      if TxOf(s, l, k).db != s.db { FinishDeliversNone(s.db, l.message, status, s.now, m); }
    }
  }

  lemma AckDelivers(s: Sys, k: Timeouts, l: Label, m: MessageId)
    requires Inv(s, k) && l.Ack? && Guard(s, l)
    requires DeliveredEphemeral(Commit(s, l, k), m) && !DeliveredEphemeral(s, m)
    ensures TimelyAck(s, l, m)
  {
    assert Commit(s, l, k).db == AckTx(s.db, s.redis, l.user, l.connection, l.message, l.id, s.now).db;
    assert AckRefused(s.db, s.redis, l.user, l.connection, l.message, l.id, s.now) == None;
    About(s, k, m);
  }

  lemma StepDelivers(s: Sys, k: Timeouts, l: Label, m: MessageId)
    requires Inv(s, k) && DeliveredEphemeral(Step(s, l, k), m) && !DeliveredEphemeral(s, m)
    ensures TimelyAck(s, l, m)
  {
    if Guard(s, l) && IsTransaction(l) {
      if l.Ack? { AckDelivers(s, k, l, m); } else { OthersDoNotDeliver(s, k, l, m); }
    } else if Guard(s, l) && l.Admin? {
      AdminSameEvents(s.db, l.request, s.now);
    }
  }

  /** The label, or the transaction a stop interrupted after its save, is an accepted ready answer. */
  ghost predicate ReadyBy(s: Sys, l: Label, f: ReadyFact) {
    var of := if l.Crash? then l.of else l;
    Guard(s, l) && (l.Crash? ==> l.writes >= 1) && AcceptsReady(s, of) && of.message == f.message
      && of.user == f.user && of.connection == f.connection
  }

  lemma StepReadies(s: Sys, l: Label, k: Timeouts, f: ReadyFact)
    requires f in Step(s, l, k).readied && f !in s.readied
    ensures ReadyBy(s, l, f)
  {
  }

  lemma {:induction false} ReadyWasAnswered(ls: seq<Label>, k: Timeouts, f: ReadyFact) returns (j: nat)
    requires f in Exec(ls, k).readied
    ensures j < |ls| && ReadyBy(Exec(ls[..j], k), ls[j], f)
  {
    var p, l := ls[..|ls| - 1], ls[|ls| - 1];
    if f in Exec(p, k).readied {
      j := ReadyWasAnswered(p, k, f);
      assert ls[..j] == p[..j];
    } else {
      StepReadies(Exec(p, k), l, k, f);
      j := |p|;
    }
  }

  /** Step `i` is the timely acknowledgement that delivers `m`, and step `j` before it the ready answer it
      relies on. */
  ghost predicate Witness(ls: seq<Label>, k: Timeouts, m: MessageId, i: nat, j: nat) {
    && j < i < |ls|
    && TimelyAck(Exec(ls[..i], k), ls[i], m)
    && !DeliveredEphemeral(Exec(ls[..i], k), m) && DeliveredEphemeral(Exec(ls[..i + 1], k), m)
    && ReadyBy(Exec(ls[..j], k), ls[j], ReadyFact(m, ls[i].user, ls[i].connection))
  }

  lemma WitnessExtends(p: seq<Label>, l: Label, k: Timeouts, m: MessageId, i: nat, j: nat)
    requires Witness(p, k, m, i, j)
    ensures Witness(p + [l], k, m, i, j)
  {
    assert (p + [l])[..i] == p[..i] && (p + [l])[..i + 1] == p[..i + 1] && (p + [l])[..j] == p[..j];
  }

  lemma Prefixes(p: seq<Label>, l: Label, j: nat)
    requires j <= |p|
    ensures (p + [l])[..|p|] == p && (p + [l])[..|p| + 1] == p + [l] && (p + [l])[..j] == p[..j] && (p + [l])[|p|] == l
  {
  }

  lemma WitnessOfAck(p: seq<Label>, l: Label, k: Timeouts, m: MessageId) returns (j: nat)
    requires TimelyAck(Exec(p, k), l, m)
    requires !DeliveredEphemeral(Exec(p, k), m) && DeliveredEphemeral(Exec(p + [l], k), m)
    ensures Witness(p + [l], k, m, |p|, j)
  {
    var f := ReadyFact(m, l.user, l.connection);
    j := ReadyWasAnswered(p, k, f);
    Prefixes(p, l, j);
  }

  /** Whatever reconnects, several sockets and Redis losses a run has: an ephemeral message is delivered
      only by an accepted acknowledgement of its recipient, before its deadline, over the very connection
      that had answered ready for it in an earlier step. */
  lemma {:induction false} DeliveredOnlyByReadyAck(ls: seq<Label>, k: Timeouts, m: MessageId)
    requires Valid(k) && DeliveredEphemeral(Exec(ls, k), m)
    ensures exists i: nat, j: nat :: Witness(ls, k, m, i, j)
  {
    if ls != [] {
      var p, l := ls[..|ls| - 1], ls[|ls| - 1];
      assert p + [l] == ls;
      if DeliveredEphemeral(Exec(p, k), m) {
        DeliveredOnlyByReadyAck(p, k, m);
        var i: nat, j: nat :| Witness(p, k, m, i, j);
        WitnessExtends(p, l, k, m, i, j);
      } else {
        RunInvariant(p, k);
        StepDelivers(Exec(p, k), k, l, m);
        var j := WitnessOfAck(p, l, k, m);
      }
    }
  }

  // ---- An offered message is never stored over the same socket ----------------------

  lemma OfferedGrows(s: Sys, k: Timeouts, l: Label, f: OfferFact)
    requires f in s.offered
    ensures f in Step(s, l, k).offered && Step(s, l, k).offered[f] >= s.offered[f]
  {
  }

  lemma {:induction false} OfferedKept(p: seq<Label>, q: seq<Label>, k: Timeouts, f: OfferFact)
    requires f in Exec(p, k).offered
    ensures f in Exec(p + q, k).offered && Exec(p + q, k).offered[f] >= Exec(p, k).offered[f]
  {
    if q == [] {
      assert p + q == p;
    } else {
      OfferedKept(p, q[..|q| - 1], k, f);
      assert (p + q)[..|p + q| - 1] == p + q[..|q| - 1];
      OfferedGrows(Exec(p + q[..|q| - 1], k), k, q[|q| - 1], f);
    }
  }

  /** After the offer label `l` (or a stop of it) an attempt for its message is retained until `until`. */
  ghost predicate OfferedUntil(s: Sys, l: Label, k: Timeouts, f: OfferFact, until: Time) {
    var of, t := if l.Crash? then l.of else l, Step(s, l, k);
    && of.Offer? && Guard(s, l) && of.message == f.message && of.connection == f.connection
    && f.message in t.redis.attempts && t.redis.attempts[f.message].retainUntil == until
  }

  /** A send stores content, or records a stored event, only over a live socket and without an attempt. */
  lemma StoresOnlyWithoutAttempt(s: Sys, k: Timeouts, send: Label)
    requires send.SendFirst?
    requires send.connection !in s.redis.presence || send.write.id in s.redis.attempts
    ensures Step(s, send, k).db.messages == s.db.messages
    ensures send.write.id in Step(s, send, k).db.events && send.write.id !in s.db.events ==>
              Step(s, send, k).db.events[send.write.id].mode == Ephemeral
  {
  }

  lemma SendCannotStore(s: Sys, k: Timeouts, send: Label, f: OfferFact)
    requires Inv(s, k) && f in s.offered && s.now < s.offered[f]
    requires send.SendFirst? && send.write.id == f.message && send.connection == f.connection
    ensures Step(s, send, k).db.messages == s.db.messages
    ensures f.message in Step(s, send, k).db.events && f.message !in s.db.events ==>
              Step(s, send, k).db.events[f.message].mode == Ephemeral
  {
    assert OfferOk(s.now, s.redis.presence, s.redis.attempts, f, s.offered[f]);
    StoresOnlyWithoutAttempt(s, k, send);
  }

  lemma OfferIsRemembered(s: Sys, offer: Label, k: Timeouts, f: OfferFact, until: Time)
    requires OfferedUntil(s, offer, k, f, until)
    ensures f in Step(s, offer, k).offered && Step(s, offer, k).offered[f] >= until
  {
  }

  /** Take any offer of a message over a socket, then any steps at all (upgrade, retries, lost presence,
      total Redis loss, stops), then any send of that identifier over the same socket while the attempt
      would still be retained: it does not store the message. */
  lemma OfferedIsNeverStored(p: seq<Label>, offer: Label, q: seq<Label>, send: Label, k: Timeouts, f: OfferFact,
                             until: Time)
    requires Valid(k) && OfferedUntil(Exec(p, k), offer, k, f, until)
    requires send.SendFirst? && send.write.id == f.message && send.connection == f.connection
    requires Exec(p + [offer] + q, k).now < until
    ensures var s := Exec(p + [offer] + q, k);
            var t := Step(s, send, k);
            t.db.messages == s.db.messages
            && (f.message in t.db.events && f.message !in s.db.events ==> t.db.events[f.message].mode == Ephemeral)
  {
    var start := p + [offer];
    assert start[..|start| - 1] == p;
    OfferIsRemembered(Exec(p, k), offer, k, f, until);
    OfferedKept(start, q, k, f);
    RunInvariant(start + q, k);
    SendCannotStore(Exec(start + q, k), k, send, f);
  }
}
