/** Two runs in which a client is told of a failure that the row contradicts, both after the event's life:
    a retry of a delivered message, and the repair of an attempt that outlived its event. */
module LateNotices {
  import opened Wrappers
  import opened Persistence
  import Voting
  import opened RealtimeRedis
  import opened Messaging
  import opened Reconciliation
  import opened Handshake
  import opened HandshakeRuns
  import opened ReconciliationStarvation

  /** Over the first meeting, message 0 was sent at `at` and nobody acknowledged it yet. */
  ghost predicate Delivering(s: Sys, at: Time, k: Timeouts) {
    && Meeting(s, 0) && s.now == at && s.db.events.Keys == {0}
    && 0 in s.db.events && s.db.events[0] == SentEvent(0, at)
    && 0 in s.db.deliveries && s.db.deliveries[0] == WaitingRow(at, 0, k)
    && Get(s.redis, 0) == Some(SentAttempt(at, 0, k)) && HasPayload(s.redis, 0, SentAttempt(at, 0, k), at)
    && 2 !in s.owners && 3 !in s.owners
  }

  lemma FirstMessage(k: Timeouts) returns (ls: seq<Label>)
    requires Valid(k)
    ensures Delivering(Exec(ls, k), Voting.VOTE_WINDOW, k)
  {
    ls := Opening(k);
    NewcomerIsFresh(Exec(ls, k), 0, k);
    ls := Exchange(ls, 0, 0, k);
  }

  // ---- A retry after the end of the event -------------------------------------------------

  lemma AfterAck(s: Sys, at: Time, k: Timeouts)
    requires Valid(k) && Delivering(s, at, k)
    ensures var l := Ack(GUEST, 1, 0, ROOM);
            var t := Step(s, l, k);
            && Guard(s, l) && t.db == Finish(s.db, 0, Delivered, at) && t.now == at && t.owners == s.owners
            && Told(DeliveredNotice(Some(at)), at) in Logged(t, 0)
  {
    ChatPermits(s.db, GUEST, at);
    assert AckRefused(s.db, s.redis, GUEST, 1, 0, ROOM, at) == None;
    CommitIs(s, k, Ack(GUEST, 1, 0, ROOM));
  }

  /** The message was delivered at `at`, and its sender was told. */
  ghost predicate DeliveredAt(s: Sys, at: Time) {
    && s.db.events.Keys == {0}
    && 0 in s.db.events && s.db.events[0] == SentEvent(0, at)
    && 0 in s.db.deliveries && s.db.deliveries[0].status == Delivered && s.db.deliveries[0].receivedAt == Some(at)
    && Told(DeliveredNotice(Some(at)), at) in Logged(s, 0)
    && ROOM in s.db.conversations && s.db.conversations[ROOM] == CHAT
  }

  lemma AckedIs(s: Sys, t: Sys, at: Time, k: Timeouts)
    requires Delivering(s, at, k) && t.db == Finish(s.db, 0, Delivered, at)
    requires Told(DeliveredNotice(Some(at)), at) in Logged(t, 0)
    ensures DeliveredAt(t, at)
  {
  }

  lemma FirstDelivery(k: Timeouts) returns (ls: seq<Label>)
    requires Valid(k)
    ensures var s := Exec(ls, k);
            DeliveredAt(s, Voting.VOTE_WINDOW) && s.now == Voting.VOTE_WINDOW && 2 !in s.owners && 3 !in s.owners
  {
    var sent := FirstMessage(k);
    AfterAck(Exec(sent, k), Voting.VOTE_WINDOW, k);
    ls := Extend(sent, Ack(GUEST, 1, 0, ROOM), k);
    AckedIs(Exec(sent, k), Exec(ls, k), Voting.VOTE_WINDOW, k);
  }

  lemma DeliveredStays(s: Sys, t: Sys, at: Time)
    requires DeliveredAt(s, at) && t.db == s.db && Logged(s, 0) <= Logged(t, 0)
    ensures DeliveredAt(t, at)
  {
  }

  /** The sender comes back when the event has just ended, and Redis has forgotten everything. */
  lemma Return(k: Timeouts) returns (ls: seq<Label>)
    requires Valid(k)
    ensures var s := Exec(ls, k);
            && DeliveredAt(s, Voting.VOTE_WINDOW) && Meeting(s, 2)
            && s.now == Voting.VOTE_WINDOW + EVENT_LIFE && s.redis.attempts == map[]
  {
    var acked := FirstDelivery(k);
    FlushIs(Exec(acked, k), k);
    ls := Extend(acked, Flush, k);
    ls := Meet(ls, Voting.VOTE_WINDOW + EVENT_LIFE, 2, k);
    DeliveredStays(Exec(acked, k), Exec(ls, k), Voting.VOTE_WINDOW);
  }

  lemma AfterRetry(s: Sys, at: Time, k: Timeouts)
    requires DeliveredAt(s, at) && Meeting(s, 2) && s.now == at + EVENT_LIFE && s.redis.attempts == map[]
    ensures var l := SendFirst(2, Sealed(0));
            var t := Step(s, l, k);
            && Guard(s, l) && t.db == s.db && Logged(s, 0) <= Logged(t, 0)
            && Told(FailedNotice(OfferTimeout), s.now) in Logged(t, 0)
  {
    ChatPermits(s.db, HOST, s.now);
    assert PlanSend(s.db, s.redis, 2, Sealed(0), s.now) == Halt(Notify(FailedNotice(OfferTimeout)));
    CommitIs(s, k, SendFirst(2, Sealed(0)));
  }

  /** Whatever the timeouts, some run tells the sender of one message that it was delivered, 30 days later
      that it failed, and keeps it as delivered. */
  lemma RetryAfterTheEnd(k: Timeouts) returns (ls: seq<Label>)
    requires Valid(k)
    ensures var s, at := Exec(ls, k), Voting.VOTE_WINDOW;
            && 0 in s.db.deliveries && s.db.deliveries[0].status == Delivered
            && Told(DeliveredNotice(Some(at)), at) in Logged(s, 0)
            && Told(FailedNotice(OfferTimeout), at + EVENT_LIFE) in Logged(s, 0)
  {
    var back := Return(k);
    AfterRetry(Exec(back, k), Voting.VOTE_WINDOW, k);
    ls := Extend(back, SendFirst(2, Sealed(0)), k);
    DeliveredStays(Exec(back, k), Exec(ls, k), Voting.VOTE_WINDOW);
  }

  /** No send is suspended any more: its row would not be delivered. */
  lemma NothingSuspended(ls: seq<Label>, k: Timeouts, at: Time)
    requires Valid(k) && DeliveredAt(Exec(ls, k), at)
    ensures Exec(ls, k).inflight == map[]
  {
    var s := Exec(ls, k);
    RunInvariant(ls, k);
    forall m | m in s.inflight ensures false { About(s, k, m); }
  }

  lemma AfterPurge(s: Sys, at: Time, k: Timeouts)
    requires DeliveredAt(s, at) && Meeting(s, 2) && s.now == at + EVENT_LIFE && s.inflight == map[]
    ensures var t := Step(s, Label.Purge, k);
            && t == s.(db := Cleanup(s.db, s.now)) && Meeting(t, 2)
            && 0 !in t.db.events && 0 !in t.db.deliveries && Logged(t, 0) == Logged(s, 0)
  {
  }

  lemma RefusedRetry(s: Sys, k: Timeouts)
    requires Meeting(s, 2) && s.redis.attempts == map[] && 0 !in s.db.events
    ensures var l := SendFirst(2, Sealed(0)); Guard(s, l) && TxOf(s, l, k).reply == Notify(FailedNotice(OfferTimeout))
  {
    ChatPermits(s.db, HOST, s.now);
    assert PlanSend(s.db, s.redis, 2, Sealed(0), s.now) == Halt(Notify(FailedNotice(OfferTimeout)));
  }

  /** The same when the row of the delivered message has been purged in between. */
  lemma RetryAfterThePurge(k: Timeouts) returns (ls: seq<Label>)
    requires Valid(k)
    ensures var s, l := Exec(ls, k), SendFirst(2, Sealed(0));
            && Told(DeliveredNotice(Some(Voting.VOTE_WINDOW)), Voting.VOTE_WINDOW) in Logged(s, 0)
            && 0 !in s.db.deliveries
            && Guard(s, l) && TxOf(s, l, k).reply == Notify(FailedNotice(OfferTimeout))
  {
    var back := Return(k);
    NothingSuspended(back, k, Voting.VOTE_WINDOW);
    AfterPurge(Exec(back, k), Voting.VOTE_WINDOW, k);
    ls := Extend(back, Label.Purge, k);
    RefusedRetry(Exec(ls, k), k);
  }

  // ---- A repair after the end of the event ------------------------------------------------

  lemma AfterRepair(s: Sys, at: Time, k: Timeouts)
    requires Valid(k) && s.now == at + EVENT_LIFE && Get(s.redis, 0) == Some(SentAttempt(at, 0, k))
    requires 0 in s.db.events && s.db.events[0] == SentEvent(0, at) && 0 in s.db.deliveries
    ensures var t := Step(s, Label.RepairAttempt(0, None), k);
            t.db == s.db && Told(FailedNotice(OfferTimeout), s.now) in Logged(t, 0)
  {
    assert State(s.db, 0, s.now) == None;
    assert RepairOf(s.db, s.redis, 0, s.redis.attempts[0], None, s.now) == Fail(OfferTimeout);
    CommitIs(s, k, Label.RepairAttempt(0, None));
  }

  /** And some run tells the sender that a message failed while its row still waits. */
  lemma RepairAfterTheEnd(k: Timeouts) returns (ls: seq<Label>)
    requires Valid(k)
    ensures var s := Exec(ls, k);
            && 0 in s.db.deliveries && s.db.deliveries[0].status == Waiting && State(s.db, 0, s.now) == None
            && Told(FailedNotice(OfferTimeout), s.now) in Logged(s, 0)
  {
    var at := Voting.VOTE_WINDOW;
    var sent := FirstMessage(k);
    TickIs(Exec(sent, k), at + EVENT_LIFE, k);
    var late := Extend(sent, Tick(at + EVENT_LIFE), k);
    AfterRepair(Exec(late, k), at, k);
    ls := Extend(late, Label.RepairAttempt(0, None), k);
    CommitIs(Exec(late, k), k, Label.RepairAttempt(0, None));
  }
}
