/** A run of the two stores after which a pass of the reconciler finishes none of the overdue deliveries:
    1000 deliveries that nobody acknowledged outlive their events, and one overdue delivery stands behind
    them. The worker loop (python/chat/worker.py:96-116) calls its cleanup before it reconciles, so
    outlived rows meet a pass only after a cleanup that failed or within one cleanup interval. */
module ReconciliationStarvation {
  import opened Wrappers
  import opened Persistence
  import opened Ordering
  import Voting
  import VotingRuns
  import opened RealtimeRedis
  import opened Messaging
  import opened Reconciliation
  import opened ReconciliationLaws
  import opened ReconciliationReach
  import opened Handshake

  const HOST: UserId := 0
  const GUEST: UserId := 1
  const ROOM: ConversationId := 0

  /** An ephemeral conversation accepted at time 0. */
  const CHAT: Conversation :=
    Voting.AcceptConversation(Conversation(Ephemeral, Pending, 5, 0, HOST, GUEST, Invited, Invited, None, []), 0)

  function Sealed(m: MessageId): Write {
    Write(m, ROOM, HOST, Content([], []))
  }

  /** The vote on the grace content is over, the host is online over `c` and the guest over the next socket. */
  ghost predicate Meeting(s: Sys, c: ConnectionId) {
    && ROOM in s.db.conversations && s.db.conversations[ROOM] == CHAT && s.now >= Voting.VOTE_WINDOW
    && Owns(s, HOST, c) && Owns(s, GUEST, c + 1)
    && c in s.redis.presence && Connected(s.redis, Some(c + 1), GUEST)
  }

  lemma ChatPermits(db: Db, user: UserId, now: Time)
    requires ROOM in db.conversations && db.conversations[ROOM] == CHAT && now >= Voting.VOTE_WINDOW
    requires user == HOST || user == GUEST
    ensures Permitted(db, user, ROOM, now) == None && InConversation(db, user, ROOM)
    ensures CHAT.mode == Ephemeral && CHAT.status == Active && BothPresent(CHAT) && Present(CHAT, HOST)
    ensures Present(CHAT, GUEST)
    ensures Peer(CHAT, HOST) == GUEST && !VoteOpen(CHAT, now) && !GraceExhausted(CHAT)
  {
  }

  // ---- One exchange: offer, ready, send, payload, and no acknowledgement -----------------

  function Proposed(now: Time, k: Timeouts): Attempt {
    Attempt(ROOM, HOST, GUEST, now + k.offer, Offered, None, None, now + RETENTION)
  }

  function Answered(now: Time, c: ConnectionId, k: Timeouts): Attempt {
    Proposed(now, k).(phase := ReadyToSend, connection := Some(c + 1))
  }

  function SentEvent(m: MessageId, at: Time): Event {
    Event(ROOM, HOST, at, at + EVENT_LIFE, Fingerprint(Sealed(m).content), Ephemeral)
  }

  function WaitingRow(at: Time, c: ConnectionId, k: Timeouts): Delivery {
    Delivery(GUEST, Waiting, None, Some(at + k.delivery), Some(c + 1))
  }

  lemma AfterOffer(s: Sys, c: ConnectionId, m: MessageId, k: Timeouts)
    requires Valid(k) && Meeting(s, c) && m !in s.db.events && m !in s.redis.attempts
    ensures var t := Step(s, Offer(HOST, c, m, ROOM), k);
            t == s.(redis := Create(s.redis, m, Proposed(s.now, k)), offered := t.offered)
  {
    ChatPermits(s.db, HOST, s.now);
    assert OfferTx(s.db, s.redis, HOST, m, ROOM, s.now, k)
        == Tx(s.db, [s.redis, Create(s.redis, m, Proposed(s.now, k))], Quiet);
  }

  lemma AfterReady(s: Sys, c: ConnectionId, m: MessageId, k: Timeouts)
    requires Valid(k) && Meeting(s, c) && Get(s.redis, m) == Some(Proposed(s.now, k))
    ensures var t := Step(s, Ready(GUEST, c + 1, m, ROOM), k);
            t == s.(redis := Save(s.redis, m, Answered(s.now, c, k)), readied := t.readied)
  {
    ChatPermits(s.db, GUEST, s.now);
    assert ReadyTx(s.db, s.redis, GUEST, c + 1, m, ROOM, s.now)
        == Tx(s.db, [s.redis, Save(s.redis, m, Answered(s.now, c, k))], Quiet);
  }

  /** The tables with the event and the row of one more message. */
  function WithMessage(db: Db, m: MessageId, at: Time, c: ConnectionId, k: Timeouts): Db {
    db.(events := db.events[m := SentEvent(m, at)], deliveries := db.deliveries[m := WaitingRow(at, c, k)])
  }

  lemma RecordedIs(db: Db, m: MessageId, c: ConnectionId, now: Time, k: Timeouts)
    requires ROOM in db.conversations && db.conversations[ROOM] == CHAT && now >= Voting.VOTE_WINDOW
    requires m !in db.events
    ensures var (outcome, recorded) := Record(db, Sealed(m), now, now);
            && outcome.Created? && m in recorded.deliveries && m in recorded.events
            && SetDeadline(recorded, m, c + 1, k.delivery) == WithMessage(db, m, now, c, k)
  {
    ChatPermits(db, HOST, now);
    var recorded := Record(db, Sealed(m), now, now).1;
    assert CHAT.(graceUsed := CHAT.graceUsed + 0) == CHAT;
    assert recorded.conversations == db.conversations;
    assert SetDeadline(recorded, m, c + 1, k.delivery).deliveries == db.deliveries[m := WaitingRow(now, c, k)];
  }

  lemma AfterSendFirst(s: Sys, c: ConnectionId, m: MessageId, k: Timeouts)
    requires Valid(k) && Meeting(s, c) && m !in s.db.events && Get(s.redis, m) == Some(Answered(s.now, c, k))
    ensures var t := Step(s, SendFirst(c, Sealed(m)), k);
            var a := SendingAttempt(Answered(s.now, c, k), s.now, k);
            t == s.(db := WithMessage(s.db, m, s.now, c, k), redis := Save(s.redis, m, a),
                    inflight := s.inflight[m := a], notices := t.notices)
  {
    ChatPermits(s.db, HOST, s.now);
    RecordedIs(s.db, m, c, s.now, k);
    assert PlanSend(s.db, s.redis, c, Sealed(m), s.now) == Proceed;
    var a := SendingAttempt(Answered(s.now, c, k), s.now, k);
    assert SendFirstTx(s.db, s.redis, c, Sealed(m), s.now, k)
        == (Tx(WithMessage(s.db, m, s.now, c, k), [s.redis, Save(s.redis, m, a)], Quiet), Some(a));
  }

  function SentAttempt(now: Time, c: ConnectionId, k: Timeouts): Attempt {
    SendingAttempt(Answered(now, c, k), now, k).(phase := Sent)
  }

  lemma AfterSendSecond(s: Sys, c: ConnectionId, m: MessageId, k: Timeouts)
    requires Valid(k) && Meeting(s, c)
    requires m in s.inflight && s.inflight[m] == SendingAttempt(Answered(s.now, c, k), s.now, k)
    requires m in s.db.events && s.db.events[m] == SentEvent(m, s.now)
    requires m in s.db.deliveries && s.db.deliveries[m] == WaitingRow(s.now, c, k)
    ensures var t := Step(s, SendSecond(m), k);
            && t == s.(redis := t.redis, inflight := s.inflight - {m})
            && t.redis.presence == s.redis.presence && t.redis.attempts.Keys == s.redis.attempts.Keys + {m}
            && Get(t.redis, m) == Some(SentAttempt(s.now, c, k))
            && HasPayload(t.redis, m, SentAttempt(s.now, c, k), s.now)
  {
    var a := s.inflight[m];
    var loaded := PutPayload(s.redis, m, a);
    assert SendSecondTx(s.db, s.redis, m, a, s.now)
        == Tx(s.db, [s.redis, loaded, Save(loaded, m, a.(phase := Sent))], Quiet);
  }

  /** One more unacknowledged message over the sockets of the meeting. */
  ghost predicate Exchanged(s: Sys, t: Sys, c: ConnectionId, m: MessageId, k: Timeouts) {
    && t.db == WithMessage(s.db, m, s.now, c, k) && t.now == s.now && t.owners == s.owners
    && t.redis.presence == s.redis.presence && t.redis.attempts.Keys == s.redis.attempts.Keys + {m}
    && Get(t.redis, m) == Some(SentAttempt(s.now, c, k)) && HasPayload(t.redis, m, SentAttempt(s.now, c, k), s.now)
  }

  lemma Extend(ls: seq<Label>, l: Label, k: Timeouts) returns (next: seq<Label>)
    ensures Exec(next, k) == Step(Exec(ls, k), l, k)
  {
    next := ls + [l];
    assert next[..|next| - 1] == ls;
  }

  lemma MeetingStays(s: Sys, t: Sys, c: ConnectionId)
    requires Meeting(s, c) && t.db.conversations == s.db.conversations && t.now == s.now
    requires t.owners == s.owners && t.redis.presence == s.redis.presence
    ensures Meeting(t, c)
  {
  }

  lemma Answer(ls: seq<Label>, c: ConnectionId, m: MessageId, k: Timeouts) returns (next: seq<Label>)
    requires var s := Exec(ls, k); Valid(k) && Meeting(s, c) && m !in s.db.events && m !in s.redis.attempts
    ensures var s, t := Exec(ls, k), Exec(next, k);
            && Meeting(t, c) && Get(t.redis, m) == Some(Answered(s.now, c, k))
            && t == s.(redis := t.redis, offered := t.offered, readied := t.readied)
            && t.redis.presence == s.redis.presence && t.redis.attempts.Keys == s.redis.attempts.Keys + {m}
    ensures var s := Exec(ls, k);
            Exec(next, k).redis == Save(Create(s.redis, m, Proposed(s.now, k)), m, Answered(s.now, c, k))
  {
    var s := Exec(ls, k);
    AfterOffer(s, c, m, k);
    var offered := Extend(ls, Offer(HOST, c, m, ROOM), k);
    MeetingStays(s, Exec(offered, k), c);
    AfterReady(Exec(offered, k), c, m, k);
    next := Extend(offered, Ready(GUEST, c + 1, m, ROOM), k);
    MeetingStays(s, Exec(next, k), c);
  }

  lemma Publication(ls: seq<Label>, c: ConnectionId, m: MessageId, k: Timeouts) returns (next: seq<Label>)
    requires var s := Exec(ls, k);
             Valid(k) && Meeting(s, c) && m !in s.db.events && Get(s.redis, m) == Some(Answered(s.now, c, k))
    ensures Exchanged(Exec(ls, k), Exec(next, k), c, m, k) && Meeting(Exec(next, k), c)
  {
    var s := Exec(ls, k);
    AfterSendFirst(s, c, m, k);
    var sent := Extend(ls, SendFirst(c, Sealed(m)), k);
    MeetingStays(s, Exec(sent, k), c);
    AfterSendSecond(Exec(sent, k), c, m, k);
    next := Extend(sent, SendSecond(m), k);
    MeetingStays(s, Exec(next, k), c);
  }

  lemma Exchange(ls: seq<Label>, c: ConnectionId, m: MessageId, k: Timeouts) returns (next: seq<Label>)
    requires var s := Exec(ls, k); Valid(k) && Meeting(s, c) && m !in s.db.events && m !in s.redis.attempts
    ensures Exchanged(Exec(ls, k), Exec(next, k), c, m, k) && Meeting(Exec(next, k), c)
  {
    var answered := Answer(ls, c, m, k);
    next := Publication(answered, c, m, k);
  }

  // ---- The run ----------------------------------------------------------------------

  /** The tables hold exactly the first `n` messages, sent at `at` over the sockets 0 and 1. */
  ghost predicate Crowd(db: Db, n: nat, at: Time, k: Timeouts) {
    && (forall m: MessageId :: m in db.events <==> m < n)
    && (forall m: MessageId :: m in db.deliveries <==> m < n)
    && (forall m :: m in db.events ==> db.events[m] == SentEvent(m, at))
    && (forall m :: m in db.deliveries ==> db.deliveries[m] == WaitingRow(at, 0, k))
  }

  lemma AdminIs(s: Sys, r: VotingRuns.Request, k: Timeouts)
    requires Instant(r, s.now)
    ensures Step(s, Admin(r), k) == s.(db := VotingRuns.Perform(s.db, r).1)
  {
  }

  lemma FlushIs(s: Sys, k: Timeouts)
    ensures Step(s, Flush, k) == s.(redis := LOST)
  {
  }

  lemma TickIs(s: Sys, to: Time, k: Timeouts)
    requires to >= s.now
    ensures Step(s, Tick(to), k) == s.(now := to)
  {
  }

  lemma ConnectIs(s: Sys, u: UserId, c: ConnectionId, k: Timeouts)
    requires c !in s.owners
    ensures Step(s, Connect(u, c), k)
         == s.(owners := s.owners[c := u], redis := s.redis.(presence := s.redis.presence[c := u]))
  {
  }

  const REDEEMED := VotingRuns.Redeem(ROOM, HOST, GUEST, Ephemeral, 5, 0)
  const ACCEPTED := VotingRuns.ChangeIt(HOST, ROOM, Voting.Accept, 0)

  lemma ChatOpens()
    ensures VotingRuns.Perform(VotingRuns.Perform(VotingRuns.EMPTY, REDEEMED).1, ACCEPTED).1
         == VotingRuns.EMPTY.(conversations := map[ROOM := CHAT])
  {
  }

  /** The host and the guest come online over `c` and the next socket at `at`. */
  lemma Meet(ls: seq<Label>, at: Time, c: ConnectionId, k: Timeouts) returns (next: seq<Label>)
    requires var s := Exec(ls, k);
             && ROOM in s.db.conversations && s.db.conversations[ROOM] == CHAT && at >= s.now
             && at >= Voting.VOTE_WINDOW
             && c !in s.owners && c + 1 !in s.owners
    ensures var s, t := Exec(ls, k), Exec(next, k);
            && Meeting(t, c) && t.db == s.db && t.now == at && t.redis.attempts == s.redis.attempts
            && t.notices == s.notices
            && t.owners.Keys == s.owners.Keys + {c, c + 1}
    ensures Exec(next, k).redis == Exec(ls, k).redis.(presence := Exec(next, k).redis.presence)
  {
    TickIs(Exec(ls, k), at, k);
    next := Extend(ls, Tick(at), k);
    ConnectIs(Exec(next, k), HOST, c, k);
    next := Extend(next, Connect(HOST, c), k);
    ConnectIs(Exec(next, k), GUEST, c + 1, k);
    next := Extend(next, Connect(GUEST, c + 1), k);
  }

  lemma OneMore(db: Db, n: nat, at: Time, k: Timeouts)
    requires Crowd(db, n, at, k)
    ensures Crowd(WithMessage(db, n, at, 0, k), n + 1, at, k)
  {
    var more := WithMessage(db, n, at, 0, k);
    forall m: MessageId
      ensures m in more.events <==> m < n + 1
      ensures m in more.deliveries <==> m < n + 1
    {
      assert m in more.events <==> m in db.events || m == n;
      assert m in more.deliveries <==> m in db.deliveries || m == n;
    }
  }

  lemma CrowdGrows(s: Sys, t: Sys, n: nat, k: Timeouts)
    requires Gathered(s, n, k) && Exchanged(s, t, 0, n, k) && Meeting(t, 0)
    ensures Gathered(t, n + 1, k)
  {
    OneMore(s.db, n, Voting.VOTE_WINDOW, k);
  }

  lemma NewcomerIsFresh(s: Sys, n: nat, k: Timeouts)
    requires Gathered(s, n, k)
    ensures Meeting(s, 0) && n !in s.db.events && n !in s.redis.attempts
  {
  }

  lemma NobodyGathered(s: Sys, k: Timeouts)
    requires Meeting(s, 0) && s.db == VotingRuns.EMPTY.(conversations := map[ROOM := CHAT])
    requires s.now == Voting.VOTE_WINDOW && s.redis.attempts == map[] && s.owners.Keys == {0, 1}
    ensures Gathered(s, 0, k)
  {
  }

  /** `n` messages into the first meeting. */
  ghost predicate Gathered(s: Sys, n: nat, k: Timeouts) {
    && Meeting(s, 0) && Crowd(s.db, n, Voting.VOTE_WINDOW, k)
    && s.now == Voting.VOTE_WINDOW && s.owners.Keys == {0, 1}
    && forall m :: m in s.redis.attempts ==> m < n
  }

  lemma Opening(k: Timeouts) returns (ls: seq<Label>)
    ensures Gathered(Exec(ls, k), 0, k)
    ensures Exec(ls, k).redis == LOST.(presence := Exec(ls, k).redis.presence)
  {
    AdminIs(START, REDEEMED, k);
    ls := Extend([], Admin(REDEEMED), k);
    AdminIs(Exec(ls, k), ACCEPTED, k);
    ls := Extend(ls, Admin(ACCEPTED), k);
    ChatOpens();
    ls := Meet(ls, Voting.VOTE_WINDOW, 0, k);
    NobodyGathered(Exec(ls, k), k);
  }

  lemma Another(before: seq<Label>, n: nat, k: Timeouts) returns (ls: seq<Label>)
    requires Valid(k) && Gathered(Exec(before, k), n, k)
    ensures Gathered(Exec(ls, k), n + 1, k)
  {
    NewcomerIsFresh(Exec(before, k), n, k);
    ls := Exchange(before, 0, n, k);
    CrowdGrows(Exec(before, k), Exec(ls, k), n, k);
  }

  lemma {:induction false} Crowding(n: nat, k: Timeouts) returns (ls: seq<Label>)
    requires Valid(k)
    ensures Gathered(Exec(ls, k), n, k)
  {
    if n == 0 {
      ls := Opening(k);
    } else {
      var before := Crowding(n - 1, k);
      ls := Another(before, n - 1, k);
    }
  }

  /** 30 days without a purge, a Redis that forgot everything, and a new meeting of the pair. */
  lemma NewMeeting(n: nat, k: Timeouts) returns (ls: seq<Label>)
    requires Valid(k)
    ensures var s := Exec(ls, k);
            && Meeting(s, 2) && Crowd(s.db, n, Voting.VOTE_WINDOW, k)
            && s.now == Voting.VOTE_WINDOW + EVENT_LIFE && s.redis.attempts == map[]
  {
    ls := Crowding(n, k);
    FlushIs(Exec(ls, k), k);
    ls := Extend(ls, Flush, k);
    ls := Meet(ls, Voting.VOTE_WINDOW + EVENT_LIFE, 2, k);
  }

  /** `n` outlived rows and, behind them, one that is due when its event is still alive. */
  ghost predicate Starved(db: Db, n: nat, k: Timeouts) {
    var first, second := Voting.VOTE_WINDOW, Voting.VOTE_WINDOW + EVENT_LIFE;
    && (forall m: MessageId :: m in db.events <==> m <= n)
    && (forall m: MessageId :: m in db.deliveries <==> m <= n)
    && (forall m :: m in db.events ==> db.events[m] == SentEvent(m, if m < n then first else second))
    && (forall m :: m in db.deliveries ==>
          db.deliveries[m] == if m < n then WaitingRow(first, 0, k) else WaitingRow(second, 2, k))
  }

  lemma CrowdStarves(s: Sys, t: Sys, n: nat, k: Timeouts)
    requires Crowd(s.db, n, Voting.VOTE_WINDOW, k) && s.now == Voting.VOTE_WINDOW + EVENT_LIFE
    requires Exchanged(s, t, 2, n, k)
    ensures Starved(t.db, n, k)
  {
  }

  lemma Starving(n: nat, k: Timeouts) returns (ls: seq<Label>)
    requires Valid(k)
    ensures var s := Exec(ls, k);
            Starved(s.db, n, k) && s.redis == LOST && s.now == Voting.VOTE_WINDOW + EVENT_LIFE + k.delivery
  {
    var met := NewMeeting(n, k);
    ls := Exchange(met, 2, n, k);
    CrowdStarves(Exec(met, k), Exec(ls, k), n, k);
    FlushIs(Exec(ls, k), k);
    ls := Extend(ls, Flush, k);
    TickIs(Exec(ls, k), Voting.VOTE_WINDOW + EVENT_LIFE + k.delivery, k);
    ls := Extend(ls, Tick(Voting.VOTE_WINDOW + EVENT_LIFE + k.delivery), k);
  }

  // ---- The pass ---------------------------------------------------------------------

  function CrowdKeys(n: nat, at: Time): set<Key> {
    set m: nat | m < n :: Key(1, at, m)
  }

  lemma {:induction false} CrowdSize(n: nat, at: Time)
    ensures |CrowdKeys(n, at)| == n
  {
    if n > 0 {
      CrowdSize(n - 1, at);
      assert CrowdKeys(n, at) == CrowdKeys(n - 1, at) + {Key(1, at, n - 1)};
    }
  }

  lemma StarvedRows(db: Db, now: Time, n: nat, k: Timeouts)
    requires Valid(k) && k.delivery < EVENT_LIFE && Starved(db, n, k)
    requires now == Voting.VOTE_WINDOW + EVENT_LIFE + k.delivery
    ensures Overdue(db, now) == {n}
    ensures CrowdKeys(n, Voting.VOTE_WINDOW + k.delivery) <= AheadOf(db, LOST, now, n)
  {
    forall m ensures m in Overdue(db, now) <==> m == n {
      if m in db.deliveries { assert m in db.events; }
      assert n in db.events && n in db.deliveries;
    }
    forall x | x in CrowdKeys(n, Voting.VOTE_WINDOW + k.delivery) ensures x in AheadOf(db, LOST, now, n) {
      AheadWhen(db, now, n, x.id, k);
    }
  }

  lemma AheadWhen(db: Db, now: Time, n: nat, m: MessageId, k: Timeouts)
    requires Starved(db, n, k) && m < n
    ensures n in db.deliveries && Key(1, Voting.VOTE_WINDOW + k.delivery, m) in AheadOf(db, LOST, now, n)
  {
    assert m in db.deliveries && m in db.events && n in db.deliveries;
    assert IsPending(db, m, None, None) && !Listed(LOST, m);
    assert RowKey(m, db.deliveries[m]) in LeftPending(db, LOST, now);
  }

  /** A pass need not finish min(1000, n) of n overdue deliveries: whatever the timeouts, some run leaves
      one overdue delivery of which the pass finishes none. */
  lemma OutlivedRowsCanStarve(k: Timeouts) returns (ls: seq<Label>)
    requires Valid(k) && k.delivery < EVENT_LIFE
    ensures var s := Exec(ls, k);
            && |Overdue(s.db, s.now)| == 1
            && FinishedOf(Overdue(s.db, s.now), Pass(s.db, s.redis, None, None, s.now).0) == {}
  {
    ls := Starving(PENDING_LIMIT, k);
    var s := Exec(ls, k);
    StarvedRows(s.db, s.now, PENDING_LIMIT, k);
    CrowdSize(PENDING_LIMIT, Voting.VOTE_WINDOW + k.delivery);
    SubsetSize(CrowdKeys(PENDING_LIMIT, Voting.VOTE_WINDOW + k.delivery), AheadOf(s.db, LOST, s.now, PENDING_LIMIT));
    PassFinishes(s.db, LOST, s.now, PENDING_LIMIT);
  }
}
