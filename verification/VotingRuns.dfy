/** Whole runs of message writes, conversation changes, vote accesses, history reads,
    purges and worker visits over one database, and what holds in all of them. */
module VotingRuns {
  import opened Wrappers
  import opened Persistence
  import opened Voting

  datatype Request =
    | Redeem(id: ConversationId, host: UserId, guest: UserId, mode: Mode, graceLimit: nat, at: Time)
    | Send(write: Write, checkAt: Time, stampAt: Time)
    | ChangeIt(user: UserId, id: ConversationId, action: Action, at: Time)
    | AccessIt(user: UserId, id: ConversationId, index: nat, choice: Option<bool>, clock: Clock)
    | Read(user: UserId, id: ConversationId, at: Time)
    | Purge(at: Time)
    | Visit(id: ConversationId, index: nat, at: Time)

  datatype Answer =
    | Wrote(outcome: Outcome)
    | Replied(reply: Reply)
    | Listed(rows: map<MessageId, StoredContent>)
    | Nothing

  function Begin(r: Request): Time {
    match r
    case Send(_, checkAt, _) => checkAt
    case AccessIt(_, _, _, _, clock) => clock.first
    case _ => r.at
  }

  function End(r: Request): Time {
    match r
    case Send(_, _, stampAt) => stampAt
    case AccessIt(_, _, _, _, clock) => clock.late
    case _ => r.at
  }

  predicate WellTimed(r: Request) {
    match r
    case Send(_, checkAt, stampAt) => checkAt <= stampAt
    case AccessIt(_, _, _, _, clock) => Ordered(clock)
    case _ => true
  }

  /** Redeeming an invitation adds a pending conversation under a fresh identifier. */
  function Open(db: Db, id: ConversationId, host: UserId, guest: UserId, mode: Mode, graceLimit: nat): Db {
    if id in db.conversations || host == guest then db
    else db.(conversations := db.conversations[id :=
             Conversation(mode, Pending, graceLimit, 0, host, guest, Invited, Invited, None, [])])
  }

  function Perform(db: Db, r: Request): (Answer, Db) {
    match r
    case Redeem(id, host, guest, mode, limit, _) => (Nothing, Open(db, id, host, guest, mode, limit))
    case Send(w, checkAt, stampAt) =>
      var (outcome, after) := Record(db, w, checkAt, stampAt);
      (Wrote(outcome), after)
    case ChangeIt(user, id, action, at) =>
      var (reply, after) := Change(db, user, id, action, at);
      (Replied(reply), after)
    case AccessIt(user, id, index, choice, clock) =>
      var (reply, after) := Access(db, user, id, index, choice, clock);
      (Replied(reply), after)
    case Read(user, id, at) => (Listed(History(db, id, user, at)), db)
    case Purge(at) => (Nothing, Cleanup(db, at))
    case Visit(id, index, at) => (Nothing, WorkerVisit(db, id, index, at))
  }

  const EMPTY := Db(map[], map[], map[], map[])

  function Run(rs: seq<Request>): Db {
    if rs == [] then EMPTY else Perform(Run(rs[..|rs| - 1]), rs[|rs| - 1]).1
  }

  /** The clock after a run that started at zero. */
  function Now(rs: seq<Request>): Time {
    if rs == [] then 0 else End(rs[|rs| - 1])
  }

  /** One nondecreasing clock read by every request in turn. */
  predicate Timed(rs: seq<Request>) {
    rs != [] ==>
      var r := rs[|rs| - 1];
      Timed(rs[..|rs| - 1]) && WellTimed(r) && Now(rs[..|rs| - 1]) <= Begin(r)
  }

  // ---- The invariant ----------------------------------------------------------------

  ghost predicate VoteOk(c: Conversation, v: Vote, now: Time) {
    && c.acceptedAt.Some?
    && v.eligible == {c.host, c.guest} && v.eligibleMembers == 2 && v.ballots.Keys <= v.eligible
    && v.createdAt == c.acceptedAt.value && v.expiresAt == v.createdAt + VOTE_WINDOW
    && (v.status == VoteStatus.Open ==> v.closedAt == None)
    && (v.status != VoteStatus.Open ==> v.expiresAt <= now && v.status == Result(v) && v.closedAt == Some(v.expiresAt))
  }

  ghost predicate ConversationOk(c: Conversation, now: Time) {
    && c.host != c.guest
    && (c.status == Pending ==> c.acceptedAt == None)
    && (c.status == Active ==> c.acceptedAt.Some?)
    && |c.votes| == (if c.acceptedAt.Some? then 1 else 0)
    && (c.acceptedAt.Some? ==> c.acceptedAt.value <= now && VoteOk(c, c.votes[0], now))
    && c.graceUsed <= Min(GRACE_CEILING, c.graceLimit)
  }

  /** No message is stamped strictly inside the 30 s that follow the acceptance. */
  ghost predicate OutsideWindow(c: Conversation, sentAt: Time) {
    c.acceptedAt.Some? ==> sentAt <= c.acceptedAt.value || sentAt >= c.acceptedAt.value + VOTE_WINDOW
  }

  ghost predicate BeforeAcceptance(c: Conversation, sentAt: Time) {
    c.acceptedAt.Some? ==> sentAt <= c.acceptedAt.value
  }

  ghost predicate EventOk(db: Db, e: Event, now: Time) {
    && e.conversation in db.conversations
    && e.sentAt <= now && e.expiresAt == e.sentAt + EVENT_LIFE
    && OutsideWindow(db.conversations[e.conversation], e.sentAt)
  }

  ghost predicate MessageOk(db: Db, m: MessageId) {
    && m in db.messages && m in db.events && db.events[m].mode == Stored
    && db.events[m].conversation in db.conversations
    && var c := db.conversations[db.events[m].conversation];
    && db.messages[m].expiresAt == db.events[m].expiresAt
    && db.events[m].fingerprint == Fingerprint(db.messages[m].content)
    && (db.messages[m].isGrace <==> BeforeAcceptance(c, db.events[m].sentAt))
    && !(db.messages[m].isGrace && c.votes != [] && c.votes[0].status == Rejected)
  }

  ghost predicate Inv(db: Db, now: Time) {
    && (forall id :: id in db.conversations ==> ConversationOk(db.conversations[id], now))
    && (forall m :: m in db.events ==> EventOk(db, db.events[m], now))
    && (forall m :: m in db.messages ==> MessageOk(db, m))
    && db.deliveries.Keys == db.events.Keys
  }

  lemma InvLater(db: Db, now: Time, later: Time)
    requires Inv(db, now) && now <= later
    ensures Inv(db, later)
  {
    forall id | id in db.conversations ensures ConversationOk(db.conversations[id], later) {
      assert ConversationOk(db.conversations[id], now);
    }
    forall m | m in db.events ensures EventOk(db, db.events[m], later) {
      assert EventOk(db, db.events[m], now);
    }
  }

  lemma PairSize(a: UserId, b: UserId)
    requires a != b
    ensures |{a, b}| == 2
  {
  }

  /** A conversation that changes only in ways the rest of the tables allow. */
  ghost predicate Succeeds(c: Conversation, d: Conversation) {
    && (c.acceptedAt.Some? ==> d.acceptedAt == c.acceptedAt)
    && (c.votes != [] ==> d.votes != [] && d.votes[0].status == c.votes[0].status)
    && (c.votes == [] && d.votes != [] ==> d.votes[0].status == VoteStatus.Open)
  }

  /** Replacing one conversation keeps the invariant when it starts no window in the past. */
  lemma InvReplace(db: Db, id: ConversationId, d: Conversation, now: Time)
    requires Inv(db, now) && id in db.conversations
    requires ConversationOk(d, now) && Succeeds(db.conversations[id], d)
    requires db.conversations[id].acceptedAt == None && d.acceptedAt.Some? ==> d.acceptedAt.value == now
    ensures Inv(db.(conversations := db.conversations[id := d]), now)
  {
    var after := db.(conversations := db.conversations[id := d]);
    forall m | m in db.events ensures EventOk(after, after.events[m], now) {
      assert EventOk(db, db.events[m], now);
    }
    forall m | m in db.messages ensures MessageOk(after, m) {
      assert MessageOk(db, m) && EventOk(db, db.events[m], now);
    }
  }

  lemma InvResolve(db: Db, id: ConversationId, index: nat, t: Time, now: Time)
    requires Inv(db, now) && HasVote(db, id, index) && now <= t
    ensures Inv(ResolveVote(db, id, index, t), t)
  {
    InvLater(db, now, t);
    var c := db.conversations[id];
    assert ConversationOk(c, t);
    var v := c.votes[index];
    if Due(v, t) {
      var after := ResolveVote(db, id, index, t);
      var d := after.conversations[id];
      assert d.votes[0] == Resolved(v, t);
      assert ConversationOk(d, t);
      forall m | m in after.events ensures EventOk(after, after.events[m], t) {
        assert EventOk(db, db.events[m], t);
      }
      forall m | m in after.messages ensures MessageOk(after, m) {
        assert MessageOk(db, m);
      }
    }
  }

  lemma InvRecord(db: Db, w: Write, checkAt: Time, stampAt: Time, now: Time)
    requires Inv(db, now) && now <= checkAt <= stampAt
    ensures Inv(Record(db, w, checkAt, stampAt).1, stampAt)
  {
    InvLater(db, now, stampAt);
    var (outcome, after) := Record(db, w, checkAt, stampAt);
    if outcome.Created? {
      var c := db.conversations[w.conversation];
      assert ConversationOk(c, now);
      assert c.acceptedAt.Some? ==> c.votes[0] in c.votes;
      assert OutsideWindow(c, stampAt);
      forall id | id in after.conversations ensures ConversationOk(after.conversations[id], stampAt) {
        assert ConversationOk(db.conversations[id], stampAt);
      }
      forall m | m in after.events ensures EventOk(after, after.events[m], stampAt) {
        if m != w.id { assert EventOk(db, db.events[m], stampAt); }
      }
      forall m | m in after.messages ensures MessageOk(after, m) {
        if m in db.messages { assert MessageOk(db, m); }
      }
    }
  }

  lemma InvAccept(db: Db, id: ConversationId, t: Time)
    requires Inv(db, t) && id in db.conversations
    requires db.conversations[id].status == Pending && BothPresent(db.conversations[id])
    ensures Inv(db.(conversations := db.conversations[id := AcceptConversation(db.conversations[id], t)]), t)
  {
    var c := db.conversations[id];
    assert ConversationOk(c, t);
    PairSize(c.host, c.guest);
    var d := AcceptConversation(c, t);
    assert d.votes[0].eligible == {c.host, c.guest};
    InvReplace(db, id, d, t);
  }

  /** The one conversation a change may write, other than by resolving its vote. */
  predicate Written(c: Conversation, user: UserId, t: Time, d: Conversation) {
    || d == LeaveConversation(c, user) || d == c.(status := Closed) || d == c.(mode := Stored)
    || (c.status == Pending && BothPresent(c) && d == AcceptConversation(c, t))
  }

  /** A change does nothing, resolves the latest vote, or writes one conversation. */
  lemma ChangeShape(db: Db, user: UserId, id: ConversationId, action: Action, t: Time) returns (d: Option<Conversation>)
    ensures var after := Change(db, user, id, action, t).1;
            || after == db
            || (id in db.conversations
                && if d == None
                   then db.conversations[id].votes != []
                        && after == ResolveVote(db, id, LatestVote(db.conversations[id]), t)
                   else Written(db.conversations[id], user, t, d.value)
                        && after == db.(conversations := db.conversations[id := d.value]))
  {
    d := None;
    if id in db.conversations {
      var c := db.conversations[id];
      match action {
        case Leave => d := Some(LeaveConversation(c, user));
        case Close => d := Some(c.(status := Closed));
        case Upgrade => d := Some(c.(mode := Stored));
        case Accept => if c.status == Pending { d := Some(AcceptConversation(c, t)); }
      }
    }
  }

  lemma InvChange(db: Db, user: UserId, id: ConversationId, action: Action, t: Time, now: Time)
    requires Inv(db, now) && now <= t
    ensures Inv(Change(db, user, id, action, t).1, t)
  {
    InvLater(db, now, t);
    if id in db.conversations && Member(db.conversations[id], user) {
      var c := db.conversations[id];
      assert ConversationOk(c, t);
      var after := Change(db, user, id, action, t).1;
      if after != db {
        match action {
          case Leave => InvReplace(db, id, LeaveConversation(c, user), t);
          case Close => InvReplace(db, id, c.(status := Closed), t);
          case Upgrade => InvReplace(db, id, c.(mode := Stored), t);
          case Accept =>
            if c.status == Pending { InvAccept(db, id, t); }
            else { InvResolve(db, id, LatestVote(c), t, now); }
        }
      }
    }
  }

  lemma InvAccess(db: Db, user: UserId, id: ConversationId, index: nat, choice: Option<bool>, k: Clock, now: Time)
    requires Inv(db, now) && now <= k.first && Ordered(k)
    ensures Inv(Access(db, user, id, index, choice, k).1, k.late)
  {
    InvLater(db, now, k.late);
    if HasVote(db, id, index) {
      InvResolve(db, id, index, k.first, now);
      var read := ResolveVote(db, id, index, k.first);
      InvLater(read, k.first, k.late);
      InvResolve(read, id, index, k.late, k.first);
      var c := read.conversations[id];
      assert ConversationOk(db.conversations[id], now) && ConversationOk(c, k.late);
      var v := c.votes[index];
      if choice.Some? && user in v.eligible && v.status == VoteStatus.Open && v.expiresAt > k.ballot {
        var d := c.(votes := c.votes[index := CastBallot(v, user, choice.value)]);
        assert VoteOk(d, d.votes[0], k.late);
        InvReplace(read, id, d, k.late);
      }
    }
  }

  lemma InvPurge(db: Db, t: Time, now: Time)
    requires Inv(db, now) && now <= t
    ensures Inv(Cleanup(db, t), t)
  {
    InvLater(db, now, t);
    var after := Cleanup(db, t);
    forall m | m in after.events ensures EventOk(after, after.events[m], t) {
      assert EventOk(db, db.events[m], t);
    }
    forall m | m in after.messages ensures MessageOk(after, m) {
      assert MessageOk(db, m);
    }
  }

  lemma InvOpen(db: Db, r: Request, now: Time)
    requires r.Redeem? && Inv(db, now) && now <= r.at
    ensures Inv(Perform(db, r).1, r.at)
  {
    InvLater(db, now, r.at);
    var after := Perform(db, r).1;
    forall m | m in after.events ensures EventOk(after, after.events[m], r.at) {
      assert EventOk(db, db.events[m], r.at);
    }
    forall m | m in after.messages ensures MessageOk(after, m) {
      assert MessageOk(db, m);
    }
  }

  lemma InvPerform(db: Db, r: Request, now: Time)
    requires Inv(db, now) && WellTimed(r) && now <= Begin(r)
    ensures Inv(Perform(db, r).1, End(r))
  {
    match r {
      case Redeem(_, _, _, _, _, _) => InvOpen(db, r, now);
      case Send(w, checkAt, stampAt) => InvRecord(db, w, checkAt, stampAt, now);
      case ChangeIt(user, id, action, at) => InvChange(db, user, id, action, at, now);
      case AccessIt(user, id, index, choice, clock) => InvAccess(db, user, id, index, choice, clock, now);
      case Read(_, _, at) => InvLater(db, now, at);
      case Purge(at) => InvPurge(db, at, now);
      case Visit(id, index, at) =>
        InvLater(db, now, at);
        if HasVote(db, id, index) { InvResolve(db, id, index, at, now); }
    }
  }

  /** In every run: the vote window is empty, grace rows are exactly the stored ones from before
      the acceptance, and an accepted conversation has one vote, of both members, 30 s long. */
  lemma {:induction false} RunInvariant(rs: seq<Request>)
    requires Timed(rs)
    ensures Inv(Run(rs), Now(rs))
  {
    if rs != [] {
      RunInvariant(rs[..|rs| - 1]);
      InvPerform(Run(rs[..|rs| - 1]), rs[|rs| - 1], Now(rs[..|rs| - 1]));
    }
  }
}
