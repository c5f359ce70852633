/** What the invariant of VotingRuns gives over whole runs: a frozen electorate, ballots that
    freeze with the deadline, exact grace accounting, and content that stays purged. */
module VotingLaws {
  import opened Wrappers
  import opened Persistence
  import opened Voting
  import opened VotingRuns

  ghost predicate Accepted(db: Db, id: ConversationId) {
    id in db.conversations && db.conversations[id].votes != []
  }

  /** What one step may do to a vote: add ballots before the deadline, or settle it after. */
  ghost predicate VoteKept(v: Vote, w: Vote, from: Time) {
    && w.eligible == v.eligible && w.eligibleMembers == v.eligibleMembers
    && w.createdAt == v.createdAt && w.expiresAt == v.expiresAt
    && v.ballots.Items <= w.ballots.Items
    && (v.expiresAt <= from ==> w.ballots == v.ballots)
    && (v.status != VoteStatus.Open ==> w.status == v.status)
  }

  lemma ResolveKeeps(db: Db, id: ConversationId, other: ConversationId, index: nat, t: Time, now: Time, from: Time)
    requires Inv(db, now) && Accepted(db, id) && HasVote(db, other, index)
    ensures Accepted(ResolveVote(db, other, index, t), id)
    ensures VoteKept(db.conversations[id].votes[0], ResolveVote(db, other, index, t).conversations[id].votes[0], from)
  {
  }

  lemma VoteKeptTrans(u: Vote, v: Vote, w: Vote, from: Time)
    requires VoteKept(u, v, from) && VoteKept(v, w, from)
    ensures VoteKept(u, w, from)
  {
  }

  lemma CastKeeps(v: Vote, viewer: UserId, choice: bool, from: Time)
    requires v.status == VoteStatus.Open && v.expiresAt > from && viewer !in v.ballots
    ensures VoteKept(v, CastBallot(v, viewer, choice), from)
  {
  }

  lemma UpdateKeeps(db: Db, id: ConversationId, other: ConversationId, index: nat, w: Vote, from: Time)
    requires Accepted(db, id) && HasVote(db, other, index) && VoteKept(db.conversations[other].votes[index], w, from)
    ensures Accepted(UpdateVote(db, other, index, w), id)
    ensures VoteKept(db.conversations[id].votes[0], UpdateVote(db, other, index, w).conversations[id].votes[0], from)
  {
  }

  /** The part of an access that follows its first resolution. */
  lemma ResolvedAccessKeeps(read: Db, id: ConversationId, viewer: UserId, other: ConversationId, index: nat,
                            choice: Option<bool>, k: Clock)
    requires Inv(read, k.first) && Ordered(k) && Accepted(read, id) && HasVote(read, other, index)
    ensures var after := AccessResolved(read, viewer, other, index, choice, k).1;
            Accepted(after, id) && VoteKept(read.conversations[id].votes[0], after.conversations[id].votes[0], k.first)
  {
    var v := read.conversations[other].votes[index];
    if choice.Some? && viewer !in v.ballots {
      if v.status == VoteStatus.Open && v.expiresAt > k.ballot {
        CastKeeps(v, viewer, choice.value, k.first);
        UpdateKeeps(read, id, other, index, CastBallot(v, viewer, choice.value), k.first);
      } else {
        ResolveKeeps(read, id, other, index, k.late, k.first, k.first);
      }
    }
  }

  lemma AccessIs(db: Db, r: Request)
    requires r.AccessIt? && HasVote(db, r.id, r.index)
    ensures HasVote(ResolveVote(db, r.id, r.index, r.clock.first), r.id, r.index)
    ensures Perform(db, r).1 == db
         || Perform(db, r).1 == AccessResolved(ResolveVote(db, r.id, r.index, r.clock.first), r.user, r.id, r.index,
                                               r.choice, r.clock).1
  {
  }

  lemma VoteKeptSelf(v: Vote, from: Time)
    ensures VoteKept(v, v, from)
  {
  }

  lemma AccessKeeps(db: Db, id: ConversationId, r: Request, now: Time)
    requires r.AccessIt? && Inv(db, now) && WellTimed(r) && now <= Begin(r) && Accepted(db, id)
    ensures Accepted(Perform(db, r).1, id)
    ensures VoteKept(db.conversations[id].votes[0], Perform(db, r).1.conversations[id].votes[0], Begin(r))
  {
    if HasVote(db, r.id, r.index) {
      var read := ResolveVote(db, r.id, r.index, r.clock.first);
      InvResolve(db, r.id, r.index, r.clock.first, now);
      ResolveKeeps(db, id, r.id, r.index, r.clock.first, now, Begin(r));
      ResolvedAccessKeeps(read, id, r.user, r.id, r.index, r.choice, r.clock);
      var after := AccessResolved(read, r.user, r.id, r.index, r.choice, r.clock).1;
      AccessIs(db, r);
      VoteKeptTrans(db.conversations[id].votes[0], read.conversations[id].votes[0], after.conversations[id].votes[0],
                    Begin(r));
    }
    VoteKeptSelf(db.conversations[id].votes[0], Begin(r));
  }

  lemma WrittenKeeps(c: Conversation, user: UserId, t: Time, d: Conversation)
    requires Written(c, user, t, d) && c.votes != []
    ensures d.votes != [] && d.votes[0] == c.votes[0]
  {
  }

  lemma ChangeKeeps(db: Db, id: ConversationId, r: Request, now: Time)
    requires r.ChangeIt? && Inv(db, now) && now <= r.at && Accepted(db, id)
    ensures Accepted(Perform(db, r).1, id)
    ensures VoteKept(db.conversations[id].votes[0], Perform(db, r).1.conversations[id].votes[0], r.at)
  {
    var d := ChangeShape(db, r.user, r.id, r.action, r.at);
    if r.id in db.conversations {
      var c := db.conversations[r.id];
      if d == None && c.votes != [] {
        ResolveKeeps(db, id, r.id, LatestVote(c), r.at, now, r.at);
      } else if d.Some? && r.id == id && Written(c, r.user, r.at, d.value) {
        WrittenKeeps(c, r.user, r.at, d.value);
      }
    }
  }

  lemma SendKeeps(db: Db, id: ConversationId, w: Write, checkAt: Time, stampAt: Time)
    requires Accepted(db, id)
    ensures var after := Record(db, w, checkAt, stampAt).1;
            Accepted(after, id) && after.conversations[id].votes == db.conversations[id].votes
  {
  }

  lemma StepKeepsVote(db: Db, id: ConversationId, r: Request, now: Time)
    requires Inv(db, now) && WellTimed(r) && now <= Begin(r) && Accepted(db, id)
    ensures Accepted(Perform(db, r).1, id)
    ensures VoteKept(db.conversations[id].votes[0], Perform(db, r).1.conversations[id].votes[0], Begin(r))
  {
    match r {
      case Send(w, checkAt, stampAt) => SendKeeps(db, id, w, checkAt, stampAt);
      case AccessIt(_, _, _, _, _) => AccessKeeps(db, id, r, now);
      case Visit(other, index, at) =>
        if HasVote(db, other, index) { ResolveKeeps(db, id, other, index, at, now, at); }
      case ChangeIt(_, _, _, _) => ChangeKeeps(db, id, r, now);
      case _ =>
    }
  }

  /** From any point of a run on, the electorate and the deadline of a vote never change, ballots are
      only added, and once the deadline has passed neither the ballots nor the result can change. */
  lemma {:induction false} BallotsFreeze(p: seq<Request>, q: seq<Request>, id: ConversationId)
    requires Timed(p + q) && Accepted(Run(p), id)
    ensures Timed(p) && Accepted(Run(p + q), id)
    ensures VoteKept(Run(p).conversations[id].votes[0], Run(p + q).conversations[id].votes[0], Now(p))
    ensures Now(p) <= Now(p + q)
    ensures var v, w := Run(p).conversations[id].votes[0], Run(p + q).conversations[id].votes[0];
            v.expiresAt <= Now(p) ==> Result(w) == Result(v) && (w.status != VoteStatus.Open ==> w.status == Result(v))
  {
    if q == [] {
      assert p + q == p;
      RunInvariant(p);
      assert ConversationOk(Run(p).conversations[id], Now(p));
    } else {
      var m, r := q[..|q| - 1], q[|q| - 1];
      assert (p + q)[..|p + q| - 1] == p + m;
      BallotsFreeze(p, m, id);
      RunInvariant(p + m);
      StepKeepsVote(Run(p + m), id, r, Now(p + m));
      RunInvariant(p + q);
      assert ConversationOk(Run(p + q).conversations[id], Now(p + q));
    }
  }

  /** In every run no event is stamped strictly inside the 30 s after the acceptance, and stored content is
      grace exactly when it was recorded before the acceptance. */
  lemma WindowIsEmpty(rs: seq<Request>, m: MessageId)
    requires Timed(rs) && m in Run(rs).events
    ensures Run(rs).events[m].conversation in Run(rs).conversations
    ensures var db := Run(rs);
            var c, at := db.conversations[db.events[m].conversation], db.events[m].sentAt;
            && (c.acceptedAt.Some? ==> !(c.acceptedAt.value < at < c.acceptedAt.value + VOTE_WINDOW))
            && (m in db.messages ==> (db.messages[m].isGrace <==> c.acceptedAt == None || at <= c.acceptedAt.value))
  {
    RunInvariant(rs);
    assert EventOk(Run(rs), Run(rs).events[m], Now(rs));
    if m in Run(rs).messages { assert MessageOk(Run(rs), m); }
  }

  // ---- Grace accounting -------------------------------------------------------------

  predicate CreatesGrace(db: Db, r: Request, id: ConversationId) {
    && r.Send? && r.write.conversation == id && id in db.conversations && db.conversations[id].status == Pending
    && Record(db, r.write, r.checkAt, r.stampAt).0.Created?
  }

  /** How many events of the conversation the run recorded while it was still pending. */
  function GraceSends(rs: seq<Request>, id: ConversationId): nat {
    if rs == [] then 0
    else
      var p, r := rs[..|rs| - 1], rs[|rs| - 1];
      GraceSends(p, id) + if CreatesGrace(Run(p), r, id) then 1 else 0
  }

  function GraceUsed(db: Db, id: ConversationId): nat {
    if id in db.conversations then db.conversations[id].graceUsed else 0
  }

  lemma ResolveCountsNone(db: Db, other: ConversationId, index: nat, t: Time, id: ConversationId)
    requires HasVote(db, other, index)
    ensures GraceUsed(ResolveVote(db, other, index, t), id) == GraceUsed(db, id)
    ensures HasVote(ResolveVote(db, other, index, t), other, index)
  {
  }

  lemma AccessCountsNone(db: Db, user: UserId, other: ConversationId, index: nat, choice: Option<bool>, k: Clock,
                         id: ConversationId)
    ensures GraceUsed(Access(db, user, other, index, choice, k).1, id) == GraceUsed(db, id)
  {
    if HasVote(db, other, index) {
      ResolveCountsNone(db, other, index, k.first, id);
      ResolveCountsNone(ResolveVote(db, other, index, k.first), other, index, k.late, id);
    }
  }

  lemma ChangeCountsNone(db: Db, r: Request, id: ConversationId)
    requires r.ChangeIt?
    ensures GraceUsed(Perform(db, r).1, id) == GraceUsed(db, id)
  {
    var d := ChangeShape(db, r.user, r.id, r.action, r.at);
    if r.id in db.conversations && d == None && db.conversations[r.id].votes != [] {
      ResolveCountsNone(db, r.id, LatestVote(db.conversations[r.id]), r.at, id);
    }
  }

  lemma StepCountsGrace(db: Db, r: Request, id: ConversationId)
    ensures GraceUsed(Perform(db, r).1, id) == GraceUsed(db, id) + if CreatesGrace(db, r, id) then 1 else 0
  {
    match r {
      case AccessIt(user, other, index, choice, k) => AccessCountsNone(db, user, other, index, choice, k, id);
      case ChangeIt(_, _, _, _) => ChangeCountsNone(db, r, id);
      case Visit(other, index, at) => if HasVote(db, other, index) { ResolveCountsNone(db, other, index, at, id); }
      case _ =>
    }
  }

  /** The counter is exactly the number of events recorded while pending, whatever was purged since,
      and it never passes min(5, limit). */
  lemma {:induction false} GraceIsCounted(rs: seq<Request>, id: ConversationId)
    requires Timed(rs)
    ensures GraceUsed(Run(rs), id) == GraceSends(rs, id)
    ensures id in Run(rs).conversations ==>
              GraceSends(rs, id) <= Min(GRACE_CEILING, Run(rs).conversations[id].graceLimit)
  {
    if rs != [] {
      GraceIsCounted(rs[..|rs| - 1], id);
      StepCountsGrace(Run(rs[..|rs| - 1]), rs[|rs| - 1], id);
    }
    RunInvariant(rs);
    if id in Run(rs).conversations { assert ConversationOk(Run(rs).conversations[id], Now(rs)); }
  }

  // ---- Identifiers ------------------------------------------------------------------

  predicate CreatesEvent(db: Db, r: Request, m: MessageId) {
    r.Send? && r.write.id == m && Record(db, r.write, r.checkAt, r.stampAt).0.Created?
  }

  predicate RemovesEvent(db: Db, r: Request, m: MessageId) {
    r.Purge? && m in db.events && db.events[m].expiresAt <= r.at
  }

  function Creations(rs: seq<Request>, m: MessageId): nat {
    if rs == [] then 0
    else Creations(rs[..|rs| - 1], m) + if CreatesEvent(Run(rs[..|rs| - 1]), rs[|rs| - 1], m) then 1 else 0
  }

  function Removals(rs: seq<Request>, m: MessageId): nat {
    if rs == [] then 0
    else Removals(rs[..|rs| - 1], m) + if RemovesEvent(Run(rs[..|rs| - 1]), rs[|rs| - 1], m) then 1 else 0
  }

  /** The step leaves the event table alone, and adds no content. */
  ghost predicate EventsKept(a: Db, b: Db) {
    b.events == a.events && b.messages.Keys <= a.messages.Keys && a.conversations.Keys <= b.conversations.Keys
  }

  lemma ResolveOnEvents(db: Db, id: ConversationId, index: nat, t: Time)
    requires HasVote(db, id, index)
    ensures EventsKept(db, ResolveVote(db, id, index, t)) && HasVote(ResolveVote(db, id, index, t), id, index)
  {
  }

  lemma AccessOnEvents(db: Db, user: UserId, id: ConversationId, index: nat, choice: Option<bool>, k: Clock)
    ensures EventsKept(db, Access(db, user, id, index, choice, k).1)
  {
    if HasVote(db, id, index) {
      ResolveOnEvents(db, id, index, k.first);
      ResolveOnEvents(ResolveVote(db, id, index, k.first), id, index, k.late);
    }
  }

  lemma ChangeOnEvents(db: Db, user: UserId, id: ConversationId, action: Action, t: Time)
    ensures EventsKept(db, Change(db, user, id, action, t).1)
  {
    var d := ChangeShape(db, user, id, action, t);
    if id in db.conversations && db.conversations[id].votes != [] {
      ResolveOnEvents(db, id, LatestVote(db.conversations[id]), t);
    }
  }

  lemma StepOnEvents(db: Db, r: Request)
    requires !r.Send? && !r.Purge?
    ensures EventsKept(db, Perform(db, r).1)
  {
    match r {
      case AccessIt(user, id, index, choice, k) => AccessOnEvents(db, user, id, index, choice, k);
      case ChangeIt(user, id, action, at) => ChangeOnEvents(db, user, id, action, at);
      case Visit(id, index, at) => if HasVote(db, id, index) { ResolveOnEvents(db, id, index, at); }
      case _ =>
    }
  }

  /** Conservation: an identifier is recorded once per life of its event row, so between two
      purges of that row exactly once, however many retries arrive. */
  lemma {:induction false} RecordedOncePerLife(rs: seq<Request>, m: MessageId)
    ensures Creations(rs, m) == Removals(rs, m) + if m in Run(rs).events then 1 else 0
  {
    if rs != [] {
      var p, r := rs[..|rs| - 1], rs[|rs| - 1];
      RecordedOncePerLife(p, m);
      if !r.Send? && !r.Purge? { StepOnEvents(Run(p), r); }
    }
  }

  /** The event row of `m` is there at every point of the run from `p` to `p + q`. */
  ghost predicate RowLives(p: seq<Request>, q: seq<Request>, m: MessageId) {
    m in Run(p + q).events && (q != [] ==> RowLives(p, q[..|q| - 1], m))
  }

  lemma StepKeepsPurged(db: Db, r: Request, m: MessageId)
    requires m in db.events && m !in db.messages
    ensures m !in Perform(db, r).1.messages
    ensures m in Perform(db, r).1.events ==> Perform(db, r).1.events[m] == db.events[m]
  {
    if !r.Send? && !r.Purge? {
      StepOnEvents(db, r);
    }
  }

  /** Content deleted by a lost vote (or never stored) is not brought back by any retry
      while its event row lives, and the row itself never changes. */
  lemma {:induction false} PurgedStaysPurged(p: seq<Request>, q: seq<Request>, m: MessageId)
    requires RowLives(p, q, m) && m in Run(p).events && m !in Run(p).messages
    ensures m !in Run(p + q).messages
    ensures m in Run(p + q).events && Run(p + q).events[m] == Run(p).events[m]
  {
    if q == [] {
      assert p + q == p;
    } else {
      var mid := q[..|q| - 1];
      PurgedStaysPurged(p, mid, m);
      assert (p + q)[..|p + q| - 1] == p + mid;
      StepKeepsPurged(Run(p + mid), q[|q| - 1], m);
    }
  }

  /** The write that made the present event row of `m`, if there is one. */
  function Original(rs: seq<Request>, m: MessageId): Option<Write> {
    if rs == [] then None
    else
      var p, r := rs[..|rs| - 1], rs[|rs| - 1];
      if CreatesEvent(Run(p), r, m) then Some(r.write)
      else if RemovesEvent(Run(p), r, m) then None
      else Original(p, m)
  }

  lemma {:induction false} OriginalMadeTheRow(rs: seq<Request>, m: MessageId)
    ensures Original(rs, m).Some? <==> m in Run(rs).events
    ensures m in Run(rs).events ==>
              var e, w := Run(rs).events[m], Original(rs, m).value;
              w.id == m && e.conversation == w.conversation && e.sender == w.sender
              && e.fingerprint == Fingerprint(w.content) && w.conversation in Run(rs).conversations
  {
    if rs != [] {
      var p, r := rs[..|rs| - 1], rs[|rs| - 1];
      OriginalMadeTheRow(p, m);
      StepKeepsConversations(Run(p), r);
      if !r.Send? && !r.Purge? { StepOnEvents(Run(p), r); }
    }
  }

  lemma StepKeepsConversations(db: Db, r: Request)
    ensures db.conversations.Keys <= Perform(db, r).1.conversations.Keys
  {
    if !r.Send? && !r.Purge? { StepOnEvents(db, r); }
  }

  /** A retry while the row lives is accepted as a duplicate exactly when it repeats the original
      write, refused as a conflict otherwise, and changes nothing either way. */
  lemma RetryRepeatsOriginal(rs: seq<Request>, w: Write, checkAt: Time, stampAt: Time)
    requires w.id in Run(rs).events && w.conversation in Run(rs).conversations
    ensures var (outcome, after) := Record(Run(rs), w, checkAt, stampAt);
            after == Run(rs)
            && (outcome.Duplicate? <==> Original(rs, w.id) == Some(w))
            && (outcome.Conflict? <==> Original(rs, w.id) != Some(w))
  {
    OriginalMadeTheRow(rs, w.id);
  }
}
