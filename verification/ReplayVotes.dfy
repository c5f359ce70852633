/** The votes a room is shown come from one server: a rejection stands by itself, so the relay and the room
    together merge a replay whole or not at all. */
module ReplayVotes {
  import opened Wrappers
  import opened Persistence
  import Voting
  import VotingRuns
  import VotingLaws
  import opened Replay
  import opened ReplayLaws
  import opened ReplayRoom
  import opened ReplayMerge

  type Request = VotingRuns.Request

  /** What the server shows of the vote of a conversation; a conversation has at most one. */
  function Shown(db: Db, id: ConversationId): Option<VoteView> {
    if id in db.conversations && db.conversations[id].votes != []
    then Some(VoteView(id, db.conversations[id].votes[0].status)) else None
  }

  /** A read of the vote answers with what the server shows once the read is done. */
  lemma AnswerIsShown(db: Db, user: UserId, id: ConversationId, k: Voting.Clock)
    requires id in db.conversations && |db.conversations[id].votes| <= 1
    ensures var (reply, after) := Voting.Access(db, user, id, 0, None, k);
            reply.Ballot? ==> Shown(after, id) == Some(VoteView(id, reply.vote.status))
  {
  }

  /** The server had answered `steps` requests when it read the vote at `readAt`; the room applied the
      answer at `appliedAt`. */
  datatype Reading = Reading(steps: nat, readAt: Time, appliedAt: Time)

  /** The view is what the server showed then, and reached the room within the 30 s of a vote: the browser
      gives a request up after 15 s. */
  ghost predicate Served(rs: seq<Request>, id: ConversationId, view: Option<VoteView>, x: Reading) {
    && x.steps <= |rs| && view == Shown(VotingRuns.Run(rs[..x.steps]), id)
    && VotingRuns.Now(rs[..x.steps]) <= x.readAt <= x.appliedAt < x.readAt + Voting.VOTE_WINDOW
    && (x.steps < |rs| ==> x.readAt <= VotingRuns.Begin(rs[x.steps]))
  }

  /** In particular the answer to a read of the vote was served, when it is applied in time. */
  lemma ReadIsServed(rs: seq<Request>, id: ConversationId, user: UserId, k: Voting.Clock, r: Voting.Reply,
                     appliedAt: Time)
    requires VotingRuns.Timed(rs) && rs != [] && rs[|rs| - 1] == VotingRuns.AccessIt(user, id, 0, None, k)
    requires r == Voting.Access(VotingRuns.Run(rs[..|rs| - 1]), user, id, 0, None, k).0 && r.Ballot?
    requires k.late <= appliedAt < k.late + Voting.VOTE_WINDOW
    ensures Served(rs, id, Some(VoteView(id, r.vote.status)), Reading(|rs|, k.late, appliedAt))
  {
    var p := rs[..|rs| - 1];
    VotingRuns.RunInvariant(p);
    assert VotingRuns.ConversationOk(VotingRuns.Run(p).conversations[id], VotingRuns.Now(p));
    AnswerIsShown(VotingRuns.Run(p), user, id, k);
    assert rs[..|rs|] == rs;
  }

  /** Every view in the events was served by the run, in whatever order the answers arrived. */
  ghost predicate AllServed(rs: seq<Request>, id: ConversationId, es: seq<ReplayMerge.Event>, readings: seq<Reading>) {
    && |readings| == |es|
    && (forall i :: 0 <= i < |es| && es[i].Voted? ==> Served(rs, id, es[i].view, readings[i]))
    && (forall i, j :: 0 <= i <= j < |es| && es[i].Voted? && es[j].Voted? ==>
            readings[i].appliedAt <= readings[j].appliedAt)
  }

  // ---- What two readings of one run may show ------------------------------------------------------

  lemma {:induction false} TimedPrefix(p: seq<Request>, q: seq<Request>)
    requires VotingRuns.Timed(p + q)
    ensures VotingRuns.Timed(p)
    ensures VotingRuns.Now(p) <= VotingRuns.Now(p + q)
    ensures q != [] ==> VotingRuns.Now(p) <= VotingRuns.Begin(q[0]) <= VotingRuns.Now(p + q)
  {
    if q == [] {
      assert p + q == p;
    } else {
      var m := q[..|q| - 1];
      assert (p + q)[..|p + q| - 1] == p + m;
      TimedPrefix(p, m);
      if m == [] { assert p + m == p; } else { assert m[0] == q[0]; }
    }
  }

  lemma StepAccepts(db: Db, id: ConversationId, r: Request, now: Time)
    requires VotingRuns.Inv(db, now) && VotingRuns.WellTimed(r) && now <= VotingRuns.Begin(r)
    requires Shown(db, id) == None && Shown(VotingRuns.Perform(db, r).1, id).Some?
    ensures VotingRuns.Perform(db, r).1.conversations[id].votes[0].expiresAt == VotingRuns.Begin(r) + Voting.VOTE_WINDOW
  {
    match r {
      case ChangeIt(user, other, action, at) =>
        var d := VotingRuns.ChangeShape(db, user, other, action, at);
      case AccessIt(user, other, index, choice, k) => AccessAcceptsNone(db, user, other, index, choice, k, id);
      case _ =>
    }
  }

  lemma AccessAcceptsNone(db: Db, user: UserId, other: ConversationId, index: nat, choice: Option<bool>,
                          k: Voting.Clock, id: ConversationId)
    requires Shown(db, id) == None
    ensures Shown(Voting.Access(db, user, other, index, choice, k).1, id) == None
  {
  }

  lemma BeginsLater(p: seq<Request>, q: seq<Request>, at: Time)
    requires VotingRuns.Timed(p + q) && q != [] && at <= VotingRuns.Begin(q[0])
    ensures at <= VotingRuns.Begin(q[|q| - 1])
  {
    var m := q[..|q| - 1];
    assert (p + q)[..|p + q| - 1] == p + m;
    if m != [] {
      TimedPrefix(p, m);
      assert m[0] == q[0];
    }
  }

  lemma Joined(p: seq<Request>, m: seq<Request>)
    ensures m == [] ==> p + m == p
  {
  }

  /** A vote that a run opens after some point ends at least 30 s after it. */
  lemma {:induction false} LaterVoteEndsLater(p: seq<Request>, q: seq<Request>, id: ConversationId, at: Time)
    requires VotingRuns.Timed(p + q) && Shown(VotingRuns.Run(p), id) == None && Shown(VotingRuns.Run(p + q), id).Some?
    requires q != [] && at <= VotingRuns.Begin(q[0])
    ensures VotingRuns.Run(p + q).conversations[id].votes[0].expiresAt >= at + Voting.VOTE_WINDOW
  {
    var m, r := q[..|q| - 1], q[|q| - 1];
    assert (p + q)[..|p + q| - 1] == p + m;
    Joined(p, m);
    VotingRuns.RunInvariant(p + m);
    if Shown(VotingRuns.Run(p + m), id).Some? {
      LaterVoteEndsLater(p, m, id, at);
      VotingLaws.StepKeepsVote(VotingRuns.Run(p + m), id, r, VotingRuns.Now(p + m));
    } else {
      BeginsLater(p, q, at);
      StepAccepts(VotingRuns.Run(p + m), id, r, VotingRuns.Now(p + m));
    }
  }

  lemma Slices(rs: seq<Request>, i: nat, j: nat)
    requires i <= j <= |rs|
    ensures rs == rs[..j] + rs[j..] && rs[..j] == rs[..i] + rs[i..j]
  {
  }

  lemma Between(rs: seq<Request>, i: nat, j: nat)
    requires VotingRuns.Timed(rs) && i <= j <= |rs|
    ensures rs[..j] == rs[..i] + rs[i..j]
    ensures VotingRuns.Timed(rs[..i]) && VotingRuns.Timed(rs[..j])
    ensures VotingRuns.Now(rs[..i]) <= VotingRuns.Now(rs[..j])
  {
    Slices(rs, i, j);
    var p, q, rest := rs[..i], rs[i..j], rs[j..];
    TimedPrefix(p + q, rest);
    TimedPrefix(p, q);
  }

  lemma SettledIsOver(rs: seq<Request>, id: ConversationId)
    requires VotingRuns.Timed(rs) && GraceRejected(Shown(VotingRuns.Run(rs), id))
    ensures VotingRuns.Run(rs).conversations[id].votes[0].expiresAt <= VotingRuns.Now(rs)
  {
    VotingRuns.RunInvariant(rs);
    assert VotingRuns.ConversationOk(VotingRuns.Run(rs).conversations[id], VotingRuns.Now(rs));
  }

  lemma LaterReading(rs: seq<Request>, id: ConversationId, i: nat, j: nat)
    requires VotingRuns.Timed(rs) && i <= j <= |rs| && Shown(VotingRuns.Run(rs[..i]), id).Some?
    ensures Shown(VotingRuns.Run(rs[..j]), id).Some?
    ensures var v, w := Shown(VotingRuns.Run(rs[..i]), id).value.status,
            Shown(VotingRuns.Run(rs[..j]), id).value.status;
            v == Open || w == v
  {
    Between(rs, i, j);
    VotingLaws.BallotsFreeze(rs[..i], rs[i..j], id);
  }

  /** Once an answer showed the vote rejected, no answer applied later shows none or another result. */
  lemma RejectionIsFinal(rs: seq<Request>, id: ConversationId, v: Option<VoteView>, x: Reading, w: Option<VoteView>,
                         y: Reading)
    requires VotingRuns.Timed(rs) && Served(rs, id, v, x) && Served(rs, id, w, y)
    requires GraceRejected(v) && x.appliedAt <= y.appliedAt
    ensures !Withdraws(v.value, w)
  {
    if x.steps <= y.steps {
      LaterReading(rs, id, x.steps, y.steps);
    } else if w.Some? {
      LaterReading(rs, id, y.steps, x.steps);
    } else {
      Between(rs, y.steps, x.steps);
      var q := rs[y.steps..x.steps];
      assert q[0] == rs[y.steps];
      LaterVoteEndsLater(rs[..y.steps], q, id, y.readAt);
      SettledIsOver(rs[..x.steps], id);
    }
  }

  // ---- The room ----------------------------------------------------------------------------------

  lemma {:induction false} VoteWasApplied(r: Room, es: seq<ReplayMerge.Event>) returns (j: nat)
    requires r.vote == None && Play(r, es).vote.Some?
    ensures j < |es| && es[j].Voted? && es[j].view == Play(r, es).vote
  {
    var init, e := es[..|es| - 1], es[|es| - 1];
    if Play(r, es).vote == Play(r, init).vote {
      j := VoteWasApplied(r, init);
    } else {
      j := |init|;
    }
  }

  /** In a room that began without a vote, a rejection stands under every answer of the server. */
  lemma ServedVotesStand(rs: seq<Request>, id: ConversationId, r: Room, es: seq<ReplayMerge.Event>,
                         readings: seq<Reading>)
    requires VotingRuns.Timed(rs) && r.vote == None && AllServed(rs, id, es, readings)
    ensures AllStand(r, es)
  {
    forall i | 0 <= i < |es| ensures Stands(Play(r, es[..i]), es[i]) {
      var before := Play(r, es[..i]);
      if GraceRejected(before.vote) && es[i].Voted? {
        var j := VoteWasApplied(r, es[..i]);
        RejectionIsFinal(rs, id, es[j].view, readings[j], es[i].view, readings[i]);
        StandsUnlessWithdrawn(before, es[i].view);
      }
    }
  }

  lemma RunMore(rs: seq<Request>, r: Request) returns (more: seq<Request>)
    requires VotingRuns.Timed(rs) && VotingRuns.WellTimed(r) && VotingRuns.Now(rs) <= VotingRuns.Begin(r)
    ensures more == rs + [r] && VotingRuns.Timed(more) && VotingRuns.Now(more) == VotingRuns.End(r)
    ensures VotingRuns.Run(more) == VotingRuns.Perform(VotingRuns.Run(rs), r).1
  {
    more := rs + [r];
    assert more[..|more| - 1] == rs;
  }

  lemma UnvotedIsRejected(db: Db, id: ConversationId, c: Conversation)
    requires c.votes == [] && c.host != c.guest
    requires db.conversations == map[id := Voting.AcceptConversation(c, 0)]
    ensures GraceRejected(Shown(Voting.WorkerVisit(db, id, 0, Voting.VOTE_WINDOW), id))
  {
    var v := Voting.AcceptConversation(c, 0).votes[0];
    assert v.eligible == {c.host, c.guest} && v.eligibleMembers == |v.eligible|;
    VotingRuns.PairSize(c.host, c.guest);
    assert Voting.Result(v) == VoteStatus.Rejected;
  }

  /** The bound on the delay is sharp: some run accepts at 0 and rejects at 30 s, so an answer read at 0 and
      applied 30 s later withdraws the rejection. */
  lemma LateAnswerWithdraws() returns (rs: seq<Request>, early: seq<Request>)
    ensures VotingRuns.Timed(rs) && VotingRuns.Now(rs) == Voting.VOTE_WINDOW
    ensures early < rs && VotingRuns.Begin(rs[|early|]) == 0
    ensures var rejected, late := Shown(VotingRuns.Run(rs), 0), Shown(VotingRuns.Run(early), 0);
            GraceRejected(rejected) && Withdraws(rejected.value, late)
  {
    var c := Conversation(Stored, Pending, 5, 0, 0, 1, Invited, Invited, None, []);
    early := RunMore([], VotingRuns.Redeem(0, 0, 1, Stored, 5, 0));
    assert VotingRuns.Run(early).conversations == map[0 := c];
    var accepted := RunMore(early, VotingRuns.ChangeIt(0, 0, Voting.Accept, 0));
    assert VotingRuns.Run(accepted).conversations == map[0 := Voting.AcceptConversation(c, 0)];
    rs := RunMore(accepted, VotingRuns.Visit(0, 0, Voting.VOTE_WINDOW));
    UnvotedIsRejected(VotingRuns.Run(accepted), 0, c);
  }

  // ---- End to end ----------------------------------------------------------------------------------

  /** The event brings nothing under this replay that the relay did not publish for it. */
  ghost predicate RelayedEvent(e: ReplayMerge.Event, cs: seq<Call>, id: ReplayId) {
    e.Frames? && e.frame.replay == id ==> e.frame in FramesOf(Since(Exec(cs).log, id))
  }

  lemma RelayedIsGenuine(cs: seq<Call>, o: Origin, e: ReplayMerge.Event, id: ReplayId, xs: seq<Item>)
    requires Genuine(cs, id, o, xs) && RelayedEvent(e, cs, id)
    ensures GenuineEvent(e, id, xs)
  {
    RelayedIsPrefix(cs, id, o, xs);
    var fs := FramesOf(Since(Exec(cs).log, id));
    if e.Frames? && e.frame.replay == id {
      var i :| 0 <= i < |fs| && fs[i] == e.frame;
      assert Produced(id, xs)[i] == e.frame;
    }
  }

  /** End to end: through the relay, with any calls of any sockets and any loss behind it, and whatever the
      vote does meanwhile, the room merges exactly the list of the sender or nothing. */
  lemma EndToEnd(cs: seq<Call>, o: Origin, rs: seq<Request>, conversation: ConversationId, r: Room,
                 es: seq<ReplayMerge.Event>,
                 readings: seq<Reading>, e: ReplayMerge.Event, id: ReplayId, xs: seq<Item>)
    requires Genuine(cs, id, o, xs) && VotingRuns.Timed(rs)
    requires r.replay == None && r.vote == None
    requires AllServed(rs, conversation, es, readings) && forall i :: 0 <= i < |es| ==> RelayedEvent(es[i], cs, id)
    requires e.Frames? && e.frame.replay == id && RelayedEvent(e, cs, id)
    ensures var before, after := Play(r, es), Apply(Play(r, es), e);
            after.messages == before.messages || MergedAll(before, after, xs, Tracked(r, es, id).full)
  {
    forall i | 0 <= i < |es| ensures GenuineEvent(es[i], id, xs) { RelayedIsGenuine(cs, o, es[i], id, xs); }
    RelayedIsGenuine(cs, o, e, id, xs);
    ServedVotesStand(rs, conversation, r, es, readings);
    AllOrNothing(r, es, e, id, xs);
  }
}
