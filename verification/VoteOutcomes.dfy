/** What votes decide and what clients are told, said in terms of the requests that cast the ballots: who is
    counted, when both members win, which grace content is readable, and what every change answers. */
module VoteOutcomes {
  import opened Wrappers
  import opened Persistence
  import opened Ordering
  import opened Voting
  import opened VotingRuns
  import VotingLaws

  predicate Inside(c: Conversation, user: UserId) {
    (user == c.host && c.hostStatus != Left) || (user == c.guest && c.guestStatus != Left)
  }

  /** The end of the vote, 30 s after the acceptance. */
  predicate BeforeTheEnd(c: Conversation, t: Time) {
    c.acceptedAt.Some? && t < c.acceptedAt.value + 30_000
  }

  // ---- The ballots are the requests that cast them ------------------------------------------------

  /** The request casts a ballot of `user` in time: the insertion comes before the end, from a member. */
  predicate Casts(db: Db, r: Request, id: ConversationId, user: UserId) {
    && r.AccessIt? && r.id == id && r.user == user && r.index == 0 && r.choice.Some?
    && id in db.conversations && Inside(db.conversations[id], user)
    && BeforeTheEnd(db.conversations[id], r.clock.ballot)
  }

  /** The first choice that a member cast in time. */
  function BallotOf(rs: seq<Request>, id: ConversationId, user: UserId): Option<bool> {
    if rs == [] then None
    else
      var p, r := rs[..|rs| - 1], rs[|rs| - 1];
      var earlier := BallotOf(p, id, user);
      if earlier.Some? then earlier else if Casts(Run(p), r, id, user) then r.choice else None
  }

  function Ballots(db: Db, id: ConversationId): map<UserId, bool> {
    if id in db.conversations && db.conversations[id].votes != [] then db.conversations[id].votes[0].ballots else map[]
  }

  function BallotIn(ballots: map<UserId, bool>, user: UserId): Option<bool> {
    if user in ballots then Some(ballots[user]) else None
  }

  lemma ResolveKeepsBallots(db: Db, other: ConversationId, index: nat, t: Time, id: ConversationId)
    requires HasVote(db, other, index)
    ensures Ballots(ResolveVote(db, other, index, t), id) == Ballots(db, id)
    ensures HasVote(ResolveVote(db, other, index, t), other, index)
  {
  }

  lemma ChangeKeepsBallots(db: Db, r: Request, id: ConversationId, now: Time)
    requires r.ChangeIt? && Inv(db, now)
    ensures Ballots(Perform(db, r).1, id) == Ballots(db, id)
  {
    var d := ChangeShape(db, r.user, r.id, r.action, r.at);
    if r.id in db.conversations {
      var c := db.conversations[r.id];
      assert ConversationOk(c, now);
      if d == None && c.votes != [] { ResolveKeepsBallots(db, r.id, LatestVote(c), r.at, id); }
    }
  }

  lemma OtherRequestsKeepBallots(db: Db, r: Request, id: ConversationId, now: Time)
    requires !r.AccessIt? && Inv(db, now)
    ensures Ballots(Perform(db, r).1, id) == Ballots(db, id)
  {
    match r {
      case ChangeIt(_, _, _, _) => ChangeKeepsBallots(db, r, id, now);
      case Visit(other, index, at) => if HasVote(db, other, index) { ResolveKeepsBallots(db, other, index, at, id); }
      case _ =>
    }
  }

  /** An access adds the ballot it casts in time, unless its member has one, and changes no other ballot. */
  lemma AccessBallots(db: Db, r: Request, id: ConversationId, now: Time)
    requires r.AccessIt? && Inv(db, now) && WellTimed(r) && now <= r.clock.first
    ensures Ballots(Perform(db, r).1, id)
         == if Casts(db, r, id, r.user) && r.user !in Ballots(db, id)
            then Ballots(db, id)[r.user := r.choice.value] else Ballots(db, id)
  {
    if r.id in db.conversations {
      var c := db.conversations[r.id];
      assert ConversationOk(c, now);
      if HasVote(db, r.id, r.index) {
        var read := ResolveVote(db, r.id, r.index, r.clock.first);
        ResolveKeepsBallots(db, r.id, r.index, r.clock.first, id);
        ResolveKeepsBallots(read, r.id, r.index, r.clock.late, id);
        ResolvedStatus(db, r.id, r.clock.first, now);
      }
    }
  }

  lemma ResolvedStatus(db: Db, id: ConversationId, t: Time, now: Time)
    requires Inv(db, now) && HasVote(db, id, 0) && now <= t
    ensures var c, v := db.conversations[id], ResolveVote(db, id, 0, t).conversations[id].votes[0];
            && c.acceptedAt.Some? && v.eligible == {c.host, c.guest} && Supported(c.votes[0])
            && v.expiresAt == c.acceptedAt.value + 30_000
            && (v.status == VoteStatus.Open <==> BeforeTheEnd(c, t))
  {
    var c := db.conversations[id];
    assert ConversationOk(c, now);
    PairSize(c.host, c.guest);
  }

  /** In every run the ballots of a vote are exactly the first choices cast in time. */
  lemma {:induction false} BallotsAreCast(rs: seq<Request>, id: ConversationId, user: UserId)
    requires Timed(rs)
    ensures BallotIn(Ballots(Run(rs), id), user) == BallotOf(rs, id, user)
  {
    if rs != [] {
      var p, r := rs[..|rs| - 1], rs[|rs| - 1];
      BallotsAreCast(p, id, user);
      RunInvariant(p);
      if r.AccessIt? { AccessBallots(Run(p), r, id, Now(p)); } else { OtherRequestsKeepBallots(Run(p), r, id, Now(p)); }
    }
  }

  // ---- Counting ------------------------------------------------------------------------------------

  function Count(b: bool): nat { if b then 1 else 0 }

  /** How many of two members cast `choice`. */
  function CastBy(rs: seq<Request>, id: ConversationId, host: UserId, guest: UserId, choice: bool): nat {
    Count(BallotOf(rs, id, host) == Some(choice)) + Count(BallotOf(rs, id, guest) == Some(choice))
  }

  lemma PairCount(s: set<UserId>, a: UserId, b: UserId)
    requires a != b && s <= {a, b}
    ensures |s| == Count(a in s) + Count(b in s)
  {
    if a in s && b in s { assert s == {a, b}; }
    else if a in s { assert s == {a}; }
    else if b in s { assert s == {b}; }
    else { assert s == {}; }
  }

  lemma VotersAre(rs: seq<Request>, id: ConversationId)
    requires Timed(rs) && HasVote(Run(rs), id, 0)
    ensures var c := Run(rs).conversations[id];
            && c.acceptedAt.Some? && c.host != c.guest && c.votes[0].eligibleMembers == 2
            && c.votes[0].eligible == {c.host, c.guest} && |c.votes| == 1
            && |YesVoters(c.votes[0])| == CastBy(rs, id, c.host, c.guest, true)
            && |NoVoters(c.votes[0])| == CastBy(rs, id, c.host, c.guest, false)
  {
    var c := Run(rs).conversations[id];
    RunInvariant(rs);
    assert ConversationOk(c, Now(rs));
    BallotsAreCast(rs, id, c.host);
    BallotsAreCast(rs, id, c.guest);
    PairCount(YesVoters(c.votes[0]), c.host, c.guest);
    PairCount(NoVoters(c.votes[0]), c.host, c.guest);
  }

  /** Of any electorate, a due vote is approved exactly when the members who said yes are more than half. */
  lemma MajorityOfTheElectorate(v: Vote, t: Time)
    requires Supported(v) && v.status == VoteStatus.Open && v.expiresAt <= t
    ensures Resolved(v, t).status
         == if 2 * |set u | u in v.eligible && u in v.ballots && v.ballots[u]| > |v.eligible|
            then Approved else Rejected
  {
    assert YesVoters(v) == set u | u in v.eligible && u in v.ballots && v.ballots[u];
  }

  // ---- The result ------------------------------------------------------------------------------------

  /** Both members said yes in time. */
  predicate BothSaidYes(rs: seq<Request>, id: ConversationId)
    requires id in Run(rs).conversations
  {
    var c := Run(rs).conversations[id];
    BallotOf(rs, id, c.host) == Some(true) && BallotOf(rs, id, c.guest) == Some(true)
  }

  /** What the vote is at `t`, whoever resolves it: open until the end, then approved by two yes votes. */
  function Verdict(rs: seq<Request>, id: ConversationId, t: Time): VoteStatus
    requires id in Run(rs).conversations
  {
    if BeforeTheEnd(Run(rs).conversations[id], t) then VoteStatus.Open
    else if BothSaidYes(rs, id) then Approved else Rejected
  }

  /** In every run a vote ends approved exactly when both members said yes before the end. */
  lemma ApprovedIffBothSaidYes(rs: seq<Request>, id: ConversationId, t: Time)
    requires Timed(rs) && HasVote(Run(rs), id, 0) && Now(rs) <= t
    ensures Resolved(Run(rs).conversations[id].votes[0], t).status == Verdict(rs, id, t)
  {
    VotersAre(rs, id);
    RunInvariant(rs);
    assert ConversationOk(Run(rs).conversations[id], Now(rs));
  }

  lemma HiddenWhen(rs: seq<Request>, id: ConversationId, t: Time)
    requires Timed(rs) && Now(rs) <= t && id in Run(rs).conversations
    ensures GraceHidden(Run(rs).conversations[id], t)
       <==> Run(rs).conversations[id].acceptedAt.Some? && Verdict(rs, id, t) == Rejected
  {
    var c := Run(rs).conversations[id];
    RunInvariant(rs);
    assert ConversationOk(c, Now(rs));
    if c.acceptedAt.Some? {
      ApprovedIffBothSaidYes(rs, id, t);
      assert c.votes == [c.votes[0]] && c.votes[0] in c.votes;
    }
  }

  /** So grace content can be read until the end, and afterwards exactly when both said yes. */
  lemma GraceIsReadableIff(rs: seq<Request>, id: ConversationId, viewer: UserId, m: MessageId, t: Time)
    requires Timed(rs) && Now(rs) <= t && id in Run(rs).conversations
    requires var db := Run(rs);
             && db.conversations[id].mode == Stored && Inside(db.conversations[id], viewer)
             && m in db.messages && db.messages[m].isGrace && t < db.messages[m].expiresAt
             && m in db.events && db.events[m].conversation == id && t < db.events[m].expiresAt
    ensures m in History(Run(rs), id, viewer, t)
       <==> !Run(rs).conversations[id].acceptedAt.Some? || Verdict(rs, id, t) != Rejected
  {
    HiddenWhen(rs, id, t);
  }

  lemma MajorityOfBoth(rs: seq<Request>, id: ConversationId)
    requires Timed(rs) && HasVote(Run(rs), id, 0)
    ensures var v := Run(rs).conversations[id].votes[0]; Result(v) == if BothSaidYes(rs, id) then Approved else Rejected
  {
    VotersAre(rs, id);
    RunInvariant(rs);
    assert ConversationOk(Run(rs).conversations[id], Now(rs));
  }

  lemma DueAtTheEnd(rs: seq<Request>, id: ConversationId, t: Time)
    requires Timed(rs) && Now(rs) <= t && HasVote(Run(rs), id, 0)
    requires Run(rs).conversations[id].votes[0].status == VoteStatus.Open
    requires !BeforeTheEnd(Run(rs).conversations[id], t)
    ensures var v := Run(rs).conversations[id].votes[0]; Due(v, t) && Supported(v)
  {
    RunInvariant(rs);
    assert ConversationOk(Run(rs).conversations[id], Now(rs));
  }

  lemma EveryMessageHasItsEvent(rs: seq<Request>, m: MessageId)
    requires Timed(rs) && m in Run(rs).messages
    ensures m in Run(rs).events
  {
    RunInvariant(rs);
    assert MessageOk(Run(rs), m);
  }

  lemma VisitDeletes(db: Db, id: ConversationId, t: Time)
    requires HasVote(db, id, 0) && Due(db.conversations[id].votes[0], t) && Supported(db.conversations[id].votes[0])
    ensures var approved := Result(db.conversations[id].votes[0]) == Approved;
            forall m :: m in Perform(db, Visit(id, 0, t)).1.messages <==>
                          m in db.messages && (approved || !db.messages[m].isGrace
                                               || !(m in db.events && db.events[m].conversation == id))
  {
  }

  /** And the resolution of a due vote deletes the grace content of its conversation exactly when they did not. */
  lemma ResolutionDeletesIff(rs: seq<Request>, id: ConversationId, t: Time, m: MessageId)
    requires Timed(rs) && Now(rs) <= t && HasVote(Run(rs), id, 0)
    requires Run(rs).conversations[id].votes[0].status == VoteStatus.Open
    requires !BeforeTheEnd(Run(rs).conversations[id], t)
    ensures var db := Run(rs);
            m in Perform(db, Visit(id, 0, t)).1.messages <==>
              m in db.messages && (BothSaidYes(rs, id) || !db.messages[m].isGrace
                                   || (m in db.events && db.events[m].conversation != id))
  {
    var db := Run(rs);
    MajorityOfBoth(rs, id);
    DueAtTheEnd(rs, id, t);
    VisitDeletes(db, id, t);
    if m in db.messages { EveryMessageHasItsEvent(rs, m); }
  }

  // ---- What an access answers ---------------------------------------------------------------------------

  /** The snapshot shows the verdict, counts the choices cast in time and repeats the viewer's own. */
  ghost predicate Shows(s: VoteSnapshot, rs: seq<Request>, id: ConversationId, viewer: UserId, t: Time)
    requires id in Run(rs).conversations
  {
    var c := Run(rs).conversations[id];
    var yes := CastBy(rs, id, c.host, c.guest, true);
    && c.acceptedAt.Some? && s.eligibleMembers == 2 && s.expiresAt == c.acceptedAt.value + 30_000
    && s.status == Verdict(rs, id, t) && s.yesVotes == yes && s.mine == BallotOf(rs, id, viewer)
    && s.noVotes == if s.status == VoteStatus.Open then CastBy(rs, id, c.host, c.guest, false) else 2 - yes
  }

  lemma SnapshotShows(rs: seq<Request>, id: ConversationId, viewer: UserId, t: Time, v: Vote)
    requires Timed(rs) && Now(rs) <= t && HasVote(Run(rs), id, 0)
    requires v == Resolved(Run(rs).conversations[id].votes[0], t)
    ensures Shows(Snapshot(v, viewer), rs, id, viewer, t)
  {
    var w := Run(rs).conversations[id].votes[0];
    VotersAre(rs, id);
    ApprovedIffBothSaidYes(rs, id, t);
    BallotsAreCast(rs, id, viewer);
    RunInvariant(rs);
    assert ConversationOk(Run(rs).conversations[id], Now(rs));
    assert YesVoters(v) == YesVoters(w) && NoVoters(v) == NoVoters(w);
  }

  /** There is a vote for this viewer: accepted, and the viewer is still inside. */
  predicate MayAccess(db: Db, r: Request) {
    && r.AccessIt? && r.id in db.conversations && db.conversations[r.id].acceptedAt.Some? && r.index == 0
    && Inside(db.conversations[r.id], r.user)
  }

  /** The viewer has no ballot yet and the end has come when the ballot arrives. */
  predicate TooLate(db: Db, r: Request)
    requires r.AccessIt? && r.id in db.conversations
  {
    r.choice.Some? && r.user !in Ballots(db, r.id) && !BeforeTheEnd(db.conversations[r.id], r.clock.ballot)
  }

  predicate Contradicts(db: Db, r: Request)
    requires r.AccessIt?
  {
    r.choice.Some? && r.user in Ballots(db, r.id) && Ballots(db, r.id)[r.user] != r.choice.value
  }

  lemma AccessReply(db: Db, r: Request, now: Time)
    requires r.AccessIt? && Inv(db, now) && WellTimed(r) && now <= r.clock.first
    ensures var (answer, after) := Perform(db, r);
            answer.reply
            == if !MayAccess(db, r) then Error(VoteNotFound)
               else if Contradicts(db, r) then Error(VoteConflict)
               else if TooLate(db, r) then Error(VoteExpired)
               else if HasVote(after, r.id, 0) then Ballot(Snapshot(after.conversations[r.id].votes[0], r.user))
               else answer.reply
    ensures MayAccess(db, r) ==>
              var c, after := db.conversations[r.id], Perform(db, r).1;
              && HasVote(after, r.id, 0) && after.conversations[r.id].acceptedAt == c.acceptedAt
              && (after.conversations[r.id].votes[0].status == VoteStatus.Open ==> BeforeTheEnd(c, r.clock.first))
              && (!Contradicts(db, r) && !TooLate(db, r) && BeforeTheEnd(c, r.clock.first) ==>
                    after.conversations[r.id].votes[0].status == VoteStatus.Open)
  {
    if r.id in db.conversations {
      var c := db.conversations[r.id];
      assert ConversationOk(c, now);
      if HasVote(db, r.id, r.index) {
        ResolvedStatus(db, r.id, r.clock.first, now);
      }
    }
  }

  /** Every access is answered from the choices cast in time: a second, different choice conflicts, a late one
      is refused, and any other access shows the vote with its own ballot counted. */
  lemma AccessAnswers(rs: seq<Request>, r: Request)
    requires Timed(rs + [r]) && r.AccessIt?
    ensures var db, reply, own := Run(rs), Perform(Run(rs), r).0.reply, BallotOf(rs, r.id, r.user);
            if !MayAccess(db, r) then reply == Error(VoteNotFound)
            else if r.choice.Some? && own.Some? && own != r.choice then reply == Error(VoteConflict)
            else if r.choice.Some? && own == None && !BeforeTheEnd(db.conversations[r.id], r.clock.ballot)
            then reply == Error(VoteExpired)
            else reply.Ballot? && r.id in Run(rs + [r]).conversations
                 && Shows(reply.vote, rs + [r], r.id, r.user, r.clock.first)
  {
    assert (rs + [r])[..|rs|] == rs;
    RunInvariant(rs);
    AccessReply(Run(rs), r, Now(rs));
    BallotsAreCast(rs, r.id, r.user);
    if MayAccess(Run(rs), r) && !Contradicts(Run(rs), r) && !TooLate(Run(rs), r) {
      var w := Run(rs + [r]).conversations[r.id].votes[0];
      if BeforeTheEnd(Run(rs).conversations[r.id], r.clock.first) {
        OpenShows(rs + [r], r.id, r.user, r.clock.first);
      } else {
        SnapshotShows(rs + [r], r.id, r.user, r.clock.late, w);
      }
    }
  }

  lemma OpenShows(rs: seq<Request>, id: ConversationId, viewer: UserId, t: Time)
    requires Timed(rs) && HasVote(Run(rs), id, 0) && BeforeTheEnd(Run(rs).conversations[id], t)
    requires Run(rs).conversations[id].votes[0].status == VoteStatus.Open
    ensures Shows(Snapshot(Run(rs).conversations[id].votes[0], viewer), rs, id, viewer, t)
  {
    VotersAre(rs, id);
    BallotsAreCast(rs, id, viewer);
    RunInvariant(rs);
    assert ConversationOk(Run(rs).conversations[id], Now(rs));
  }

  /** A choice cast in time by a member without one is the member's from then on, and moves its count by one. */
  lemma CastCountsOnce(rs: seq<Request>, r: Request, id: ConversationId, host: UserId, guest: UserId)
    requires r.AccessIt? && Casts(Run(rs), r, id, r.user) && BallotOf(rs, id, r.user) == None
    requires host != guest && (r.user == host || r.user == guest)
    ensures BallotOf(rs + [r], id, r.user) == r.choice
    ensures CastBy(rs + [r], id, host, guest, r.choice.value) == CastBy(rs, id, host, guest, r.choice.value) + 1
    ensures CastBy(rs + [r], id, host, guest, !r.choice.value) == CastBy(rs, id, host, guest, !r.choice.value)
  {
    assert (rs + [r])[..|rs|] == rs;
  }

  // ---- What a change answers --------------------------------------------------------------------------

  /** No action is known for a conversation that is not there, or for somebody who never was a member. */
  lemma StrangersFindNothing(db: Db, user: UserId, id: ConversationId, action: Action, t: Time)
    requires id in db.conversations ==> user != db.conversations[id].host && user != db.conversations[id].guest
    ensures Change(db, user, id, action, t) == (Error(ConversationNotFound), db)
  {
  }

  /** Leaving and closing always work, for a member and for one who is inside. */
  lemma LeaveAndCloseAnswer(db: Db, user: UserId, id: ConversationId, action: Action, t: Time)
    requires id in db.conversations && (action == Leave || action == Close)
    ensures var c, (reply, after) := db.conversations[id], Change(db, user, id, action, t);
            if user != c.host && user != c.guest then reply == Error(ConversationNotFound) && after == db
            else if !Inside(c, user)
            then reply == (if action == Leave then NoContent else Error(ConversationNotFound)) && after == db
            else
              && reply == NoContent && after == db.(conversations := after.conversations)
              && after.conversations == db.conversations[id := c.(
                   status := Closed,
                   hostStatus := if action == Leave && user == c.host then Left else c.hostStatus,
                   guestStatus := if action == Leave && user == c.guest then Left else c.guestStatus)]
  {
  }

  /** Only a host who is inside upgrades, an active conversation, and then later messages are stored. */
  lemma UpgradeAnswers(db: Db, user: UserId, id: ConversationId, t: Time)
    requires id in db.conversations
    ensures var c, (reply, after) := db.conversations[id], Change(db, user, id, Upgrade, t);
            if !Inside(c, user) then reply == Error(ConversationNotFound) && after == db
            else if user != c.host then reply == Error(NotConversationHost) && after == db
            else if c.status == Closed then reply == Error(ConversationClosed) && after == db
            else if c.status == Pending then reply == Error(ConversationNotActive) && after == db
            else reply.Changed? && reply.summary.mode == Stored
                 && after == db.(conversations := db.conversations[id := c.(mode := Stored)])
  {
  }

  /** Only a host who is inside accepts; a first acceptance needs both members and opens a vote of both,
      30 s long and without ballots. */
  lemma AcceptanceAnswers(db: Db, user: UserId, id: ConversationId, t: Time)
    requires id in db.conversations && db.conversations[id].votes == []
    requires db.conversations[id].host != db.conversations[id].guest
    ensures var c, (reply, after) := db.conversations[id], Change(db, user, id, Accept, t);
            if !Inside(c, user) then reply == Error(ConversationNotFound) && after == db
            else if user != c.host then reply == Error(NotConversationHost) && after == db
            else if c.status == Closed then reply == Error(ConversationClosed) && after == db
            else if c.status == Active || c.guestStatus == Left
            then reply == Error(ConversationNotActive) && after == db
            else
              && reply.AcceptedReply? && reply.summary == Summary(c.mode, Active, c.graceUsed, Some(t))
              && reply.vote == VoteSnapshot(2, VoteStatus.Open, t + 30_000, 0, 0, None)
              && after == db.(conversations := db.conversations[id := c.(
                   status := Active, acceptedAt := Some(t), hostStatus := Membership.Accepted,
                   guestStatus := Membership.Accepted,
                   votes := [Vote({c.host, c.guest}, 2, t, t + 30_000, VoteStatus.Open, None, map[])])])
  {
    var c := db.conversations[id];
    PairSize(c.host, c.guest);
    var d := AcceptConversation(c, t);
    assert d.votes[0].eligible == {c.host, c.guest};
    assert d.votes == [d.votes[0]];
    assert YesVoters(d.votes[0]) == {} && NoVoters(d.votes[0]) == {};
  }

  // ---- What a closing leaves -----------------------------------------------------------------------------

  /** `after` is `db` with the vote of the conversation closed if its end has come: approved when more than half
      of its electorate said yes, closed at its end, and else without the grace content of the conversation. */
  ghost predicate ClosesAt(db: Db, after: Db, id: ConversationId, t: Time)
    requires HasVote(db, id, 0)
  {
    var c, v := db.conversations[id], db.conversations[id].votes[0];
    if v.status != VoteStatus.Open || t < v.expiresAt then after == db
    else
      var won := |set u | u in v.ballots && v.ballots[u]| * 2 > v.eligibleMembers;
      var closed := v.(status := if won then Approved else Rejected, closedAt := Some(v.expiresAt));
      && after.events == db.events && after.deliveries == db.deliveries
      && after.conversations == db.conversations[id := c.(votes := c.votes[0 := closed])]
      && (forall m :: m in after.messages ==> m in db.messages && after.messages[m] == db.messages[m])
      && (forall m :: m in db.messages ==>
            (m in after.messages <==>
              won || !db.messages[m].isGrace || !(m in db.events && db.events[m].conversation == id)))
  }

  lemma ResolveCloses(db: Db, id: ConversationId, t: Time)
    requires HasVote(db, id, 0)
    ensures ClosesAt(db, ResolveVote(db, id, 0, t), id, t)
  {
    var v := db.conversations[id].votes[0];
    assert YesVoters(v) == set u | u in v.ballots && v.ballots[u];
  }

  /** `after` is `db` with a ballot of `user` in the vote of the conversation. */
  predicate Adds(db: Db, after: Db, id: ConversationId, user: UserId, choice: bool)
    requires HasVote(db, id, 0)
  {
    var c, v := db.conversations[id], db.conversations[id].votes[0];
    after == db.(conversations := db.conversations[id := c.(votes := c.votes[
               0 := v.(ballots := v.ballots[user := choice])])])
  }

  /** Whoever may access a vote first closes it if its end has come. A first choice in time is then added to it;
      one that comes too late closes it; anything else leaves it. */
  lemma AccessLeaves(db: Db, r: Request, now: Time) returns (read: Db)
    requires r.AccessIt? && Inv(db, now) && WellTimed(r) && now <= r.clock.first && MayAccess(db, r)
    ensures HasVote(db, r.id, 0) && HasVote(read, r.id, 0) && ClosesAt(db, read, r.id, r.clock.first)
    ensures var after, mine := Perform(db, r).1, Ballots(db, r.id);
            if r.choice == None || r.user in mine then after == read
            else if BeforeTheEnd(db.conversations[r.id], r.clock.ballot)
            then Adds(read, after, r.id, r.user, r.choice.value)
            else ClosesAt(read, after, r.id, r.clock.late)
  {
    assert ConversationOk(db.conversations[r.id], now);
    read := ResolveVote(db, r.id, 0, r.clock.first);
    ResolveCloses(db, r.id, r.clock.first);
    ResolvedStatus(db, r.id, r.clock.first, now);
    ResolveKeepsBallots(db, r.id, 0, r.clock.first, r.id);
    ResolveCloses(read, r.id, r.clock.late);
  }

  /** Whoever may not leaves everything as it is. */
  lemma DeniedLeaves(db: Db, r: Request, now: Time)
    requires r.AccessIt? && Inv(db, now) && !MayAccess(db, r)
    ensures Perform(db, r).1 == db
  {
    if r.id in db.conversations { assert ConversationOk(db.conversations[r.id], now); }
  }

  /** A host who accepts again closes the vote if its end has come and is shown it. */
  lemma AcceptingAgain(db: Db, id: ConversationId, t: Time, now: Time)
    requires Inv(db, now) && now <= t && id in db.conversations && db.conversations[id].status == Active
    requires Inside(db.conversations[id], db.conversations[id].host)
    ensures var c, (reply, after) := db.conversations[id], Change(db, db.conversations[id].host, id, Accept, t);
            && HasVote(db, id, 0) && ClosesAt(db, after, id, t) && HasVote(after, id, 0)
            && reply == AcceptedReply(Summary(c.mode, c.status, c.graceUsed, c.acceptedAt),
                                      Snapshot(after.conversations[id].votes[0], c.host))
  {
    assert ConversationOk(db.conversations[id], now);
    ResolveCloses(db, id, t);
  }

  // ---- What is recorded is read --------------------------------------------------------------------------

  predicate MayWrite(db: Db, w: Write, t: Time) {
    && w.conversation in db.conversations && w.id !in db.events
    && var c := db.conversations[w.conversation];
    && Inside(c, w.sender) && c.hostStatus != Left && c.guestStatus != Left && c.status != Closed
    && (forall v :: v in c.votes && v.status == VoteStatus.Open ==> v.expiresAt <= t)
    && (c.status == Pending ==> c.graceUsed < 5 && c.graceUsed < c.graceLimit)
  }

  /** A write is recorded exactly when it is permitted; a known identifier is a duplicate of the same message and
      a conflict with any other; everything else is refused, and then nothing changes. */
  lemma WriteAnswers(db: Db, w: Write, checkAt: Time, stampAt: Time)
    ensures var (outcome, after) := Record(db, w, checkAt, stampAt);
            && (outcome.Created? <==> MayWrite(db, w, checkAt)) && (!outcome.Created? ==> after == db)
            && (w.conversation !in db.conversations ==> outcome == Unavailable)
            && (w.conversation in db.conversations && w.id in db.events ==>
                  var e := db.events[w.id];
                  outcome == if e.conversation == w.conversation && e.sender == w.sender
                                && e.fingerprint == Fingerprint(w.content) then Duplicate(e) else Conflict)
            && (w.id !in db.events && !MayWrite(db, w, checkAt) ==> outcome == Unavailable)
  {
  }

  /** A permitted message in stored mode is recorded, and both members can read its content at once and, while
      nobody deletes it, for 30 days. */
  lemma StoredIsRead(rs: seq<Request>, w: Write, checkAt: Time, stampAt: Time, viewer: UserId, t: Time)
    requires Timed(rs + [Request.Send(w, checkAt, stampAt)]) && MayWrite(Run(rs), w, checkAt)
    requires Run(rs).conversations[w.conversation].mode == Stored
    requires Inside(Run(rs).conversations[w.conversation], viewer)
    requires stampAt <= t < stampAt + 30 * 86_400_000
    ensures var db := Run(rs + [Request.Send(w, checkAt, stampAt)]);
            && w.id in History(db, w.conversation, viewer, t)
            && History(db, w.conversation, viewer, t)[w.id].content == w.content
  {
    var all := rs + [Request.Send(w, checkAt, stampAt)];
    assert all[..|rs|] == rs;
    RunInvariant(rs);
    assert ConversationOk(Run(rs).conversations[w.conversation], Now(rs));
    assert Record(Run(rs), w, checkAt, stampAt).0.Created?;
  }

  /** A purge takes nothing that a reader could see at its time or later. */
  lemma PurgeIsUnseen(db: Db, at: Time, id: ConversationId, viewer: UserId, t: Time)
    requires at <= t
    ensures History(Cleanup(db, at), id, viewer, t) == History(db, id, viewer, t)
  {
    var p, q := History(Cleanup(db, at), id, viewer, t), History(db, id, viewer, t);
    forall m ensures m in p <==> m in q {
    }
  }

  /** The purge removes exactly the events and the contents whose time has come, with them the contents and rows
      of those events, and changes nothing else. */
  lemma PurgeAnswers(db: Db, t: Time, m: MessageId)
    ensures var after, gone := Perform(db, Purge(t)).1, m in db.events && db.events[m].expiresAt <= t;
            && after.conversations == db.conversations
            && (m in after.events <==> m in db.events && !gone)
            && (m in after.events ==> after.events[m] == db.events[m])
            && (m in after.messages <==> m in db.messages && !gone && t < db.messages[m].expiresAt)
            && (m in after.messages ==> after.messages[m] == db.messages[m])
            && (m in after.deliveries <==> m in db.deliveries && !gone)
            && (m in after.deliveries ==> after.deliveries[m] == db.deliveries[m])
  {
  }
}
