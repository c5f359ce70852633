/** Acceptance, upgrade, close and leave (python/chat/conversations.py and
    conversation_store.py) and the grace vote (vote_store.py and voting.py): first the
    transactions as functions of the tables, then the services that execute them. */
module Voting {
  import opened Wrappers
  import opened Persistence
  import opened Ordering

  const VOTE_WINDOW: Time := 30_000
  const RESOLVE_LIMIT: nat := 1000

  datatype Action = Accept | Upgrade | Close | Leave

  datatype Code =
    | ConversationNotFound | ConversationClosed | ConversationNotActive | NotConversationHost
    | VoteNotFound | VoteUnsupported | VoteConflict | VoteExpired

  datatype VoteSnapshot = VoteSnapshot(
    eligibleMembers: nat, status: VoteStatus, expiresAt: Time,
    yesVotes: nat, noVotes: int, mine: Option<bool>)

  datatype Summary = Summary(mode: Mode, status: Status, graceUsed: nat, acceptedAt: Option<Time>)

  datatype Reply =
    | Error(code: Code)
    | NoContent
    | Changed(summary: Summary)
    | AcceptedReply(summary: Summary, vote: VoteSnapshot)
    | Ballot(vote: VoteSnapshot)

  function MajorityAbsolute(yesVotes: nat, eligibleMembers: nat): VoteStatus {
    if yesVotes * 2 > eligibleMembers then Approved else Rejected
  }

  predicate Due(v: Vote, t: Time) {
    v.status == Open && v.expiresAt <= t
  }

  function Result(v: Vote): VoteStatus {
    MajorityAbsolute(YesVotes(v), v.eligibleMembers)
  }

  function Resolved(v: Vote, t: Time): Vote {
    if Due(v, t) then v.(status := Result(v), closedAt := Some(v.expiresAt)) else v
  }

  function Snapshot(v: Vote, viewer: UserId): VoteSnapshot {
    var yes := YesVotes(v);
    var no := |NoVoters(v)|;
    VoteSnapshot(v.eligibleMembers, v.status, v.expiresAt, yes,
                 if v.status == Open then no else v.eligibleMembers - yes,
                 if viewer in v.ballots then Some(v.ballots[viewer]) else None)
  }

  function Summarize(c: Conversation): Summary {
    Summary(c.mode, c.status, c.graceUsed, c.acceptedAt)
  }

  /** The consistency test that VoteStore.lock makes before a vote may be used. */
  predicate Supported(v: Vote) {
    v.eligibleMembers == |v.eligible| && v.ballots.Keys <= v.eligible
  }

  predicate HasVote(db: Db, id: ConversationId, index: nat) {
    id in db.conversations && index < |db.conversations[id].votes|
  }

  /** Closing a due vote and, when it is lost, deleting the grace content in the same commit. */
  function ResolveVote(db: Db, id: ConversationId, index: nat, t: Time): Db
    requires HasVote(db, id, index)
  {
    var c := db.conversations[id];
    var v := c.votes[index];
    if !Due(v, t) then db
    else db.(
         conversations := db.conversations[id := c.(votes := c.votes[index := Resolved(v, t)])],
         messages := if Result(v) == Rejected
         then map m | m in db.messages
                && !(m in db.events && db.events[m].conversation == id && db.messages[m].isGrace) :: db.messages[m]
         else db.messages)
  }

  /** The worker visits one vote: it skips a vote that is gone or unsupported. */
  function WorkerVisit(db: Db, id: ConversationId, index: nat, t: Time): Db {
    if HasVote(db, id, index) && Supported(db.conversations[id].votes[index])
    then ResolveVote(db, id, index, t) else db
  }

  function Electorate(c: Conversation): set<UserId> {
    (if c.hostStatus == Accepted then {c.host} else {}) + (if c.guestStatus == Accepted then {c.guest} else {})
  }

  /** One clock reading stamps the acceptance, the new vote and, 30 s later, its end. */
  function AcceptConversation(c: Conversation, t: Time): Conversation {
    var joined := c.(status := Active, acceptedAt := Some(t), hostStatus := Accepted, guestStatus := Accepted);
    var electorate := Electorate(joined);
    joined.(votes := c.votes + [Vote(electorate, |electorate|, t, t + VOTE_WINDOW, Open, None, map[])])
  }

  function LeaveConversation(c: Conversation, user: UserId): Conversation {
    c.(status := Closed,
       hostStatus := if user == c.host then Left else c.hostStatus,
       guestStatus := if user == c.guest then Left else c.guestStatus)
  }

  predicate Member(c: Conversation, user: UserId) {
    user == c.host || user == c.guest
  }

  function LatestVote(c: Conversation): nat
    requires c.votes != []
  {
    |c.votes| - 1
  }

  function AcceptReply(db: Db, id: ConversationId, user: UserId): Reply
    requires id in db.conversations && db.conversations[id].votes != []
  {
    var c := db.conversations[id];
    AcceptedReply(Summarize(c), Snapshot(c.votes[LatestVote(c)], user))
  }

  /** Accepting again only resolves the vote the first acceptance opened. */
  function AcceptAgain(db: Db, id: ConversationId, user: UserId, t: Time): (Reply, Db)
    requires id in db.conversations
  {
    var c := db.conversations[id];
    if c.votes == [] then (Error(ConversationNotActive), db)
    else
      var v := c.votes[LatestVote(c)];
      if user !in v.eligible || !Present(c, user) then (Error(VoteNotFound), db)
      else if !Supported(v) then (Error(VoteUnsupported), db)
      else
        var after := ResolveVote(db, id, LatestVote(c), t);
        (AcceptReply(after, id, user), after)
  }

  /** The transaction of an acceptance, once the caller is known to be the present host. */
  function HostAccepts(db: Db, id: ConversationId, t: Time): (Reply, Db)
    requires id in db.conversations
  {
    var c := db.conversations[id];
    if c.status == Closed then (Error(ConversationClosed), db)
    else if c.status == Active then AcceptAgain(db, id, c.host, t)
    else if !BothPresent(c) then (Error(ConversationNotActive), db)
    else
      var after := db.(conversations := db.conversations[id := AcceptConversation(c, t)]);
      (AcceptReply(after, id, c.host), after)
  }

  function Change(db: Db, user: UserId, id: ConversationId, action: Action, t: Time): (Reply, Db) {
    if id !in db.conversations || !Member(db.conversations[id], user) then (Error(ConversationNotFound), db)
    else
      var c := db.conversations[id];
      if action == Leave then
        (NoContent, if Present(c, user) then db.(conversations := db.conversations[id := LeaveConversation(c, user)])
          else db)
      else if !Present(c, user) then (Error(ConversationNotFound), db)
      else if action == Close then
        (NoContent, db.(conversations := db.conversations[id := c.(status := Closed)]))
      else if user != c.host then (Error(NotConversationHost), db)
      else if action == Accept then HostAccepts(db, id, t)
      else if c.status == Closed then (Error(ConversationClosed), db)
      else if c.status != Active then (Error(ConversationNotActive), db)
      else
        var upgraded := c.(mode := Stored);
        (Changed(Summarize(upgraded)), db.(conversations := db.conversations[id := upgraded]))
  }

  /** The three clock reads of one access: first resolution, ballot, and the resolution after a late ballot. */
  datatype Clock = Clock(first: Time, ballot: Time, late: Time)

  predicate Ordered(k: Clock) {
    k.first <= k.ballot <= k.late
  }

  function CastBallot(v: Vote, viewer: UserId, choice: bool): Vote {
    v.(ballots := v.ballots[viewer := choice])
  }

  function UpdateVote(db: Db, id: ConversationId, index: nat, v: Vote): Db
    requires HasVote(db, id, index)
  {
    var c := db.conversations[id];
    db.(conversations := db.conversations[id := c.(votes := c.votes[index := v])])
  }

  function BallotReply(db: Db, id: ConversationId, index: nat, viewer: UserId): Reply
    requires HasVote(db, id, index)
  {
    Ballot(Snapshot(db.conversations[id].votes[index], viewer))
  }

  /** An access once the vote it names is known to be usable and has been resolved. */
  function AccessResolved(read: Db, viewer: UserId, id: ConversationId, index: nat, choice: Option<bool>,
                          k: Clock): (Reply, Db)
    requires HasVote(read, id, index)
  {
    var v := read.conversations[id].votes[index];
    if choice == None then (BallotReply(read, id, index, viewer), read)
    else if viewer in v.ballots then
      (if v.ballots[viewer] != choice.value then Error(VoteConflict) else BallotReply(read, id, index, viewer), read)
    else if v.status == Open && v.expiresAt > k.ballot then
      var cast := UpdateVote(read, id, index, CastBallot(v, viewer, choice.value));
      (BallotReply(cast, id, index, viewer), cast)
    else (Error(VoteExpired), ResolveVote(read, id, index, k.late))
  }

  /** Reading a vote (no choice) or casting a ballot in it. */
  function Access(db: Db, viewer: UserId, id: ConversationId, index: nat, choice: Option<bool>, k: Clock): (Reply, Db) {
    if !HasVote(db, id, index) then (Error(VoteNotFound), db)
    else
      var c := db.conversations[id];
      if viewer !in c.votes[index].eligible || !Present(c, viewer) then (Error(VoteNotFound), db)
      else if !Supported(c.votes[index]) then (Error(VoteUnsupported), db)
      else
        AccessResolved(ResolveVote(db, id, index, k.first), viewer, id, index, choice, k)
  }

  /** One vote, by its conversation and its place there. */
  datatype VoteKey = VoteKey(conversation: ConversationId, index: nat)

  /** The open votes whose end has come. A conversation has at most one vote, so its identifier stands for
      that of its vote. */
  function DueKeys(conversations: map<ConversationId, Conversation>, t: Time): set<Key> {
    set id | id in conversations && conversations[id].votes != []
      && Due(conversations[id].votes[LatestVote(conversations[id])], t)
      :: Key(1, conversations[id].votes[LatestVote(conversations[id])].expiresAt, id)
  }

  function VoteOf(conversations: map<ConversationId, Conversation>, k: Key): VoteKey {
    VoteKey(k.id, if k.id in conversations && conversations[k.id].votes != [] then LatestVote(conversations[k.id])
      else 0)
  }

  function VotesOf(conversations: map<ConversationId, Conversation>, keys: seq<Key>): seq<VoteKey> {
    seq(|keys|, i requires 0 <= i < |keys| => VoteOf(conversations, keys[i]))
  }

  /** ORDER BY expires_at, id LIMIT 1000. */
  ghost function Candidates(db: Db, asked: Time): seq<VoteKey> {
    VotesOf(db.conversations, Take(Ascending(DueKeys(db.conversations, asked)), RESOLVE_LIMIT))
  }

  function VisitAll(db: Db, keys: seq<VoteKey>, t: Time): Db {
    if keys == [] then db
    else
      var before := VisitAll(db, keys[..|keys| - 1], t);
      var k := keys[|keys| - 1];
      WorkerVisit(before, k.conversation, k.index, t)
  }

  /** How many of the visits find their vote due, and so close it. */
  function Closings(db: Db, keys: seq<VoteKey>, t: Time): nat {
    if keys == [] then 0
    else
      var before := VisitAll(db, keys[..|keys| - 1], t);
      var k := keys[|keys| - 1];
      var closes := HasVote(before, k.conversation, k.index)
                    && Supported(before.conversations[k.conversation].votes[k.index])
                    && Due(before.conversations[k.conversation].votes[k.index], t);
      Closings(db, keys[..|keys| - 1], t) + if closes then 1 else 0
  }

  /** VoteStore, Voting, ConversationStore and the change service, over one database. */
  class Conversations {
    const database: Database

    constructor (database: Database)
      ensures this.database == database
    {
      this.database := database;
    }

    /** VoteStore.resolve; true when this call closed the vote. */
    method Resolve(id: ConversationId, index: nat, t: Time) returns (closed: bool)
      requires HasVote(database.View(), id, index)
      modifies database
      ensures database.View() == ResolveVote(old(database.View()), id, index, t)
      ensures closed == Due(old(database.conversations)[id].votes[index], t)
    {
      var c := database.conversations[id];
      var v := c.votes[index];
      if !(v.status == Open && v.expiresAt <= t) {
        return false;
      }
      var snapshot := Snapshot(v, c.host);
      var result := MajorityAbsolute(snapshot.yesVotes, snapshot.eligibleMembers);
      v := v.(status := result, closedAt := Some(v.expiresAt));
      database.conversations := database.conversations[id := c.(votes := c.votes[index := v])];
      if result == Rejected {
        var grace := set m | m in database.messages && m in database.events
                             && database.events[m].conversation == id && database.messages[m].isGrace;
        database.messages := database.messages - grace;
      }
      return true;
    }

    /** VoteStore.ballot: the insertion instant decides, and only an open vote takes it. */
    method InsertBallot(id: ConversationId, index: nat, viewer: UserId, choice: bool, t: Time) returns (inserted: bool)
      requires HasVote(database.View(), id, index)
      modifies database
      ensures var v := old(database.conversations)[id].votes[index];
              && inserted == (v.status == Open && v.expiresAt > t)
              && database.View() == if inserted
                 then UpdateVote(old(database.View()), id, index, CastBallot(v, viewer, choice))
                 else old(database.View())
    {
      var c := database.conversations[id];
      var v := c.votes[index];
      inserted := v.status == Open && v.expiresAt > t;
      if inserted {
        v := v.(ballots := v.ballots[viewer := choice]);
        database.conversations := database.conversations[id := c.(votes := c.votes[index := v])];
      }
    }

    /** Voting._access: the error is returned only after the resolution it confirmed. */
    method AccessVote(viewer: UserId, id: ConversationId, index: nat, choice: Option<bool>, k: Clock)
      returns (reply: Reply)
      modifies database
      ensures (reply, database.View()) == Access(old(database.View()), viewer, id, index, choice, k)
    {
      if id !in database.conversations || index >= |database.conversations[id].votes| {
        return Error(VoteNotFound);
      }
      var c := database.conversations[id];
      if viewer !in c.votes[index].eligible || !Present(c, viewer) {
        return Error(VoteNotFound);
      }
      if !Supported(c.votes[index]) {
        return Error(VoteUnsupported);
      }
      var error: Option<Code> := None;
      var changed := Resolve(id, index, k.first);
      var snapshot := Snapshot(database.conversations[id].votes[index], viewer);
      if choice.Some? {
        if snapshot.mine.Some? {
          if snapshot.mine != choice {
            error := Some(VoteConflict);
          }
        } else {
          var inserted := InsertBallot(id, index, viewer, choice.value, k.ballot);
          if !inserted {
            changed := Resolve(id, index, k.late);
            error := Some(VoteExpired);
          }
        }
        snapshot := Snapshot(database.conversations[id].votes[index], viewer);
      }
      return if error.Some? then Error(error.value) else Ballot(snapshot);
    }

    /** The loop of resolve_votes_once; counts the votes it closed. */
    method VisitVotes(keys: seq<VoteKey>, t: Time) returns (closed: nat)
      modifies database
      ensures database.View() == VisitAll(old(database.View()), keys, t)
      ensures closed == Closings(old(database.View()), keys, t)
    {
      closed := 0;
      for i := 0 to |keys|
        invariant closed == Closings(old(database.View()), keys[..i], t)
        invariant database.View() == VisitAll(old(database.View()), keys[..i], t)
      {
        assert keys[..i + 1][..i] == keys[..i];
        var k := keys[i];
        if k.conversation in database.conversations && k.index < |database.conversations[k.conversation].votes| {
          if Supported(database.conversations[k.conversation].votes[k.index]) {
            var resolved := Resolve(k.conversation, k.index, t);
            if resolved {
              closed := closed + 1;
            }
          }
        }
      }
      assert keys[..|keys|] == keys;
    }

    /** resolve_votes_once: the query reads the clock at `asked` and the visits at `t`. */
    method ResolveVotesOnce(asked: Time, t: Time) returns (closed: nat)
      modifies database
      ensures database.View() == VisitAll(old(database.View()), Candidates(old(database.View()), asked), t)
      ensures closed == Closings(old(database.View()), Candidates(old(database.View()), asked), t)
    {
      var due := DueKeys(database.conversations, asked);
      var sorted := Sort(due);
      var keys := VotesOf(database.conversations, Take(sorted, RESOLVE_LIMIT));
      closed := VisitVotes(keys, t);
    }

    /** ConversationStore.accept, on a pending conversation with both members present. */
    method OpenVote(id: ConversationId, t: Time)
      requires id in database.conversations
      modifies database
      ensures database.View() == old(database.View()).(
              conversations := old(database.conversations)[
                id := AcceptConversation(old(database.conversations)[id], t)])
    {
      var c := database.conversations[id];
      c := c.(status := Active, acceptedAt := Some(t));
      c := c.(hostStatus := Accepted, guestStatus := Accepted);
      var electorate := Electorate(c);
      var vote := Vote(electorate, |electorate|, t, t + VOTE_WINDOW, Open, None, map[]);
      c := c.(votes := c.votes + [vote]);
      database.conversations := database.conversations[id := c];
    }

    /** ConversationService._change. */
    method ChangeConversation(user: UserId, id: ConversationId, action: Action, t: Time) returns (reply: Reply)
      modifies database
      ensures (reply, database.View()) == Change(old(database.View()), user, id, action, t)
    {
      if id !in database.conversations {
        return Error(ConversationNotFound);
      }
      var c := database.conversations[id];
      if !Member(c, user) {
        return Error(ConversationNotFound);
      }
      if action == Leave {
        if Present(c, user) {
          if user == c.host {
            c := c.(hostStatus := Left);
          }
          if user == c.guest {
            c := c.(guestStatus := Left);
          }
          c := c.(status := Closed);
          database.conversations := database.conversations[id := c];
        }
        return NoContent;
      }
      if !Present(c, user) {
        return Error(ConversationNotFound);
      }
      if action == Close {
        database.conversations := database.conversations[id := c.(status := Closed)];
        return NoContent;
      }
      if user != c.host {
        return Error(NotConversationHost);
      }
      if c.status == Closed {
        return Error(ConversationClosed);
      }
      if action == Accept {
        if c.status == Pending {
          if !BothPresent(c) {
            return Error(ConversationNotActive);
          }
          OpenVote(id, t);
        } else {
          if c.votes == [] {
            return Error(ConversationNotActive);
          }
          var latest := LatestVote(c);
          if user !in c.votes[latest].eligible {
            return Error(VoteNotFound);
          }
          if !Supported(c.votes[latest]) {
            return Error(VoteUnsupported);
          }
          var resolved := Resolve(id, latest, t);
        }
        c := database.conversations[id];
        return AcceptedReply(Summarize(c), Snapshot(c.votes[LatestVote(c)], user));
      }
      if c.status != Active {
        return Error(ConversationNotActive);
      }
      if c.mode == Ephemeral {
        c := c.(mode := Stored);
        database.conversations := database.conversations[id := c];
      } else {
        assert database.conversations[id := c] == database.conversations;
      }
      return Changed(Summarize(c));
    }
  }
}
