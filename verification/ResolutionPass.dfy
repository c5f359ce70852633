/** What one pass of the worker over the due votes closes, in every run. */
module ResolutionPass {
  import opened Wrappers
  import opened Persistence
  import opened Ordering
  import opened Voting
  import opened VotingRuns

  predicate Closed(db: Db, id: ConversationId) {
    id in db.conversations && db.conversations[id].votes != []
      && db.conversations[id].votes[0].status != VoteStatus.Open
  }

  /** The conversations whose vote is due. */
  function DueIn(db: Db, t: Time): set<ConversationId> {
    set id | id in db.conversations && db.conversations[id].votes != [] && Due(db.conversations[id].votes[0], t)
  }

  /** The vote of `k` and its key in the order of the query. */
  ghost predicate KeyIs(db: Db, k: VoteKey, t: Time) {
    k.index == 0 && k.conversation in DueIn(db, t) && Supported(db.conversations[k.conversation].votes[0])
  }

  lemma VisitLeaves(db: Db, id: ConversationId, index: nat, t: Time, other: ConversationId)
    requires other != id
    ensures var after := WorkerVisit(db, id, index, t);
            after.conversations.Keys == db.conversations.Keys
            && (other in db.conversations ==> after.conversations[other] == db.conversations[other])
  {
  }

  lemma VisitCloses(db: Db, k: VoteKey, t: Time)
    requires KeyIs(db, k, t)
    ensures Closed(WorkerVisit(db, k.conversation, k.index, t), k.conversation)
    ensures WorkerVisit(db, k.conversation, k.index, t).conversations.Keys == db.conversations.Keys
  {
  }

  predicate Distinct(keys: seq<VoteKey>) {
    forall i, j :: 0 <= i < j < |keys| ==> keys[i].conversation != keys[j].conversation
  }

  lemma {:induction false} VisitsLeave(db: Db, keys: seq<VoteKey>, t: Time, other: ConversationId)
    requires forall k :: k in keys ==> k.conversation != other
    ensures var after := VisitAll(db, keys, t);
            after.conversations.Keys == db.conversations.Keys
            && (other in db.conversations ==> after.conversations[other] == db.conversations[other])
  {
    if keys != [] {
      var init, last := keys[..|keys| - 1], keys[|keys| - 1];
      VisitsLeave(db, init, t, other);
      VisitLeaves(VisitAll(db, init, t), last.conversation, last.index, t, other);
    }
  }

  lemma LastIsDistinct(keys: seq<VoteKey>)
    requires keys != [] && Distinct(keys)
    ensures var init, last := keys[..|keys| - 1], keys[|keys| - 1];
            keys == init + [last] && Distinct(init) && forall k :: k in init ==> k.conversation != last.conversation
  {
  }

  lemma KeyStays(db: Db, after: Db, k: VoteKey, t: Time)
    requires KeyIs(db, k, t) && k.conversation in after.conversations
    requires after.conversations[k.conversation] == db.conversations[k.conversation]
    ensures KeyIs(after, k, t)
  {
  }

  /** Visiting due votes of different conversations closes each of them. */
  lemma {:induction false} VisitsClose(db: Db, keys: seq<VoteKey>, t: Time)
    requires Distinct(keys) && forall k :: k in keys ==> KeyIs(db, k, t)
    ensures forall k :: k in keys ==> Closed(VisitAll(db, keys, t), k.conversation)
    ensures Closings(db, keys, t) == |keys|
  {
    if keys != [] {
      var init, last := keys[..|keys| - 1], keys[|keys| - 1];
      var before := VisitAll(db, init, t);
      LastIsDistinct(keys);
      VisitsClose(db, init, t);
      VisitsLeave(db, init, t, last.conversation);
      KeyStays(db, before, last, t);
      VisitCloses(before, last, t);
      forall k | k in init ensures Closed(VisitAll(db, keys, t), k.conversation) {
        VisitLeaves(before, last.conversation, last.index, t, k.conversation);
      }
    }
  }

  // ---- The pass ----------------------------------------------------------------------

  function DueKey(db: Db, id: ConversationId): Key
    requires id in db.conversations && db.conversations[id].votes != []
  {
    Key(1, db.conversations[id].votes[0].expiresAt, id)
  }

  lemma OneVote(c: Conversation, now: Time)
    requires ConversationOk(c, now) && c.votes != []
    ensures LatestVote(c) == 0 && Supported(c.votes[0])
  {
    PairSize(c.host, c.guest);
  }

  lemma DueKeysAre(db: Db, now: Time, t: Time, k: Key)
    requires Inv(db, now)
    ensures k in DueKeys(db.conversations, t) <==> k.id in DueIn(db, t) && k == DueKey(db, k.id)
  {
    if k.id in db.conversations && db.conversations[k.id].votes != [] {
      assert ConversationOk(db.conversations[k.id], now);
      OneVote(db.conversations[k.id], now);
    }
  }

  lemma DueSize(db: Db, now: Time, t: Time)
    requires Inv(db, now)
    ensures |DueKeys(db.conversations, t)| == |DueIn(db, t)|
  {
    var keys, ids := DueKeys(db.conversations, t), DueIn(db, t);
    forall k ensures k in keys <==> k.id in ids && k == DueKey(db, k.id) { DueKeysAre(db, now, t, k); }
    assert keys == set id | id in ids :: DueKey(db, id);
    ImageSize(db, ids);
  }

  lemma {:induction false} ImageSize(db: Db, ids: set<ConversationId>)
    requires forall id :: id in ids ==> id in db.conversations && db.conversations[id].votes != []
    ensures |set id | id in ids :: DueKey(db, id)| == |ids|
    decreases |ids|
  {
    if ids != {} {
      var x :| x in ids;
      ImageSize(db, ids - {x});
      assert (set id | id in ids :: DueKey(db, id)) == (set id | id in ids - {x} :: DueKey(db, id)) + {DueKey(db, x)};
    }
  }

  lemma CandidatesAre(db: Db, now: Time, asked: Time, t: Time)
    requires Inv(db, now) && asked <= t
    ensures var keys := Take(Ascending(DueKeys(db.conversations, asked)), RESOLVE_LIMIT);
            && |Candidates(db, asked)| == |keys|
            && (forall i :: 0 <= i < |keys| ==> Candidates(db, asked)[i] == VoteKey(keys[i].id, 0))
            && (forall k :: k in keys ==> k.id in DueIn(db, asked) && k == DueKey(db, k.id))
    ensures Distinct(Candidates(db, asked)) && forall v :: v in Candidates(db, asked) ==> KeyIs(db, v, t)
  {
    var all := Ascending(DueKeys(db.conversations, asked));
    var keys, votes := Take(all, RESOLVE_LIMIT), Candidates(db, asked);
    forall k | k in keys ensures k.id in DueIn(db, asked) && k == DueKey(db, k.id) {
      assert k in all;
      DueKeysAre(db, now, asked, k);
    }
    forall i | 0 <= i < |keys| ensures votes[i] == VoteKey(keys[i].id, 0) && KeyIs(db, votes[i], t) {
      assert keys[i] in keys;
      assert ConversationOk(db.conversations[keys[i].id], now);
      OneVote(db.conversations[keys[i].id], now);
    }
    forall i, j | 0 <= i < j < |keys| ensures keys[i].id != keys[j].id {
      assert all[i] == keys[i] && all[j] == keys[j] && keys[i] in keys && keys[j] in keys;
    }
  }

  /** After any run, a pass closes min(1000, n) of n due votes: exactly those with fewer than 1000 due
      votes before them by their end, and then by identifier. */
  lemma PassClosesFirst(rs: seq<Request>, asked: Time, t: Time, id: ConversationId)
    requires Timed(rs) && Now(rs) <= asked <= t && id in DueIn(Run(rs), asked)
    ensures var db := Run(rs);
            && Closings(db, Candidates(db, asked), t) == Min(|DueIn(db, asked)|, RESOLVE_LIMIT)
            && (Closed(VisitAll(db, Candidates(db, asked), t), id)
                <==> |Before(DueKeys(db.conversations, asked), DueKey(db, id))| < RESOLVE_LIMIT)
  {
    var db := Run(rs);
    var votes := Candidates(db, asked);
    RunInvariant(rs);
    CandidatesAre(db, Now(rs), asked, t);
    VisitsClose(db, votes, t);
    DueSize(db, Now(rs), asked);
    DueKeysAre(db, Now(rs), asked, DueKey(db, id));
    InFirst(DueKeys(db.conversations, asked), RESOLVE_LIMIT, DueKey(db, id));
    var keys := Take(Ascending(DueKeys(db.conversations, asked)), RESOLVE_LIMIT);
    if DueKey(db, id) in keys {
      var i :| 0 <= i < |keys| && keys[i] == DueKey(db, id);
      assert votes[i] in votes && votes[i].conversation == id;
    } else {
      forall v | v in votes ensures v.conversation != id {
        var i :| 0 <= i < |votes| && votes[i] == v;
        assert keys[i] in keys;
      }
      VisitsLeave(db, votes, t, id);
    }
  }
}
