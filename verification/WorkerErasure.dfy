/** Who resolves a vote, and when, cannot be observed: every answer of a run is the same when requests that
    record nothing, the worker's visits among them, are left out of it. */
module WorkerErasure {
  import opened Wrappers
  import opened Persistence
  import opened Voting
  import opened VotingRuns

  /** Two rows that differ at most in whether a vote due at `t` has been resolved. */
  ghost predicate Same(c: Conversation, d: Conversation, t: Time) {
    && c.(votes := []) == d.(votes := [])
    && |c.votes| == |d.votes|
    && (forall i :: 0 <= i < |c.votes| ==> Resolved(c.votes[i], t) == Resolved(d.votes[i], t))
  }

  predicate Hidden(db: Db, m: MessageId, t: Time)
    requires m in db.messages
  {
    && db.messages[m].isGrace && m in db.events && db.events[m].conversation in db.conversations
    && GraceHidden(db.conversations[db.events[m].conversation], t)
  }

  /** The content a reader may still be shown at `t`. */
  function Shown(db: Db, m: MessageId, t: Time): Option<StoredContent> {
    if m in db.messages && !Hidden(db, m, t) then Some(db.messages[m]) else None
  }

  /** Tables that no request made at `t` or later can tell apart. */
  ghost predicate Agree(a: Db, b: Db, t: Time) {
    && a.events == b.events && a.deliveries == b.deliveries
    && a.conversations.Keys == b.conversations.Keys
    && (forall id :: id in a.conversations ==> Same(a.conversations[id], b.conversations[id], t))
    && (forall m :: Shown(a, m, t) == Shown(b, m, t))
  }

  ghost predicate BothOk(a: Db, b: Db, t: Time) {
    Inv(a, t) && Inv(b, t)
  }

  lemma HiddenWhen(c: Conversation, now: Time, t: Time)
    requires ConversationOk(c, now)
    ensures GraceHidden(c, t) <==> c.votes != [] && Resolved(c.votes[0], t).status == Rejected
  {
    if c.votes != [] {
      assert c.votes == [c.votes[0]] && c.votes[0] in c.votes;
    }
  }

  lemma SameLater(c: Conversation, d: Conversation, t: Time, later: Time)
    requires Same(c, d, t) && t <= later
    ensures Same(c, d, later)
  {
    forall i | 0 <= i < |c.votes| ensures Resolved(c.votes[i], later) == Resolved(d.votes[i], later) {
      assert Resolved(c.votes[i], later) == Resolved(Resolved(c.votes[i], t), later);
      assert Resolved(d.votes[i], later) == Resolved(Resolved(d.votes[i], t), later);
    }
  }

  lemma SameHides(c: Conversation, d: Conversation, now: Time, t: Time)
    requires ConversationOk(c, now) && ConversationOk(d, now) && Same(c, d, t)
    ensures GraceHidden(c, t) == GraceHidden(d, t)
  {
    HiddenWhen(c, now, t);
    HiddenWhen(d, now, t);
  }

  lemma HiddenStays(c: Conversation, now: Time, t: Time, later: Time)
    requires ConversationOk(c, now) && t <= later && GraceHidden(c, t)
    ensures GraceHidden(c, later)
  {
    HiddenWhen(c, now, t);
    HiddenWhen(c, now, later);
  }

  lemma ShownLater(a: Db, b: Db, m: MessageId, t: Time, later: Time)
    requires BothOk(a, b, t) && Agree(a, b, t) && t <= later
    ensures Shown(a, m, later) == Shown(b, m, later)
  {
    assert Shown(a, m, t) == Shown(b, m, t);
    if m in a.messages || m in b.messages {
      var id := a.events[m].conversation;
      if m in a.messages { assert MessageOk(a, m); } else { assert MessageOk(b, m); }
      var c, d := a.conversations[id], b.conversations[id];
      assert ConversationOk(c, t) && ConversationOk(d, t) && Same(c, d, t);
      SameLater(c, d, t, later);
      SameHides(c, d, t, later);
      if GraceHidden(c, t) { HiddenStays(c, t, t, later); }
      SameHides(c, d, t, t);
    }
  }

  lemma AgreeLater(a: Db, b: Db, t: Time, later: Time)
    requires BothOk(a, b, t) && Agree(a, b, t) && t <= later
    ensures Agree(a, b, later)
  {
    forall id | id in a.conversations ensures Same(a.conversations[id], b.conversations[id], later) {
      SameLater(a.conversations[id], b.conversations[id], t, later);
    }
    forall m ensures Shown(a, m, later) == Shown(b, m, later) {
      ShownLater(a, b, m, t, later);
    }
  }

  lemma ResolveShows(db: Db, id: ConversationId, index: nat, t: Time, m: MessageId)
    requires HasVote(db, id, index) && Due(db.conversations[id].votes[index], t)
    requires var after := ResolveVote(db, id, index, t);
             GraceHidden(after.conversations[id], t) == GraceHidden(db.conversations[id], t)
    requires Result(db.conversations[id].votes[index]) == Rejected ==> GraceHidden(db.conversations[id], t)
    ensures Shown(ResolveVote(db, id, index, t), m, t) == Shown(db, m, t)
  {
  }

  /** Resolving a vote that is due changes nothing a request can see. */
  lemma ResolveUnseen(db: Db, id: ConversationId, index: nat, t: Time)
    requires Inv(db, t) && HasVote(db, id, index)
    ensures Agree(ResolveVote(db, id, index, t), db, t)
  {
    var after := ResolveVote(db, id, index, t);
    var c, d := db.conversations[id], after.conversations[id];
    assert ConversationOk(c, t);
    if Due(c.votes[index], t) {
      InvResolve(db, id, index, t, t);
      assert ConversationOk(d, t) && Same(d, c, t);
      SameHides(d, c, t, t);
      HiddenWhen(c, t, t);
      forall m ensures Shown(after, m, t) == Shown(db, m, t) { ResolveShows(db, id, index, t, m); }
    }
  }

  lemma AgreeSwap(a: Db, b: Db, t: Time)
    requires Agree(a, b, t)
    ensures Agree(b, a, t)
  {
  }

  lemma AgreeTrans(a: Db, b: Db, c: Db, t: Time)
    requires Agree(a, b, t) && Agree(b, c, t)
    ensures Agree(a, c, t)
  {
    forall id | id in a.conversations ensures Same(a.conversations[id], c.conversations[id], t) {
      assert Same(a.conversations[id], b.conversations[id], t) && Same(b.conversations[id], c.conversations[id], t);
    }
    forall m ensures Shown(a, m, t) == Shown(c, m, t) {
      assert Shown(a, m, t) == Shown(b, m, t) && Shown(b, m, t) == Shown(c, m, t);
    }
  }

  lemma AgreeResolve(a: Db, b: Db, id: ConversationId, index: nat, t: Time)
    requires BothOk(a, b, t) && Agree(a, b, t) && HasVote(a, id, index)
    ensures HasVote(b, id, index)
    ensures Agree(ResolveVote(a, id, index, t), ResolveVote(b, id, index, t), t)
    ensures ResolveVote(a, id, index, t).conversations[id].votes[index]
         == ResolveVote(b, id, index, t).conversations[id].votes[index]
         == Resolved(a.conversations[id].votes[index], t)
  {
    assert Same(a.conversations[id], b.conversations[id], t);
    ResolveUnseen(a, id, index, t);
    ResolveUnseen(b, id, index, t);
    AgreeSwap(ResolveVote(b, id, index, t), b, t);
    AgreeTrans(ResolveVote(a, id, index, t), a, b, t);
    AgreeTrans(ResolveVote(a, id, index, t), b, ResolveVote(b, id, index, t), t);
  }

  lemma ShownReplace(db: Db, id: ConversationId, c: Conversation, m: MessageId, t: Time)
    requires id in db.conversations && GraceHidden(c, t) == GraceHidden(db.conversations[id], t)
    ensures Shown(db.(conversations := db.conversations[id := c]), m, t) == Shown(db, m, t)
  {
  }

  lemma AgreeReplace(a: Db, b: Db, id: ConversationId, c: Conversation, d: Conversation, t: Time)
    requires Agree(a, b, t) && id in a.conversations && Same(c, d, t)
    requires GraceHidden(c, t) == GraceHidden(a.conversations[id], t)
    requires GraceHidden(d, t) == GraceHidden(b.conversations[id], t)
    ensures Agree(a.(conversations := a.conversations[id := c]), b.(conversations := b.conversations[id := d]), t)
  {
    var a', b' := a.(conversations := a.conversations[id := c]), b.(conversations := b.conversations[id := d]);
    assert forall m :: Shown(a', m, t) == Shown(b', m, t) by {
      forall m ensures Shown(a', m, t) == Shown(b', m, t) {
        ShownReplace(a, id, c, m, t);
        ShownReplace(b, id, d, m, t);
      }
    }
    assert forall k :: k in a'.conversations ==> Same(a'.conversations[k], b'.conversations[k], t);
  }

  /** The same answer from tables that agree, leaving tables that agree. */
  ghost predicate SameStep(a: Db, b: Db, r: Request) {
    Perform(a, r).0 == Perform(b, r).0 && Agree(Perform(a, r).1, Perform(b, r).1, End(r))
  }

  lemma VisibleIffShown(db: Db, id: ConversationId, user: UserId, m: MessageId, t: Time)
    requires m in db.messages ==> MessageOk(db, m)
    ensures Visible(db, id, user, m, t)
       <==> && id in db.conversations && db.conversations[id].mode == Stored && Present(db.conversations[id], user)
            && m in db.events && db.events[m].conversation == id && db.events[m].expiresAt > t
            && Shown(db, m, t).Some? && Shown(db, m, t).value.expiresAt > t
  {
  }

  lemma AgreeReadOne(a: Db, b: Db, user: UserId, id: ConversationId, m: MessageId, t: Time)
    requires BothOk(a, b, t) && Agree(a, b, t)
    ensures Visible(a, id, user, m, t) == Visible(b, id, user, m, t)
    ensures Visible(a, id, user, m, t) ==> a.messages[m] == b.messages[m]
  {
    VisibleIffShown(a, id, user, m, t);
    VisibleIffShown(b, id, user, m, t);
    assert Shown(a, m, t) == Shown(b, m, t);
    if id in a.conversations { assert Same(a.conversations[id], b.conversations[id], t); }
  }

  lemma AgreeHistory(a: Db, b: Db, user: UserId, id: ConversationId, t: Time)
    requires BothOk(a, b, t) && Agree(a, b, t)
    ensures History(a, id, user, t) == History(b, id, user, t)
  {
    var p, q := History(a, id, user, t), History(b, id, user, t);
    forall m ensures (m in p <==> m in q) && (m in p ==> p[m] == q[m]) {
      AgreeReadOne(a, b, user, id, m, t);
    }
  }

  lemma AgreeRead(a: Db, b: Db, user: UserId, id: ConversationId, t: Time)
    requires BothOk(a, b, t) && Agree(a, b, t)
    ensures SameStep(a, b, Read(user, id, t))
  {
    AgreeHistory(a, b, user, id, t);
  }

  lemma SameVoteOpen(c: Conversation, d: Conversation, t: Time)
    requires Same(c, d, t)
    ensures VoteOpen(c, t) == VoteOpen(d, t)
  {
    forall i | 0 <= i < |c.votes|
      ensures (c.votes[i].status == VoteStatus.Open && c.votes[i].expiresAt > t)
         <==> (d.votes[i].status == VoteStatus.Open && d.votes[i].expiresAt > t)
    {
      assert Resolved(c.votes[i], t) == Resolved(d.votes[i], t);
    }
    if VoteOpen(c, t) {
      var i :| 0 <= i < |c.votes| && c.votes[i].status == VoteStatus.Open && c.votes[i].expiresAt > t;
      assert d.votes[i] in d.votes;
    }
    if VoteOpen(d, t) {
      var i :| 0 <= i < |d.votes| && d.votes[i].status == VoteStatus.Open && d.votes[i].expiresAt > t;
      assert c.votes[i] in c.votes;
    }
  }

  lemma ShownRecord(db: Db, w: Write, checkAt: Time, stampAt: Time, m: MessageId)
    requires Inv(db, checkAt) && checkAt <= stampAt && Record(db, w, checkAt, stampAt).0.Created?
    ensures var c := db.conversations[w.conversation];
            Shown(Record(db, w, checkAt, stampAt).1, m, stampAt)
              == if m != w.id then Shown(db, m, stampAt)
                 else if c.mode == Stored
                 then Some(StoredContent(w.content, c.status == Pending, stampAt + EVENT_LIFE)) else None
  {
    var after := Record(db, w, checkAt, stampAt).1;
    var c := db.conversations[w.conversation];
    var d := after.conversations[w.conversation];
    assert ConversationOk(c, checkAt) && c.votes == d.votes;
    assert GraceHidden(c, stampAt) == GraceHidden(d, stampAt);
    if m in db.messages { assert MessageOk(db, m); }
  }

  lemma SameRecord(a: Db, b: Db, w: Write, checkAt: Time, stampAt: Time)
    requires BothOk(a, b, checkAt) && Agree(a, b, checkAt) && checkAt <= stampAt
    ensures Record(a, w, checkAt, stampAt).0 == Record(b, w, checkAt, stampAt).0
    ensures w.conversation in a.conversations ==>
              Same(a.conversations[w.conversation], b.conversations[w.conversation], checkAt)
  {
    if w.conversation in a.conversations {
      assert Same(a.conversations[w.conversation], b.conversations[w.conversation], checkAt);
      SameVoteOpen(a.conversations[w.conversation], b.conversations[w.conversation], checkAt);
    }
  }

  lemma AgreeCreatedShown(a: Db, b: Db, w: Write, checkAt: Time, stampAt: Time, m: MessageId)
    requires BothOk(a, b, checkAt) && Agree(a, b, checkAt) && checkAt <= stampAt
    requires Record(a, w, checkAt, stampAt).0.Created? && Record(b, w, checkAt, stampAt).0.Created?
    ensures Shown(Record(a, w, checkAt, stampAt).1, m, stampAt) == Shown(Record(b, w, checkAt, stampAt).1, m, stampAt)
  {
    SameRecord(a, b, w, checkAt, stampAt);
    ShownRecord(a, w, checkAt, stampAt, m);
    ShownRecord(b, w, checkAt, stampAt, m);
    ShownLater(a, b, m, checkAt, stampAt);
  }

  lemma AgreeCreatedRow(a: Db, b: Db, w: Write, checkAt: Time, stampAt: Time, id: ConversationId)
    requires Agree(a, b, checkAt) && checkAt <= stampAt && id in a.conversations
    requires Record(a, w, checkAt, stampAt).0.Created? && Record(b, w, checkAt, stampAt).0.Created?
    ensures Same(Record(a, w, checkAt, stampAt).1.conversations[id],
                 Record(b, w, checkAt, stampAt).1.conversations[id], stampAt)
  {
    SameLater(a.conversations[id], b.conversations[id], checkAt, stampAt);
  }

  lemma AgreeCreated(a: Db, b: Db, w: Write, checkAt: Time, stampAt: Time)
    requires BothOk(a, b, checkAt) && Agree(a, b, checkAt) && checkAt <= stampAt
    requires Record(a, w, checkAt, stampAt).0.Created?
    requires Record(b, w, checkAt, stampAt).0 == Record(a, w, checkAt, stampAt).0
    ensures Agree(Record(a, w, checkAt, stampAt).1, Record(b, w, checkAt, stampAt).1, stampAt)
  {
    var a', b' := Record(a, w, checkAt, stampAt).1, Record(b, w, checkAt, stampAt).1;
    assert a'.events == b'.events && a'.deliveries == b'.deliveries by {
      SameRecord(a, b, w, checkAt, stampAt);
    }
    forall m ensures Shown(a', m, stampAt) == Shown(b', m, stampAt) {
      AgreeCreatedShown(a, b, w, checkAt, stampAt, m);
    }
    forall id | id in a'.conversations ensures Same(a'.conversations[id], b'.conversations[id], stampAt) {
      AgreeCreatedRow(a, b, w, checkAt, stampAt, id);
    }
  }

  lemma AgreeSend(a: Db, b: Db, w: Write, checkAt: Time, stampAt: Time)
    requires BothOk(a, b, checkAt) && Agree(a, b, checkAt) && checkAt <= stampAt
    ensures SameStep(a, b, Request.Send(w, checkAt, stampAt))
  {
    SameRecord(a, b, w, checkAt, stampAt);
    if Record(a, w, checkAt, stampAt).0.Created? {
      AgreeCreated(a, b, w, checkAt, stampAt);
    } else {
      AgreeLater(a, b, checkAt, stampAt);
    }
  }

  lemma HiddenByVotes(c: Conversation, d: Conversation, t: Time)
    requires c.votes == d.votes
    ensures GraceHidden(c, t) == GraceHidden(d, t)
  {
  }

  lemma AgreeEdit(a: Db, b: Db, id: ConversationId, c: Conversation, d: Conversation, t: Time)
    requires Agree(a, b, t) && id in a.conversations
    requires c.votes == a.conversations[id].votes && d.votes == b.conversations[id].votes
    requires c.(votes := []) == d.(votes := [])
    ensures Agree(a.(conversations := a.conversations[id := c]), b.(conversations := b.conversations[id := d]), t)
  {
    HiddenByVotes(c, a.conversations[id], t);
    HiddenByVotes(d, b.conversations[id], t);
    assert Same(a.conversations[id], b.conversations[id], t);
    AgreeReplace(a, b, id, c, d, t);
  }

  lemma AgreeFirstAccept(a: Db, b: Db, id: ConversationId, t: Time)
    requires BothOk(a, b, t) && Agree(a, b, t) && id in a.conversations
    requires a.conversations[id].status == Pending
    ensures a.conversations[id] == b.conversations[id]
    ensures var c := AcceptConversation(a.conversations[id], t);
            Agree(a.(conversations := a.conversations[id := c]), b.(conversations := b.conversations[id := c]), t)
  {
    var c, d := a.conversations[id], b.conversations[id];
    assert ConversationOk(c, t) && ConversationOk(d, t) && Same(c, d, t);
    var e := AcceptConversation(c, t);
    assert e.votes == [e.votes[0]];
    assert !GraceHidden(e, t) && !GraceHidden(c, t);
    AgreeReplace(a, b, id, e, e, t);
  }

  /** What accepting again answers and leaves, in terms of the resolved vote. */
  lemma AcceptAgainIs(db: Db, user: UserId, id: ConversationId, t: Time)
    requires id in db.conversations && |db.conversations[id].votes| == 1
    ensures var c := db.conversations[id];
            var v := Resolved(c.votes[0], t);
            AcceptAgain(db, id, user, t) ==
            if user !in v.eligible || !Present(c, user) then (Error(VoteNotFound), db)
            else if !Supported(v) then (Error(VoteUnsupported), db)
            else (AcceptedReply(Summarize(c), Snapshot(v, user)), ResolveVote(db, id, 0, t))
  {
  }

  lemma AgreeAcceptAgain(a: Db, b: Db, user: UserId, id: ConversationId, t: Time)
    requires BothOk(a, b, t) && Agree(a, b, t) && id in a.conversations
    requires a.conversations[id].status == Active
    ensures AcceptAgain(a, id, user, t).0 == AcceptAgain(b, id, user, t).0
    ensures Agree(AcceptAgain(a, id, user, t).1, AcceptAgain(b, id, user, t).1, t)
  {
    var c, d := a.conversations[id], b.conversations[id];
    assert ConversationOk(c, t) && ConversationOk(d, t) && Same(c, d, t);
    assert Resolved(c.votes[0], t) == Resolved(d.votes[0], t);
    AcceptAgainIs(a, user, id, t);
    AcceptAgainIs(b, user, id, t);
    AgreeResolve(a, b, id, 0, t);
  }

  lemma AgreeRow(a: Db, b: Db, id: ConversationId, t: Time)
    requires Agree(a, b, t) && id in a.conversations
    ensures id in b.conversations && a.conversations[id].(votes := []) == b.conversations[id].(votes := [])
  {
    assert Same(a.conversations[id], b.conversations[id], t);
  }

  lemma AgreeHostAccepts(a: Db, b: Db, id: ConversationId, t: Time)
    requires BothOk(a, b, t) && Agree(a, b, t) && id in a.conversations && id in b.conversations
    ensures HostAccepts(a, id, t).0 == HostAccepts(b, id, t).0
    ensures Agree(HostAccepts(a, id, t).1, HostAccepts(b, id, t).1, t)
  {
    AgreeRow(a, b, id, t);
    match a.conversations[id].status {
      case Pending => AgreeFirstAccept(a, b, id, t);
      case Active => AgreeAcceptAgain(a, b, a.conversations[id].host, id, t);
      case Closed =>
    }
  }

  lemma AcceptIs(db: Db, user: UserId, id: ConversationId, t: Time)
    requires id in db.conversations && Present(db.conversations[id], user)
    ensures Change(db, user, id, Accept, t) ==
            if user == db.conversations[id].host then HostAccepts(db, id, t) else (Error(NotConversationHost), db)
  {
  }

  lemma AgreeAccept(a: Db, b: Db, user: UserId, id: ConversationId, t: Time)
    requires BothOk(a, b, t) && Agree(a, b, t) && id in a.conversations && Present(a.conversations[id], user)
    ensures SameStep(a, b, ChangeIt(user, id, Accept, t))
  {
    AgreeRow(a, b, id, t);
    AcceptIs(a, user, id, t);
    AcceptIs(b, user, id, t);
    if user == a.conversations[id].host {
      AgreeHostAccepts(a, b, id, t);
    }
  }

  /** The row that a leave, close or upgrade writes, if it writes one, and its answer. */
  function Edited(c: Conversation, user: UserId, action: Action): (Reply, Option<Conversation>) {
    if !Member(c, user) then (Error(ConversationNotFound), None)
    else if action == Leave then (NoContent, if Present(c, user) then Some(LeaveConversation(c, user)) else None)
    else if !Present(c, user) then (Error(ConversationNotFound), None)
    else if action == Close then (NoContent, Some(c.(status := Closed)))
    else if user != c.host then (Error(NotConversationHost), None)
    else if c.status == Closed then (Error(ConversationClosed), None)
    else if c.status != Active then (Error(ConversationNotActive), None)
    else (Changed(Summarize(c.(mode := Stored))), Some(c.(mode := Stored)))
  }

  lemma OtherIs(db: Db, user: UserId, id: ConversationId, action: Action, t: Time)
    requires id in db.conversations && action != Accept
    ensures var (reply, d) := Edited(db.conversations[id], user, action);
            Change(db, user, id, action, t)
              == (reply, if d == None then db else db.(conversations := db.conversations[id := d.value]))
  {
  }

  lemma EditedAlike(c: Conversation, d: Conversation, user: UserId, action: Action)
    requires c.(votes := []) == d.(votes := [])
    ensures Edited(c, user, action).0 == Edited(d, user, action).0
    ensures Edited(c, user, action).1.Some? <==> Edited(d, user, action).1.Some?
    ensures Edited(c, user, action).1.Some? ==>
              var e, f := Edited(c, user, action).1.value, Edited(d, user, action).1.value;
              e.votes == c.votes && f.votes == d.votes && e.(votes := []) == f.(votes := [])
  {
  }

  lemma AgreeOther(a: Db, b: Db, user: UserId, id: ConversationId, action: Action, t: Time)
    requires Agree(a, b, t) && id in a.conversations && action != Accept
    ensures SameStep(a, b, ChangeIt(user, id, action, t))
  {
    var c, d := a.conversations[id], b.conversations[id];
    assert Same(c, d, t);
    OtherIs(a, user, id, action, t);
    OtherIs(b, user, id, action, t);
    EditedAlike(c, d, user, action);
    if Edited(c, user, action).1.Some? {
      AgreeEdit(a, b, id, Edited(c, user, action).1.value, Edited(d, user, action).1.value, t);
    }
  }

  lemma AgreeChange(a: Db, b: Db, user: UserId, id: ConversationId, action: Action, t: Time)
    requires BothOk(a, b, t) && Agree(a, b, t)
    ensures SameStep(a, b, ChangeIt(user, id, action, t))
  {
    if id in a.conversations {
      if action != Accept {
        AgreeOther(a, b, user, id, action, t);
      } else if Present(a.conversations[id], user) {
        AgreeAccept(a, b, user, id, t);
      } else {
        assert Same(a.conversations[id], b.conversations[id], t);
      }
    }
  }

  /** The part of an access that follows its first resolution. */
  lemma AgreeBallot(a: Db, b: Db, user: UserId, id: ConversationId, index: nat, choice: bool, t: Time)
    requires BothOk(a, b, t) && Agree(a, b, t) && HasVote(a, id, index) && HasVote(b, id, index)
    requires a.conversations[id].votes[index] == b.conversations[id].votes[index]
    requires a.conversations[id].votes[index].status == VoteStatus.Open
    requires a.conversations[id].votes[index].expiresAt > t
    ensures var v := CastBallot(a.conversations[id].votes[index], user, choice);
            Agree(UpdateVote(a, id, index, v), UpdateVote(b, id, index, v), t)
  {
    var c, d := a.conversations[id], b.conversations[id];
    assert ConversationOk(c, t) && ConversationOk(d, t) && Same(c, d, t);
    var v := CastBallot(c.votes[index], user, choice);
    var e, f := c.(votes := c.votes[index := v]), d.(votes := d.votes[index := v]);
    assert e.votes == [v] && f.votes == [v];
    assert !GraceHidden(e, t) && !GraceHidden(f, t);
    HiddenWhen(c, t, t);
    HiddenWhen(d, t, t);
    AgreeReplace(a, b, id, e, f, t);
  }

  lemma AgreeAccess(a: Db, b: Db, user: UserId, id: ConversationId, index: nat, choice: Option<bool>, k: Clock)
    requires BothOk(a, b, k.first) && Agree(a, b, k.first) && Ordered(k)
    ensures SameStep(a, b, AccessIt(user, id, index, choice, k))
  {
    AgreeLater(a, b, k.first, k.late);
    if HasVote(a, id, index) || HasVote(b, id, index) {
      AgreeElectorate(a, b, id, index, k.first);
      if user in a.conversations[id].votes[index].eligible {
        AgreeResolve(a, b, id, index, k.first);
        var p, q := ResolveVote(a, id, index, k.first), ResolveVote(b, id, index, k.first);
        InvResolve(a, id, index, k.first, k.first);
        InvResolve(b, id, index, k.first, k.first);
        AgreeUsable(p, q, user, id, index, choice, k);
      }
    }
  }

  lemma AgreeElectorate(a: Db, b: Db, id: ConversationId, index: nat, t: Time)
    requires BothOk(a, b, t) && Agree(a, b, t) && (HasVote(a, id, index) || HasVote(b, id, index))
    ensures HasVote(a, id, index) && HasVote(b, id, index)
    ensures var c, d := a.conversations[id], b.conversations[id];
            && c.votes[index].eligible == d.votes[index].eligible
            && Supported(c.votes[index]) && Supported(d.votes[index])
            && forall u :: Present(c, u) == Present(d, u)
  {
    var c, d := a.conversations[id], b.conversations[id];
    assert Same(c, d, t) && ConversationOk(c, t) && ConversationOk(d, t);
    PairSize(c.host, c.guest);
  }

  lemma AgreeUsable(p: Db, q: Db, user: UserId, id: ConversationId, index: nat, choice: Option<bool>, k: Clock)
    requires BothOk(p, q, k.first) && Agree(p, q, k.first) && Ordered(k)
    requires HasVote(p, id, index) && HasVote(q, id, index)
    requires p.conversations[id].votes[index] == q.conversations[id].votes[index]
    requires user in p.conversations[id].votes[index].eligible
    ensures AccessResolved(p, user, id, index, choice, k).0 == AccessResolved(q, user, id, index, choice, k).0
    ensures Agree(AccessResolved(p, user, id, index, choice, k).1, AccessResolved(q, user, id, index, choice, k).1,
                  k.late)
  {
    AgreeAfterResolve(p, q, user, id, index, choice, k);
  }

  lemma AgreeAfterResolve(p: Db, q: Db, user: UserId, id: ConversationId, index: nat, choice: Option<bool>, k: Clock)
    requires BothOk(p, q, k.first) && Agree(p, q, k.first) && Ordered(k)
    requires HasVote(p, id, index) && HasVote(q, id, index)
    requires p.conversations[id].votes[index] == q.conversations[id].votes[index]
    ensures Agree(p, q, k.late)
    ensures Agree(ResolveVote(p, id, index, k.late), ResolveVote(q, id, index, k.late), k.late)
    ensures var v := p.conversations[id].votes[index];
            choice.Some? && v.status == VoteStatus.Open && v.expiresAt > k.ballot ==>
              var w := CastBallot(v, user, choice.value);
              user in v.eligible ==> Agree(UpdateVote(p, id, index, w), UpdateVote(q, id, index, w), k.late)
  {
    AgreeLater(p, q, k.first, k.late);
    InvLater(p, k.first, k.late);
    InvLater(q, k.first, k.late);
    AgreeResolve(p, q, id, index, k.late);
    var v := p.conversations[id].votes[index];
    if choice.Some? && v.status == VoteStatus.Open && v.expiresAt > k.ballot && user in v.eligible {
      AgreeLater(p, q, k.first, k.ballot);
      InvLater(p, k.first, k.ballot);
      InvLater(q, k.first, k.ballot);
      AgreeBallot(p, q, user, id, index, choice.value, k.ballot);
      var w := CastBallot(v, user, choice.value);
      InvCast(p, user, id, index, choice.value, k.ballot);
      InvCast(q, user, id, index, choice.value, k.ballot);
      AgreeLater(UpdateVote(p, id, index, w), UpdateVote(q, id, index, w), k.ballot, k.late);
    }
  }

  lemma InvCast(db: Db, user: UserId, id: ConversationId, index: nat, choice: bool, t: Time)
    requires Inv(db, t) && HasVote(db, id, index)
    requires db.conversations[id].votes[index].status == VoteStatus.Open
    requires db.conversations[id].votes[index].expiresAt > t && user in db.conversations[id].votes[index].eligible
    ensures Inv(UpdateVote(db, id, index, CastBallot(db.conversations[id].votes[index], user, choice)), t)
  {
    var c := db.conversations[id];
    assert ConversationOk(c, t);
    var d := c.(votes := c.votes[index := CastBallot(c.votes[index], user, choice)]);
    assert VoteOk(d, d.votes[0], t);
    InvReplace(db, id, d, t);
  }

  lemma AgreePurge(a: Db, b: Db, t: Time)
    requires BothOk(a, b, t) && Agree(a, b, t)
    ensures SameStep(a, b, Request.Purge(t))
  {
    var p, q := Cleanup(a, t), Cleanup(b, t);
    assert p.events == q.events && p.deliveries == q.deliveries;
    forall m ensures Shown(p, m, t) == Shown(q, m, t) {
      ShownPurged(a, m, t);
      ShownPurged(b, m, t);
      assert Shown(a, m, t) == Shown(b, m, t);
    }
  }

  lemma ShownPurged(db: Db, m: MessageId, t: Time)
    requires Inv(db, t)
    ensures Shown(Cleanup(db, t), m, t)
         == if m in db.events && db.events[m].expiresAt > t then Shown(db, m, t) else None
  {
    if m in db.messages { assert MessageOk(db, m); }
  }

  lemma AgreeOpen(a: Db, b: Db, r: Request)
    requires r.Redeem? && BothOk(a, b, r.at) && Agree(a, b, r.at)
    ensures SameStep(a, b, r)
  {
    if r.id !in a.conversations && r.host != r.guest {
      var p, q := Perform(a, r).1, Perform(b, r).1;
      forall m ensures Shown(p, m, r.at) == Shown(q, m, r.at) {
        ShownOpened(a, r, m);
        ShownOpened(b, r, m);
        assert Shown(a, m, r.at) == Shown(b, m, r.at);
      }
      forall id | id in p.conversations
        ensures id in q.conversations && Same(p.conversations[id], q.conversations[id], r.at)
      {
        if id in a.conversations { assert Same(a.conversations[id], b.conversations[id], r.at); }
      }
    }
  }

  lemma ShownOpened(db: Db, r: Request, m: MessageId)
    requires r.Redeem? && Inv(db, r.at)
    ensures Shown(Perform(db, r).1, m, r.at) == Shown(db, m, r.at)
  {
    if m in db.messages { assert MessageOk(db, m); }
  }

  lemma AgreePerform(a: Db, b: Db, r: Request)
    requires BothOk(a, b, Begin(r)) && Agree(a, b, Begin(r)) && WellTimed(r) && !r.Visit?
    ensures SameStep(a, b, r)
  {
    match r {
      case Redeem(_, _, _, _, _, _) => AgreeOpen(a, b, r);
      case Send(w, checkAt, stampAt) => AgreeSend(a, b, w, checkAt, stampAt);
      case ChangeIt(user, id, action, at) => AgreeChange(a, b, user, id, action, at);
      case AccessIt(user, id, index, choice, clock) => AgreeAccess(a, b, user, id, index, choice, clock);
      case Read(user, id, at) => AgreeRead(a, b, user, id, at);
      case Purge(at) => AgreePurge(a, b, at);
    }
  }

  // ---- Requests that at most resolve --------------------------------------------------

  /** The request records nothing: at most it closes a vote that is due. These are the worker's visits, the
      reads of a history or a vote, repeated acceptances, and every request that is refused. */
  predicate OnlyResolves(db: Db, r: Request) {
    match r
    case Visit(_, _, _) => true
    case Read(_, _, _) => true
    case Send(w, checkAt, stampAt) => !Record(db, w, checkAt, stampAt).0.Created?
    case AccessIt(user, id, index, choice, clock) => choice == None
      || Access(db, user, id, index, choice, clock).0.Error?
    case ChangeIt(user, id, action, at) =>
      || Change(db, user, id, action, at).0.Error?
      || (action == Accept && id in db.conversations && db.conversations[id].status != Pending)
    case _ => false
  }

  lemma AgreeSelf(db: Db, t: Time)
    ensures Agree(db, db, t)
  {
  }

  lemma AccessOnlyResolves(db: Db, r: Request)
    requires r.AccessIt? && WellTimed(r) && Inv(db, r.clock.first) && OnlyResolves(db, r)
    ensures Agree(Perform(db, r).1, db, r.clock.late)
  {
    var id, index, k := r.id, r.index, r.clock;
    AgreeSelf(db, k.late);
    if HasVote(db, id, index) {
      var read := ResolveVote(db, id, index, k.first);
      InvResolve(db, id, index, k.first, k.first);
      ResolveUnseen(db, id, index, k.first);
      AgreeLater(read, db, k.first, k.late);
      assert HasVote(read, id, index);
      InvLater(read, k.first, k.late);
      ResolveUnseen(read, id, index, k.late);
      AgreeTrans(ResolveVote(read, id, index, k.late), read, db, k.late);
      AccessShape(db, r, read);
    }
  }

  lemma AccessShape(db: Db, r: Request, read: Db)
    requires r.AccessIt? && OnlyResolves(db, r) && HasVote(db, r.id, r.index)
    requires read == ResolveVote(db, r.id, r.index, r.clock.first)
    ensures HasVote(read, r.id, r.index)
    ensures var after := Perform(db, r).1;
            after == db || after == read || after == ResolveVote(read, r.id, r.index, r.clock.late)
  {
  }

  lemma ChangeOnlyResolves(db: Db, r: Request)
    requires r.ChangeIt? && Inv(db, r.at) && OnlyResolves(db, r)
    ensures Agree(Perform(db, r).1, db, r.at)
  {
    AgreeSelf(db, r.at);
    if r.id in db.conversations && db.conversations[r.id].votes != [] {
      ResolveUnseen(db, r.id, LatestVote(db.conversations[r.id]), r.at);
    }
    RefusedChange(db, r);
  }

  lemma RefusedChange(db: Db, r: Request)
    requires r.ChangeIt? && OnlyResolves(db, r)
    ensures var after := Perform(db, r).1;
            || after == db
            || (r.id in db.conversations && db.conversations[r.id].votes != []
                && after == ResolveVote(db, r.id, LatestVote(db.conversations[r.id]), r.at))
  {
  }

  lemma VisitUnseen(db: Db, id: ConversationId, index: nat, t: Time)
    requires Inv(db, t)
    ensures Agree(WorkerVisit(db, id, index, t), db, t)
  {
    AgreeSelf(db, t);
    if HasVote(db, id, index) { ResolveUnseen(db, id, index, t); }
  }

  lemma Unseen(db: Db, r: Request)
    requires Inv(db, Begin(r)) && WellTimed(r) && OnlyResolves(db, r)
    ensures Agree(Perform(db, r).1, db, End(r))
  {
    AgreeSelf(db, End(r));
    match r {
      case Visit(id, index, at) => VisitUnseen(db, id, index, at);
      case AccessIt(_, _, _, _, _) => AccessOnlyResolves(db, r);
      case ChangeIt(_, _, _, _) => ChangeOnlyResolves(db, r);
      case _ =>
    }
  }

  lemma AgreeVisit(a: Db, b: Db, r: Request)
    requires r.Visit? && BothOk(a, b, r.at) && Agree(a, b, r.at)
    ensures SameStep(a, b, r)
  {
    VisitUnseen(a, r.id, r.index, r.at);
    VisitUnseen(b, r.id, r.index, r.at);
    AgreeTrans(Perform(a, r).1, a, b, r.at);
    AgreeSwap(Perform(b, r).1, b, r.at);
    AgreeTrans(Perform(a, r).1, b, Perform(b, r).1, r.at);
  }

  // ---- Whole runs -------------------------------------------------------------------

  /** The run without the requests at the marked positions. */
  function Without(rs: seq<Request>, drop: seq<bool>): seq<Request>
    requires |drop| == |rs|
  {
    if rs == [] then []
    else
      var n := |rs| - 1;
      Without(rs[..n], drop[..n]) + if drop[n] then [] else [rs[n]]
  }

  /** The answers to the requests at the other positions, in order. */
  function Answers(rs: seq<Request>, drop: seq<bool>): seq<Answer>
    requires |drop| == |rs|
  {
    if rs == [] then []
    else
      var n := |rs| - 1;
      Answers(rs[..n], drop[..n]) + if drop[n] then [] else [Perform(Run(rs[..n]), rs[n]).0]
  }

  function NoDrops(n: nat): seq<bool> {
    seq(n, i => false)
  }

  function AllAnswers(rs: seq<Request>): seq<Answer> {
    Answers(rs, NoDrops(|rs|))
  }

  /** What is marked records nothing where it stands. */
  ghost predicate MayDrop(rs: seq<Request>, drop: seq<bool>) {
    |drop| == |rs| && forall i :: 0 <= i < |rs| && drop[i] ==> OnlyResolves(Run(rs[..i]), rs[i])
  }

  lemma MayDropPrefix(rs: seq<Request>, drop: seq<bool>)
    requires MayDrop(rs, drop) && rs != []
    ensures MayDrop(rs[..|rs| - 1], drop[..|rs| - 1])
  {
    var p, d := rs[..|rs| - 1], drop[..|rs| - 1];
    forall i | 0 <= i < |p| && d[i] ensures OnlyResolves(Run(p[..i]), p[i]) {
      assert p[..i] == rs[..i];
      assert drop[i];
    }
  }

  lemma {:induction false} WithoutTimed(rs: seq<Request>, drop: seq<bool>)
    requires Timed(rs) && |drop| == |rs|
    ensures Timed(Without(rs, drop)) && Now(Without(rs, drop)) <= Now(rs)
  {
    if rs != [] {
      var n := |rs| - 1;
      var kept := Without(rs[..n], drop[..n]);
      WithoutTimed(rs[..n], drop[..n]);
      if drop[n] {
        assert Without(rs, drop) == kept;
      } else {
        assert Without(rs, drop)[..|Without(rs, drop)| - 1] == kept;
      }
    }
  }

  lemma AnswersMore(rs: seq<Request>, r: Request)
    ensures AllAnswers(rs + [r]) == AllAnswers(rs) + [Perform(Run(rs), r).0]
  {
    var more := rs + [r];
    assert more[..|more| - 1] == rs;
    assert NoDrops(|more|)[..|rs|] == NoDrops(|rs|);
  }

  lemma AgreeStep(a: Db, b: Db, r: Request, now: Time, before: Time)
    requires Inv(a, now) && Inv(b, before) && before <= now <= Begin(r) && Agree(a, b, now) && WellTimed(r)
    ensures SameStep(a, b, r)
  {
    InvLater(b, before, now);
    AgreeLater(a, b, now, Begin(r));
    InvLater(a, now, Begin(r));
    InvLater(b, now, Begin(r));
    if r.Visit? { AgreeVisit(a, b, r); } else { AgreePerform(a, b, r); }
  }

  lemma AgreeDropped(a: Db, b: Db, r: Request, now: Time, before: Time)
    requires Inv(a, now) && Inv(b, before) && before <= now <= Begin(r) && Agree(a, b, now) && WellTimed(r)
    requires OnlyResolves(a, r)
    ensures Agree(Perform(a, r).1, b, End(r))
  {
    InvLater(b, before, now);
    AgreeLater(a, b, now, End(r));
    InvLater(a, now, Begin(r));
    Unseen(a, r);
    AgreeTrans(Perform(a, r).1, a, b, End(r));
  }

  /** Who resolves a vote cannot be observed: leaving out of a run any requests that record nothing - visits
      of the worker, reads, repeated acceptances, refused requests - changes no answer to the others, and
      leaves tables no later request can tell apart. */
  lemma {:induction false} ResolversAreInvisible(rs: seq<Request>, drop: seq<bool>)
    requires Timed(rs) && MayDrop(rs, drop)
    ensures AllAnswers(Without(rs, drop)) == Answers(rs, drop)
    ensures Agree(Run(rs), Run(Without(rs, drop)), Now(rs))
  {
    if rs != [] {
      var n := |rs| - 1;
      var p, d, r := rs[..n], drop[..n], rs[n];
      var kept := Without(p, d);
      MayDropPrefix(rs, drop);
      ResolversAreInvisible(p, d);
      WithoutTimed(p, d);
      RunInvariant(p);
      RunInvariant(kept);
      if drop[n] {
        assert Without(rs, drop) == kept;
        AgreeDropped(Run(p), Run(kept), r, Now(p), Now(kept));
      } else {
        assert (kept + [r])[..|kept|] == kept;
        AnswersMore(kept, r);
        AgreeStep(Run(p), Run(kept), r, Now(p), Now(kept));
      }
    }
  }

  /** Whatever else two runs hold that records nothing - worker schedules, reads, retries - the same requests
      get the same answers. */
  lemma SchedulesAgree(one: seq<Request>, dropOne: seq<bool>, two: seq<Request>, dropTwo: seq<bool>)
    requires Timed(one) && MayDrop(one, dropOne) && Timed(two) && MayDrop(two, dropTwo)
    requires Without(one, dropOne) == Without(two, dropTwo)
    ensures Answers(one, dropOne) == Answers(two, dropTwo)
  {
    ResolversAreInvisible(one, dropOne);
    ResolversAreInvisible(two, dropTwo);
  }

  /** The positions of the worker's visits. */
  function Visits(rs: seq<Request>): seq<bool> {
    seq(|rs|, i requires 0 <= i < |rs| => rs[i].Visit?)
  }

  /** The worker in particular: without its visits every other request is answered alike. */
  lemma WorkerIsInvisible(rs: seq<Request>)
    requires Timed(rs)
    ensures AllAnswers(Without(rs, Visits(rs))) == Answers(rs, Visits(rs))
    ensures Agree(Run(rs), Run(Without(rs, Visits(rs))), Now(rs))
  {
    ResolversAreInvisible(rs, Visits(rs));
  }

  /** A reader at `t` sees the same list before and after the vote is resolved at `t`. */
  lemma HistoryUnmovedByResolve(rs: seq<Request>, id: ConversationId, index: nat, viewer: UserId, other: ConversationId,
                                t: Time)
    requires Timed(rs) && Now(rs) <= t && HasVote(Run(rs), id, index)
    ensures History(ResolveVote(Run(rs), id, index, t), other, viewer, t) == History(Run(rs), other, viewer, t)
  {
    var db := Run(rs);
    RunInvariant(rs);
    InvLater(db, Now(rs), t);
    InvResolve(db, id, index, t, t);
    ResolveUnseen(db, id, index, t);
    AgreeHistory(ResolveVote(db, id, index, t), db, viewer, other, t);
  }
}
