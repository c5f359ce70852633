/** Which rows come first wherever only some are taken: what an index read returns, which pending rows and due
    votes a pass takes up, and how a page of the history runs. */
module OrderOutcomes {
  import opened Wrappers
  import opened Persistence
  import opened Ordering
  import opened RealtimeRedis
  import Messaging
  import opened Reconciliation
  import opened Voting
  import opened Pagination

  lemma LeftOutIsLater(all: seq<Key>, n: nat, k: Key, x: Key)
    requires Increasing(all) && k in Take(all, n) && x in all && x !in Take(all, n)
    ensures Less(k, x)
  {
    var r := Take(all, n);
    var i :| 0 <= i < |r| && r[i] == k;
    var j :| 0 <= j < |all| && all[j] == x;
    assert all[i] == k;
    if j < |r| { assert r[j] == x; }
  }

  /** As many as there are, up to `n`, in order, each before all that are left out. */
  ghost predicate FirstOf(r: seq<Key>, s: set<Key>, n: nat) {
    && |r| == (if |s| <= n then |s| else n) && (forall k :: k in r ==> k in s)
    && (forall i, j :: 0 <= i < j < |r| ==> Less(r[i], r[j]))
    && forall k, x :: k in r && x in s && x !in r ==> Less(k, x)
  }

  lemma TakenInOrder(s: set<Key>, n: nat)
    ensures FirstOf(Take(Ascending(s), n), s, n)
  {
    var all, r := Ascending(s), Take(Ascending(s), n);
    forall k | k in r ensures k in s { assert k in all; }
    forall k, x | k in r && x in s && x !in r ensures Less(k, x) { LeftOutIsLater(all, n, k, x); }
  }

  /** An index read returns at most 1000 members, those with the earliest deadlines, in their order, and members
      of one deadline in that of their identifiers. */
  lemma EarliestDeadlinesFirst(r: Redis, f: Filter)
    ensures var ks, all := ActiveKeys(r, f), IndexKeys(r, f);
            && |ks| == (if |all| <= 1000 then |all| else 1000) && (forall k :: k in ks ==> k in all)
            && (forall i, j :: 0 <= i < j < |ks| ==>
                  ks[i].at < ks[j].at || (ks[i].at == ks[j].at && ks[i].id < ks[j].id))
            && forall k, x :: k in ks && x in all && x !in ks ==> k.at <= x.at
  {
    TakenInOrder(IndexKeys(r, f), 1000);
    forall k | k in IndexKeys(r, f) ensures k.group == 1 {}
  }

  /** The row is due before the other: one without a deadline first, then the earlier deadline. */
  predicate Sooner(a: Option<Time>, b: Option<Time>) {
    a == None || (b.Some? && a.value <= b.value)
  }

  lemma PendingKeyIs(db: Db, id: Option<ConversationId>, connection: Option<ConnectionId>, k: Key)
    requires k in PendingKeys(db, id, connection)
    ensures k.id in db.deliveries && k == RowKey(k.id, db.deliveries[k.id])
  {
  }

  lemma SoonerIs(m: MessageId, d: Delivery, n: MessageId, e: Delivery)
    requires Less(RowKey(m, d), RowKey(n, e))
    ensures Sooner(d.deadline, e.deadline)
  {
  }

  lemma SoonerByKey(db: Db, id: Option<ConversationId>, connection: Option<ConnectionId>, k: Key, x: Key)
    requires k in PendingKeys(db, id, connection) && x in PendingKeys(db, id, connection) && Less(k, x)
    ensures k.id in db.deliveries && x.id in db.deliveries
    ensures Sooner(db.deliveries[k.id].deadline, db.deliveries[x.id].deadline)
  {
    PendingKeyIs(db, id, connection, k);
    PendingKeyIs(db, id, connection, x);
    SoonerIs(k.id, db.deliveries[k.id], x.id, db.deliveries[x.id]);
  }

  /** The batch of pending rows has at most 1000 of them, the most urgent ones, in their order. */
  lemma MostUrgentFirst(db: Db, id: Option<ConversationId>, connection: Option<ConnectionId>)
    ensures var ks, all := Batch(db, id, connection), PendingKeys(db, id, connection);
            && |ks| == (if |all| <= 1000 then |all| else 1000)
            && (forall k :: k in ks ==> k in all) && (forall k :: k in all ==> k.id in db.deliveries)
            && (forall i, j :: 0 <= i < j < |ks| ==>
                  Sooner(db.deliveries[ks[i].id].deadline, db.deliveries[ks[j].id].deadline))
            && forall k, x :: k in ks && x in all && x !in ks ==>
                 Sooner(db.deliveries[k.id].deadline, db.deliveries[x.id].deadline)
  {
    var ks, all := Batch(db, id, connection), PendingKeys(db, id, connection);
    TakenInOrder(all, 1000);
    forall k | k in all ensures k.id in db.deliveries { PendingKeyIs(db, id, connection, k); }
    forall i, j | 0 <= i < j < |ks|
      ensures Sooner(db.deliveries[ks[i].id].deadline, db.deliveries[ks[j].id].deadline)
    {
      SoonerByKey(db, id, connection, ks[i], ks[j]);
    }
    forall k, x | k in ks && x in all && x !in ks
      ensures Sooner(db.deliveries[k.id].deadline, db.deliveries[x.id].deadline)
    {
      SoonerByKey(db, id, connection, k, x);
    }
  }

  /** Which rows those are: sent in ephemeral mode, not ended, and in the conversation or over the socket that
      the pass is about. */
  lemma PendingAre(db: Db, id: Option<ConversationId>, connection: Option<ConnectionId>, m: MessageId)
    ensures (exists k :: k in PendingKeys(db, id, connection) && k.id == m) <==>
              && m in db.events && m in db.deliveries && db.events[m].mode == Ephemeral
              && db.deliveries[m].status == Waiting
              && (id == None || db.events[m].conversation == id.value)
              && (connection == None || db.deliveries[m].connection == connection)
  {
    if m in db.deliveries && IsPending(db, m, id, connection) {
      assert RowKey(m, db.deliveries[m]) in PendingKeys(db, id, connection);
    }
  }

  /** Which attempts the first loop looks at: those indexed for the conversation that changed, else for the
      socket that closed, else all with a deadline. */
  lemma LookedAt(r: Redis, id: Option<ConversationId>, closed: Option<ConnectionId>, m: MessageId, at: Time)
    ensures Key(1, at, m) in IndexKeys(r, AttemptFilter(id, closed)) <==>
              if id.Some? then Entry(id.value, m) in r.byConversation && r.byConversation[Entry(id.value, m)] == at
              else if closed.Some?
              then Entry(closed.value, m) in r.byConnection && r.byConnection[Entry(closed.value, m)] == at
              else m in r.deadlines && r.deadlines[m] == at
  {
  }

  /** A pass over the votes takes at most 1000 due ones, those that ended first, in their order. */
  lemma FirstEndedFirst(db: Db, t: Time)
    ensures var ks, all := Take(Ascending(DueKeys(db.conversations, t)), RESOLVE_LIMIT), DueKeys(db.conversations, t);
            && Candidates(db, t) == VotesOf(db.conversations, ks) && |ks| == (if |all| <= 1000 then |all| else 1000)
            && (forall i, j :: 0 <= i < j < |ks| ==> ks[i].at <= ks[j].at)
            && forall k, x :: k in ks && x in all && x !in ks ==> k.at <= x.at
  {
    TakenInOrder(DueKeys(db.conversations, t), 1000);
    forall k | k in DueKeys(db.conversations, t) ensures k.group == 1 {}
  }

  lemma BackwardsFalls(s: seq<Key>)
    requires forall i, j :: 0 <= i < j < |s| ==> Less(s[i], s[j])
    ensures forall i, j :: 0 <= i < j < |Reversed(s)| ==> Less(Reversed(s)[j], Reversed(s)[i])
  {
    forall i, j | 0 <= i < j < |Reversed(s)| ensures Less(Reversed(s)[j], Reversed(s)[i]) {
      ReversedHas(s, Key(0, 0, 0));
      ReversedAt(s, i);
      ReversedAt(s, j);
    }
  }

  /** A page runs from the newest message down, and messages of one moment from the greatest identifier. */
  lemma NewestFirst(db: Db, id: ConversationId, viewer: UserId, limit: nat, before: Option<Key>, t: Time)
    requires limit > 0
    ensures var items := PageOf(VisibleKeys(db, id, viewer, t), limit, before).items;
            forall i, j :: 0 <= i < j < |items| ==>
              items[i].at > items[j].at || (items[i].at == items[j].at && items[i].id > items[j].id)
  {
    var keys := VisibleKeys(db, id, viewer, t);
    var rows := Below(keys, before);
    DescendingSorts(rows);
    BackwardsFalls(Ascending(rows));
    var items := PageOf(keys, limit, before).items;
    forall i | 0 <= i < |items| ensures items[i] == Descending(rows)[i] && items[i].group == 1 {
      assert Descending(rows)[i] in rows;
    }
  }
}
