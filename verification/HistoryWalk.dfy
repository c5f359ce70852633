/** A reader who follows the cursors of a history while the whole service runs. */
module HistoryWalk {
  import opened Wrappers
  import opened Persistence
  import opened Ordering
  import opened Pagination
  import opened PaginationLaws
  import Voting
  import VotingLaws
  import opened VotingRuns

  // ---- Snapshots whose stamps never go back -------------------------------------------------------

  /** A message seen again later has the same stamp or, recorded anew, a later one. */
  ghost predicate Drifts(ss: seq<set<Key>>) {
    forall a, b, k: Key, l: Key :: 0 <= a <= b < |ss| && k in ss[a] && l in ss[b] && k.id == l.id ==> !Less(l, k)
  }

  lemma {:induction false} WalkIsFrom(ss: seq<set<Key>>, limit: nat, before: Option<Key>, k: Key) returns (b: nat)
    requires limit > 0 && ss != [] && k in Walk(ss, limit, before).items
    ensures b < |ss| && k in ss[b]
    decreases |ss|
  {
    var p := PageOf(ss[0], limit, before);
    PageIsPrefix(ss[0], limit, before);
    if k in p.items {
      b := 0;
    } else {
      b := WalkIsFrom(ss[1..], limit, p.next, k);
      b := b + 1;
    }
  }

  ghost predicate DistinctIds(s: seq<Key>) {
    forall i, j :: 0 <= i < j < |s| ==> s[i].id != s[j].id
  }

  lemma DriftsLater(ss: seq<set<Key>>)
    requires ss != [] && Drifts(ss)
    ensures Drifts(ss[1..])
  {
    forall a, b, k: Key, l: Key | 0 <= a <= b < |ss[1..]| && k in ss[1..][a] && l in ss[1..][b] && k.id == l.id
      ensures !Less(l, k)
    {
      assert ss[1..][a] == ss[a + 1] && ss[1..][b] == ss[b + 1];
    }
  }

  lemma HeadDistinct(ss: seq<set<Key>>, head: seq<Key>)
    requires ss != [] && Drifts(ss) && Decreasing(head) && forall k :: k in head ==> k in ss[0]
    ensures DistinctIds(head)
  {
    forall i, j | 0 <= i < j < |head| ensures head[i].id != head[j].id {
      assert head[i] in head && head[j] in head && Less(head[j], head[i]);
    }
  }

  lemma JoinDistinct(head: seq<Key>, rest: seq<Key>)
    requires DistinctIds(head) && DistinctIds(rest)
    requires forall k, l :: k in head && l in rest ==> k.id != l.id
    ensures DistinctIds(head + rest)
  {
    var all, n := head + rest, |head|;
    forall i, j | 0 <= i < j < |all| ensures all[i].id != all[j].id {
      if i < n <= j { assert all[i] in head && all[j] in rest; }
    }
  }

  lemma DriftApart(ss: seq<set<Key>>, k: Key, l: Key, b: nat)
    requires Drifts(ss) && b < |ss| && k in ss[0] && l in ss[b] && Less(l, k)
    ensures k.id != l.id
  {
  }

  lemma LastIsLeast(items: seq<Key>, k: Key, l: Key)
    requires Decreasing(items) && k in items && Less(l, items[|items| - 1])
    ensures Less(l, k)
  {
    var i :| 0 <= i < |items| && items[i] == k;
    assert i == |items| - 1 || Less(items[|items| - 1], items[i]);
  }

  lemma CrossDistinct(ss: seq<set<Key>>, limit: nat, next: Option<Key>, k: Key, l: Key)
    requires limit > 0 && |ss| > 1 && Drifts(ss) && k in ss[0] && Less(l, k) && l in Walk(ss[1..], limit, next).items
    ensures k.id != l.id
  {
    var b := WalkIsFrom(ss[1..], limit, next, l);
    DriftApart(ss, k, l, b + 1);
  }

  lemma AllCrossDistinct(ss: seq<set<Key>>, limit: nat, items: seq<Key>, next: Option<Key>, rest: seq<Key>)
    requires limit > 0 && |ss| > 1 && Drifts(ss) && items != [] && Decreasing(items) && next == Some(items[|items| - 1])
    requires forall k :: k in items ==> k in ss[0]
    requires rest == Walk(ss[1..], limit, next).items && forall l :: l in rest ==> Under(l, next)
    ensures forall k, l :: k in items && l in rest ==> k.id != l.id
  {
    forall k, l | k in items && l in rest ensures k.id != l.id {
      LastIsLeast(items, k, l);
      CrossDistinct(ss, limit, next, k, l);
    }
  }

  /** No message is returned twice, however the history changes between the pages. */
  lemma {:induction false} NothingTwice(ss: seq<set<Key>>, limit: nat, before: Option<Key>)
    requires limit > 0 && ss != [] && Drifts(ss)
    ensures DistinctIds(Walk(ss, limit, before).items)
    decreases |ss|
  {
    var p := PageOf(ss[0], limit, before);
    PageIsPrefix(ss[0], limit, before);
    if p.next.Some? && |ss| > 1 {
      DriftsLater(ss);
      NothingTwice(ss[1..], limit, p.next);
      WalkDescends(ss[1..], limit, p.next);
      var rest := Walk(ss[1..], limit, p.next).items;
      AllCrossDistinct(ss, limit, p.items, p.next, rest);
      HeadDistinct(ss, p.items);
      JoinDistinct(p.items, rest);
    } else {
      HeadDistinct(ss, p.items);
    }
  }

  // ---- Over a run of the whole service --------------------------------------------------------------

  lemma StepStamp(rs: seq<Request>, r: Request, m: MessageId)
    requires Timed(rs + [r]) && m in Run(rs + [r]).events
    ensures if m in Run(rs).events then Run(rs + [r]).events[m] == Run(rs).events[m]
            else Run(rs + [r]).events[m].sentAt >= Now(rs)
  {
    assert (rs + [r])[..|rs|] == rs;
    if !r.Send? && !r.Purge? { VotingLaws.StepOnEvents(Run(rs), r); }
  }

  lemma {:induction false} TimedPrefix(p: seq<Request>, q: seq<Request>)
    requires Timed(p + q)
    ensures Timed(p) && Now(p) <= Now(p + q)
  {
    if q == [] {
      assert p + q == p;
    } else {
      var init := q[..|q| - 1];
      assert (p + q)[..|p + q| - 1] == p + init;
      TimedPrefix(p, init);
      EndsLater((p + q)[|p + q| - 1]);
    }
  }

  lemma EndsLater(r: Request)
    requires WellTimed(r)
    ensures Begin(r) <= End(r)
  {
  }

  /** The stamp of an identifier never goes back, even when its event is purged and recorded anew. */
  lemma {:induction false} StampsOnlyGrow(p: seq<Request>, q: seq<Request>, m: MessageId)
    requires Timed(p + q) && m in Run(p).events && m in Run(p + q).events
    ensures Run(p).events[m].sentAt <= Run(p + q).events[m].sentAt
  {
    if q == [] {
      assert p + q == p;
    } else {
      var init, r := q[..|q| - 1], q[|q| - 1];
      assert p + q == (p + init) + [r] && (p + q)[..|p + q| - 1] == p + init;
      StepStamp(p + init, r, m);
      if m in Run(p + init).events {
        StampsOnlyGrow(p, init, m);
      } else {
        TimedPrefix(p, init);
        RunInvariant(p);
        assert EventOk(Run(p), Run(p).events[m], Now(p));
      }
    }
  }

  /** What the reader sees at points of the run, each page at its own moment. */
  ghost function Snapshots(rs: seq<Request>, cuts: seq<nat>, ts: seq<Time>, conversation: ConversationId,
                           viewer: UserId): seq<set<Key>>
    requires |ts| == |cuts| && forall i :: 0 <= i < |cuts| ==> cuts[i] <= |rs|
  {
    seq(|cuts|, i requires 0 <= i < |cuts| => VisibleKeys(Run(rs[..cuts[i]]), conversation, viewer, ts[i]))
  }

  ghost predicate Forward(cuts: seq<nat>, length: nat) {
    (forall i :: 0 <= i < |cuts| ==> cuts[i] <= length) && forall i, j :: 0 <= i <= j < |cuts| ==> cuts[i] <= cuts[j]
  }

  lemma VisibleKeyIs(db: Db, conversation: ConversationId, viewer: UserId, t: Time, k: Key)
    requires k in VisibleKeys(db, conversation, viewer, t)
    ensures k.id in db.events && k == Key(1, db.events[k.id].sentAt, k.id)
  {
  }

  lemma PairDrifts(rs: seq<Request>, a: nat, b: nat, at: Time, bt: Time, conversation: ConversationId, viewer: UserId,
                   k: Key, l: Key)
    requires Timed(rs) && a <= b <= |rs| && k.id == l.id
    requires k in VisibleKeys(Run(rs[..a]), conversation, viewer, at)
    requires l in VisibleKeys(Run(rs[..b]), conversation, viewer, bt)
    ensures !Less(l, k)
  {
    VisibleKeyIs(Run(rs[..a]), conversation, viewer, at, k);
    VisibleKeyIs(Run(rs[..b]), conversation, viewer, bt, l);
    assert rs[..a] + rs[a..b] == rs[..b];
    TimedTake(rs, b);
    StampsOnlyGrow(rs[..a], rs[a..b], k.id);
  }

  lemma SnapshotsDrift(rs: seq<Request>, cuts: seq<nat>, ts: seq<Time>, conversation: ConversationId, viewer: UserId)
    requires Timed(rs) && |ts| == |cuts| && Forward(cuts, |rs|)
    ensures Drifts(Snapshots(rs, cuts, ts, conversation, viewer))
  {
    var ss := Snapshots(rs, cuts, ts, conversation, viewer);
    forall a, b, k: Key, l: Key | 0 <= a <= b < |ss| && k in ss[a] && l in ss[b] && k.id == l.id ensures !Less(l, k) {
      PairDrifts(rs, cuts[a], cuts[b], ts[a], ts[b], conversation, viewer, k, l);
    }
  }

  lemma TimedTake(rs: seq<Request>, n: nat)
    requires Timed(rs) && n <= |rs|
    ensures Timed(rs[..n])
  {
    assert rs[..n] + rs[n..] == rs;
    TimedPrefix(rs[..n], rs[n..]);
  }

  /** A walk interleaved with any run - new messages, expiries, purges, votes, upgrades, departures - returns
      no message twice, and returns or has still ahead every message that each of its pages could see. */
  lemma WalkOverRun(rs: seq<Request>, cuts: seq<nat>, ts: seq<Time>, conversation: ConversationId, viewer: UserId,
                    limit: nat)
    requires Timed(rs) && |ts| == |cuts| > 0 && Forward(cuts, |rs|) && limit > 0
    ensures var w := Walk(Snapshots(rs, cuts, ts, conversation, viewer), limit, None);
            && DistinctIds(w.items)
            && forall k :: (forall i :: 0 <= i < |cuts| ==> k in Snapshots(rs, cuts, ts, conversation, viewer)[i]) ==>
                             k in w.items || (w.next.Some? && Less(k, w.next.value))
  {
    var ss := Snapshots(rs, cuts, ts, conversation, viewer);
    var w := Walk(ss, limit, None);
    SnapshotsDrift(rs, cuts, ts, conversation, viewer);
    NothingTwice(ss, limit, None);
    forall k | forall i :: 0 <= i < |cuts| ==> k in ss[i]
      ensures k in w.items || (w.next.Some? && Less(k, w.next.value))
    {
      WalkFinds(ss, limit, None, k);
    }
  }
}
