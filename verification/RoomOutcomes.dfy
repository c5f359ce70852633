/** What a room holds after each event: which copies a replay brings and which of them are grace, what a
    message, a vote and the passing of time do, and that what a producer sends reaches the room. */
module RoomOutcomes {
  import opened Wrappers
  import opened Persistence
  import opened Replay
  import opened ReplayLaws
  import opened ReplayRoom
  import opened ReplayMerge
  import opened RelayOutcomes

  // ---- One frame ------------------------------------------------------------------------------

  /** The copy a receiver makes of an item: what the sender put into it, else the time of arrival and a new
      identifier. It is grace exactly when the room is not accepted or the message is older than that. */
  predicate CopyFor(c: Copy, acceptedAt: Option<Time>, x: Item, at: Time, unique: MessageId) {
    && x.text == Some(c.text) && !c.own && c.recovered && c.expires == None
    && c.id == (match x.id case Some(id) => id case None => unique)
    && c.time == (match x.time case Some(time) => time case None => at)
    && (c.grace <==> (acceptedAt.Some? ==> c.time < acceptedAt.value))
  }

  /** A begin starts anew; frames of other replays are ignored; the next readable item, up to the 500th, is
      collected; an end merges exactly when it counts what was collected; all else forgets the replay. */
  lemma FrameAnswers(r: Room, f: Frame, at: Time, unique: MessageId)
    ensures var after, under := ReceiveReplay(r, f, at, unique), r.replay.Some? && r.replay.value.id == f.replay;
            match f.body
            case Begin => after == r.(replay := Some(Incoming(f.replay, 0, [])))
            case Piece(n, x) =>
              if !under then after == r
              else if n == r.replay.value.next && n < 500 && x.text.Some?
              then && after == r.(replay := after.replay) && after.replay.Some?
                   && after.replay.value.id == f.replay && after.replay.value.next == n + 1
                   && |after.replay.value.messages| == |r.replay.value.messages| + 1
                   && r.replay.value.messages < after.replay.value.messages
                   && CopyFor(after.replay.value.messages[|r.replay.value.messages|], r.acceptedAt, x, at, unique)
              else after == r.(replay := None)
            case End(count) =>
              if !under then after == r
              else if count == r.replay.value.next
              then after == r.(replay := None, messages := after.messages) && |after.messages| <= 500
              else after == r.(replay := None)
  {
    if f.body.End? && r.replay.Some? {
      var all := Merge(r.messages, r.replay.value.messages, GraceRejected(r.vote));
      var _ := TrimKeepsNewest(all);
    }
  }

  // ---- A whole replay ---------------------------------------------------------------------------

  /** One copy for each of the first `n` items. */
  predicate CopiesFor(full: seq<Copy>, acceptedAt: Option<Time>, xs: seq<Item>, ats: seq<Time>, ids: seq<MessageId>,
                      n: nat)
    requires |ats| == |ids| == |xs| + 2
  {
    |full| == n <= |xs| && forall i :: 0 <= i < n ==> CopyFor(full[i], acceptedAt, xs[i], ats[i + 1], ids[i + 1])
  }

  lemma CopiesMoreFor(full: seq<Copy>, acceptedAt: Option<Time>, xs: seq<Item>, ats: seq<Time>, ids: seq<MessageId>,
                      n: nat, c: Copy)
    requires |ats| == |ids| == |xs| + 2 && CopiesFor(full, acceptedAt, xs, ats, ids, n)
    requires n < |xs| && CopyFor(c, acceptedAt, xs[n], ats[n + 1], ids[n + 1])
    ensures CopiesFor(full + [c], acceptedAt, xs, ats, ids, n + 1)
  {
  }

  lemma {:induction false} Collects(r: Room, id: ReplayId, xs: seq<Item>, ats: seq<Time>, ids: seq<MessageId>, k: nat)
    returns (full: seq<Copy>)
    requires |ats| == |ids| == |xs| + 2 && k <= |xs| <= 500 && forall i :: 0 <= i < |xs| ==> xs[i].text.Some?
    ensures CopiesFor(full, r.acceptedAt, xs, ats, ids, k)
    ensures Play(r, ReplayMerge.Delivery(id, xs, ats, ids)[..1 + k]) == r.(replay := Some(Incoming(id, k, full)))
  {
    var es := ReplayMerge.Delivery(id, xs, ats, ids);
    assert es[..1 + k][..k] == es[..k] && es[..1 + k][k] == es[k];
    ProducedIndex(id, xs, k);
    if k == 0 {
      full := [];
      assert Play(r, es[..0]) == r;
    } else {
      var before := Collects(r, id, xs, ats, ids, k - 1);
      var under := r.(replay := Some(Incoming(id, k - 1, before)));
      FrameAnswers(under, es[k].frame, ats[k], ids[k]);
      full := Apply(under, es[k]).replay.value.messages;
      assert full == before + [full[k - 1]];
      CopiesMoreFor(before, r.acceptedAt, xs, ats, ids, k - 1, full[k - 1]);
    }
  }

  lemma MergesAtTheEnd(r: Room, id: ReplayId, full: seq<Copy>, at: Time, unique: MessageId)
    ensures ReceiveReplay(r.(replay := Some(Incoming(id, |full|, full))), Frame(id, End(|full|)), at, unique)
         == r.(replay := None, messages := Trim(Merge(r.messages, full, GraceRejected(r.vote))))
  {
  }

  /** Into a room that has space for it, a readable replay that arrives whole brings one copy of every item
      that is not void and not there yet; what was there stays. */
  lemma DeliveryArrives(r: Room, id: ReplayId, xs: seq<Item>, ats: seq<Time>, ids: seq<MessageId>)
    returns (full: seq<Copy>)
    requires |ats| == |ids| == |xs| + 2 && |r.messages| + |xs| <= 500
    requires forall i :: 0 <= i < |xs| ==> xs[i].text.Some?
    ensures CopiesFor(full, r.acceptedAt, xs, ats, ids, |xs|)
    ensures var after := Play(r, ReplayMerge.Delivery(id, xs, ats, ids));
            && after == r.(replay := None, messages := after.messages) && r.messages <= after.messages
            && forall c :: c in after.messages <==>
                 c in r.messages || exists i :: 0 <= i < |xs| && full[i] == c && Joins(r.messages, full, Void(r), i)
  {
    var es := ReplayMerge.Delivery(id, xs, ats, ids);
    full := Collects(r, id, xs, ats, ids, |xs|);
    ProducedIndex(id, xs, |xs| + 1);
    assert es[..|es| - 1] == es[..1 + |xs|];
    MergesAtTheEnd(r, id, full, ats[|xs| + 1], ids[|xs| + 1]);
    MergeIsShort(r.messages, full, GraceRejected(r.vote));
    var after := Play(r, es);
    MergeContents(r.messages, full, Void(r), Copy(0, [], false, false, 0, None, false));
    forall c ensures c in after.messages <==>
        c in r.messages || exists i :: 0 <= i < |xs| && full[i] == c && Joins(r.messages, full, Void(r), i)
    {
      MergeContents(r.messages, full, Void(r), c);
    }
  }

  /** Grace copies count for nothing once the vote on them is rejected. */
  predicate Void(r: Room) {
    r.vote.Some? && r.vote.value.status == VoteStatus.Rejected
  }

  lemma {:induction false} MergeIsShort(ms: seq<Copy>, add: seq<Copy>, rejected: bool)
    ensures |Merge(ms, add, rejected)| <= |ms| + |add|
  {
    if add != [] { MergeIsShort(ms, add[..|add| - 1], rejected); }
  }

  /** From the sender to the room: a readable list of at most 500 items that its producer sends in order, let
      in and with both sockets connected, is published whole, and a room with space that gets those frames in
      order holds every item that is not void. */
  lemma SentArrives(p: seq<Call>, begin: Call, q: seq<Call>, id: ReplayId, o: Origin, target: ConnectionId,
                    xs: seq<Item>, r: Room, ats: seq<Time>, ids: seq<MessageId>)
    requires Starts(Exec(p), begin, id, o, target) && Undisturbed(q, id, o, target, begin.now)
    requires [begin.frame] + Ours(q, id, o) == Produced(id, xs)
    requires |ats| == |ids| == |xs| + 2 && |r.messages| + |xs| <= 500
    requires forall i :: 0 <= i < |xs| ==> xs[i].text.Some? && xs[i].id.Some?
    ensures var fs := FramesOf(Since(Exec(p + [begin] + q).log, id));
            && |fs| == |xs| + 2
            && var after := Play(r, seq(|fs|, i requires 0 <= i < |fs| => Frames(fs[i], ats[i], ids[i])));
               forall i :: 0 <= i < |xs| && !(Void(r) && IsGraceItem(r.acceptedAt, xs[i], ats[i + 1])) ==>
                 exists c: Copy :: c in after.messages && c.id == xs[i].id.value
  {
    SentIsPublished(p, begin, q, id, o, target, xs);
    var fs := FramesOf(Since(Exec(p + [begin] + q).log, id));
    var es := seq(|fs|, i requires 0 <= i < |fs| => Frames(fs[i], ats[i], ids[i]));
    assert es == ReplayMerge.Delivery(id, xs, ats, ids);
    var full := DeliveryArrives(r, id, xs, ats, ids);
    forall i | 0 <= i < |xs| && !(Void(r) && IsGraceItem(r.acceptedAt, xs[i], ats[i + 1]))
      ensures exists c: Copy :: c in Play(r, es).messages && c.id == xs[i].id.value
    {
      ArrivedIsThere(r.messages, full, Void(r), i, Play(r, es).messages);
    }
  }

  predicate IsGraceItem(acceptedAt: Option<Time>, x: Item, at: Time) {
    acceptedAt.Some? ==> (match x.time case Some(time) => time case None => at) < acceptedAt.value
  }

  /** The first allowed copy with an identifier that was not there is the one that joins. */
  lemma ArrivedIsThere(ms: seq<Copy>, full: seq<Copy>, rejected: bool, i: nat, after: seq<Copy>)
    requires i < |full| && !(full[i].grace && rejected)
    requires forall c :: c in after <==>
               c in ms || exists k :: 0 <= k < |full| && full[k] == c && Joins(ms, full, rejected, k)
    ensures exists c: Copy :: c in after && c.id == full[i].id
  {
    if HasId(ms, full[i].id) {
      var k :| 0 <= k < |ms| && ms[k].id == full[i].id;
      assert ms[k] in after;
    } else {
      var k := FirstAllowed(full, rejected, i);
      assert full[k] in after;
    }
  }

  lemma {:induction false} FirstAllowed(full: seq<Copy>, rejected: bool, i: nat) returns (k: nat)
    requires i < |full| && !(full[i].grace && rejected)
    ensures k <= i && full[k].id == full[i].id && !(full[k].grace && rejected)
    ensures forall j :: 0 <= j < k && full[j].id == full[i].id ==> full[j].grace && rejected
  {
    k := i;
    if j: nat :| j < i && full[j].id == full[i].id && !(full[j].grace && rejected) {
      k := FirstAllowed(full, rejected, j);
    }
  }

  // ---- Messages, votes and time -----------------------------------------------------------------

  /** `c` is there, and the others are as before. */
  ghost predicate Lands(before: seq<Copy>, after: seq<Copy>, c: Copy) {
    c in after && forall x: Copy :: x.id != c.id ==> (x in after <==> x in before)
  }

  /** All of them and `c` but one, which is not newer than any that stays. */
  ghost predicate PushesOneOut(before: seq<Copy>, after: seq<Copy>, c: Copy) {
    exists gone: Copy :: Without(before + [c], after, gone) && forall x: Copy :: x in after ==> gone.time <= x.time
  }

  ghost predicate Without(before: seq<Copy>, after: seq<Copy>, gone: Copy) {
    forall x: Copy :: x in after <==> x in before && x != gone
  }

  /** A message takes the place of the one with its identifier, or comes last; when that makes 501, the oldest
      of them goes. Grace is refused once the vote on it is rejected. */
  lemma MessageArrives(r: Room, c: Copy)
    requires Distinct(r.messages) && |r.messages| <= 500
    ensures var after := Receive(r, c);
            if c.grace && Void(r) then after == r
            else
              && after == r.(messages := after.messages)
              && if |r.messages| < 500 || HasId(r.messages, c.id) then Lands(r.messages, after.messages, c)
                 else PushesOneOut(r.messages, after.messages, c)
  {
    if !(c.grace && Void(r)) {
      ReceiveIs(r, c);
      if |r.messages| < 500 || HasId(r.messages, c.id) {
        PutHolds(r.messages, c);
      } else {
        OneGoes(r.messages, c);
      }
    }
  }

  lemma ReceiveIs(r: Room, c: Copy)
    requires !(c.grace && Void(r))
    ensures Receive(r, c) == r.(messages := Trim(Put(r.messages, c)))
    ensures |Put(r.messages, c)| == |r.messages| + (if HasId(r.messages, c.id) then 0 else 1)
    ensures |Put(r.messages, c)| <= 500 ==> Trim(Put(r.messages, c)) == Put(r.messages, c)
    ensures !HasId(r.messages, c.id) ==> Put(r.messages, c) == r.messages + [c]
  {
  }

  lemma OneGoes(ms: seq<Copy>, c: Copy)
    requires Distinct(ms) && |ms| == 500 && !HasId(ms, c.id)
    ensures PushesOneOut(ms, Trim(ms + [c]), c)
  {
    var all := ms + [c];
    var k := Oldest(all);
    DistinctMore(ms, c);
    TrimOnce(all);
    DroppedIsGone(all, k);
    assert Without(all, Drop(all, k), all[k]);
  }

  lemma TrimOnce(all: seq<Copy>)
    requires |all| == 501
    ensures Trim(all) == Drop(all, Oldest(all))
  {
  }

  lemma DroppedIsGone(all: seq<Copy>, k: nat)
    requires Distinct(all) && k < |all|
    ensures Without(all, Drop(all, k), all[k])
  {
    DropOne(all, k);
    DropStaysDistinct(all, k);
    forall x: Copy ensures x in Drop(all, k) <==> x in all && x != all[k] {
      if x in all && x != all[k] {
        var j :| 0 <= j < |all| && all[j] == x;
        assert Drop(all, k)[if j < k then j else j - 1] == x;
      }
    }
  }

  lemma PutHolds(ms: seq<Copy>, c: Copy)
    requires Distinct(ms)
    ensures Lands(ms, Put(ms, c), c)
  {
    var all := Put(ms, c);
    if HasId(ms, c.id) {
      var k :| 0 <= k < |ms| && ms[k].id == c.id;
      assert all[k] == c;
      forall x: Copy | x.id != c.id ensures x in all <==> x in ms {
        if x in ms { var j :| 0 <= j < |ms| && ms[j] == x; assert all[j] == x; }
      }
    }
  }

  lemma {:induction false} NonGraceIs(ms: seq<Copy>, c: Copy)
    ensures c in NonGrace(ms) <==> c in ms && !c.grace
  {
    if ms != [] {
      assert ms == ms[..|ms| - 1] + [ms[|ms| - 1]];
      NonGraceIs(ms[..|ms| - 1], c);
    }
  }

  /** A view of the vote is taken unless it shows open what was already seen decided; a rejection removes
      exactly the grace copies, from the messages and from a replay under way. */
  lemma VoteShows(r: Room, view: Option<VoteView>, c: Copy)
    ensures var after := ApplyVote(r, view);
            if view.Some? && view.value.status == VoteStatus.Open && r.vote.Some? && r.vote.value.id == view.value.id
               && r.vote.value.status != VoteStatus.Open
            then after == r
            else if view.None? || view.value.status != VoteStatus.Rejected then after == r.(vote := view)
            else
              && after.vote == view && after.acceptedAt == r.acceptedAt && (after.replay.Some? <==> r.replay.Some?)
              && (c in after.messages <==> c in r.messages && !c.grace)
              && (r.replay.Some? ==>
                    && after.replay.value.id == r.replay.value.id && after.replay.value.next == r.replay.value.next
                    && (c in after.replay.value.messages <==> c in r.replay.value.messages && !c.grace))
  {
    NonGraceIs(r.messages, c);
    if r.replay.Some? { NonGraceIs(r.replay.value.messages, c); }
  }

  /** Time takes exactly the messages whose end has come. */
  lemma {:induction false} PruneKeeps(ms: seq<Copy>, now: Time, c: Copy)
    ensures c in Unexpired(ms, now) <==> c in ms && (c.expires == None || now < c.expires.value)
  {
    if ms != [] {
      assert ms == ms[..|ms| - 1] + [ms[|ms| - 1]];
      PruneKeeps(ms[..|ms| - 1], now, c);
    }
  }
}
