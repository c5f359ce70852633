/** When the end of a replay merges all of it, whatever is lost, repeated or interleaved on the way. */
module ReplayMerge {
  import opened Wrappers
  import opened Persistence
  import opened Replay
  import opened ReplayLaws
  import opened ReplayRoom

  datatype Event =
    | Frames(frame: Frame, at: Time, unique: MessageId)
    | Voted(view: Option<VoteView>)
    | Received(copy: Copy)
    | Pruned(now: Time)
    | Refreshed(acceptedAt: Option<Time>)
    | Disconnected

  function Unexpired(ms: seq<Copy>, now: Time): seq<Copy> {
    if ms == [] then []
    else
      var c := ms[|ms| - 1];
      Unexpired(ms[..|ms| - 1], now) + if c.expires.Some? && c.expires.value <= now then [] else [c]
  }

  function Apply(r: Room, e: Event): Room {
    match e
    case Frames(f, at, unique) => ReceiveReplay(r, f, at, unique)
    case Voted(view) => ApplyVote(r, view)
    case Received(c) => Receive(r, c)
    case Pruned(now) => r.(messages := Unexpired(r.messages, now))
    case Refreshed(acceptedAt) => r.(acceptedAt := acceptedAt)
    case Disconnected => r.(replay := None)
  }

  function Play(r: Room, es: seq<Event>): Room {
    if es == [] then r else Apply(Play(r, es[..|es| - 1]), es[|es| - 1])
  }

  // ---- What the events may be --------------------------------------------------------------

  /** Frames of replay `id` are frames of its producer; other replays are free. */
  predicate GenuineEvent(e: Event, id: ReplayId, xs: seq<Item>) {
    e.Frames? && e.frame.replay == id ==> e.frame in Produced(id, xs)
  }

  ghost predicate AllGenuine(es: seq<Event>, id: ReplayId, xs: seq<Item>) {
    forall i :: 0 <= i < |es| ==> GenuineEvent(es[i], id, xs)
  }

  // ---- What arrived and what was dropped --------------------------------------------------------

  /** The copies of one replay that arrived since its last begin, and whether a rejected vote dropped some
      of them meanwhile. No code keeps this record. */
  datatype Ledger = Ledger(full: seq<Copy>, lost: bool)

  predicate Loads(r: Room, id: ReplayId) {
    r.replay.Some? && r.replay.value.id == id
  }

  predicate TakesPiece(r: Room, e: Event, id: ReplayId) {
    && Loads(r, id) && e.Frames? && e.frame.replay == id && e.frame.body.Piece?
    && e.frame.body.sequence == r.replay.value.next < ROOM_LIMIT && e.frame.body.item.text.Some?
  }

  /** A rejection that finds grace copies among those collected. */
  predicate DropsCopies(r: Room, e: Event, id: ReplayId) {
    Loads(r, id) && e.Voted? && GraceRejected(e.view) && NonGrace(r.replay.value.messages) != r.replay.value.messages
  }

  function Noted(t: Ledger, r: Room, e: Event, id: ReplayId): Ledger {
    if e.Frames? && e.frame.replay == id && e.frame.body.Begin? then Ledger([], false)
    else if TakesPiece(r, e, id) then t.(full := t.full + [CopyOf(r.acceptedAt, e.frame.body.item, e.at, e.unique)])
    else t.(lost := t.lost || DropsCopies(r, e, id))
  }

  function Tracked(r: Room, es: seq<Event>, id: ReplayId): Ledger {
    if es == [] then Ledger([], false)
    else Noted(Tracked(r, es[..|es| - 1], id), Play(r, es[..|es| - 1]), es[|es| - 1], id)
  }

  /** The copy carries what the sender put into the item. */
  predicate Arrived(c: Copy, x: Item) {
    && x.text == Some(c.text) && !c.own && c.recovered
    && (x.id.Some? ==> c.id == x.id.value) && (x.time.Some? ==> c.time == x.time.value)
  }

  /** One copy for each of the first `n` items, in order. */
  predicate Copies(full: seq<Copy>, xs: seq<Item>, n: nat) {
    |full| == n <= |xs| && forall i :: 0 <= i < n ==> Arrived(full[i], xs[i])
  }

  /** What is collected is what arrived, less grace copies when some were dropped. */
  predicate Kept(t: Ledger, ms: seq<Copy>) {
    if t.lost then NonGrace(ms) == NonGrace(t.full) && |ms| < |t.full| else ms == t.full
  }

  ghost predicate Loading(r: Room, t: Ledger, id: ReplayId, xs: seq<Item>) {
    Loads(r, id) ==>
      r.replay.value.next <= ROOM_LIMIT && Copies(t.full, xs, r.replay.value.next) && Kept(t, r.replay.value.messages)
  }

  lemma NonGraceAppend(ms: seq<Copy>, c: Copy)
    ensures NonGrace(ms + [c]) == NonGrace(ms) + if c.grace then [] else [c]
  {
    assert (ms + [c])[..|ms|] == ms;
  }

  lemma {:induction false} NonGraceTwice(ms: seq<Copy>)
    ensures NonGrace(NonGrace(ms)) == NonGrace(ms)
  {
    if ms != [] {
      var init, c := ms[..|ms| - 1], ms[|ms| - 1];
      NonGraceTwice(init);
      if !c.grace { NonGraceAppend(NonGrace(init), c); } else { assert NonGrace(init) + [] == NonGrace(init); }
    }
  }

  lemma {:induction false} NonGraceShorter(ms: seq<Copy>)
    ensures NonGrace(ms) == ms || |NonGrace(ms)| < |ms|
  {
    if ms != [] {
      var init, c := ms[..|ms| - 1], ms[|ms| - 1];
      NonGraceShorter(init);
      assert ms == init + [c];
      NonGraceAppend(init, c);
    }
  }

  lemma KeptMore(t: Ledger, ms: seq<Copy>, c: Copy)
    requires Kept(t, ms)
    ensures Kept(t.(full := t.full + [c]), ms + [c])
  {
    NonGraceAppend(ms, c);
    NonGraceAppend(t.full, c);
  }

  lemma CopiesMore(full: seq<Copy>, xs: seq<Item>, n: nat, c: Copy)
    requires Copies(full, xs, n) && n < |xs| && Arrived(c, xs[n])
    ensures Copies(full + [c], xs, n + 1)
  {
  }

  lemma PieceKeeps(r: Room, t: Ledger, e: Event, id: ReplayId, xs: seq<Item>)
    requires Loading(r, t, id, xs) && TakesPiece(r, e, id)
    requires e.frame.body.sequence < |xs| && e.frame.body.item == xs[e.frame.body.sequence]
    ensures Loading(Apply(r, e), Noted(t, r, e, id), id, xs)
  {
    var c := CopyOf(r.acceptedAt, e.frame.body.item, e.at, e.unique);
    KeptMore(t, r.replay.value.messages, c);
    CopiesMore(t.full, xs, r.replay.value.next, c);
  }

  lemma RejectionKeeps(t: Ledger, ms: seq<Copy>)
    requires Kept(t, ms)
    ensures Kept(t.(lost := t.lost || NonGrace(ms) != ms), NonGrace(ms))
  {
    NonGraceTwice(ms);
    NonGraceShorter(ms);
  }

  lemma VoteKeeps(r: Room, t: Ledger, view: Option<VoteView>, id: ReplayId, xs: seq<Item>)
    requires Loading(r, t, id, xs)
    ensures Loading(ApplyVote(r, view), Noted(t, r, Voted(view), id), id, xs)
  {
    if Loads(r, id) && GraceRejected(view) {
      RejectionKeeps(t, r.replay.value.messages);
      RejectionIs(r, view);
    }
  }

  lemma RejectionIs(r: Room, view: Option<VoteView>)
    requires GraceRejected(view) && r.replay.Some?
    ensures ApplyVote(r, view).replay == Some(r.replay.value.(messages := NonGrace(r.replay.value.messages)))
  {
  }

  lemma EventKeeps(r: Room, t: Ledger, e: Event, id: ReplayId, xs: seq<Item>)
    requires Loading(r, t, id, xs) && GenuineEvent(e, id, xs)
    ensures Loading(Apply(r, e), Noted(t, r, e, id), id, xs)
  {
    if e.Voted? {
      VoteKeeps(r, t, e.view, id, xs);
    } else if TakesPiece(r, e, id) {
      ProducedAt(id, xs, e.frame);
      PieceKeeps(r, t, e, id, xs);
    }
  }

  lemma {:induction false} PlayKeeps(r: Room, es: seq<Event>, id: ReplayId, xs: seq<Item>)
    requires r.replay == None && AllGenuine(es, id, xs)
    ensures Loading(Play(r, es), Tracked(r, es, id), id, xs)
  {
    if es != [] {
      var init := es[..|es| - 1];
      forall i | 0 <= i < |init| ensures GenuineEvent(init[i], id, xs) { assert init[i] == es[i]; }
      PlayKeeps(r, init, id, xs);
      EventKeeps(Play(r, init), Tracked(r, init, id), es[|es| - 1], id, xs);
    }
  }

  // ---- Merging ------------------------------------------------------------------------------

  /** The copies that a merge may add: all, or those that are not grace when the vote is rejected. */
  function Allowed(ms: seq<Copy>, rejected: bool): seq<Copy> {
    if rejected then NonGrace(ms) else ms
  }

  /** Merging looks at the allowed copies only. */
  lemma {:induction false} MergeSkipsGrace(ms: seq<Copy>, add: seq<Copy>, rejected: bool)
    ensures Merge(ms, add, rejected) == Merge(ms, Allowed(add, rejected), rejected)
  {
    if add != [] && rejected {
      var init, c := add[..|add| - 1], add[|add| - 1];
      MergeSkipsGrace(ms, init, rejected);
      if !c.grace { assert (NonGrace(init) + [c])[..|NonGrace(init)|] == NonGrace(init); }
      else { assert NonGrace(init) + [] == NonGrace(init); }
    }
  }

  /** After `full` was merged the room holds its 500 newest messages of what it held and every item of the
      sender's list, less held identifiers and void grace copies. */
  ghost predicate MergedAll(before: Room, after: Room, xs: seq<Item>, full: seq<Copy>) {
    && |xs| <= ROOM_LIMIT && Copies(full, xs, |xs|)
    && after == before.(replay := None, messages := Trim(Merge(before.messages, full, GraceRejected(before.vote))))
  }

  /** The frame is an end that counts what the room took. */
  predicate Ends(r: Room, e: Event, id: ReplayId) {
    Loads(r, id) && e.Frames? && e.frame.replay == id && e.frame.body.End? && e.frame.body.count == r.replay.value.next
  }

  /** Whatever happened before - frames lost, repeated or out of order, other replays, any votes in any
      order, messages, prunes, reconnections - an end that counts offers the room every allowed copy of the
      sender's list exactly when the vote is rejected then, or no rejection dropped a copy of it meanwhile. */
  lemma EndOffersAllIff(r: Room, es: seq<Event>, e: Event, id: ReplayId, xs: seq<Item>)
    requires r.replay == None && AllGenuine(es, id, xs) && GenuineEvent(e, id, xs) && Ends(Play(r, es), e, id)
    ensures var before, t := Play(r, es), Tracked(r, es, id);
            var rejected, got := GraceRejected(before.vote), before.replay.value.messages;
            && Copies(t.full, xs, |xs|) && |xs| <= ROOM_LIMIT
            && Apply(before, e) == before.(replay := None,
                                           messages := Trim(Merge(before.messages, Allowed(got, rejected), rejected)))
            && (Allowed(got, rejected) == Allowed(t.full, rejected) <==> rejected || !t.lost)
  {
    var before := Play(r, es);
    PlayKeeps(r, es, id, xs);
    ProducedAt(id, xs, e.frame);
    MergeSkipsGrace(before.messages, before.replay.value.messages, GraceRejected(before.vote));
  }

  /** Any other frame leaves the messages of the room alone. */
  lemma OtherFramesMergeNothing(r: Room, e: Event, id: ReplayId)
    requires e.Frames? && e.frame.replay == id && !Ends(r, e, id)
    ensures Apply(r, e).messages == r.messages
  {
  }

  lemma EndMergesAll(r: Room, es: seq<Event>, e: Event, id: ReplayId, xs: seq<Item>)
    requires r.replay == None && AllGenuine(es, id, xs) && GenuineEvent(e, id, xs) && Ends(Play(r, es), e, id)
    requires GraceRejected(Play(r, es).vote) || !Tracked(r, es, id).lost
    ensures MergedAll(Play(r, es), Apply(Play(r, es), e), xs, Tracked(r, es, id).full)
  {
    var before, full := Play(r, es), Tracked(r, es, id).full;
    EndOffersAllIff(r, es, e, id, xs);
    MergeSkipsGrace(before.messages, full, GraceRejected(before.vote));
  }

  // ---- While a rejection stands -------------------------------------------------------------------

  /** The event does not make the room forget a rejection. */
  predicate Stands(r: Room, e: Event) {
    GraceRejected(r.vote) ==> GraceRejected(Apply(r, e).vote)
  }

  ghost predicate AllStand(r: Room, es: seq<Event>) {
    forall i :: 0 <= i < |es| ==> Stands(Play(r, es[..i]), es[i])
  }

  lemma {:induction false} LostMeansRejected(r: Room, es: seq<Event>, id: ReplayId)
    requires AllStand(r, es) && Tracked(r, es, id).lost
    ensures GraceRejected(Play(r, es).vote)
  {
    var init, e := es[..|es| - 1], es[|es| - 1];
    assert Stands(Play(r, es[..|es| - 1]), e);
    if Tracked(r, init, id).lost {
      forall i | 0 <= i < |init| ensures Stands(Play(r, init[..i]), init[i]) {
        assert init[i] == es[i] && init[..i] == es[..i];
      }
      LostMeansRejected(r, init, id);
    }
  }

  /** All or nothing: as long as a rejection stands, a frame of the replay leaves the messages of the room
      alone or merges the whole list of the sender. */
  lemma AllOrNothing(r: Room, es: seq<Event>, e: Event, id: ReplayId, xs: seq<Item>)
    requires r.replay == None && AllGenuine(es, id, xs) && AllStand(r, es)
    requires e.Frames? && e.frame.replay == id && GenuineEvent(e, id, xs)
    ensures var before, after := Play(r, es), Apply(Play(r, es), e);
            after.messages == before.messages || MergedAll(before, after, xs, Tracked(r, es, id).full)
  {
    if Ends(Play(r, es), e, id) {
      if Tracked(r, es, id).lost { LostMeansRejected(r, es, id); }
      EndMergesAll(r, es, e, id, xs);
    } else {
      OtherFramesMergeNothing(Play(r, es), e, id);
    }
  }

  // ---- What a merge and a trim contain --------------------------------------------------------

  predicate Joins(ms: seq<Copy>, add: seq<Copy>, rejected: bool, i: nat)
    requires i < |add|
  {
    && !(add[i].grace && rejected) && !HasId(ms, add[i].id)
    && forall j :: 0 <= j < i && add[j].id == add[i].id ==> add[j].grace && rejected
  }

  lemma MergeHas(ms: seq<Copy>, add: seq<Copy>, rejected: bool, id: MessageId)
    ensures HasId(Merge(ms, add, rejected), id) <==>
            HasId(ms, id) || exists j :: 0 <= j < |add| && add[j].id == id && !(add[j].grace && rejected)
  {
    if add != [] {
      var init, c := add[..|add| - 1], add[|add| - 1];
      var before, after := Merge(ms, init, rejected), Merge(ms, add, rejected);
      MergeHas(ms, init, rejected, id);
      if after != before {
        assert after == before + [c];
        if HasId(before, id) { var k :| 0 <= k < |before| && before[k].id == id; assert after[k].id == id; }
        assert after[|before|] == c;
      }
    }
  }

  /** A merge keeps what is there, in order, and adds exactly the copies that are not void, whose identifier
      is new to the room and to the copies before them. */
  lemma {:induction false} MergeContents(ms: seq<Copy>, add: seq<Copy>, rejected: bool, c: Copy)
    ensures ms <= Merge(ms, add, rejected)
    ensures c in Merge(ms, add, rejected)
            <==> c in ms || exists i :: 0 <= i < |add| && add[i] == c && Joins(ms, add, rejected, i)
  {
    if add != [] {
      var init, last := add[..|add| - 1], |add| - 1;
      MergeContents(ms, init, rejected, c);
      MergeHas(ms, init, rejected, add[last].id);
      forall i | 0 <= i < |init| ensures Joins(ms, init, rejected, i) <==> Joins(ms, add, rejected, i) {
        assert init[i] == add[i];
      }
      var before := Merge(ms, init, rejected);
      assert Joins(ms, add, rejected, last) <==> !((add[last].grace && rejected) || HasId(before, add[last].id));
    }
  }

  lemma DropOne(ms: seq<Copy>, k: nat)
    requires k < |ms|
    ensures multiset(ms) == multiset(Drop(ms, k)) + multiset{ms[k]}
    ensures forall c :: c in Drop(ms, k) ==> c in ms
  {
    assert ms == ms[..k] + [ms[k]] + ms[k + 1..];
  }

  lemma {:induction false} TrimIsPart(ms: seq<Copy>, c: Copy)
    requires c in Trim(ms)
    ensures c in ms
    decreases |ms|
  {
    if |ms| > ROOM_LIMIT {
      DropOne(ms, Oldest(ms));
      TrimIsPart(Drop(ms, Oldest(ms)), c);
    }
  }

  /** A trim keeps at most 500 messages, and drops none that is newer than one it keeps. */
  lemma {:induction false} TrimKeepsNewest(ms: seq<Copy>) returns (gone: multiset<Copy>)
    ensures |Trim(ms)| == if |ms| <= ROOM_LIMIT then |ms| else ROOM_LIMIT
    ensures multiset(ms) == multiset(Trim(ms)) + gone
    ensures forall c, d :: c in Trim(ms) && d in gone ==> d.time <= c.time
    decreases |ms|
  {
    gone := multiset{};
    if |ms| > ROOM_LIMIT {
      var k := Oldest(ms);
      DropOne(ms, k);
      var more := TrimKeepsNewest(Drop(ms, k));
      gone := more + multiset{ms[k]};
      forall c | c in Trim(ms) ensures ms[k].time <= c.time { TrimIsPart(ms, c); }
    }
  }

  // ---- What a trim drops ------------------------------------------------------------------------

  predicate Distinct(ms: seq<Copy>) {
    forall i, j :: 0 <= i < j < |ms| ==> ms[i].id != ms[j].id
  }

  /** A stable sort by time puts message `j` before message `p`. */
  predicate Earlier(ms: seq<Copy>, j: nat, p: nat)
    requires j < |ms| && p < |ms|
  {
    ms[j].time < ms[p].time || (ms[j].time == ms[p].time && j < p)
  }

  /** How many of the first `n` messages the sort puts before message `p`. */
  function EarlierCount(ms: seq<Copy>, n: nat, p: nat): nat
    requires n <= |ms| && p < |ms|
  {
    if n == 0 then 0 else EarlierCount(ms, n - 1, p) + if Earlier(ms, n - 1, p) then 1 else 0
  }

  lemma {:induction false} NoneBeforeOldest(ms: seq<Copy>, n: nat)
    requires ms != [] && n <= |ms|
    ensures EarlierCount(ms, n, Oldest(ms)) == 0
  {
    if n > 0 { NoneBeforeOldest(ms, n - 1); }
  }

  function Below(p: nat, k: nat): nat
    requires p != k
  {
    if p < k then p else p - 1
  }

  lemma EarlierBelow(ms: seq<Copy>, k: nat, j: nat, p: nat)
    requires k < |ms| && j < |ms| && p < |ms| && j != k && p != k
    ensures Below(j, k) < |Drop(ms, k)| && Below(p, k) < |Drop(ms, k)|
    ensures Earlier(Drop(ms, k), Below(j, k), Below(p, k)) <==> Earlier(ms, j, p)
  {
    assert Drop(ms, k)[Below(j, k)] == ms[j] && Drop(ms, k)[Below(p, k)] == ms[p];
  }

  lemma {:induction false} CountBelow(ms: seq<Copy>, k: nat, n: nat, p: nat)
    requires k < |ms| && n <= |ms| && p < |ms| && p != k && Earlier(ms, k, p)
    ensures EarlierCount(ms, n, p)
         == EarlierCount(Drop(ms, k), if n <= k then n else n - 1, Below(p, k)) + if n <= k then 0 else 1
  {
    if n > 0 {
      CountBelow(ms, k, n - 1, p);
      if n - 1 != k { EarlierBelow(ms, k, n - 1, p); }
    }
  }

  lemma OldestIsEarlier(ms: seq<Copy>, p: nat)
    requires p < |ms| && p != Oldest(ms)
    ensures Earlier(ms, Oldest(ms), p)
  {
  }

  lemma DropStaysDistinct(ms: seq<Copy>, k: nat)
    requires Distinct(ms) && k < |ms|
    ensures Distinct(Drop(ms, k)) && !HasId(Drop(ms, k), ms[k].id)
  {
    forall i | 0 <= i < |Drop(ms, k)| ensures Drop(ms, k)[i] == ms[if i < k then i else i + 1] {
    }
  }

  lemma OldestIsDropped(ms: seq<Copy>)
    requires Distinct(ms) && |ms| > ROOM_LIMIT
    ensures !HasId(Trim(ms), ms[Oldest(ms)].id) && EarlierCount(ms, |ms|, Oldest(ms)) == 0
  {
    var k := Oldest(ms);
    NoneBeforeOldest(ms, |ms|);
    DropStaysDistinct(ms, k);
    forall i | 0 <= i < |Trim(ms)| ensures Trim(ms)[i].id != ms[k].id {
      TrimIsPart(Drop(ms, k), Trim(ms)[i]);
    }
  }

  lemma OtherInDrop(ms: seq<Copy>, p: nat)
    requires ms != [] && p < |ms| && p != Oldest(ms)
    ensures var k := Oldest(ms);
            && Below(p, k) < |Drop(ms, k)| && Drop(ms, k)[Below(p, k)] == ms[p]
            && EarlierCount(ms, |ms|, p) == EarlierCount(Drop(ms, k), |Drop(ms, k)|, Below(p, k)) + 1
  {
    OldestIsEarlier(ms, p);
    CountBelow(ms, Oldest(ms), |ms|, p);
  }

  /** A trim keeps exactly the messages with at least as many before them, in time, as there are too many. */
  lemma {:induction false} TrimKeepsIff(ms: seq<Copy>, p: nat)
    requires Distinct(ms) && p < |ms|
    ensures HasId(Trim(ms), ms[p].id) <==> EarlierCount(ms, |ms|, p) + ROOM_LIMIT >= |ms|
    decreases |ms|
  {
    if |ms| > ROOM_LIMIT {
      var k := Oldest(ms);
      if p == k {
        OldestIsDropped(ms);
      } else {
        DropStaysDistinct(ms, k);
        OtherInDrop(ms, p);
        TrimKeepsIff(Drop(ms, k), Below(p, k));
      }
    }
  }

  lemma {:induction false} MergeStaysDistinct(ms: seq<Copy>, add: seq<Copy>, rejected: bool)
    requires Distinct(ms)
    ensures Distinct(Merge(ms, add, rejected))
  {
    if add != [] { MergeStaysDistinct(ms, add[..|add| - 1], rejected); }
  }

  lemma {:induction false} TrimStaysDistinct(ms: seq<Copy>)
    requires Distinct(ms)
    ensures Distinct(Trim(ms))
    decreases |ms|
  {
    if |ms| > ROOM_LIMIT {
      DropStaysDistinct(ms, Oldest(ms));
      TrimStaysDistinct(Drop(ms, Oldest(ms)));
    }
  }

  lemma DistinctMore(ms: seq<Copy>, c: Copy)
    requires Distinct(ms) && !HasId(ms, c.id)
    ensures Distinct(ms + [c])
  {
  }

  lemma PutStaysDistinct(ms: seq<Copy>, c: Copy)
    requires Distinct(ms)
    ensures Distinct(Put(ms, c))
  {
    if !HasId(ms, c.id) { DistinctMore(ms, c); }
  }

  lemma {:induction false} NonGraceStaysDistinct(ms: seq<Copy>)
    requires Distinct(ms)
    ensures Distinct(NonGrace(ms)) && forall c :: c in NonGrace(ms) ==> c in ms
  {
    if ms != [] {
      var init, c := ms[..|ms| - 1], ms[|ms| - 1];
      NonGraceStaysDistinct(init);
      assert ms == init + [c];
      AppendStaysDistinct(init, NonGrace(init), c);
    }
  }

  lemma AppendStaysDistinct(init: seq<Copy>, kept: seq<Copy>, c: Copy)
    requires Distinct(init + [c]) && Distinct(kept) && forall x :: x in kept ==> x in init
    ensures Distinct(kept + [c])
  {
    var all := init + [c];
    forall i | 0 <= i < |kept| ensures kept[i].id != c.id {
      assert kept[i] in init;
      var j :| 0 <= j < |init| && init[j] == kept[i];
      assert all[j].id != all[|init|].id;
    }
  }

  lemma {:induction false} UnexpiredStaysDistinct(ms: seq<Copy>, now: Time)
    requires Distinct(ms)
    ensures Distinct(Unexpired(ms, now)) && forall c :: c in Unexpired(ms, now) ==> c in ms
  {
    if ms != [] {
      var init, c := ms[..|ms| - 1], ms[|ms| - 1];
      UnexpiredStaysDistinct(init, now);
      assert ms == init + [c];
      AppendStaysDistinct(init, Unexpired(init, now), c);
    }
  }

  lemma EventStaysDistinct(r: Room, e: Event)
    requires Distinct(r.messages)
    ensures Distinct(Apply(r, e).messages)
  {
    match e {
      case Frames(f, at, unique) =>
        if r.replay.Some? {
          MergeStaysDistinct(r.messages, r.replay.value.messages, GraceRejected(r.vote));
          TrimStaysDistinct(Merge(r.messages, r.replay.value.messages, GraceRejected(r.vote)));
        }
      case Voted(_) => NonGraceStaysDistinct(r.messages);
      case Received(c) =>
        PutStaysDistinct(r.messages, c);
        TrimStaysDistinct(Put(r.messages, c));
      case Pruned(now) => UnexpiredStaysDistinct(r.messages, now);
      case _ =>
    }
  }

  /** Whatever happens to a room, its messages keep distinct identifiers. */
  lemma {:induction false} PlayStaysDistinct(r: Room, es: seq<Event>)
    requires Distinct(r.messages)
    ensures Distinct(Play(r, es).messages)
  {
    if es != [] {
      PlayStaysDistinct(r, es[..|es| - 1]);
      EventStaysDistinct(Play(r, es[..|es| - 1]), es[|es| - 1]);
    }
  }

  /** After a merge into a room, a message that was held or joined stays exactly when all fit, or enough of
      them are older; so all of them stay exactly when they fit. */
  lemma MergedStaysIff(ms: seq<Copy>, add: seq<Copy>, rejected: bool)
    requires Distinct(ms)
    ensures var all := Merge(ms, add, rejected);
            && (forall p :: 0 <= p < |all| ==>
                  (HasId(Trim(all), all[p].id) <==> EarlierCount(all, |all|, p) + ROOM_LIMIT >= |all|))
            && ((forall p :: 0 <= p < |all| ==> HasId(Trim(all), all[p].id)) <==> |all| <= ROOM_LIMIT)
  {
    var all := Merge(ms, add, rejected);
    MergeStaysDistinct(ms, add, rejected);
    forall p | 0 <= p < |all|
      ensures HasId(Trim(all), all[p].id) <==> EarlierCount(all, |all|, p) + ROOM_LIMIT >= |all|
    {
      TrimKeepsIff(all, p);
    }
    if |all| > ROOM_LIMIT { OldestIsDropped(all); }
  }

  /** A full room keeps its messages and loses an older copy that a replay brings, though its end counts. */
  lemma FullRoomLosesOlder(r: Room, id: ReplayId, c: Copy, at: Time, unique: MessageId)
    requires |r.messages| == ROOM_LIMIT && !HasId(r.messages, c.id) && !c.grace
    requires forall i :: 0 <= i < ROOM_LIMIT ==> c.time < r.messages[i].time
    requires r.replay == Some(Incoming(id, 1, [c]))
    ensures ReceiveReplay(r, Frame(id, End(1)), at, unique) == r.(replay := None)
  {
    var all := r.messages + [c];
    assert Merge(r.messages, [c], GraceRejected(r.vote)) == all by { assert [c][..0] == []; }
    assert all[ROOM_LIMIT] == c;
    assert Oldest(all) == ROOM_LIMIT;
    assert Drop(all, ROOM_LIMIT) == r.messages;
    TrimStep(all);
    assert Trim(r.messages) == r.messages;
  }

  // ---- When all arrives ------------------------------------------------------------------------

  /** Every frame of the producer, in order and with nothing in between. */
  function Delivery(id: ReplayId, xs: seq<Item>, ats: seq<Time>, ids: seq<MessageId>): seq<Event>
    requires |ats| == |ids| == |xs| + 2
  {
    seq(|xs| + 2, i requires 0 <= i < |xs| + 2 => Frames(Produced(id, xs)[i], ats[i], ids[i]))
  }

  lemma ProducedIndex(id: ReplayId, xs: seq<Item>, k: nat)
    requires k < |xs| + 2
    ensures |Produced(id, xs)| == |xs| + 2
    ensures Produced(id, xs)[k].replay == id
    ensures Produced(id, xs)[k].body == if k == 0 then Begin else if k <= |xs| then Piece(k - 1, xs[k - 1])
            else End(|xs|)
  {
  }

  lemma {:induction false} LoadsPrefix(r: Room, id: ReplayId, xs: seq<Item>, ats: seq<Time>, ids: seq<MessageId>,
                                       k: nat) returns (full: seq<Copy>)
    requires |ats| == |ids| == |xs| + 2 && k <= |xs| <= ROOM_LIMIT
    requires forall i :: 0 <= i < |xs| ==> xs[i].text.Some?
    ensures Copies(full, xs, k)
    ensures Play(r, Delivery(id, xs, ats, ids)[..1 + k]) == r.(replay := Some(Incoming(id, k, full)))
  {
    var es := Delivery(id, xs, ats, ids);
    assert es[..1 + k][..k] == es[..k] && es[..1 + k][k] == es[k];
    ProducedIndex(id, xs, k);
    if k == 0 {
      full := [];
      assert Play(r, es[..0]) == r;
    } else {
      full := LoadsPrefix(r, id, xs, ats, ids, k - 1);
      assert es[k].frame == Frame(id, Piece(k - 1, xs[k - 1]));
      full := full + [CopyOf(r.acceptedAt, xs[k - 1], ats[k], ids[k])];
    }
  }

  /** A replay of at most 500 readable items that arrives whole and undisturbed is merged. */
  lemma WholeDeliveryMerges(r: Room, id: ReplayId, xs: seq<Item>, ats: seq<Time>, ids: seq<MessageId>)
    requires |ats| == |ids| == |xs| + 2 && |xs| <= ROOM_LIMIT
    requires forall i :: 0 <= i < |xs| ==> xs[i].text.Some?
    ensures exists full :: MergedAll(r, Play(r, Delivery(id, xs, ats, ids)), xs, full)
  {
    var es := Delivery(id, xs, ats, ids);
    var full := LoadsPrefix(r, id, xs, ats, ids, |xs|);
    ProducedIndex(id, xs, |xs| + 1);
    assert es[..|es| - 1] == es[..1 + |xs|];
    assert es[|es| - 1].frame == Frame(id, End(|xs|));
    assert MergedAll(r, Play(r, es), xs, full);
  }

  lemma RejectionDrops(r: Room, id: ReplayId, grace: Copy, vote: VoteView)
    requires r.vote == None && r.messages == [] && r.replay == Some(Incoming(id, 1, [grace])) && grace.grace
    requires vote.status == VoteStatus.Rejected
    ensures ApplyVote(r, Some(vote)) == r.(vote := Some(vote), replay := Some(Incoming(id, 1, [])))
  {
    assert NonGrace([grace]) == [] by { assert [grace][..0] == []; }
  }

  lemma SecondArrives(r: Room, id: ReplayId, x: Item)
    requires r.replay == Some(Incoming(id, 1, [])) && x.text.Some?
    ensures ReceiveReplay(r, Frame(id, Piece(1, x)), 0, 0)
            == r.(replay := Some(Incoming(id, 2, [CopyOf(r.acceptedAt, x, 0, 0)])))
  {
    assert [] + [CopyOf(r.acceptedAt, x, 0, 0)] == [CopyOf(r.acceptedAt, x, 0, 0)];
  }

  lemma EndMergesOne(r: Room, id: ReplayId, other: Copy)
    requires !GraceRejected(r.vote) && r.messages == [] && r.replay == Some(Incoming(id, 2, [other]))
    ensures ReceiveReplay(r, Frame(id, End(2)), 0, 0).messages == [other]
  {
    assert Merge([], [other], false) == [other] by { assert [other][..0] == []; }
  }

  /** A view that makes the room forget its rejection: none, an approval, or any other vote. */
  predicate Withdraws(vote: VoteView, view: Option<VoteView>) {
    !GraceRejected(view) && (view.Some? && view.value.status == Open ==> view.value.id != vote.id)
  }

  /** A rejection that does not stand splits a replay. Of a room that collected a grace copy, the rejection
      drops it, any view that withdraws the rejection follows, and the end merges the other item alone. */
  lemma WithdrawnRejectionSplits(r: Room, id: ReplayId, grace: Copy, x: Item, vote: VoteView, view: Option<VoteView>)
    requires r.vote == None && r.messages == [] && r.replay == Some(Incoming(id, 1, [grace])) && grace.grace
    requires vote.status == VoteStatus.Rejected && x.text.Some? && Withdraws(vote, view)
    ensures var r1 := Apply(r, Voted(Some(vote)));
            var r2 := Apply(r1, Frames(Frame(id, Piece(1, x)), 0, 0));
            var r3 := Apply(r2, Voted(view));
            !Stands(r2, Voted(view))
              && Apply(r3, Frames(Frame(id, End(2)), 0, 0)).messages == [CopyOf(r.acceptedAt, x, 0, 0)]
  {
    RejectionDrops(r, id, grace, vote);
    SecondArrives(Apply(r, Voted(Some(vote))), id, x);
    var r3 := Apply(Apply(Apply(r, Voted(Some(vote))), Frames(Frame(id, Piece(1, x)), 0, 0)), Voted(view));
    EndMergesOne(r3, id, CopyOf(r.acceptedAt, x, 0, 0));
  }

  /** And only such a view does: the rejection stands under every other one. */
  lemma StandsUnlessWithdrawn(r: Room, view: Option<VoteView>)
    requires GraceRejected(r.vote)
    ensures Stands(r, Voted(view)) <==> !Withdraws(r.vote.value, view)
  {
  }
}
