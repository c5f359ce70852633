/** How the four sorted sets of Redis relate to the attempts when an attempt may expire and leave its
    members behind: which members are right, when an index equals a scan, and what a read returns. */
module IndexLaws {
  import opened Wrappers
  import opened Persistence
  import opened Ordering
  import opened RealtimeRedis

  /** The score of a message in the sorted set that a filter names. */
  function Score(r: Redis, f: Filter, m: MessageId): Option<Time> {
    match f
    case All => if m in r.deadlines then Some(r.deadlines[m]) else None
    case OfConversation(c) => if Entry(c, m) in r.byConversation then Some(r.byConversation[Entry(c, m)]) else None
    case OfConnection(c) => if Entry(c, m) in r.byConnection then Some(r.byConnection[Entry(c, m)]) else None
    case OfRecipient(u) => if Entry(u, m) in r.byRecipient then Some(r.byRecipient[Entry(u, m)]) else None
  }

  lemma MemberIs(r: Redis, f: Filter, k: Key)
    ensures k in IndexKeys(r, f) <==> k.group == 1 && Score(r, f, k.id) == Some(k.at)
  {
    match f {
      case All =>
      case OfConversation(c) =>
        if Entry(c, k.id) in r.byConversation {
          assert Key(1, r.byConversation[Entry(c, k.id)], k.id) in IndexKeys(r, f);
        }
      case OfConnection(c) =>
        if Entry(c, k.id) in r.byConnection {
          assert Key(1, r.byConnection[Entry(c, k.id)], k.id) in IndexKeys(r, f);
        }
      case OfRecipient(u) =>
        if Entry(u, k.id) in r.byRecipient {
          assert Key(1, r.byRecipient[Entry(u, k.id)], k.id) in IndexKeys(r, f);
        }
    }
  }

  /** The sorted sets that an attempt is ever a member of. */
  predicate Belongs(f: Filter, a: Attempt) {
    match f
    case All => true
    case OfConversation(c) => a.conversation == c
    case OfConnection(c) => a.connection == Some(c)
    case OfRecipient(u) => a.recipient == u
  }

  function RightScore(f: Filter, a: Attempt): Option<Time> {
    if Selects(f, a) then Some(a.deadline) else None
  }

  /** The sets that `a` belongs to hold its message exactly when they should, with its deadline. */
  ghost predicate Own(r: Redis, m: MessageId, a: Attempt) {
    forall f :: Belongs(f, a) ==> Score(r, f, m) == RightScore(f, a)
  }

  ghost predicate OwnOk(r: Redis) {
    forall m :: m in r.attempts ==> Own(r, m, r.attempts[m])
  }

  /** No other set holds it either. */
  ghost predicate Exact(r: Redis, m: MessageId, a: Attempt) {
    forall f :: Score(r, f, m) == RightScore(f, a)
  }

  ghost predicate Absent(r: Redis, m: MessageId) {
    forall f :: Score(r, f, m) == None
  }

  // ---- One write ------------------------------------------------------------------------

  /** A transaction creates the attempt of its message, saves it, or leaves attempts and indexes alone. */
  datatype Writing = Nothing | Creates(attempt: Attempt) | Saves(attempt: Attempt)

  function Written(r: Redis, m: MessageId, w: Writing): Redis {
    match w
    case Nothing => r
    case Creates(a) => Create(r, m, a)
    case Saves(a) => Save(r, m, a)
  }

  /** A new attempt is an offer nobody answered, and a save never moves an attempt. */
  ghost predicate Proper(r: Redis, m: MessageId, w: Writing) {
    match w
    case Nothing => true
    case Creates(a) => m !in r.attempts && a.phase == Offered && a.connection == None
    case Saves(a) => a.phase != Offered && (m in r.attempts ==> Follows(r.attempts[m], a))
  }

  predicate SameIndexes(r: Redis, s: Redis) {
    && s.attempts == r.attempts && s.deadlines == r.deadlines && s.byConversation == r.byConversation
    && s.byRecipient == r.byRecipient && s.byConnection == r.byConnection
  }

  /** `t` is `r` after one write for `m`, as far as attempts and indexes go. */
  ghost predicate Moves(r: Redis, t: Redis, m: MessageId, w: Writing) {
    Proper(r, m, w) && SameIndexes(Written(r, m, w), t)
  }

  lemma CreateOthers(r: Redis, m: MessageId, a: Attempt, f: Filter, x: MessageId)
    requires x != m
    ensures Score(Create(r, m, a), f, x) == Score(r, f, x)
  {
  }

  lemma SaveOthers(r: Redis, m: MessageId, a: Attempt, f: Filter, x: MessageId)
    requires x != m
    ensures Score(Save(r, m, a), f, x) == Score(r, f, x)
  {
  }

  lemma SameScores(r: Redis, t: Redis, f: Filter, x: MessageId)
    requires SameIndexes(r, t)
    ensures Score(t, f, x) == Score(r, f, x)
  {
  }

  lemma OtherScores(r: Redis, t: Redis, m: MessageId, w: Writing, x: MessageId)
    requires Moves(r, t, m, w) && (x != m || w == Nothing)
    ensures Get(t, x) == Get(r, x) && forall f :: Score(t, f, x) == Score(r, f, x)
  {
    forall f ensures Score(t, f, x) == Score(r, f, x) {
      SameScores(Written(r, m, w), t, f, x);
      match w {
        case Nothing =>
        case Creates(a) => CreateOthers(r, m, a, f, x);
        case Saves(a) => SaveOthers(r, m, a, f, x);
      }
    }
  }

  lemma CreateOwns(r: Redis, m: MessageId, a: Attempt, f: Filter)
    requires a.phase == Offered && a.connection == None && Belongs(f, a)
    ensures Score(Create(r, m, a), f, m) == RightScore(f, a)
  {
  }

  lemma SaveOwns(r: Redis, m: MessageId, a: Attempt, f: Filter)
    requires a.phase != Offered && Belongs(f, a)
    ensures Score(Save(r, m, a), f, m) == RightScore(f, a)
  {
  }

  /** Whatever other sets hold, a write leaves its message right in the sets its attempt belongs to. */
  lemma WriteOwns(r: Redis, t: Redis, m: MessageId, w: Writing)
    requires Moves(r, t, m, w) && w != Nothing
    ensures m in t.attempts && t.attempts[m] == w.attempt && Own(t, m, w.attempt)
  {
    forall f | Belongs(f, w.attempt) ensures Score(t, f, m) == RightScore(f, w.attempt) {
      SameScores(Written(r, m, w), t, f, m);
      match w {
        case Creates(a) => CreateOwns(r, m, a, f);
        case Saves(a) => SaveOwns(r, m, a, f);
      }
    }
  }

  lemma WriteScores(r: Redis, t: Redis, m: MessageId, w: Writing, f: Filter)
    requires Moves(r, t, m, w) && w != Nothing && !Belongs(f, w.attempt)
    ensures Score(t, f, m) == Score(r, f, m)
  {
  }

  lemma WriteKeepsExact(r: Redis, t: Redis, m: MessageId, w: Writing)
    requires Moves(r, t, m, w) && w != Nothing
    requires if m in r.attempts then Exact(r, m, r.attempts[m]) else Absent(r, m)
    ensures Exact(t, m, w.attempt)
  {
    WriteOwns(r, t, m, w);
    forall f ensures Score(t, f, m) == RightScore(f, w.attempt) {
      if !Belongs(f, w.attempt) {
        WriteScores(r, t, m, w, f);
        assert Score(r, f, m) == None by {
          if m in r.attempts { assert Score(r, f, m) == RightScore(f, r.attempts[m]); }
        }
      }
    }
  }

  lemma WriteKeepsOwn(r: Redis, t: Redis, m: MessageId, w: Writing)
    requires OwnOk(r) && Moves(r, t, m, w)
    ensures OwnOk(t)
  {
    forall x | x in t.attempts ensures Own(t, x, t.attempts[x]) {
      if x == m && w != Nothing {
        WriteOwns(r, t, m, w);
      } else {
        OtherScores(r, t, m, w, x);
        assert Own(r, x, r.attempts[x]);
      }
    }
  }

  lemma SameIndexesAgree(r: Redis, t: Redis)
    requires IndexOk(r) && SameIndexes(r, t)
    ensures IndexOk(t)
  {
    forall m ensures if m in t.attempts then Indexed(t, m, t.attempts[m]) else Unindexed(t, m) {
      assert if m in r.attempts then Indexed(r, m, r.attempts[m]) else Unindexed(r, m);
    }
  }

  /** Indexes that agree with all attempts go on to agree. */
  lemma WriteKeepsAgreement(r: Redis, t: Redis, m: MessageId, w: Writing)
    requires IndexOk(r) && Moves(r, t, m, w)
    ensures IndexOk(t)
  {
    match w {
      case Nothing =>
      case Creates(a) => CreateKeepsIndexes(r, m, a);
      case Saves(a) => SaveKeepsIndexes(r, m, a);
    }
    SameIndexesAgree(Written(r, m, w), t);
  }

  // ---- Members that go away -----------------------------------------------------------------

  lemma DroppedScores(r: Redis, f: Filter, m: MessageId)
    ensures DropEntry(r, f, m).attempts == r.attempts
    ensures forall g, x ::
              Score(DropEntry(r, f, m), g, x) == if g == f && x == m then None else Score(r, g, x)
  {
  }

  lemma NothingToDrop(r: Redis, f: Filter, m: MessageId)
    requires IndexOk(r) && (m in r.attempts ==> !Selects(f, r.attempts[m]))
    ensures DropEntry(r, f, m) == r
  {
    assert if m in r.attempts then Indexed(r, m, r.attempts[m]) else Unindexed(r, m);
  }

  /** A read of `f` drops exactly the members it takes whose attempt is gone. */
  lemma {:induction false} SweptScores(r: Redis, f: Filter, keys: seq<Key>, g: Filter, x: MessageId)
    ensures Score(Sweep(r, f, keys), g, x)
         == if g == f && x !in r.attempts && exists k :: k in keys && k.id == x then None else Score(r, g, x)
  {
    if keys != [] {
      var init, last := keys[..|keys| - 1], keys[|keys| - 1];
      SweptScores(r, f, init, g, x);
      DroppedScores(Sweep(r, f, init), f, last.id);
      assert keys == init + [last];
      assert last in keys;
    }
  }

  // ---- An index and a scan -------------------------------------------------------------------

  lemma ScanIs(r: Redis, f: Filter, k: Key)
    ensures k in ScanKeys(r, f)
       <==> k.id in r.attempts && Selects(f, r.attempts[k.id]) && k == Key(1, r.attempts[k.id].deadline, k.id)
  {
  }

  /** A member that no scan would find: its attempt is gone, or was made anew and belongs elsewhere. */
  predicate Stray(r: Redis, f: Filter, m: MessageId) {
    m !in r.attempts || !Belongs(f, r.attempts[m])
  }

  lemma MemberScanned(r: Redis, f: Filter, k: Key)
    requires OwnOk(r)
    ensures k in ScanKeys(r, f) <==> k in IndexKeys(r, f) && !Stray(r, f, k.id)
  {
    MemberIs(r, f, k);
    ScanIs(r, f, k);
    if k.id in r.attempts {
      assert Own(r, k.id, r.attempts[k.id]);
      SelectedBelongs(f, r.attempts[k.id]);
    }
  }

  lemma SelectedBelongs(f: Filter, a: Attempt)
    ensures Selects(f, a) ==> Belongs(f, a)
  {
  }

  /** An index equals a scan of the attempts exactly when it has no stray member. */
  lemma IndexIsScanIff(r: Redis, f: Filter)
    requires OwnOk(r)
    ensures ScanKeys(r, f) <= IndexKeys(r, f)
    ensures IndexKeys(r, f) == ScanKeys(r, f) <==> forall k :: k in IndexKeys(r, f) ==> !Stray(r, f, k.id)
  {
    forall k ensures k in ScanKeys(r, f) <==> k in IndexKeys(r, f) && !Stray(r, f, k.id) { MemberScanned(r, f, k); }
  }

  // ---- What a read returns --------------------------------------------------------------------

  function IdsOf(keys: seq<Key>): seq<MessageId> {
    seq(|keys|, i requires 0 <= i < |keys| => keys[i].id)
  }

  /** The keys whose attempt is there, in order. */
  function WithAttempt(r: Redis, keys: seq<Key>): seq<Key> {
    if keys == [] then []
    else
      var last := keys[|keys| - 1];
      WithAttempt(r, keys[..|keys| - 1]) + if last.id in r.attempts then [last] else []
  }

  lemma {:induction false} FoundWithAttempt(r: Redis, keys: seq<Key>)
    ensures Found(r, keys) == IdsOf(WithAttempt(r, keys))
  {
    if keys != [] {
      var init, last := keys[..|keys| - 1], keys[|keys| - 1];
      FoundWithAttempt(r, init);
      assert IdsOf(WithAttempt(r, init) + [last]) == IdsOf(WithAttempt(r, init)) + [last.id];
    }
  }

  lemma {:induction false} WithAttemptAre(r: Redis, keys: seq<Key>)
    requires Increasing(keys)
    ensures Increasing(WithAttempt(r, keys))
    ensures forall k :: k in WithAttempt(r, keys) <==> k in keys && k.id in r.attempts
  {
    if keys != [] {
      var init, last := keys[..|keys| - 1], keys[|keys| - 1];
      WithAttemptAre(r, init);
      assert keys == init + [last];
      forall x | x in WithAttempt(r, init) ensures Less(x, last) {
        var i :| 0 <= i < |init| && init[i] == x;
        assert keys[i] == x;
      }
    }
  }

  lemma TakeIncreasing(s: set<Key>, n: nat)
    ensures Increasing(Take(Ascending(s), n))
    ensures forall k :: k in Take(Ascending(s), n) ==> k in s
  {
    forall k | k in Take(Ascending(s), n) ensures k in s { assert k in Ascending(s); }
  }

  /** The first 1000 attempts of a scan in deadline order. */
  ghost function FirstScanned(r: Redis, f: Filter): seq<Key> {
    Take(Ascending(ScanKeys(r, f)), ACTIVE_LIMIT)
  }

  /** An attempt that belongs elsewhere stands among the members that a read takes. */
  predicate MeetsStranger(r: Redis, f: Filter) {
    exists k :: && k in IndexKeys(r, f) && k.id in r.attempts && !Belongs(f, r.attempts[k.id])
                && |Before(IndexKeys(r, f), k)| < ACTIVE_LIMIT
  }

  /** Stray members push one of the first 1000 of the scan out of the first 1000 of the index. */
  predicate PushesOut(r: Redis, f: Filter) {
    exists k :: k in ScanKeys(r, f) && |Before(ScanKeys(r, f), k)| < ACTIVE_LIMIT <= |Before(IndexKeys(r, f), k)|
  }

  lemma OneKeyEach(r: Redis, f: Filter, k: Key, l: Key)
    requires k in IndexKeys(r, f) && l in IndexKeys(r, f) && k.id == l.id
    ensures k == l
  {
    MemberIs(r, f, k);
    MemberIs(r, f, l);
  }

  lemma TakenIff(s: set<Key>, n: nat, k: Key)
    ensures k in Take(Ascending(s), n) <==> k in s && |Before(s, k)| < n
  {
    TakeIncreasing(s, n);
    if k in s { InFirst(s, n, k); }
  }

  lemma FewerBefore(r: Redis, f: Filter, k: Key)
    requires OwnOk(r)
    ensures |Before(ScanKeys(r, f), k)| <= |Before(IndexKeys(r, f), k)|
  {
    IndexIsScanIff(r, f);
    SubsetSize(Before(ScanKeys(r, f), k), Before(IndexKeys(r, f), k));
  }

  lemma SameKeysIff(r: Redis, f: Filter, k: Key)
    requires OwnOk(r) && !MeetsStranger(r, f) && !PushesOut(r, f)
    ensures k in WithAttempt(r, ActiveKeys(r, f)) <==> k in FirstScanned(r, f)
  {
    TakeIncreasing(IndexKeys(r, f), ACTIVE_LIMIT);
    WithAttemptAre(r, ActiveKeys(r, f));
    TakenIff(IndexKeys(r, f), ACTIVE_LIMIT, k);
    TakenIff(ScanKeys(r, f), ACTIVE_LIMIT, k);
    MemberScanned(r, f, k);
    FewerBefore(r, f, k);
  }

  lemma IdMeansKey(keys: seq<Key>, m: MessageId)
    ensures m in IdsOf(keys) ==> exists k :: k in keys && k.id == m
    ensures forall k :: k in keys ==> k.id in IdsOf(keys)
  {
    forall k | k in keys ensures k.id in IdsOf(keys) {
      var i :| 0 <= i < |keys| && keys[i] == k;
      assert IdsOf(keys)[i] == k.id;
    }
    if m in IdsOf(keys) {
      var i :| 0 <= i < |IdsOf(keys)| && IdsOf(keys)[i] == m;
      assert keys[i] in keys;
    }
  }

  lemma StrangerIsReturned(r: Redis, f: Filter, k: Key)
    requires OwnOk(r) && k in IndexKeys(r, f) && k.id in r.attempts && !Belongs(f, r.attempts[k.id])
    requires |Before(IndexKeys(r, f), k)| < ACTIVE_LIMIT
    ensures IdsOf(WithAttempt(r, ActiveKeys(r, f))) != IdsOf(FirstScanned(r, f))
  {
    TakeIncreasing(IndexKeys(r, f), ACTIVE_LIMIT);
    TakeIncreasing(ScanKeys(r, f), ACTIVE_LIMIT);
    WithAttemptAre(r, ActiveKeys(r, f));
    TakenIff(IndexKeys(r, f), ACTIVE_LIMIT, k);
    IdMeansKey(WithAttempt(r, ActiveKeys(r, f)), k.id);
    IdMeansKey(FirstScanned(r, f), k.id);
    forall l | l in FirstScanned(r, f) ensures l.id != k.id { MemberScanned(r, f, l); }
  }

  lemma PushedOutIsMissing(r: Redis, f: Filter, k: Key)
    requires OwnOk(r) && k in ScanKeys(r, f)
    requires |Before(ScanKeys(r, f), k)| < ACTIVE_LIMIT <= |Before(IndexKeys(r, f), k)|
    ensures IdsOf(WithAttempt(r, ActiveKeys(r, f))) != IdsOf(FirstScanned(r, f))
  {
    TakeIncreasing(IndexKeys(r, f), ACTIVE_LIMIT);
    WithAttemptAre(r, ActiveKeys(r, f));
    TakenIff(ScanKeys(r, f), ACTIVE_LIMIT, k);
    MemberScanned(r, f, k);
    IdMeansKey(FirstScanned(r, f), k.id);
    IdMeansKey(WithAttempt(r, ActiveKeys(r, f)), k.id);
    forall l | l in WithAttempt(r, ActiveKeys(r, f)) ensures l.id != k.id {
      TakenIff(IndexKeys(r, f), ACTIVE_LIMIT, l);
      if l.id == k.id { OneKeyEach(r, f, k, l); }
    }
  }

  /** A read returns the first 1000 attempts of a full scan, in deadline order, exactly when it meets no
      attempt that belongs elsewhere and stray members push none of those 1000 out. */
  lemma ReadIsScanIff(r: Redis, f: Filter)
    requires OwnOk(r)
    ensures Found(r, ActiveKeys(r, f)) == IdsOf(FirstScanned(r, f)) <==> !MeetsStranger(r, f) && !PushesOut(r, f)
  {
    FoundWithAttempt(r, ActiveKeys(r, f));
    if MeetsStranger(r, f) {
      var k :| && k in IndexKeys(r, f) && k.id in r.attempts && !Belongs(f, r.attempts[k.id])
               && |Before(IndexKeys(r, f), k)| < ACTIVE_LIMIT;
      StrangerIsReturned(r, f, k);
    } else if PushesOut(r, f) {
      var k :| k in ScanKeys(r, f) && |Before(ScanKeys(r, f), k)| < ACTIVE_LIMIT <= |Before(IndexKeys(r, f), k)|;
      PushedOutIsMissing(r, f, k);
    } else {
      TakeIncreasing(IndexKeys(r, f), ACTIVE_LIMIT);
      TakeIncreasing(ScanKeys(r, f), ACTIVE_LIMIT);
      WithAttemptAre(r, ActiveKeys(r, f));
      forall k ensures k in WithAttempt(r, ActiveKeys(r, f)) <==> k in FirstScanned(r, f) { SameKeysIff(r, f, k); }
      IncreasingUnique(WithAttempt(r, ActiveKeys(r, f)), FirstScanned(r, f));
    }
  }

  /** The index of deadlines has no strangers, and an index of at most 1000 members pushes nothing out. */
  lemma SmallIndexReads(r: Redis, f: Filter)
    requires OwnOk(r)
    ensures !MeetsStranger(r, All)
    ensures |IndexKeys(r, f)| <= ACTIVE_LIMIT ==> !PushesOut(r, f)
  {
    if |IndexKeys(r, f)| <= ACTIVE_LIMIT {
      forall k | k in ScanKeys(r, f) ensures |Before(IndexKeys(r, f), k)| < ACTIVE_LIMIT {
        MemberScanned(r, f, k);
        SubsetSize(Before(IndexKeys(r, f), k), IndexKeys(r, f) - {k});
      }
    }
  }

  lemma AllFound(r: Redis, f: Filter, keys: seq<Key>)
    requires forall k :: k in keys ==> k.id in r.attempts
    ensures Found(r, keys) == IdsOf(keys)
  {
    SweepIsIdle(r, f, keys);
  }

  lemma AgreeingRead(r: Redis, f: Filter)
    requires IndexOk(r)
    ensures ActiveKeys(r, f) == FirstScanned(r, f) && Found(r, ActiveKeys(r, f)) == IdsOf(FirstScanned(r, f))
  {
    ActiveIsFullScan(r, f);
    forall k | k in ActiveKeys(r, f) ensures k.id in r.attempts { ScanIs(r, f, k); }
    AllFound(r, f, ActiveKeys(r, f));
  }

  /** A read leaves an index of at most 1000 members without those whose attempt is gone. */
  lemma ReadHeals(r: Redis, f: Filter, x: MessageId)
    requires |IndexKeys(r, f)| <= ACTIVE_LIMIT
    ensures var s := Sweep(r, f, ActiveKeys(r, f));
            Score(s, f, x) == if x in r.attempts then Score(r, f, x) else None
  {
    SweptScores(r, f, ActiveKeys(r, f), f, x);
    if Score(r, f, x).Some? {
      var k := Key(1, Score(r, f, x).value, x);
      MemberIs(r, f, k);
      assert k in Ascending(IndexKeys(r, f));
    }
  }
}
