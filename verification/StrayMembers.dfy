/** Three runs after which an index of Redis does not equal a scan: an attempt that expired leaves its members
    behind, a second attempt of its identifier is found where it does not belong, and 1000 members of expired
    attempts hide a live one. */
module StrayMembers {
  import opened Wrappers
  import opened Persistence
  import opened Ordering
  import Voting
  import opened RealtimeRedis
  import opened Messaging
  import opened Reconciliation
  import opened Handshake
  import opened HandshakeRuns
  import opened IndexLaws
  import opened IndexRuns
  import opened ReconciliationStarvation

  lemma ForgetIs(s: Sys, m: MessageId, k: Timeouts)
    requires m in s.redis.attempts && s.now >= s.redis.attempts[m].retainUntil
    ensures Step(s, Forget(m), k) == s.(redis := s.redis.(attempts := s.redis.attempts - {m}))
  {
  }

  lemma LaterMeeting(s: Sys, t: Sys, c: ConnectionId)
    requires Meeting(s, c) && t.now >= s.now && t.db == s.db && t.owners == s.owners
    requires t.redis.presence == s.redis.presence
    ensures Meeting(t, c)
  {
  }

  // ---- Offers that expire ------------------------------------------------------------------------

  /** The first `n` messages were offered at the first meeting, and the attempts before `gone` have expired. */
  ghost predicate OfferedAll(s: Sys, gone: nat, n: nat, k: Timeouts) {
    && Meeting(s, 0) && s.db.events == map[]
    && (forall m: MessageId :: m in s.redis.attempts <==> gone <= m < n)
    && (forall m :: m in s.redis.attempts ==> s.redis.attempts[m] == Proposed(Voting.VOTE_WINDOW, k))
    && (forall m: MessageId :: m in s.redis.deadlines <==> m < n)
    && (forall m :: m in s.redis.deadlines ==> s.redis.deadlines[m] == Voting.VOTE_WINDOW + k.offer)
  }

  lemma OneMoreOffer(s: Sys, t: Sys, n: nat, k: Timeouts)
    requires OfferedAll(s, 0, n, k) && s.now == Voting.VOTE_WINDOW
    requires t == s.(redis := Create(s.redis, n, Proposed(s.now, k)), offered := t.offered)
    ensures OfferedAll(t, 0, n + 1, k)
  {
    forall m: MessageId ensures m in t.redis.attempts <==> m < n + 1 {
      assert m in t.redis.attempts <==> m in s.redis.attempts || m == n;
    }
    forall m: MessageId ensures m in t.redis.deadlines <==> m < n + 1 {
      assert m in t.redis.deadlines <==> m in s.redis.deadlines || m == n;
    }
  }

  lemma NobodyOffered(s: Sys, k: Timeouts)
    requires Gathered(s, 0, k) && s.redis == LOST.(presence := s.redis.presence)
    ensures OfferedAll(s, 0, 0, k)
  {
    assert s.db.events == map[];
  }

  lemma {:induction false} Offers(n: nat, k: Timeouts) returns (ls: seq<Label>)
    requires Valid(k)
    ensures OfferedAll(Exec(ls, k), 0, n, k) && Exec(ls, k).now == Voting.VOTE_WINDOW
  {
    if n == 0 {
      ls := Opening(k);
      NobodyOffered(Exec(ls, k), k);
    } else {
      var before := Offers(n - 1, k);
      AfterOffer(Exec(before, k), 0, n - 1, k);
      ls := Extend(before, Offer(HOST, 0, n - 1, ROOM), k);
      OneMoreOffer(Exec(before, k), Exec(ls, k), n - 1, k);
    }
  }

  lemma OneLessAttempt(s: Sys, t: Sys, gone: nat, n: nat, k: Timeouts)
    requires OfferedAll(s, gone, n, k) && gone < n
    requires t == s.(redis := s.redis.(attempts := s.redis.attempts - {gone}))
    ensures OfferedAll(t, gone + 1, n, k)
  {
    forall m: MessageId ensures m in t.redis.attempts <==> gone + 1 <= m < n {
      assert m in t.redis.attempts <==> m in s.redis.attempts && m != gone;
    }
  }

  lemma LaterOffers(s: Sys, t: Sys, gone: nat, n: nat, k: Timeouts)
    requires OfferedAll(s, gone, n, k) && t == s.(now := t.now) && t.now >= s.now
    ensures OfferedAll(t, gone, n, k)
  {
    LaterMeeting(s, t, 0);
  }

  lemma {:induction false} Expiries(gone: nat, n: nat, k: Timeouts) returns (ls: seq<Label>)
    requires Valid(k) && gone <= n
    ensures OfferedAll(Exec(ls, k), gone, n, k) && Exec(ls, k).now == Voting.VOTE_WINDOW + RETENTION
  {
    if gone == 0 {
      var offered := Offers(n, k);
      TickIs(Exec(offered, k), Voting.VOTE_WINDOW + RETENTION, k);
      ls := Extend(offered, Tick(Voting.VOTE_WINDOW + RETENTION), k);
      LaterOffers(Exec(offered, k), Exec(ls, k), 0, n, k);
    } else {
      var before := Expiries(gone - 1, n, k);
      ForgetIs(Exec(before, k), gone - 1, k);
      ls := Extend(before, Forget(gone - 1), k);
      OneLessAttempt(Exec(before, k), Exec(ls, k), gone - 1, n, k);
    }
  }

  /** `n` members of expired attempts, and one live attempt behind them. */
  ghost predicate Hidden(r: Redis, n: nat, k: Timeouts) {
    && r.attempts == map[n := Proposed(Voting.VOTE_WINDOW + RETENTION, k)]
    && (forall m: MessageId :: m in r.deadlines <==> m <= n)
    && (forall m :: m in r.deadlines && m < n ==> r.deadlines[m] == Voting.VOTE_WINDOW + k.offer)
    && n in r.deadlines && r.deadlines[n] == Voting.VOTE_WINDOW + RETENTION + k.offer
  }

  lemma LastOfferHides(s: Sys, t: Sys, n: nat, k: Timeouts)
    requires OfferedAll(s, n, n, k) && s.now == Voting.VOTE_WINDOW + RETENTION
    requires t == s.(redis := Create(s.redis, n, Proposed(s.now, k)), offered := t.offered)
    ensures Hidden(t.redis, n, k)
  {
    assert s.redis.attempts == map[];
    forall m: MessageId ensures m in t.redis.deadlines <==> m <= n {
      assert m in t.redis.deadlines <==> m in s.redis.deadlines || m == n;
    }
  }

  lemma Hiding(n: nat, k: Timeouts) returns (ls: seq<Label>)
    requires Valid(k)
    ensures Hidden(Exec(ls, k).redis, n, k)
  {
    var before := Expiries(n, n, k);
    AfterOffer(Exec(before, k), 0, n, k);
    ls := Extend(before, Offer(HOST, 0, n, ROOM), k);
    LastOfferHides(Exec(before, k), Exec(ls, k), n, k);
  }

  /** An attempt that expires while live leaves its members behind: after one expiry and a completed create
      the index of deadlines names a message that has no attempt. */
  lemma ExpiryLeavesMembers(k: Timeouts) returns (ls: seq<Label>)
    requires Valid(k)
    ensures var r := Exec(ls, k).redis;
            0 in r.deadlines && 0 !in r.attempts && 1 in r.attempts
            && IndexKeys(r, All) != ScanKeys(r, All) && !IndexOk(r)
  {
    ls := Hiding(1, k);
    var r := Exec(ls, k).redis;
    assert 0 in r.deadlines && 0 !in r.attempts;
    IndexAfterRun(ls, k, All);
    assert !Unindexed(r, 0);
  }

  lemma HiddenKeys(r: Redis, n: nat, k: Timeouts)
    requires Hidden(r, n, k)
    ensures var last := Key(1, Voting.VOTE_WINDOW + RETENTION + k.offer, n);
            && ScanKeys(r, All) == {last}
            && CrowdKeys(n, Voting.VOTE_WINDOW + k.offer) <= Before(IndexKeys(r, All), last)
  {
    var last := Key(1, Voting.VOTE_WINDOW + RETENTION + k.offer, n);
    forall x ensures x in ScanKeys(r, All) <==> x == last { ScanIs(r, All, x); }
    forall x | x in CrowdKeys(n, Voting.VOTE_WINDOW + k.offer) ensures x in Before(IndexKeys(r, All), last) {
      assert x.id in r.deadlines;
      MemberIs(r, All, x);
    }
  }

  /** And 1000 such members hide a live attempt from a read: it returns nothing. */
  lemma ExpiredMembersHideOne(k: Timeouts) returns (ls: seq<Label>)
    requires Valid(k)
    ensures var r := Exec(ls, k).redis;
            PushesOut(r, All) && |ScanKeys(r, All)| == 1 && Found(r, ActiveKeys(r, All)) == []
  {
    ls := Hiding(ACTIVE_LIMIT, k);
    var r := Exec(ls, k).redis;
    var at := Voting.VOTE_WINDOW + k.offer;
    var last := Key(1, Voting.VOTE_WINDOW + RETENTION + k.offer, ACTIVE_LIMIT);
    HiddenKeys(r, ACTIVE_LIMIT, k);
    CrowdSize(ACTIVE_LIMIT, at);
    SubsetSize(CrowdKeys(ACTIVE_LIMIT, at), Before(IndexKeys(r, All), last));
    assert Before(ScanKeys(r, All), last) == {};
    HiddenIsNotFound(r, ls, k, last);
  }

  lemma HiddenIsNotFound(r: Redis, ls: seq<Label>, k: Timeouts, last: Key)
    requires Valid(k) && r == Exec(ls, k).redis && ScanKeys(r, All) == {last}
    requires |Before(IndexKeys(r, All), last)| >= ACTIVE_LIMIT
    ensures Found(r, ActiveKeys(r, All)) == []
  {
    MembersAreRight(ls, k);
    FoundWithAttempt(r, ActiveKeys(r, All));
    TakeIncreasing(IndexKeys(r, All), ACTIVE_LIMIT);
    WithAttemptAre(r, ActiveKeys(r, All));
    forall x ensures x !in WithAttempt(r, ActiveKeys(r, All)) {
      MemberScanned(r, All, x);
      TakenIff(IndexKeys(r, All), ACTIVE_LIMIT, x);
    }
    var found := WithAttempt(r, ActiveKeys(r, All));
    DistinctSize(found);
    assert (set x | x in found) == {};
  }

  // ---- A second life -------------------------------------------------------------------------------

  lemma SecondOffer(s: Sys, t: Sys, k: Timeouts)
    requires Entry(1, 0) in s.redis.byConnection && forall e :: e in s.redis.byConnection ==> e == Entry(1, 0)
    requires t.redis == Create(s.redis, 0, Proposed(s.now, k))
    ensures MeetsStranger(t.redis, OfConnection(1))
  {
    var r, f := t.redis, OfConnection(1);
    var x := Key(1, r.byConnection[Entry(1, 0)], 0);
    MemberIs(r, f, x);
    forall y | y in IndexKeys(r, f) ensures y == x { MemberIs(r, f, y); }
    assert Before(IndexKeys(r, f), x) == {};
  }

  /** An identifier whose answered attempt expired and that is offered again is still a member of the index of
      the socket that answered then, and a read of that index returns the new attempt. */
  lemma SecondLifeIsFoundElsewhere(k: Timeouts) returns (ls: seq<Label>)
    requires Valid(k)
    ensures var r, f := Exec(ls, k).redis, OfConnection(1);
            && 0 in r.attempts && r.attempts[0].connection == None
            && MeetsStranger(r, f) && Found(r, ActiveKeys(r, f)) != IdsOf(FirstScanned(r, f))
  {
    var met := Opening(k);
    NewcomerIsFresh(Exec(met, k), 0, k);
    var answered := Answer(met, 0, 0, k);
    var later := Extend(answered, Tick(Voting.VOTE_WINDOW + RETENTION), k);
    TickIs(Exec(answered, k), Voting.VOTE_WINDOW + RETENTION, k);
    LaterMeeting(Exec(answered, k), Exec(later, k), 0);
    ForgetIs(Exec(later, k), 0, k);
    var forgotten := Extend(later, Forget(0), k);
    LaterMeeting(Exec(later, k), Exec(forgotten, k), 0);
    AfterOffer(Exec(forgotten, k), 0, 0, k);
    ls := Extend(forgotten, Offer(HOST, 0, 0, ROOM), k);
    SecondOffer(Exec(forgotten, k), Exec(ls, k), k);
    ReadAfterRun(ls, k, OfConnection(1));
  }
}
