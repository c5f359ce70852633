/** What the four sorted sets of Redis hold in every reachable state, stops and expiry included: where they
    agree with the attempts, where they cannot, and what a read of one returns. */
module IndexRuns {
  import opened Wrappers
  import opened Persistence
  import opened Ordering
  import opened RealtimeRedis
  import opened Messaging
  import opened Reconciliation
  import opened IndexLaws
  import opened Handshake
  import opened HandshakeRuns

  // ---- What a transaction writes into the indexes -----------------------------------------

  lemma OfferWrites(s: Sys, k: Timeouts, l: Label, i: nat) returns (w: Writing)
    requires l.Offer? && Guard(s, l) && i < |TxOf(s, l, k).trace|
    ensures Moves(s.redis, TxOf(s, l, k).trace[i], l.message, w)
  {
    w := Nothing;
    if i == 1 { w := Creates(NewAttempt(s.db.conversations[l.id], l.id, l.user, s.now, k)); }
  }

  lemma ReadyWrites(s: Sys, k: Timeouts, l: Label, i: nat) returns (w: Writing)
    requires l.Ready? && Guard(s, l) && i < |TxOf(s, l, k).trace|
    ensures Moves(s.redis, TxOf(s, l, k).trace[i], l.message, w)
  {
    ReadyTraceIs(s, k, l);
    w := Nothing;
    if i == 1 { w := Saves(AnsweredAttempt(s, l)); }
  }

  lemma SendFirstWrites(s: Sys, k: Timeouts, l: Label, i: nat) returns (w: Writing)
    requires l.SendFirst? && Guard(s, l) && i < |TxOf(s, l, k).trace|
    ensures Moves(s.redis, TxOf(s, l, k).trace[i], l.write.id, w)
  {
    w := Nothing;
    if i == 1 { w := Saves(SendingAttempt(s.redis.attempts[l.write.id], s.now, k)); }
  }

  /** The attempt that a suspended send kept is still the one in Redis, if Redis has one. */
  lemma KeptFollows(s: Sys, k: Timeouts, m: MessageId, a: Attempt)
    requires Inv(s, k) && m in s.inflight && Durable(s.db, m, s.now) && a.phase != Offered
    requires a == s.inflight[m].(phase := a.phase, failure := a.failure)
    ensures Proper(s.redis, m, Saves(a))
  {
    About(s, k, m);
  }

  lemma SendSecondShape(r: Redis, m: MessageId, a: Attempt, i: nat, trace: seq<Redis>, plan: Second)
    requires i < |trace|
    requires trace == if plan == PeerGone then [r, Save(r, m, LostAttempt(a))]
                      else if plan == Publish
                      then [r, PutPayload(r, m, a), Save(PutPayload(r, m, a), m, a.(phase := Sent))]
                      else [r]
    ensures i == 0 || (plan == Publish && i == 1) ==> SameIndexes(r, trace[i])
    ensures plan == PeerGone && i == 1 ==> SameIndexes(Save(r, m, LostAttempt(a)), trace[i])
    ensures plan == Publish && i == 2 ==> SameIndexes(Save(r, m, a.(phase := Sent)), trace[i])
    ensures i <= (if plan == PeerGone then 1 else if plan == Publish then 2 else 0)
  {
  }

  lemma SecondIsDurable(db: Db, r: Redis, m: MessageId, a: Attempt, now: Time)
    requires PlanSecond(db, r, m, a, now) == PeerGone || PlanSecond(db, r, m, a, now) == Publish
    ensures Durable(db, m, now)
  {
  }

  lemma SecondMoves(s: Sys, k: Timeouts, m: MessageId, i: nat, trace: seq<Redis>, plan: Second) returns (w: Writing)
    requires Inv(s, k) && m in s.inflight && i < |trace|
    requires plan == PeerGone || plan == Publish ==> Durable(s.db, m, s.now)
    requires var r, a := s.redis, s.inflight[m];
             trace == if plan == PeerGone then [r, Save(r, m, LostAttempt(a))]
                      else if plan == Publish
                      then [r, PutPayload(r, m, a), Save(PutPayload(r, m, a), m, a.(phase := Sent))]
                      else [r]
    ensures Moves(s.redis, trace[i], m, w)
  {
    var a := s.inflight[m];
    SendSecondShape(s.redis, m, a, i, trace, plan);
    w := Nothing;
    if plan == PeerGone && i == 1 {
      w := Saves(LostAttempt(a));
      KeptFollows(s, k, m, LostAttempt(a));
    } else if plan == Publish && i == 2 {
      w := Saves(a.(phase := Sent));
      KeptFollows(s, k, m, a.(phase := Sent));
    }
  }

  lemma SendSecondWrites(s: Sys, k: Timeouts, l: Label, i: nat) returns (w: Writing)
    requires Inv(s, k) && l.SendSecond? && Guard(s, l) && i < |TxOf(s, l, k).trace|
    ensures Moves(s.redis, TxOf(s, l, k).trace[i], l.message, w)
  {
    var m := l.message;
    var plan := PlanSecond(s.db, s.redis, m, s.inflight[m], s.now);
    SendSecondTraceIs(s, k, l);
    if plan == PeerGone || plan == Publish { SecondIsDurable(s.db, s.redis, m, s.inflight[m], s.now); }
    w := SecondMoves(s, k, m, i, TxOf(s, l, k).trace, plan);
  }

  lemma AckWrites(s: Sys, k: Timeouts, l: Label, i: nat) returns (w: Writing)
    requires l.Ack? && Guard(s, l) && i < |TxOf(s, l, k).trace|
    ensures Moves(s.redis, TxOf(s, l, k).trace[i], l.message, w)
  {
    w := Nothing;
    if i == 1 { w := Saves(s.redis.attempts[l.message].(phase := AttemptDelivered)); }
  }

  lemma RepairAttemptWrites(s: Sys, k: Timeouts, l: Label, i: nat) returns (w: Writing)
    requires l.RepairAttempt? && Guard(s, l) && i < |TxOf(s, l, k).trace|
    ensures Moves(s.redis, TxOf(s, l, k).trace[i], l.message, w)
  {
    var m := l.message;
    w := Nothing;
    if i == 1 {
      match RepairOf(s.db, s.redis, m, s.redis.attempts[m], l.disconnected, s.now) {
        case Mirror(phase) => w := Saves(s.redis.attempts[m].(phase := phase));
        case Fail(reason) => w := Saves(FailedAttempt(s.redis.attempts[m], reason));
      }
    }
  }

  lemma RowTraceIs(db: Db, r: Redis, m: MessageId, d: Option<ConnectionId>, now: Time)
    ensures var trace := RowTx(db, r, m, d, now).trace;
            trace == [r] || (m in db.deliveries && trace == [r, DropPayload(r, m, db.deliveries[m].recipient)])
  {
  }

  lemma RepairRowWrites(s: Sys, k: Timeouts, l: Label, i: nat)
    requires l.RepairRow? && Guard(s, l) && i < |TxOf(s, l, k).trace|
    ensures Moves(s.redis, TxOf(s, l, k).trace[i], l.message, Nothing)
  {
    RowTraceIs(s.db, s.redis, l.message, l.disconnected, s.now);
    assert TxOf(s, l, k) == RowTx(s.db, s.redis, l.message, l.disconnected, s.now);
  }

  /** Every Redis state that a transaction goes through is one proper write away from the one it met. */
  lemma TraceWrites(s: Sys, k: Timeouts, l: Label, i: nat) returns (w: Writing)
    requires Inv(s, k) && IsTransaction(l) && Guard(s, l) && i < |TxOf(s, l, k).trace|
    ensures Moves(s.redis, TxOf(s, l, k).trace[i], MessageOf(l), w)
  {
    w := Nothing;
    match l {
      case Offer(_, _, _, _) => w := OfferWrites(s, k, l, i);
      case Ready(_, _, _, _) => w := ReadyWrites(s, k, l, i);
      case SendFirst(_, _) => w := SendFirstWrites(s, k, l, i);
      case SendSecond(_) => w := SendSecondWrites(s, k, l, i);
      case Ack(_, _, _, _) => w := AckWrites(s, k, l, i);
      case RepairAttempt(_, _) => w := RepairAttemptWrites(s, k, l, i);
      case RepairRow(_, _) => RepairRowWrites(s, k, l, i);
    }
  }

  // ---- What a step does to attempts and indexes ---------------------------------------------

  /** The steps that change attempts or indexes other than by a write of a transaction. */
  predicate Loses(l: Label) {
    l.Flush? || l.Forget? || l.Discard?
  }

  lemma StepRedis(s: Sys, k: Timeouts, l: Label)
    requires Guard(s, l)
    ensures var r := Step(s, l, k).redis;
            if IsTransaction(l) then r == TxOf(s, l, k).trace[|TxOf(s, l, k).trace| - 1]
            else if l.Crash? then exists i: nat :: i < |TxOf(s, l.of, k).trace| && r == TxOf(s, l.of, k).trace[i]
            else if l.Flush? then r == LOST
            else if l.Forget? then r == s.redis.(attempts := s.redis.attempts - {l.message})
            else if l.Discard? then r == DropEntry(s.redis, l.index, l.message)
            else SameIndexes(s.redis, r)
  {
    if l.Crash? {
      var trace := TxOf(s, l.of, k).trace;
      var i := if l.writes < |trace| then l.writes else |trace| - 1;
      assert Step(s, l, k).redis == trace[i];
    }
  }

  lemma StepWrites(s: Sys, k: Timeouts, l: Label) returns (m: MessageId, w: Writing)
    requires Inv(s, k) && !Loses(l)
    ensures Moves(s.redis, Step(s, l, k).redis, m, w)
  {
    m, w := 0, Nothing;
    if Guard(s, l) {
      StepRedis(s, k, l);
      if IsTransaction(l) {
        m := MessageOf(l);
        w := TraceWrites(s, k, l, |TxOf(s, l, k).trace| - 1);
      } else if l.Crash? {
        var i: nat :| i < |TxOf(s, l.of, k).trace| && Step(s, l, k).redis == TxOf(s, l.of, k).trace[i];
        m := MessageOf(l.of);
        w := TraceWrites(s, k, l.of, i);
      }
    }
  }

  // ---- Every run ---------------------------------------------------------------------------------

  lemma ForgetKeepsOwn(r: Redis, m: MessageId)
    requires OwnOk(r)
    ensures OwnOk(r.(attempts := r.attempts - {m}))
  {
    var t := r.(attempts := r.attempts - {m});
    forall x | x in t.attempts ensures Own(t, x, t.attempts[x]) {
      assert Own(r, x, r.attempts[x]);
      forall f | Belongs(f, t.attempts[x]) ensures Score(t, f, x) == RightScore(f, t.attempts[x]) {
        assert Score(t, f, x) == Score(r, f, x);
      }
    }
  }

  lemma DiscardKeepsOwn(r: Redis, f: Filter, m: MessageId)
    requires OwnOk(r) && (m in r.attempts ==> !Selects(f, r.attempts[m]))
    ensures OwnOk(DropEntry(r, f, m))
  {
    var t := DropEntry(r, f, m);
    DroppedScores(r, f, m);
    forall x | x in t.attempts ensures Own(t, x, t.attempts[x]) {
      assert Own(r, x, r.attempts[x]);
    }
  }

  lemma StepKeepsOwn(s: Sys, k: Timeouts, l: Label)
    requires Inv(s, k) && OwnOk(s.redis)
    ensures OwnOk(Step(s, l, k).redis)
  {
    if !Loses(l) {
      var m, w := StepWrites(s, k, l);
      WriteKeepsOwn(s.redis, Step(s, l, k).redis, m, w);
    } else if Guard(s, l) {
      StepRedis(s, k, l);
      if l.Forget? { ForgetKeepsOwn(s.redis, l.message); }
      if l.Discard? { DiscardKeepsOwn(s.redis, l.index, l.message); }
    }
  }

  /** After every run, stops, expiry and losses included, each attempt is a member of the sets it belongs to
      exactly while it should be, with its deadline. */
  lemma {:induction false} MembersAreRight(ls: seq<Label>, k: Timeouts)
    requires Valid(k)
    ensures OwnOk(Exec(ls, k).redis)
  {
    if ls != [] {
      var p := ls[..|ls| - 1];
      MembersAreRight(p, k);
      RunInvariant(p, k);
      StepKeepsOwn(Exec(p, k), k, ls[|ls| - 1]);
    }
  }

  /** So after every run an index holds all that a scan finds, and nothing else exactly when it has no member
      whose attempt is gone or belongs elsewhere; for the deadlines, when every member has its attempt. */
  lemma IndexAfterRun(ls: seq<Label>, k: Timeouts, f: Filter)
    requires Valid(k)
    ensures var r := Exec(ls, k).redis;
            && ScanKeys(r, f) <= IndexKeys(r, f)
            && (IndexKeys(r, f) == ScanKeys(r, f) <==> forall x :: x in IndexKeys(r, f) ==> !Stray(r, f, x.id))
            && (IndexKeys(r, All) == ScanKeys(r, All) <==> r.deadlines.Keys <= r.attempts.Keys)
  {
    var r := Exec(ls, k).redis;
    MembersAreRight(ls, k);
    IndexIsScanIff(r, f);
    IndexIsScanIff(r, All);
    forall m | m in r.deadlines ensures Key(1, r.deadlines[m], m) in IndexKeys(r, All) {
    }
    if forall x :: x in IndexKeys(r, All) ==> !Stray(r, All, x.id) {
      forall m | m in r.deadlines ensures m in r.attempts {
        assert !Stray(r, All, Key(1, r.deadlines[m], m).id);
      }
    }
  }

  /** After every run a read returns the first 1000 attempts of a scan in deadline order exactly when it meets
      no attempt that belongs elsewhere and stray members push none of those out of its 1000; for the
      deadlines always when they are at most 1000. */
  lemma ReadAfterRun(ls: seq<Label>, k: Timeouts, f: Filter)
    requires Valid(k)
    ensures var r := Exec(ls, k).redis;
            && (Found(r, ActiveKeys(r, f)) == IdsOf(FirstScanned(r, f)) <==> !MeetsStranger(r, f) && !PushesOut(r, f))
            && (|IndexKeys(r, f)| <= ACTIVE_LIMIT ==> !PushesOut(r, f))
            && (|IndexKeys(r, All)| <= ACTIVE_LIMIT ==> Found(r, ActiveKeys(r, All)) == IdsOf(FirstScanned(r, All)))
  {
    var r := Exec(ls, k).redis;
    MembersAreRight(ls, k);
    ReadIsScanIff(r, f);
    ReadIsScanIff(r, All);
    SmallIndexReads(r, f);
    SmallIndexReads(r, All);
  }

  // ---- Without expiry, and without a second life ---------------------------------------------------

  /** The sets hold the message exactly where its attempt says, and nowhere when it has none. */
  ghost predicate Clean(r: Redis, m: MessageId) {
    if m in r.attempts then Exact(r, m, r.attempts[m]) else Absent(r, m)
  }

  lemma WriteKeepsClean(r: Redis, t: Redis, of: MessageId, w: Writing, m: MessageId)
    requires Moves(r, t, of, w) && Clean(r, m)
    ensures Clean(t, m)
  {
    if of == m && w != Nothing {
      WriteOwns(r, t, m, w);
      WriteKeepsExact(r, t, m, w);
    } else {
      OtherScores(r, t, of, w, m);
    }
  }

  lemma LossKeepsClean(s: Sys, k: Timeouts, l: Label, m: MessageId)
    requires Loses(l) && Guard(s, l) && Clean(s.redis, m) && (l.Forget? ==> l.message != m)
    ensures Clean(Step(s, l, k).redis, m)
  {
    var t := Step(s, l, k).redis;
    StepRedis(s, k, l);
    if l.Discard? {
      DroppedScores(s.redis, l.index, l.message);
    } else if l.Forget? {
      forall f ensures Score(t, f, m) == Score(s.redis, f, m) {
      }
    }
  }

  lemma StepKeepsClean(s: Sys, k: Timeouts, l: Label, m: MessageId)
    requires Inv(s, k) && Clean(s.redis, m) && (l.Forget? ==> l.message != m)
    ensures Clean(Step(s, l, k).redis, m)
  {
    if !Loses(l) {
      var of, w := StepWrites(s, k, l);
      WriteKeepsClean(s.redis, Step(s, l, k).redis, of, w, m);
    } else if Guard(s, l) {
      LossKeepsClean(s, k, l, m);
    }
  }

  /** As long as its attempt never expires, all four sets hold a message exactly where they should. */
  lemma {:induction false} CleanUnlessExpired(ls: seq<Label>, k: Timeouts, m: MessageId)
    requires Valid(k) && forall i :: 0 <= i < |ls| ==> ls[i] != Forget(m)
    ensures Clean(Exec(ls, k).redis, m)
  {
    if ls != [] {
      var p, l := ls[..|ls| - 1], ls[|ls| - 1];
      forall i | 0 <= i < |p| ensures p[i] != Forget(m) { assert p[i] == ls[i]; }
      CleanUnlessExpired(p, k, m);
      RunInvariant(p, k);
      assert l == ls[|ls| - 1];
      StepKeepsClean(Exec(p, k), k, l, m);
    }
  }

  lemma StepKeepsAgreement(s: Sys, k: Timeouts, l: Label)
    requires Inv(s, k) && IndexOk(s.redis) && !l.Forget?
    ensures IndexOk(Step(s, l, k).redis)
  {
    if !Loses(l) {
      var m, w := StepWrites(s, k, l);
      WriteKeepsAgreement(s.redis, Step(s, l, k).redis, m, w);
    } else if Guard(s, l) {
      StepRedis(s, k, l);
      if l.Discard? { NothingToDrop(s.redis, l.index, l.message); }
    }
  }

  /** In a run without expiry, stops, losses and both repairs included, all indexes agree with the attempts. */
  lemma {:induction false} IndexesAgreeWithoutExpiry(ls: seq<Label>, k: Timeouts)
    requires Valid(k) && forall i :: 0 <= i < |ls| ==> !ls[i].Forget?
    ensures IndexOk(Exec(ls, k).redis)
  {
    if ls != [] {
      var p, l := ls[..|ls| - 1], ls[|ls| - 1];
      forall i | 0 <= i < |p| ensures !p[i].Forget? { assert p[i] == ls[i]; }
      IndexesAgreeWithoutExpiry(p, k);
      RunInvariant(p, k);
      assert l == ls[|ls| - 1];
      StepKeepsAgreement(Exec(p, k), k, l);
    }
  }

  /** So there a read takes what a scan in deadline order takes, up to its limit. */
  lemma ReadsAgreeWithoutExpiry(ls: seq<Label>, k: Timeouts, f: Filter)
    requires Valid(k) && forall i :: 0 <= i < |ls| ==> !ls[i].Forget?
    ensures var r := Exec(ls, k).redis;
            ActiveKeys(r, f) == FirstScanned(r, f) && Found(r, ActiveKeys(r, f)) == IdsOf(FirstScanned(r, f))
  {
    IndexesAgreeWithoutExpiry(ls, k);
    AgreeingRead(Exec(ls, k).redis, f);
  }

  /** Redis after the first `i` steps. */
  ghost function RedisAt(ls: seq<Label>, k: Timeouts, i: nat): Redis
    requires i <= |ls|
  {
    Exec(ls[..i], k).redis
  }

  /** Whenever the run makes an attempt of `m`, no index holds `m` from an earlier one. */
  ghost predicate NeverReused(ls: seq<Label>, k: Timeouts, m: MessageId) {
    forall i: nat :: i < |ls| && m !in RedisAt(ls, k, i).attempts && m in RedisAt(ls, k, i + 1).attempts ==>
                       Absent(RedisAt(ls, k, i), m)
  }

  lemma StepKeepsExact(s: Sys, k: Timeouts, l: Label, m: MessageId)
    requires Inv(s, k) && m in Step(s, l, k).redis.attempts
    requires if m in s.redis.attempts then Exact(s.redis, m, s.redis.attempts[m]) else Absent(s.redis, m)
    ensures Exact(Step(s, l, k).redis, m, Step(s, l, k).redis.attempts[m])
  {
    if l == Forget(m) {
      if Guard(s, l) { StepRedis(s, k, l); }
    } else {
      StepKeepsClean(s, k, l, m);
    }
  }

  lemma RedisAtPrefix(ls: seq<Label>, k: Timeouts, i: nat)
    requires i < |ls|
    ensures RedisAt(ls[..|ls| - 1], k, i) == RedisAt(ls, k, i)
  {
    assert ls[..|ls| - 1][..i] == ls[..i];
  }

  lemma NeverReusedPrefix(ls: seq<Label>, k: Timeouts, m: MessageId)
    requires NeverReused(ls, k, m) && ls != []
    ensures NeverReused(ls[..|ls| - 1], k, m)
  {
    var p := ls[..|ls| - 1];
    forall i: nat | i < |p| && m !in RedisAt(p, k, i).attempts && m in RedisAt(p, k, i + 1).attempts
      ensures Absent(RedisAt(p, k, i), m)
    {
      RedisAtPrefix(ls, k, i);
      RedisAtPrefix(ls, k, i + 1);
    }
  }

  lemma NewOverNothing(ls: seq<Label>, k: Timeouts, m: MessageId)
    requires NeverReused(ls, k, m) && ls != []
    ensures var before := Exec(ls[..|ls| - 1], k).redis;
            m !in before.attempts && m in Exec(ls, k).redis.attempts ==> Absent(before, m)
  {
    assert ls[..|ls|] == ls;
    assert RedisAt(ls, k, |ls|) == Exec(ls, k).redis;
    assert RedisAt(ls, k, |ls| - 1) == Exec(ls[..|ls| - 1], k).redis;
  }

  /** An identifier that is not offered again over members of an expired attempt is in every index exactly
      where its attempt says. */
  lemma {:induction false} ExactUnlessReused(ls: seq<Label>, k: Timeouts, m: MessageId)
    requires Valid(k) && NeverReused(ls, k, m) && m in Exec(ls, k).redis.attempts
    ensures Exact(Exec(ls, k).redis, m, Exec(ls, k).redis.attempts[m])
  {
    if ls != [] {
      var p := ls[..|ls| - 1];
      NeverReusedPrefix(ls, k, m);
      NewOverNothing(ls, k, m);
      RunInvariant(p, k);
      if m in Exec(p, k).redis.attempts { ExactUnlessReused(p, k, m); }
      StepKeepsExact(Exec(p, k), k, ls[|ls| - 1], m);
    }
  }

  /** So an index whose members were not reused equals a scan exactly when every member has its attempt. */
  lemma IndexUnlessReused(ls: seq<Label>, k: Timeouts, f: Filter)
    requires Valid(k)
    requires forall x :: x in IndexKeys(Exec(ls, k).redis, f) ==> NeverReused(ls, k, x.id)
    ensures var r := Exec(ls, k).redis;
            !MeetsStranger(r, f)
            && (IndexKeys(r, f) == ScanKeys(r, f) <==> forall x :: x in IndexKeys(r, f) ==> x.id in r.attempts)
  {
    var r := Exec(ls, k).redis;
    IndexAfterRun(ls, k, f);
    forall x | x in IndexKeys(r, f) && x.id in r.attempts ensures Belongs(f, r.attempts[x.id]) {
      ExactUnlessReused(ls, k, x.id);
      MemberIs(r, f, x);
      assert Score(r, f, x.id) == RightScore(f, r.attempts[x.id]);
      SelectedBelongs(f, r.attempts[x.id]);
    }
  }

  // ---- A read is a run of single removals -----------------------------------------------------------

  lemma DiscardOnce(ls: seq<Label>, k: Timeouts, f: Filter, m: MessageId) returns (more: seq<Label>)
    requires m !in Exec(ls, k).redis.attempts
    ensures Exec(more, k) == Exec(ls, k).(redis := DropEntry(Exec(ls, k).redis, f, m))
  {
    more := ls + [Discard(f, m)];
    assert more[..|more| - 1] == ls;
  }

  /** The removals of a whole read are steps of the system, so another process may come between them. */
  lemma {:induction false} ReadIsSteps(ls: seq<Label>, k: Timeouts, f: Filter, keys: seq<Key>)
    returns (more: seq<Label>)
    ensures Exec(more, k) == Exec(ls, k).(redis := Sweep(Exec(ls, k).redis, f, keys))
  {
    if keys == [] {
      more := ls;
    } else {
      var m := keys[|keys| - 1].id;
      more := ReadIsSteps(ls, k, f, keys[..|keys| - 1]);
      if m !in Exec(ls, k).redis.attempts {
        more := DiscardOnce(more, k, f, m);
      }
    }
  }
}
