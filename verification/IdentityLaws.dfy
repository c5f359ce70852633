/** What users and attackers of the session system can and cannot see happen, over whole runs. */
module IdentityLaws {
  import opened Wrappers
  import opened Persistence
  import opened Identity
  import opened Transfers
  import opened IdentityRuns

  // ---- One session, one token -----------------------------------------------------------

  /** In every reachable state a user has at most one unrevoked session, and an unrevoked session has
      exactly one usable token: its current one. */
  lemma OneSessionOneToken(ls: seq<Label>, u: UserId, a: Sid, b: Sid)
    requires UnrevokedOf(Exec(ls).t, u, a)
    ensures UnrevokedOf(Exec(ls).t, u, b) ==> a == b
    ensures var t := Exec(ls).t;
            forall h :: (h in t.tokens && t.tokens[h].sid == a && Usable(t.tokens[h])) <==> h == t.sessions[a].current
  {
    RunInvariant(ls);
    assert SessionOk(Exec(ls).t, a, Exec(ls).now);
  }

  // ---- What one step can do to what is there ----------------------------------------------

  /** A session keeps its user and family, and one that is not live stays so. */
  predicate Ages(a: Session, b: Session, now: Time) {
    b.user == a.user && b.family == a.family && (Live(b, now) ==> Live(a, now))
  }

  /** A token keeps its session and family, and a used one stays used. */
  predicate Wears(a: Token, b: Token) {
    b.sid == a.sid && b.family == a.family && (a.usedAt.Some? ==> b.usedAt.Some?)
  }

  /** New sessions have new families and new tokens new digests. */
  ghost predicate Moves(w: World, t: Tables) {
    && (forall s :: s in t.sessions ==>
          if s in w.t.sessions then Ages(w.t.sessions[s], t.sessions[s], w.now)
            else t.sessions[s].family !in w.families)
    && (forall h :: h in t.tokens ==> if h in w.t.tokens then Wears(w.t.tokens[h], t.tokens[h]) else h !in w.issued)
  }

  lemma RevokeMoves(w: World, user: UserId, family: Option<Family>, sid: Option<Sid>)
    ensures Moves(w, Revoke(w.t, user, family, sid, w.now))
  {
    var r, chosen := Revoke(w.t, user, family, sid, w.now), Chosen(w.t, user, family, sid);
    RevokeIs(w.t, user, family, sid, w.now);
    forall s | s in r.sessions ensures Ages(w.t.sessions[s], r.sessions[s], w.now) {
      assert RevokedSession(w.t.sessions[s], r.sessions[s], s in chosen);
    }
    forall h | h in r.tokens ensures Wears(w.t.tokens[h], r.tokens[h]) {
      assert RevokedToken(w.t.tokens[h], r.tokens[h], w.t.tokens[h].sid in chosen);
    }
  }

  lemma CreateMoves(w: World, t: Tables, user: UserId, f: Fresh)
    requires HistoryOk(w) && Moves(w, t) && IsFresh(w, f)
    ensures Moves(w, CreateSession(t, user, f, w.now))
  {
  }

  lemma BootstrapMoves(w: World, user: UserId, f: Fresh)
    requires HistoryOk(w) && IsFresh(w, f)
    ensures Moves(w, Exchange(w.t, user, f, w.now).1)
  {
    if IsActive(w.t, user) {
      RevokeMoves(w, user, None, None);
      CreateMoves(w, Revoke(w.t, user, None, None, w.now), user, f);
      ExchangeShape(w.t, user, f, w.now);
    }
  }

  lemma RotateMoves(w: World, h: Digest, next: Digest)
    requires h in w.t.tokens && w.t.tokens[h].sid in w.t.sessions && Live(w.t.sessions[w.t.tokens[h].sid], w.now)
    requires next !in w.issued
    requires next !in w.t.tokens
    ensures Moves(w, Rotate(w.t, h, next, w.now))
  {
  }

  lemma PresentMoves(w: World, h: Digest, allowed: bool, next: Digest)
    requires Inv(w) && next !in w.issued
    ensures Moves(w, Refresh(w.t, h, allowed, next, w.now).1)
  {
    var answer := Refresh(w.t, h, allowed, next, w.now).0;
    if answer.Issued? {
      AcceptedIsCurrent(w.t, h, allowed, next, w.now);
      RotateMoves(w, h, next);
    } else if answer.ReuseDetected? {
      RevokeMoves(w, w.t.sessions[w.t.tokens[h].sid].user, Some(w.t.tokens[h].family), None);
    }
  }

  lemma AfterMoves(w: World, l: Label)
    requires Inv(w) && Guard(w, l)
    ensures Moves(w, After(w, l))
  {
    match l {
      case SignUp(u, f) =>
        if u !in w.t.active { CreateMoves(w, w.t.(active := w.t.active[u := true]), u, f); }
      case RecoverBy(u, valid, f) =>
        RevokeMoves(w, u, None, None);
        CreateMoves(w, Revoke(w.t, u, None, None, w.now), u, f);
      case Bootstrap(u, f) => BootstrapMoves(w, u, f);
      case Present(h, allowed, next) => PresentMoves(w, h, allowed, next);
      case SignOut(u, s) => RevokeMoves(w, u, None, Some(s));
      case _ =>
    }
  }

  // ---- Every token succeeds at most once ------------------------------------------------

  /** A token of the past: it will never again be the one to rotate. */
  predicate Spent(w: World, h: Digest) {
    h in w.issued && (h in w.t.tokens ==> w.t.tokens[h].usedAt.Some?)
  }

  lemma {:induction false} SpentForever(w: World, q: seq<Label>, h: Digest)
    requires Inv(w) && Spent(w, h)
    ensures Spent(From(w, q), h)
  {
    if q != [] {
      var init, l := q[..|q| - 1], q[|q| - 1];
      SpentForever(w, init, h);
      RunKeeps(w, init);
      if Guard(From(w, init), l) { AfterMoves(From(w, init), l); }
    }
  }

  predicate Succeeds(w: World, h: Digest, allowed: bool, next: Digest) {
    next !in w.issued && Refresh(w.t, h, allowed, next, w.now).0.Issued?
  }

  lemma RotateMarks(t: Tables, h: Digest, next: Digest, now: Time)
    requires h in t.tokens && t.tokens[h].sid in t.sessions && next != h
    ensures h in Rotate(t, h, next, now).tokens && Rotate(t, h, next, now).tokens[h].usedAt == Some(now)
  {
  }

  lemma SuccessSpends(w: World, h: Digest, allowed: bool, next: Digest)
    requires Inv(w) && Succeeds(w, h, allowed, next)
    ensures Spent(Step(w, Present(h, allowed, next)), h)
  {
    AcceptedIsCurrent(w.t, h, allowed, next, w.now);
    RotateMarks(w.t, h, next, w.now);
    assert After(w, Present(h, allowed, next)) == Rotate(w.t, h, next, w.now);
  }

  /** A token that was exchanged once is never exchanged again, whatever happens in between. */
  lemma SucceedsOnce(p: seq<Label>, q: seq<Label>, h: Digest, first: Label, again: Label)
    requires first.Present? && first.digest == h && Succeeds(Exec(p), h, first.allowed, first.next)
    requires again.Present? && again.digest == h
    ensures !Succeeds(From(Step(Exec(p), first), q), h, again.allowed, again.next)
  {
    RunInvariant(p);
    SuccessSpends(Exec(p), h, first.allowed, first.next);
    StepKeeps(Exec(p), first);
    SpentForever(Step(Exec(p), first), q, h);
  }

  // ---- Reuse kills the family -----------------------------------------------------------

  /** No session of the family can be used or refreshed any more. */
  ghost predicate Dead(w: World, family: Family) {
    && family in w.families
    && forall s :: s in w.t.sessions && w.t.sessions[s].family == family ==> !Live(w.t.sessions[s], w.now)
  }

  lemma StepDead(w: World, l: Label, family: Family)
    requires Inv(w) && Dead(w, family)
    ensures Dead(Step(w, l), family)
  {
    if Guard(w, l) {
      AfterMoves(w, l);
    }
  }

  lemma {:induction false} DeadForever(w: World, q: seq<Label>, family: Family)
    requires Inv(w) && Dead(w, family)
    ensures Dead(From(w, q), family)
  {
    if q != [] {
      DeadForever(w, q[..|q| - 1], family);
      RunKeeps(w, q[..|q| - 1]);
      StepDead(From(w, q[..|q| - 1]), q[|q| - 1], family);
    }
  }

  lemma RevokedFamily(t: Tables, user: UserId, family: Family, now: Time, s: Sid)
    requires var r := Revoke(t, user, Some(family), None, now);
             s in r.sessions && r.sessions[s].family == family && (s in t.sessions ==> t.sessions[s].user == user)
    ensures Revoke(t, user, Some(family), None, now).sessions[s].revokedAt.Some?
  {
    var r, chosen := Revoke(t, user, Some(family), None, now), Chosen(t, user, Some(family), None);
    RevokeIs(t, user, Some(family), None, now);
    assert RevokedSession(t.sessions[s], r.sessions[s], s in chosen);
  }

  lemma FamilyIsOne(t: Tables, now: Time, h: Digest, s: Sid)
    requires TablesOk(t, now) && h in t.tokens && s in t.sessions && t.sessions[s].family == t.tokens[h].family
    ensures s == t.tokens[h].sid
  {
    assert TokenOk(t, h);
  }

  lemma FamilyRecorded(w: World, h: Digest)
    requires Inv(w) && h in w.t.tokens
    ensures w.t.tokens[h].family in w.families
  {
    assert TokenOk(w.t, h);
  }

  /** Replaying a used token revokes every session of its family. */
  lemma ReuseKills(w: World, h: Digest, allowed: bool, next: Digest)
    requires Inv(w) && next !in w.issued && Processed(w.t, h, allowed) && w.t.tokens[h].usedAt.Some?
    ensures Dead(Step(w, Present(h, allowed, next)), w.t.tokens[h].family)
  {
    var family, user := w.t.tokens[h].family, w.t.sessions[w.t.tokens[h].sid].user;
    var r := Revoke(w.t, user, Some(family), None, w.now);
    assert Refresh(w.t, h, allowed, next, w.now).1 == r;
    FamilyRecorded(w, h);
    forall s | s in r.sessions && r.sessions[s].family == family ensures r.sessions[s].revokedAt.Some? {
      RevokeMoves(w, user, Some(family), None);
      FamilyIsOne(w.t, w.now, h, s);
      RevokedFamily(w.t, user, family, w.now, s);
    }
  }

  lemma RefusedIsDead(w: World, h: Digest, allowed: bool, next: Digest)
    requires Inv(w) && next !in w.issued && Processed(w.t, h, allowed)
    requires !Succeeds(w, h, allowed, next) && w.t.tokens[h].usedAt == None
    ensures Dead(w, w.t.tokens[h].family)
  {
    var k := w.t.tokens[h];
    assert TokenOk(w.t, h) && SessionOk(w.t, k.sid, w.now);
  }

  /** A processed presentation either exchanges the token or leaves its family dead. */
  lemma PresentationSpendsOrKills(w: World, l: Label, h: Digest)
    requires Inv(w) && l.Present? && l.digest == h && l.next !in w.issued && Processed(w.t, h, l.allowed)
    ensures var x := Step(w, l); Dead(x, w.t.tokens[h].family) || (Succeeds(w, h, l.allowed, l.next) && Spent(x, h))
    ensures Spent(w, h) ==> Dead(Step(w, l), w.t.tokens[h].family)
  {
    if w.t.tokens[h].usedAt.Some? {
      ReuseKills(w, h, l.allowed, l.next);
    } else if Succeeds(w, h, l.allowed, l.next) {
      SuccessSpends(w, h, l.allowed, l.next);
    } else {
      RefusedIsDead(w, h, l.allowed, l.next);
      StepDead(w, l, w.t.tokens[h].family);
    }
  }

  /** Once one token has been presented and processed twice, no session of its family is ever live again
      and no token of the family is ever exchanged again. */
  lemma TwoPresentationsKill(p: seq<Label>, q: seq<Label>, r: seq<Label>, first: Label, second: Label, h: Digest)
    requires first.Present? && first.digest == h && first.next !in Exec(p).issued
    requires Processed(Exec(p).t, h, first.allowed)
    requires var w := From(Step(Exec(p), first), q);
             second.Present? && second.digest == h && second.next !in w.issued && Processed(w.t, h, second.allowed)
    ensures Dead(From(Step(From(Step(Exec(p), first), q), second), r), Exec(p).t.tokens[h].family)
  {
    var w0 := Exec(p);
    RunInvariant(p);
    var family := w0.t.tokens[h].family;
    var w1 := Step(w0, first);
    StepKeeps(w0, first);
    PresentationSpendsOrKills(w0, first, h);
    var w2 := From(w1, q);
    RunKeeps(w1, q);
    var w3 := Step(w2, second);
    StepKeeps(w2, second);
    if Dead(w1, family) {
      DeadForever(w1, q, family);
      StepDead(w2, second, family);
    } else {
      SpentForever(w1, q, h);
      PresentationSpendsOrKills(w2, second, h);
      FamilyOfDigest(w0, first, q, h);
    }
    DeadForever(w3, r, family);
  }

  /** What a dead family means at the door: every refresh with one of its tokens is refused, and none of
      its sessions authenticates a request. */
  lemma DeadMeansRefused(w: World, family: Family, h: Digest, allowed: bool, next: Digest, user: UserId, sid: Sid)
    requires Inv(w) && Dead(w, family)
    requires h in w.t.tokens && w.t.tokens[h].family == family
    ensures !Succeeds(w, h, allowed, next)
    ensures sid in w.t.sessions && w.t.sessions[sid].family == family ==> !Authenticated(w.t, user, sid, w.now, false)
  {
    assert TokenOk(w.t, h);
  }

  lemma FamilyOfDigest(w: World, l: Label, q: seq<Label>, h: Digest)
    requires Inv(w) && h in w.t.tokens && h in From(Step(w, l), q).t.tokens
    ensures From(Step(w, l), q).t.tokens[h].family == w.t.tokens[h].family
  {
    StepKeeps(w, l);
    assert From(w, [l]) == Step(w, l);
    DigestKeepsFamily(w, [l] + q, h);
    FromStep(w, l, q);
  }

  lemma {:induction false} FromStep(w: World, l: Label, q: seq<Label>)
    ensures From(w, [l] + q) == From(Step(w, l), q)
  {
    if q == [] {
      assert [l] + q == [l];
      assert From(w, [l][..0]) == w;
    } else {
      FromStep(w, l, q[..|q| - 1]);
      assert ([l] + q)[..|q|] == [l] + q[..|q| - 1];
    }
  }

  lemma {:induction false} DigestKeepsFamily(w: World, q: seq<Label>, h: Digest)
    requires Inv(w) && h in w.t.tokens
    ensures h in From(w, q).issued
    ensures h in From(w, q).t.tokens ==> From(w, q).t.tokens[h].family == w.t.tokens[h].family
  {
    if q != [] {
      var init, l := q[..|q| - 1], q[|q| - 1];
      DigestKeepsFamily(w, init, h);
      RunKeeps(w, init);
      var x := From(w, init);
      if Guard(x, l) { AfterMoves(x, l); }
    }
  }

  // ---- The audit outlives every replay ---------------------------------------------------

  lemma SpentIsReuse(w: World, h: Digest, next: Digest)
    requires Inv(w) && Spent(w, h) && w.life[w.issued[h]] >= w.now - AUDIT
    requires w.issued[h] in w.t.sessions ==> IsActive(w.t, w.t.sessions[w.issued[h]].user)
    ensures Processed(w.t, h, true) && Refresh(w.t, h, true, next, w.now).0 == ReuseDetected
  {
    assert h in w.t.tokens && w.t.tokens[h].sid == w.issued[h];
  }

  /** A token is not forgotten before 30 days after the last expiry of its session, however often that was
      prolonged: until then a replay of an exchanged token is recognised as one. */
  lemma ReplayIsRecognised(p: seq<Label>, q: seq<Label>, h: Digest, first: Label, next: Digest)
    requires first.Present? && first.digest == h && Succeeds(Exec(p), h, first.allowed, first.next)
    requires var sid, w := Exec(p).t.tokens[h].sid, From(Step(Exec(p), first), q);
             sid in w.life && w.life[sid] >= w.now - AUDIT
             && (sid in w.t.sessions ==> IsActive(w.t, w.t.sessions[sid].user))
    ensures var w := From(Step(Exec(p), first), q);
            Processed(w.t, h, true) && Refresh(w.t, h, true, next, w.now).0 == ReuseDetected
  {
    var w0 := Exec(p);
    RunInvariant(p);
    SuccessSpends(w0, h, first.allowed, first.next);
    AfterMoves(w0, first);
    var w1 := Step(w0, first);
    StepKeeps(w0, first);
    SpentForever(w1, q, h);
    RunKeeps(w1, q);
    IssuedKept(w1, q, h);
    SpentIsReuse(From(w1, q), h, next);
  }

  lemma {:induction false} IssuedKept(w: World, q: seq<Label>, h: Digest)
    requires Inv(w) && h in w.issued
    ensures h in From(w, q).issued && From(w, q).issued[h] == w.issued[h]
  {
    if q != [] {
      var init, l := q[..|q| - 1], q[|q| - 1];
      IssuedKept(w, init, h);
      RunKeeps(w, init);
      var x := From(w, init);
      if Guard(x, l) { AfterMoves(x, l); }
    }
  }
}
