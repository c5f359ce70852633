/** What each use of an account answers and changes, said of the rows it meets, and that a session which is
    refreshed lives on while nothing ends it. */
module IdentityOutcomes {
  import opened Wrappers
  import opened Persistence
  import opened Ordering
  import opened Identity
  import opened Transfers
  import opened IdentityRuns
  import opened IdentityLaws
  import opened TransferOutcomes

  // ---- The rows a revocation leaves -------------------------------------------------------------

  /** The sessions named are revoked from now on, unless they were before. */
  function EndedSessions(t: Tables, ended: set<Sid>, now: Time): map<Sid, Session> {
    map s | s in t.sessions ::
      if s in ended && t.sessions[s].revokedAt == None then t.sessions[s].(revokedAt := Some(now)) else t.sessions[s]
  }

  function EndedTokens(t: Tables, ended: set<Sid>, now: Time): map<Digest, Token> {
    map h | h in t.tokens ::
      if t.tokens[h].sid in ended && t.tokens[h].revokedAt == None then t.tokens[h].(revokedAt := Some(now))
      else t.tokens[h]
  }

  function Ended(t: Tables, ended: set<Sid>, now: Time): Tables {
    t.(sessions := EndedSessions(t, ended, now), tokens := EndedTokens(t, ended, now))
  }

  function SessionsOf(t: Tables, user: UserId): set<Sid> {
    set s | s in t.sessions && t.sessions[s].user == user
  }

  function OfFamily(t: Tables, user: UserId, family: Family): set<Sid> {
    set s | s in t.sessions && t.sessions[s].user == user && t.sessions[s].family == family
  }

  lemma RevokeEnds(t: Tables, user: UserId, family: Option<Family>, sid: Option<Sid>, now: Time, ended: set<Sid>)
    requires forall s :: s in ended <==>
               && s in t.sessions && t.sessions[s].user == user
               && (family.Some? ==> t.sessions[s].family == family.value) && (sid.Some? ==> s == sid.value)
    ensures Revoke(t, user, family, sid, now) == Ended(t, ended, now)
  {
    var r, e := Revoke(t, user, family, sid, now), Ended(t, ended, now);
    assert r.sessions == e.sessions;
    assert r.tokens == e.tokens;
  }

  predicate Enabled(t: Tables, user: UserId) {
    user in t.active && t.active[user]
  }

  // ---- Each use case ----------------------------------------------------------------------------

  /** The tables with one more session, of 30 days, and its first token. */
  function Opened(t: Tables, user: UserId, f: Fresh, now: Time): Tables {
    t.(sessions := t.sessions[f.sid := Session(user, f.digest, f.family, now, now, now + 2_592_000_000, None)],
       tokens := t.tokens[f.digest := Token(f.sid, f.family, now, now + 2_592_000_000, None, None)])
  }

  lemma RegisterAnswers(t: Tables, user: UserId, f: Fresh, now: Time)
    ensures Register(t, user, f, now)
         == if user in t.active then t else Opened(t.(active := t.active[user := true]), user, f, now)
  {
  }

  /** A recovery with the right phrase ends every session of the user and opens one. */
  lemma RecoverAnswers(t: Tables, user: UserId, valid: bool, f: Fresh, now: Time)
    ensures Recover(t, user, valid, f, now)
         == if !valid || !Enabled(t, user) then (BadPhrase, t)
            else (Issued(f.sid, f.digest), Opened(Ended(t, SessionsOf(t, user), now), user, f, now))
  {
    RevokeEnds(t, user, None, None, now, SessionsOf(t, user));
  }

  /** A refresh: who is refused and why, that a used token ends its family, and that the current token of a
      live session is exchanged for one that lives, with its session, 30 days from now. */
  lemma RefreshAnswers(t: Tables, h: Digest, allowed: bool, next: Digest, now: Time)
    ensures var r := Refresh(t, h, allowed, next, now);
            if h !in t.tokens || t.tokens[h].sid !in t.sessions || !Enabled(t, t.sessions[t.tokens[h].sid].user)
            then r == (TokenInvalid, t)
            else
              var k := t.tokens[h];
              var s := t.sessions[k.sid];
              if !allowed then r == (TooManyRequests, t)
              else if k.usedAt.Some? then r == (ReuseDetected, Ended(t, OfFamily(t, s.user, k.family), now))
              else if s.revokedAt.Some? || k.revokedAt.Some? || s.expiresAt <= now || k.expiresAt <= now
              then r == (SessionRevoked, t)
              else r == (Issued(k.sid, next),
                         t.(sessions := t.sessions[k.sid := Session(s.user, next, s.family, s.createdAt, now,
                                                                    now + 2_592_000_000, None)],
                            tokens := t.tokens[h := Token(k.sid, k.family, k.issuedAt, k.expiresAt, Some(now), None)]
                                              [next := Token(k.sid, s.family, now, now + 2_592_000_000, None, None)]))
  {
    if h in t.tokens && t.tokens[h].sid in t.sessions {
      var user, family := t.sessions[t.tokens[h].sid].user, t.tokens[h].family;
      RevokeEnds(t, user, Some(family), None, now, OfFamily(t, user, family));
    }
  }

  /** A logout by a live session ends exactly that session and its tokens. */
  lemma LogoutAnswers(t: Tables, user: UserId, sid: Sid, now: Time)
    ensures Logout(t, user, sid, now)
         == if Enabled(t, user) && LiveSession(t, user, sid, now) then Ended(t, {sid}, now) else t
  {
    if LiveSession(t, user, sid, now) { RevokeEnds(t, user, None, Some(sid), now, {sid}); }
  }

  /** The live session of the user, as there is at most one. */
  ghost predicate TheLiveOne(t: Tables, user: UserId, source: Option<Sid>, now: Time) {
    match source
    case Some(s) => LiveSession(t, user, s, now) && forall x :: LiveSession(t, user, x, now) ==> x == s
    case None => forall x :: !LiveSession(t, user, x, now)
  }

  /** A bootstrap exchange ends every session of the user and opens one, and the live session it replaced, and
      none other, may upload for it: until it would have expired, and at most for 24 hours. */
  lemma ExchangeAnswers(t: Tables, user: UserId, f: Fresh, now: Time, source: Option<Sid>)
    requires TablesOk(t, now) && f.sid !in t.sessions && TheLiveOne(t, user, source, now)
    ensures var (answer, after) := Exchange(t, user, f, now);
            if !Enabled(t, user) then answer == TokenInvalid && after == t
            else
              && answer == Issued(f.sid, f.digest)
              && after == Opened(Ended(t, SessionsOf(t, user), now), user, f, now).(grants := after.grants)
              && (forall u :: u != user ==> (u in after.grants <==> u in t.grants))
              && (forall u :: u != user && u in t.grants ==> after.grants[u] == t.grants[u])
              && match source
                 case None => user !in after.grants
                 case Some(s) =>
                   && user in after.grants && after.grants[user].source == s && after.grants[user].target == f.sid
                   && var end := after.grants[user].expiresAt;
                   && end <= t.sessions[s].expiresAt && end <= now + 86_400_000
                   && (end == t.sessions[s].expiresAt || end == now + 86_400_000)
  {
    if Enabled(t, user) {
      RevokeEnds(t, user, None, None, now, SessionsOf(t, user));
      PredecessorIs(t, user, now, source);
      GrantIs(Opened(Ended(t, SessionsOf(t, user), now), user, f, now), user, source, f.sid, now);
    }
  }

  lemma PredecessorIs(t: Tables, user: UserId, now: Time, source: Option<Sid>)
    requires TheLiveOne(t, user, source, now)
    ensures Predecessor(t, user, now) == source
  {
    var keys := LiveKeys(t, user, now);
    var all := Ascending(keys);
    if source.Some? {
      var only := Key(1, t.sessions[source.value].createdAt, source.value);
      assert only in keys && only in all;
      forall k | k in keys ensures k == only { assert LiveSession(t, user, k.id, now); }
      assert all[|all| - 1] in keys;
    } else {
      forall k ensures k !in keys {
        if k in keys { assert LiveSession(t, user, k.id, now); }
      }
      assert keys == {};
    }
  }

  lemma GrantIs(t: Tables, user: UserId, source: Option<Sid>, target: Sid, now: Time)
    requires source.Some? ==> source.value in t.sessions
    ensures var after := SetGrant(t, user, source, target, now);
            && after == t.(grants := after.grants)
            && (forall u :: u != user ==> (u in after.grants <==> u in t.grants))
            && (forall u :: u != user && u in t.grants ==> after.grants[u] == t.grants[u])
            && match source
               case None => user !in after.grants
               case Some(s) =>
                 && user in after.grants && after.grants[user].source == s && after.grants[user].target == target
                 && var end := after.grants[user].expiresAt;
                 && end <= t.sessions[s].expiresAt && end <= now + 86_400_000
                 && (end == t.sessions[s].expiresAt || end == now + 86_400_000)
  {
  }

  /** The purge leaves users alone, and of grants exactly those in time whose sessions both stay; what stays is
      as it was. */
  lemma PurgeAnswers(t: Tables, now: Time, s: Sid, h: Digest, u: UserId)
    requires TablesOk(t, now)
    ensures var after := Purge(t, now);
            && after.active == t.active
            && (s in after.sessions <==> s in t.sessions && now <= t.sessions[s].expiresAt + 2_592_000_000)
            && (s in after.sessions ==> after.sessions[s] == t.sessions[s])
            && (h in after.tokens <==> h in t.tokens && t.tokens[h].sid in after.sessions)
            && (h in after.tokens ==> after.tokens[h] == t.tokens[h])
            && (u in after.grants <==> u in t.grants && now < t.grants[u].expiresAt
                                       && t.grants[u].source in after.sessions && t.grants[u].target in after.sessions)
            && (u in after.grants ==> after.grants[u] == t.grants[u])
  {
    if s in t.sessions { PurgeSession(t, now, s); }
    if h in t.tokens {
      assert TokenOk(t, h);
      PurgeToken(t, now, h);
      PurgeSession(t, now, t.tokens[h].sid);
    }
  }

  // ---- A session that is refreshed lives on -------------------------------------------------------

  /** A logout of the session, a recovery or exchange of its user, or a presentation of one of its tokens. */
  predicate Touches(w: World, l: Label, user: UserId, sid: Sid) {
    match l
    case SignOut(_, x) => x == sid
    case RecoverBy(u, _, _) => u == user
    case Bootstrap(u, _) => u == user
    case Present(h, _, _) => h in w.t.tokens && w.t.tokens[h].sid == sid
    case _ => false
  }

  ghost predicate Untouched(w: World, q: seq<Label>, user: UserId, sid: Sid) {
    forall i :: 0 <= i < |q| ==> !Touches(From(w, q[..i]), q[i], user, sid)
  }

  /** Session and token are as they were, or the purge took them after their time. */
  ghost predicate Stays(w: World, sid: Sid, s: Session, h: Digest, k: Token) {
    && sid in w.life && h in w.issued && w.issued[h] == sid
    && (sid in w.t.sessions ==> w.t.sessions[sid] == s) && (h in w.t.tokens ==> w.t.tokens[h] == k)
    && (w.now < s.expiresAt ==> sid in w.t.sessions && h in w.t.tokens)
  }

  lemma EndedOthers(t: Tables, ended: set<Sid>, now: Time, sid: Sid, h: Digest)
    requires sid !in ended && (h in t.tokens ==> t.tokens[h].sid == sid)
    ensures var e := Ended(t, ended, now);
            && (sid in e.sessions <==> sid in t.sessions) && (sid in t.sessions ==> e.sessions[sid] == t.sessions[sid])
            && (h in e.tokens <==> h in t.tokens) && (h in t.tokens ==> e.tokens[h] == t.tokens[h])
  {
  }

  /** The step leaves session and token as they are. */
  predicate SameRows(t: Tables, r: Tables, sid: Sid, h: Digest) {
    && (sid in r.sessions <==> sid in t.sessions) && (sid in t.sessions ==> r.sessions[sid] == t.sessions[sid])
    && (h in r.tokens <==> h in t.tokens) && (h in t.tokens ==> r.tokens[h] == t.tokens[h])
  }

  lemma OtherPresentation(w: World, h: Digest, allowed: bool, next: Digest, user: UserId, sid: Sid, mine: Digest)
    requires Inv(w) && next !in w.issued && !Touches(w, Present(h, allowed, next), user, sid)
    requires mine in w.issued && (mine in w.t.tokens ==> w.t.tokens[mine].sid == sid)
    ensures SameRows(w.t, Refresh(w.t, h, allowed, next, w.now).1, sid, mine)
  {
    RefreshAnswers(w.t, h, allowed, next, w.now);
    if h in w.t.tokens && w.t.tokens[h].sid in w.t.sessions {
      assert TokenOk(w.t, h);
      var ended := OfFamily(w.t, w.t.sessions[w.t.tokens[h].sid].user, w.t.tokens[h].family);
      EndedOthers(w.t, ended, w.now, sid, mine);
    }
  }

  lemma OpeningKeepsRows(w: World, t: Tables, user: UserId, f: Fresh, sid: Sid, mine: Digest)
    requires HistoryOk(w) && IsFresh(w, f) && sid in w.life && mine in w.issued && SameRows(w.t, t, sid, mine)
    ensures SameRows(w.t, Opened(t, user, f, w.now), sid, mine)
  {
  }

  lemma OthersSessions(w: World, owner: UserId, f: Fresh, u: UserId, sid: Sid, mine: Digest)
    requires Inv(w) && IsFresh(w, f) && sid in w.life && mine in w.issued && u != owner
    requires (sid in w.t.sessions ==> w.t.sessions[sid].user == owner)
    requires mine in w.t.tokens ==> w.t.tokens[mine].sid == sid
    ensures SameRows(w.t, Opened(Ended(w.t, SessionsOf(w.t, u), w.now), u, f, w.now), sid, mine)
  {
    EndedOthers(w.t, SessionsOf(w.t, u), w.now, sid, mine);
    OpeningKeepsRows(w, Ended(w.t, SessionsOf(w.t, u), w.now), u, f, sid, mine);
  }

  lemma RowsAfter(w: World, l: Label, user: UserId, sid: Sid, mine: Digest)
    requires Inv(w) && Guard(w, l) && !Touches(w, l, user, sid) && !l.Clean?
    requires sid in w.life && mine in w.issued && (mine in w.t.tokens ==> w.t.tokens[mine].sid == sid)
    requires sid in w.t.sessions ==> w.t.sessions[sid].user == user
    ensures SameRows(w.t, After(w, l), sid, mine)
  {
    match l {
      case SignUp(u, f) => RegisterRows(w, u, f, sid, mine);
      case RecoverBy(u, valid, f) => RecoverRows(w, user, u, valid, f, sid, mine);
      case Bootstrap(u, f) => ExchangeRows(w, user, u, f, sid, mine);
      case Present(h, allowed, next) => OtherPresentation(w, h, allowed, next, user, sid, mine);
      case SignOut(u, s) => LogoutRows(w, u, s, sid, mine);
      case _ =>
    }
  }

  lemma RegisterRows(w: World, u: UserId, f: Fresh, sid: Sid, mine: Digest)
    requires Inv(w) && IsFresh(w, f) && sid in w.life && mine in w.issued
    ensures SameRows(w.t, Register(w.t, u, f, w.now), sid, mine)
  {
    RegisterAnswers(w.t, u, f, w.now);
    if u !in w.t.active { OpeningKeepsRows(w, w.t.(active := w.t.active[u := true]), u, f, sid, mine); }
  }

  lemma RecoverRows(w: World, owner: UserId, u: UserId, valid: bool, f: Fresh, sid: Sid, mine: Digest)
    requires Inv(w) && IsFresh(w, f) && sid in w.life && mine in w.issued && u != owner
    requires sid in w.t.sessions ==> w.t.sessions[sid].user == owner
    requires mine in w.t.tokens ==> w.t.tokens[mine].sid == sid
    ensures SameRows(w.t, Recover(w.t, u, valid, f, w.now).1, sid, mine)
  {
    RecoverAnswers(w.t, u, valid, f, w.now);
    OthersSessions(w, owner, f, u, sid, mine);
  }

  lemma LogoutRows(w: World, u: UserId, other: Sid, sid: Sid, mine: Digest)
    requires other != sid && (mine in w.t.tokens ==> w.t.tokens[mine].sid == sid)
    ensures SameRows(w.t, Logout(w.t, u, other, w.now), sid, mine)
  {
    LogoutAnswers(w.t, u, other, w.now);
    EndedOthers(w.t, {other}, w.now, sid, mine);
  }

  lemma ExchangeRows(w: World, owner: UserId, u: UserId, f: Fresh, sid: Sid, mine: Digest)
    requires Inv(w) && IsFresh(w, f) && sid in w.life && mine in w.issued && u != owner
    requires sid in w.t.sessions ==> w.t.sessions[sid].user == owner
    requires mine in w.t.tokens ==> w.t.tokens[mine].sid == sid
    ensures SameRows(w.t, Exchange(w.t, u, f, w.now).1, sid, mine)
  {
    FreshIsNew(w, f);
    var source := LiveOne(w.t, u, w.now);
    ExchangeAnswers(w.t, u, f, w.now, source);
    OthersSessions(w, owner, f, u, sid, mine);
  }

  lemma LiveOne(t: Tables, user: UserId, now: Time) returns (source: Option<Sid>)
    requires TablesOk(t, now)
    ensures TheLiveOne(t, user, source, now)
  {
    source := None;
    if s :| LiveSession(t, user, s, now) {
      source := Some(s);
      forall x | LiveSession(t, user, x, now) ensures x == s {
        assert UnrevokedOf(t, user, x) && UnrevokedOf(t, user, s);
      }
    }
  }

  lemma StayStep(w: World, l: Label, sid: Sid, s: Session, h: Digest, k: Token)
    requires Inv(w) && Stays(w, sid, s, h, k) && k.sid == sid && !Touches(w, l, s.user, sid)
    ensures Stays(Step(w, l), sid, s, h, k)
  {
    if Guard(w, l) {
      if l.Clean? {
        PurgeAnswers(w.t, w.now, sid, h, s.user);
      } else {
        RowsAfter(w, l, s.user, sid, h);
      }
      StepIs(w, l);
      Remembered(w, l, sid, h);
    }
  }

  lemma Remembered(w: World, l: Label, sid: Sid, h: Digest)
    requires Inv(w) && Guard(w, l) && sid in w.life && h in w.issued
    ensures sid in Step(w, l).life && h in Step(w, l).issued && Step(w, l).issued[h] == w.issued[h]
  {
    AfterMoves(w, l);
  }

  lemma UntouchedBefore(w: World, q: seq<Label>, user: UserId, sid: Sid)
    requires q != [] && Untouched(w, q, user, sid)
    ensures Untouched(w, q[..|q| - 1], user, sid)
    ensures !Touches(From(w, q[..|q| - 1]), q[|q| - 1], user, sid)
  {
    var init := q[..|q| - 1];
    forall i | 0 <= i < |init| ensures !Touches(From(w, init[..i]), init[i], user, sid) {
      assert init[..i] == q[..i] && init[i] == q[i];
    }
  }

  lemma {:induction false} StayOn(w: World, q: seq<Label>, sid: Sid, s: Session, h: Digest, k: Token)
    requires Inv(w) && Stays(w, sid, s, h, k) && k.sid == sid && Untouched(w, q, s.user, sid)
    ensures Stays(From(w, q), sid, s, h, k)
  {
    if q != [] {
      var init, l := q[..|q| - 1], q[|q| - 1];
      UntouchedBefore(w, q, s.user, sid);
      StayOn(w, init, sid, s, h, k);
      RunKeeps(w, init);
      StayStep(From(w, init), l, sid, s, h, k);
    }
  }

  /** After a refresh, whatever else happens, as long as nobody logs the session out, recovers or replaces it or
      presents one of its tokens, it authenticates its active user exactly until 30 days after the refresh, and
      the new token is exchanged exactly until then. */
  lemma RefreshedLivesOn(p: seq<Label>, first: Label, q: seq<Label>, user: UserId, more: Digest)
    requires first.Present? && Succeeds(Exec(p), first.digest, first.allowed, first.next)
    requires user == Exec(p).t.sessions[Exec(p).t.tokens[first.digest].sid].user
    requires Untouched(Step(Exec(p), first), q, user, Exec(p).t.tokens[first.digest].sid)
    requires Enabled(From(Step(Exec(p), first), q).t, user)
    ensures var sid, w := Exec(p).t.tokens[first.digest].sid, From(Step(Exec(p), first), q);
            var lives := w.now < Exec(p).now + 2_592_000_000;
            && (LiveSession(w.t, user, sid, w.now) <==> lives)
            && (Refresh(w.t, first.next, true, more, w.now).0 == Issued(sid, more) <==> lives)
  {
    var w0, w1 := Exec(p), Step(Exec(p), first);
    RunInvariant(p);
    var h, next := first.digest, first.next;
    var sid := w0.t.tokens[h].sid;
    RefreshAnswers(w0.t, h, first.allowed, next, w0.now);
    StepIs(w0, first);
    StepKeeps(w0, first);
    var s, k := w1.t.sessions[sid], w1.t.tokens[next];
    assert Stays(w1, sid, s, next, k);
    StayOn(w1, q, sid, s, next, k);
    var w := From(w1, q);
    RefreshAnswers(w.t, next, true, more, w.now);
  }

  /** A logout by a live session is for good: it never authenticates again, and none of its tokens is ever
      exchanged again. */
  lemma LogoutIsFinal(p: seq<Label>, user: UserId, sid: Sid, q: seq<Label>, h: Digest, allowed: bool, next: Digest)
    requires Enabled(Exec(p).t, user) && LiveSession(Exec(p).t, user, sid, Exec(p).now)
    ensures var w := From(Step(Exec(p), SignOut(user, sid)), q);
            && !LiveSession(w.t, user, sid, w.now)
            && (h in w.t.tokens && w.t.tokens[h].sid == sid ==> !Succeeds(w, h, allowed, next))
  {
    var w0, w1 := Exec(p), Step(Exec(p), SignOut(user, sid));
    RunInvariant(p);
    StepKeeps(w0, SignOut(user, sid));
    var family := w0.t.sessions[sid].family;
    LogoutKills(w0, user, sid);
    DeadForever(w1, q, family);
    RunKeeps(w1, q);
    LogoutFamily(w1, q, sid, family);
    var w := From(w1, q);
    if h in w.t.tokens && w.t.tokens[h].sid == sid {
      assert TokenOk(w.t, h);
      DeadMeansRefused(w, family, h, allowed, next, user, sid);
    }
  }

  lemma EndedFamily(t: Tables, sid: Sid, now: Time)
    requires UniqueFamilies(t) && sid in t.sessions
    ensures var e, family := Ended(t, {sid}, now), t.sessions[sid].family;
            && sid in e.sessions && e.sessions[sid].family == family
            && forall s :: s in e.sessions && e.sessions[s].family == family ==> e.sessions[s].revokedAt.Some?
  {
  }

  lemma RecordGrows(w: World, l: Label)
    requires Guard(w, l)
    ensures w.families <= Step(w, l).families && w.life.Keys <= Step(w, l).life.Keys
  {
  }

  lemma LogoutIs(w: World, user: UserId, sid: Sid)
    requires Enabled(w.t, user) && LiveSession(w.t, user, sid, w.now)
    ensures Step(w, SignOut(user, sid)).t == Ended(w.t, {sid}, w.now)
  {
    LogoutAnswers(w.t, user, sid, w.now);
    StepIs(w, SignOut(user, sid));
  }

  lemma LogoutKills(w: World, user: UserId, sid: Sid)
    requires UniqueFamilies(w.t) && Enabled(w.t, user) && LiveSession(w.t, user, sid, w.now)
    requires w.t.sessions[sid].family in w.families && sid in w.life
    ensures var x := Step(w, SignOut(user, sid));
            sid in x.life && Dead(x, w.t.sessions[sid].family) && sid in x.t.sessions
            && x.t.sessions[sid].family == w.t.sessions[sid].family
  {
    LogoutIs(w, user, sid);
    EndedFamily(w.t, sid, w.now);
    RecordGrows(w, SignOut(user, sid));
  }

  lemma {:induction false} LogoutFamily(w: World, q: seq<Label>, sid: Sid, family: Family)
    requires Inv(w) && sid in w.life && (sid in w.t.sessions ==> w.t.sessions[sid].family == family)
    ensures var x := From(w, q); sid in x.life && (sid in x.t.sessions ==> x.t.sessions[sid].family == family)
  {
    if q != [] {
      var init, l := q[..|q| - 1], q[|q| - 1];
      LogoutFamily(w, init, sid, family);
      RunKeeps(w, init);
      if Guard(From(w, init), l) { FamilyAfter(From(w, init), l, sid, family); }
    }
  }

  lemma FamilyAfter(w: World, l: Label, sid: Sid, family: Family)
    requires Inv(w) && Guard(w, l) && sid in w.life && (sid in w.t.sessions ==> w.t.sessions[sid].family == family)
    ensures var x := Step(w, l); sid in x.life && (sid in x.t.sessions ==> x.t.sessions[sid].family == family)
  {
    AfterMoves(w, l);
    StepIs(w, l);
    if l.Clean? { PurgeShrinks(w); } else { AfterKeeps(w, l); }
  }
}
