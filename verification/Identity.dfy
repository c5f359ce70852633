/** Sessions, refresh-token families and upload grants (python/chat/identity.py, identity_store.py
    and the purge in worker.py). A token is named by its SHA-256 digest, taken as injective; fresh
    identifiers and digests are parameters, and each transaction reads one clock value. */
module Identity {
  import opened Wrappers
  import opened Persistence
  import opened Ordering

  type Sid = nat
  type Family = nat
  type Digest = nat

  const SESSION_LIFE: Time := 30 * DAY
  const AUDIT: Time := 30 * DAY
  const GRANT_LIFE: Time := DAY

  datatype Session = Session(
    user: UserId, current: Digest, family: Family, createdAt: Time, rotatedAt: Time,
    expiresAt: Time, revokedAt: Option<Time>)

  datatype Token = Token(
    sid: Sid, family: Family, issuedAt: Time, expiresAt: Time, usedAt: Option<Time>, revokedAt: Option<Time>)

  /** The replaced session `source` may upload, and only for its successor `target`. */
  datatype Grant = Grant(source: Sid, target: Sid, expiresAt: Time)

  datatype Tables = Tables(
    active: map<UserId, bool>, sessions: map<Sid, Session>, tokens: map<Digest, Token>, grants: map<UserId, Grant>)

  datatype Fresh = Fresh(sid: Sid, family: Family, digest: Digest)

  datatype Answer =
    | TokenInvalid | BadPhrase | SessionRevoked | TooManyRequests | ReuseDetected
    | Issued(sid: Sid, digest: Digest)

  predicate IsActive(t: Tables, user: UserId) {
    user in t.active && t.active[user]
  }

  predicate Live(s: Session, now: Time) {
    s.revokedAt == None && s.expiresAt > now
  }

  predicate LiveFor(t: Tables, user: UserId, sid: Sid, now: Time) {
    sid in t.sessions && t.sessions[sid].user == user && Live(t.sessions[sid], now)
  }

  predicate GrantFor(t: Tables, user: UserId, source: Sid, now: Time) {
    user in t.grants && t.grants[user].source == source && t.grants[user].expiresAt > now
  }

  /** The guard of every authenticated request; only an upload may lean on a grant. */
  predicate Authenticated(t: Tables, user: UserId, sid: Sid, now: Time, upload: bool) {
    && IsActive(t, user)
    && (LiveFor(t, user, sid, now)
        || (upload && GrantFor(t, user, sid, now)
            && t.grants[user].target in t.sessions && Live(t.sessions[t.grants[user].target], now)))
  }

  // ---- The statements of the store --------------------------------------------------

  predicate Hit(s: Session, id: Sid, user: UserId, family: Option<Family>, sid: Option<Sid>) {
    s.user == user && (family == None || family == Some(s.family)) && (sid == None || sid == Some(id))
  }

  function Mark(at: Option<Time>, now: Time): Option<Time> {
    if at.Some? then at else Some(now)
  }

  predicate TokenHit(t: Tables, h: Digest, user: UserId, family: Option<Family>, sid: Option<Sid>)
    requires h in t.tokens
  {
    t.tokens[h].sid in t.sessions && Hit(t.sessions[t.tokens[h].sid], t.tokens[h].sid, user, family, sid)
  }

  function Revoke(t: Tables, user: UserId, family: Option<Family>, sid: Option<Sid>, now: Time): Tables {
    t.(sessions := map s | s in t.sessions ::
           if Hit(t.sessions[s], s, user, family, sid)
           then t.sessions[s].(revokedAt := Mark(t.sessions[s].revokedAt, now)) else t.sessions[s],
       tokens := map h | h in t.tokens ::
           if TokenHit(t, h, user, family, sid)
           then t.tokens[h].(revokedAt := Mark(t.tokens[h].revokedAt, now)) else t.tokens[h])
  }

  function CreateSession(t: Tables, user: UserId, f: Fresh, now: Time): Tables {
    t.(sessions := t.sessions[f.sid := Session(user, f.digest, f.family, now, now, now + SESSION_LIFE, None)],
       tokens := t.tokens[f.digest := Token(f.sid, f.family, now, now + SESSION_LIFE, None, None)])
  }

  function Rotate(t: Tables, spent: Digest, next: Digest, now: Time): Tables
    requires spent in t.tokens && t.tokens[spent].sid in t.sessions
  {
    var sid := t.tokens[spent].sid;
    var s := t.sessions[sid];
    t.(sessions := t.sessions[sid := s.(current := next, rotatedAt := now, expiresAt := now + SESSION_LIFE)],
       tokens := t.tokens[spent := t.tokens[spent].(usedAt := Some(now))]
                         [next := Token(sid, s.family, now, now + SESSION_LIFE, None, None)])
  }

  function LiveKeys(t: Tables, user: UserId, now: Time): set<Key> {
    set s | s in t.sessions && LiveFor(t, user, s, now) :: Key(1, t.sessions[s].createdAt, s)
  }

  /** ORDER BY created_at DESC, id DESC LIMIT 1 over the live sessions. */
  ghost function Predecessor(t: Tables, user: UserId, now: Time): Option<Sid> {
    var keys := Ascending(LiveKeys(t, user, now));
    if keys == [] then None else Some(keys[|keys| - 1].id)
  }

  function Lesser(a: Time, b: Time): Time { if a <= b then a else b }

  function SetGrant(t: Tables, user: UserId, source: Option<Sid>, target: Sid, now: Time): Tables {
    var without := t.grants - {user};
    if source.Some? && source.value in t.sessions
    then t.(grants := without[user := Grant(source.value, target,
                                            Lesser(t.sessions[source.value].expiresAt, now + GRANT_LIFE))])
    else t.(grants := without)
  }

  // ---- The use cases ----------------------------------------------------------------

  function Register(t: Tables, user: UserId, f: Fresh, now: Time): Tables {
    if user in t.active then t else CreateSession(t.(active := t.active[user := true]), user, f, now)
  }

  function Recover(t: Tables, user: UserId, valid: bool, f: Fresh, now: Time): (Answer, Tables) {
    if !valid || !IsActive(t, user) then (BadPhrase, t)
    else (Issued(f.sid, f.digest), CreateSession(Revoke(t, user, None, None, now), user, f, now))
  }

  ghost function Exchange(t: Tables, user: UserId, f: Fresh, now: Time): (Answer, Tables) {
    if !IsActive(t, user) then (TokenInvalid, t)
    else
      var source := Predecessor(t, user, now);
      var created := CreateSession(Revoke(t, user, None, None, now), user, f, now);
      (Issued(f.sid, f.digest), SetGrant(created, user, source, f.sid, now))
  }

  /** The presentation gets past the lookups and the rate limiter. */
  predicate Processed(t: Tables, h: Digest, allowed: bool) {
    && h in t.tokens && t.tokens[h].sid in t.sessions && allowed
    && IsActive(t, t.sessions[t.tokens[h].sid].user)
  }

  function Refresh(t: Tables, h: Digest, allowed: bool, next: Digest, now: Time): (Answer, Tables) {
    if h !in t.tokens || t.tokens[h].sid !in t.sessions then (TokenInvalid, t)
    else
      var record := t.tokens[h];
      var s := t.sessions[record.sid];
      if !IsActive(t, s.user) then (TokenInvalid, t)
      else if !allowed then (TooManyRequests, t)
      else if record.usedAt.Some? then (ReuseDetected, Revoke(t, s.user, Some(record.family), None, now))
      else if s.revokedAt.Some? || record.revokedAt.Some? || s.expiresAt <= now || record.expiresAt <= now
      then (SessionRevoked, t)
      else (Issued(record.sid, next), Rotate(t, h, next, now))
  }

  function Logout(t: Tables, user: UserId, sid: Sid, now: Time): Tables {
    if !Authenticated(t, user, sid, now, false) then t else Revoke(t, user, None, Some(sid), now)
  }

  // ---- The purge --------------------------------------------------------------------

  predicate FamilyPast(sessions: map<Sid, Session>, tokens: map<Digest, Token>, family: Family, now: Time) {
    && (forall h :: h in tokens && tokens[h].family == family ==> tokens[h].expiresAt < now - AUDIT)
    && (forall s :: s in sessions && sessions[s].family == family ==> sessions[s].expiresAt < now - AUDIT)
  }

  predicate HasTokens(tokens: map<Digest, Token>, s: Sid) {
    exists h :: h in tokens && tokens[h].sid == s
  }

  function KeptTokens(sessions: map<Sid, Session>, tokens: map<Digest, Token>, now: Time): map<Digest, Token> {
    map h | h in tokens && !FamilyPast(sessions, tokens, tokens[h].family, now) :: tokens[h]
  }

  function KeptSessions(sessions: map<Sid, Session>, tokens: map<Digest, Token>, now: Time): map<Sid, Session> {
    map s | s in sessions && !(sessions[s].expiresAt < now - AUDIT && !HasTokens(tokens, s)) :: sessions[s]
  }

  function KeptGrants(grants: map<UserId, Grant>, sessions: map<Sid, Session>, now: Time): map<UserId, Grant> {
    map u | u in grants && grants[u].expiresAt > now
            && grants[u].source in sessions && grants[u].target in sessions :: grants[u]
  }

  /** Three deletes: expired grants, tokens of past families, past sessions without tokens; deleting a
      session takes the grants that name it along. */
  function Purge(t: Tables, now: Time): Tables {
    var tokens := KeptTokens(t.sessions, t.tokens, now);
    var sessions := KeptSessions(t.sessions, tokens, now);
    t.(tokens := tokens, sessions := sessions, grants := KeptGrants(t.grants, sessions, now))
  }

  /** The tables, changed statement by statement under the lock of one user. */
  class IdentityStore {
    var active: map<UserId, bool>
    var sessions: map<Sid, Session>
    var tokens: map<Digest, Token>
    var grants: map<UserId, Grant>

    constructor ()
      ensures View() == Tables(map[], map[], map[], map[])
    {
      active, sessions, tokens, grants := map[], map[], map[], map[];
    }

    ghost function View(): Tables
      reads this
    {
      Tables(active, sessions, tokens, grants)
    }

    method RevokeSessions(user: UserId, family: Option<Family>, sid: Option<Sid>, now: Time)
      modifies this`sessions, this`tokens
      ensures View() == Revoke(old(View()), user, family, sid, now)
    {
      sessions := map s | s in sessions ::
        if Hit(sessions[s], s, user, family, sid)
        then sessions[s].(revokedAt := Mark(sessions[s].revokedAt, now)) else sessions[s];
      tokens := map h | h in tokens ::
        if tokens[h].sid in sessions && Hit(sessions[tokens[h].sid], tokens[h].sid, user, family, sid)
        then tokens[h].(revokedAt := Mark(tokens[h].revokedAt, now)) else tokens[h];
    }

    method InsertRefresh(sid: Sid, digest: Digest)
      requires sid in sessions
      modifies this`tokens
      ensures tokens == old(tokens)[digest := Token(sid, sessions[sid].family, sessions[sid].rotatedAt,
                                                    sessions[sid].expiresAt, None, None)]
    {
      var s := sessions[sid];
      tokens := tokens[digest := Token(sid, s.family, s.rotatedAt, s.expiresAt, None, None)];
    }

    method InsertSession(user: UserId, f: Fresh, now: Time)
      modifies this`sessions, this`tokens
      ensures View() == CreateSession(old(View()), user, f, now)
    {
      sessions := sessions[f.sid := Session(user, f.digest, f.family, now, now, now + SESSION_LIFE, None)];
      InsertRefresh(f.sid, f.digest);
    }

    method RotateToken(digest: Digest, next: Digest, now: Time)
      requires digest in tokens && tokens[digest].sid in sessions
      modifies this`sessions, this`tokens
      ensures View() == Rotate(old(View()), digest, next, now)
    {
      var record := tokens[digest];
      tokens := tokens[digest := record.(usedAt := Some(now))];
      var s := sessions[record.sid];
      sessions := sessions[record.sid := s.(current := next, rotatedAt := now, expiresAt := now + SESSION_LIFE)];
      InsertRefresh(record.sid, next);
    }

    method TransferPredecessor(user: UserId, now: Time) returns (source: Option<Sid>)
      ensures source == Predecessor(View(), user, now)
    {
      var rows := set s | s in sessions && sessions[s].user == user && sessions[s].revokedAt == None
        && sessions[s].expiresAt > now
                          :: Key(1, sessions[s].createdAt, s);
      assert rows == LiveKeys(View(), user, now);
      var sorted := Sort(rows);
      source := if sorted == [] then None else Some(sorted[|sorted| - 1].id);
    }

    method TransferGrant(user: UserId, source: Option<Sid>, target: Sid, now: Time)
      modifies this`grants
      ensures View() == SetGrant(old(View()), user, source, target, now)
    {
      grants := grants - {user};
      if source.Some? {
        if source.value in sessions {
          grants := grants[user := Grant(source.value, target,
                                         Lesser(sessions[source.value].expiresAt, now + GRANT_LIFE))];
        }
      }
    }

    method RegisterUser(user: UserId, f: Fresh, now: Time) returns (ok: bool)
      modifies this
      ensures ok <==> user !in old(active)
      ensures View() == Register(old(View()), user, f, now)
    {
      if user in active {
        return false;
      }
      active := active[user := true];
      InsertSession(user, f, now);
      return true;
    }

    method RecoverAccount(user: UserId, valid: bool, f: Fresh, now: Time) returns (answer: Answer)
      modifies this
      ensures (answer, View()) == Recover(old(View()), user, valid, f, now)
    {
      if !valid || user !in active || !active[user] {
        return BadPhrase;
      }
      RevokeSessions(user, None, None, now);
      InsertSession(user, f, now);
      return Issued(f.sid, f.digest);
    }

    method ExchangeBootstrap(user: UserId, f: Fresh, now: Time) returns (answer: Answer)
      modifies this
      ensures (answer, View()) == Exchange(old(View()), user, f, now)
    {
      if user !in active || !active[user] {
        return TokenInvalid;
      }
      var source := TransferPredecessor(user, now);
      RevokeSessions(user, None, None, now);
      InsertSession(user, f, now);
      TransferGrant(user, source, f.sid, now);
      return Issued(f.sid, f.digest);
    }

    method RefreshToken(digest: Digest, allowed: bool, next: Digest, now: Time) returns (answer: Answer)
      modifies this
      ensures (answer, View()) == Refresh(old(View()), digest, allowed, next, now)
    {
      if digest !in tokens || tokens[digest].sid !in sessions {
        return TokenInvalid;
      }
      var record := tokens[digest];
      var session := sessions[record.sid];
      if session.user !in active || !active[session.user] {
        return TokenInvalid;
      }
      if !allowed {
        return TooManyRequests;
      }
      var reused := false;
      if record.usedAt.Some? {
        RevokeSessions(session.user, Some(record.family), None, now);
        reused := true;
      } else if session.revokedAt.Some? || record.revokedAt.Some? || session.expiresAt <= now
        || record.expiresAt <= now {
        return SessionRevoked;
      } else {
        RotateToken(digest, next, now);
      }
      return if reused then ReuseDetected else Issued(record.sid, next);
    }

    method LogoutSession(user: UserId, sid: Sid, now: Time) returns (ok: bool)
      modifies this
      ensures ok <==> Authenticated(old(View()), user, sid, now, false)
      ensures View() == Logout(old(View()), user, sid, now)
    {
      if user !in active || !active[user] || sid !in sessions
         || sessions[sid].user != user || sessions[sid].revokedAt.Some? || sessions[sid].expiresAt <= now {
        return false;
      }
      RevokeSessions(user, None, Some(sid), now);
      return true;
    }

    method PurgeTokens(now: Time)
      modifies this`tokens
      ensures tokens == KeptTokens(sessions, old(tokens), now)
    {
      tokens := map h | h in tokens
                        && (tokens[h].expiresAt >= now - AUDIT
                            || (exists o :: o in tokens && tokens[o].family == tokens[h].family
                                  && tokens[o].expiresAt >= now - AUDIT)
                            || (exists s :: s in sessions && sessions[s].family == tokens[h].family
                                  && sessions[s].expiresAt >= now - AUDIT))
                  :: tokens[h];
    }

    method PurgeSessions(now: Time)
      modifies this`sessions, this`grants
      ensures sessions == KeptSessions(old(sessions), tokens, now)
      ensures grants == map u | u in old(grants) && old(grants)[u].source in sessions
              && old(grants)[u].target in sessions :: old(grants)[u]
    {
      var past := set s | s in sessions && sessions[s].expiresAt < now - AUDIT
                          && (forall h :: h in tokens ==> tokens[h].sid != s);
      sessions := sessions - past;
      grants := map u | u in grants && grants[u].source in sessions && grants[u].target in sessions :: grants[u];
    }

    /** The DELETE statements of CLEANUP_SQL on these tables, in order. */
    method PurgeOnce(now: Time)
      modifies this
      ensures View() == Purge(old(View()), now)
    {
      grants := map u | u in grants && grants[u].expiresAt > now :: grants[u];
      PurgeTokens(now);
      PurgeSessions(now);
    }
  }
}
