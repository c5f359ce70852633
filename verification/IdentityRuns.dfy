/** Sessions, token families and transfers as one step system, and what holds in every run: one live
    session per user, one usable token per session, reuse detected for as long as the audit lasts,
    and uploads only from a transfer's own session or the one it replaced. */
module IdentityRuns {
  import opened Wrappers
  import opened Persistence
  import opened Ordering
  import opened Identity
  import opened Transfers

  datatype Label =
    | Tick(to: Time)
    | SignUp(user: UserId, ids: Fresh)
    | RecoverBy(user: UserId, valid: bool, ids: Fresh)
    | Bootstrap(user: UserId, ids: Fresh)
    | Present(digest: Digest, allowed: bool, next: Digest)
    | SignOut(user: UserId, sid: Sid)
    | SetActive(user: UserId, on: bool)
    | Clean
    | OpenTransfer(user: UserId, sid: Sid, id: TransferId)
    | UseTransfer(user: UserId, sid: Sid, id: TransferId, action: Action, data: Bytes)
    | LoseRedis

  /** Besides tables, vault and clock, a record of the past that no step reads except to keep identifiers
      fresh: the session of every digest ever stored, the last expiry and the family of every session
      ever stored, and when each transfer was created. */
  datatype World = World(
    t: Tables, v: Vault, now: Time, issued: map<Digest, Sid>, life: map<Sid, Time>, families: set<Family>,
    created: map<TransferId, Time>)

  const START := World(Tables(map[], map[], map[], map[]), EMPTY_VAULT, 0, map[], map[], {}, map[])

  predicate IsFresh(w: World, f: Fresh) {
    f.sid !in w.life && f.family !in w.families && f.digest !in w.issued
  }

  predicate Guard(w: World, l: Label) {
    match l
    case Tick(to) => to >= w.now
    case SignUp(_, f) => IsFresh(w, f)
    case RecoverBy(_, _, f) => IsFresh(w, f)
    case Bootstrap(_, f) => IsFresh(w, f)
    case Present(_, _, next) => next !in w.issued
    case OpenTransfer(_, _, id) => id !in w.created
    case _ => true
  }

  function Observe(w: World, t: Tables): World {
    w.(t := t,
       issued := w.issued + map h | h in t.tokens :: t.tokens[h].sid,
       life := w.life + map s | s in t.sessions :: t.sessions[s].expiresAt,
       families := w.families + set s | s in t.sessions :: t.sessions[s].family)
  }

  /** The tables after one step. */
  ghost function After(w: World, l: Label): Tables {
    match l
    case SignUp(u, f) => Register(w.t, u, f, w.now)
    case RecoverBy(u, valid, f) => Recover(w.t, u, valid, f, w.now).1
    case Bootstrap(u, f) => Exchange(w.t, u, f, w.now).1
    case Present(h, allowed, next) => Refresh(w.t, h, allowed, next, w.now).1
    case SignOut(u, s) => Logout(w.t, u, s, w.now)
    case SetActive(u, on) => if u in w.t.active then w.t.(active := w.t.active[u := on]) else w.t
    case Clean => Purge(w.t, w.now)
    case UseTransfer(u, s, id, a, data) => Access(w.t, w.v, u, s, id, a, data, w.now).1
    case _ => w.t
  }

  function VaultAfter(w: World, l: Label): Vault {
    match l
    case OpenTransfer(u, s, id) => Create(w.t, w.v, u, s, id, w.now).1
    case UseTransfer(u, s, id, a, data) => Access(w.t, w.v, u, s, id, a, data, w.now).2
    case LoseRedis => EMPTY_VAULT
    case _ => w.v
  }

  ghost function Step(w: World, l: Label): World {
    if !Guard(w, l) then w
    else Observe(w.(now := if l.Tick? then l.to else w.now, v := VaultAfter(w, l),
                    created := if l.OpenTransfer? then w.created[l.id := w.now] else w.created), After(w, l))
  }

  ghost function From(w: World, ls: seq<Label>): World {
    if ls == [] then w else Step(From(w, ls[..|ls| - 1]), ls[|ls| - 1])
  }

  ghost function Exec(ls: seq<Label>): World {
    From(START, ls)
  }

  // ---- The invariant of the tables ----------------------------------------------------

  predicate Usable(k: Token) {
    k.usedAt == None && k.revokedAt == None
  }

  /** An unrevoked session has one usable token, its current one, with its own expiry; a revoked one none. */
  ghost predicate SessionOk(t: Tables, s: Sid, now: Time)
    requires s in t.sessions
  {
    var x := t.sessions[s];
    && x.user in t.active && x.expiresAt <= now + SESSION_LIFE
    && (x.revokedAt == None ==>
          && x.current in t.tokens && t.tokens[x.current].sid == s && Usable(t.tokens[x.current])
          && t.tokens[x.current].expiresAt == x.expiresAt
          && (forall h :: h in t.tokens && t.tokens[h].sid == s && h != x.current ==> t.tokens[h].usedAt.Some?))
    && (x.revokedAt.Some? ==> forall h :: h in t.tokens && t.tokens[h].sid == s ==> t.tokens[h].revokedAt.Some?)
  }

  ghost predicate TokenOk(t: Tables, h: Digest)
    requires h in t.tokens
  {
    var k := t.tokens[h];
    k.sid in t.sessions && k.family == t.sessions[k.sid].family && k.expiresAt <= t.sessions[k.sid].expiresAt
  }

  ghost predicate UniqueFamilies(t: Tables) {
    forall a, b :: a in t.sessions && b in t.sessions && t.sessions[a].family == t.sessions[b].family ==> a == b
  }

  predicate UnrevokedOf(t: Tables, user: UserId, s: Sid) {
    s in t.sessions && t.sessions[s].user == user && t.sessions[s].revokedAt == None
  }

  ghost predicate OneEach(t: Tables) {
    forall u, a, b :: UnrevokedOf(t, u, a) && UnrevokedOf(t, u, b) ==> a == b
  }

  ghost predicate TablesOk(t: Tables, now: Time) {
    && (forall s :: s in t.sessions ==> SessionOk(t, s, now))
    && (forall h :: h in t.tokens ==> TokenOk(t, h))
    && UniqueFamilies(t) && OneEach(t)
  }

  // ---- Revoking -----------------------------------------------------------------------

  /** `r` is `t` with the chosen sessions, and exactly their tokens, revoked. */
  ghost predicate Revoked(t: Tables, r: Tables, chosen: set<Sid>) {
    && r.active == t.active && r.sessions.Keys == t.sessions.Keys && r.tokens.Keys == t.tokens.Keys
    && (forall s :: s in t.sessions ==> RevokedSession(t.sessions[s], r.sessions[s], s in chosen))
    && (forall h :: h in t.tokens ==> RevokedToken(t.tokens[h], r.tokens[h], t.tokens[h].sid in chosen))
  }

  predicate RevokedSession(a: Session, b: Session, hit: bool) {
    b == a.(revokedAt := b.revokedAt) && (if hit then b.revokedAt.Some? else b == a)
  }

  predicate RevokedToken(a: Token, b: Token, hit: bool) {
    b == a.(revokedAt := b.revokedAt) && (if hit then b.revokedAt.Some? else b == a)
  }

  function Chosen(t: Tables, user: UserId, family: Option<Family>, sid: Option<Sid>): set<Sid> {
    set s | s in t.sessions && Hit(t.sessions[s], s, user, family, sid)
  }

  lemma RevokeIs(t: Tables, user: UserId, family: Option<Family>, sid: Option<Sid>, now: Time)
    ensures Revoked(t, Revoke(t, user, family, sid, now), Chosen(t, user, family, sid))
  {
  }

  lemma RevokedSessionOk(t: Tables, r: Tables, chosen: set<Sid>, s: Sid, now: Time)
    requires Revoked(t, r, chosen) && s in t.sessions && SessionOk(t, s, now)
    ensures SessionOk(r, s, now)
  {
    assert RevokedSession(t.sessions[s], r.sessions[s], s in chosen);
    forall h | h in r.tokens && r.tokens[h].sid == s
      ensures r.tokens[h].usedAt == t.tokens[h].usedAt && r.tokens[h].expiresAt == t.tokens[h].expiresAt
      ensures s in chosen || r.sessions[s].revokedAt.Some? ==> r.tokens[h].revokedAt.Some?
      ensures s !in chosen ==> r.tokens[h] == t.tokens[h]
    {
      assert RevokedToken(t.tokens[h], r.tokens[h], t.tokens[h].sid in chosen);
    }
  }

  lemma RevokedOk(t: Tables, r: Tables, chosen: set<Sid>, now: Time)
    requires TablesOk(t, now) && Revoked(t, r, chosen)
    ensures TablesOk(r, now)
  {
    forall h | h in r.tokens ensures TokenOk(r, h) {
      assert TokenOk(t, h) && RevokedToken(t.tokens[h], r.tokens[h], t.tokens[h].sid in chosen);
      assert RevokedSession(t.sessions[t.tokens[h].sid], r.sessions[t.tokens[h].sid], t.tokens[h].sid in chosen);
    }
    forall s | s in r.sessions ensures SessionOk(r, s, now) { RevokedSessionOk(t, r, chosen, s, now); }
    forall a, b | a in r.sessions && b in r.sessions && r.sessions[a].family == r.sessions[b].family ensures a == b {
      assert RevokedSession(t.sessions[a], r.sessions[a], a in chosen)
        && RevokedSession(t.sessions[b], r.sessions[b], b in chosen);
    }
    forall u, a, b | UnrevokedOf(r, u, a) && UnrevokedOf(r, u, b) ensures a == b {
      assert RevokedSession(t.sessions[a], r.sessions[a], a in chosen)
        && RevokedSession(t.sessions[b], r.sessions[b], b in chosen);
      assert UnrevokedOf(t, u, a) && UnrevokedOf(t, u, b);
    }
  }

  lemma RevokeOk(t: Tables, user: UserId, family: Option<Family>, sid: Option<Sid>, now: Time)
    requires TablesOk(t, now)
    ensures TablesOk(Revoke(t, user, family, sid, now), now)
  {
    RevokeIs(t, user, family, sid, now);
    RevokedOk(t, Revoke(t, user, family, sid, now), Chosen(t, user, family, sid), now);
  }

  // ---- Creating, rotating, purging ----------------------------------------------------

  ghost predicate AllRevoked(t: Tables, user: UserId) {
    forall s :: !UnrevokedOf(t, user, s)
  }

  ghost predicate NewTo(t: Tables, f: Fresh) {
    && f.sid !in t.sessions && f.digest !in t.tokens
    && (forall s :: s in t.sessions ==> t.sessions[s].family != f.family)
  }

  lemma CreateOk(t: Tables, user: UserId, f: Fresh, now: Time)
    requires TablesOk(t, now) && AllRevoked(t, user) && NewTo(t, f) && user in t.active
    ensures TablesOk(CreateSession(t, user, f, now), now)
  {
    var r := CreateSession(t, user, f, now);
    forall h | h in t.tokens ensures t.tokens[h].sid != f.sid && TokenOk(r, h) { assert TokenOk(t, h); }
    assert TokenOk(r, f.digest);
    forall s | s in r.sessions ensures SessionOk(r, s, now) {
      if s != f.sid { assert SessionOk(t, s, now); }
    }
    forall u, a, b | UnrevokedOf(r, u, a) && UnrevokedOf(r, u, b) ensures a == b {
      if a != f.sid { assert UnrevokedOf(t, u, a); }
      if b != f.sid { assert UnrevokedOf(t, u, b); }
    }
  }

  lemma ReplaceOk(t: Tables, user: UserId, f: Fresh, now: Time)
    requires TablesOk(t, now) && NewTo(t, f) && user in t.active
    ensures TablesOk(CreateSession(Revoke(t, user, None, None, now), user, f, now), now)
  {
    var r := Revoke(t, user, None, None, now);
    RevokeOk(t, user, None, None, now);
    RevokeIs(t, user, None, None, now);
    forall s | s in r.sessions ensures r.sessions[s].family == t.sessions[s].family && !UnrevokedOf(r, user, s) {
      assert RevokedSession(t.sessions[s], r.sessions[s], s in Chosen(t, user, None, None));
    }
    CreateOk(r, user, f, now);
  }

  /** A token that passes every check of a refresh is the current one of its live session. */
  lemma AcceptedIsCurrent(t: Tables, h: Digest, allowed: bool, next: Digest, now: Time)
    requires TablesOk(t, now) && Refresh(t, h, allowed, next, now).0.Issued?
    ensures Processed(t, h, allowed) && t.sessions[t.tokens[h].sid].current == h
    ensures Live(t.sessions[t.tokens[h].sid], now)
    ensures Refresh(t, h, allowed, next, now) == (Issued(t.tokens[h].sid, next), Rotate(t, h, next, now))
  {
    assert SessionOk(t, t.tokens[h].sid, now);
  }

  ghost predicate Rotatable(t: Tables, h: Digest, next: Digest, now: Time) {
    && TablesOk(t, now) && h in t.tokens && next !in t.tokens && t.tokens[h].sid in t.sessions
    && t.sessions[t.tokens[h].sid].current == h && Live(t.sessions[t.tokens[h].sid], now)
  }

  lemma RotateTokenOk(t: Tables, h: Digest, next: Digest, now: Time, x: Digest)
    requires Rotatable(t, h, next, now) && (x in t.tokens || x == next)
    ensures TokenOk(Rotate(t, h, next, now), x)
  {
    assert SessionOk(t, t.tokens[h].sid, now);
    if x != next { assert TokenOk(t, x); }
  }

  lemma RotateSessionOk(t: Tables, h: Digest, next: Digest, now: Time, s: Sid)
    requires Rotatable(t, h, next, now) && s in t.sessions
    ensures SessionOk(Rotate(t, h, next, now), s, now)
  {
    assert SessionOk(t, s, now);
  }

  lemma RotateOk(t: Tables, h: Digest, next: Digest, now: Time)
    requires Rotatable(t, h, next, now)
    ensures TablesOk(Rotate(t, h, next, now), now)
  {
    var r := Rotate(t, h, next, now);
    forall x | x in r.tokens ensures TokenOk(r, x) { RotateTokenOk(t, h, next, now, x); }
    forall s | s in r.sessions ensures SessionOk(r, s, now) { RotateSessionOk(t, h, next, now, s); }
    forall u, a, b | UnrevokedOf(r, u, a) && UnrevokedOf(r, u, b) ensures a == b {
      assert UnrevokedOf(t, u, a) && UnrevokedOf(t, u, b);
    }
  }

  lemma PurgeToken(t: Tables, now: Time, h: Digest)
    requires TablesOk(t, now) && h in t.tokens
    ensures h in Purge(t, now).tokens <==> t.sessions[t.tokens[h].sid].expiresAt >= now - AUDIT
  {
    assert TokenOk(t, h);
    var s := t.tokens[h].sid;
    if t.sessions[s].expiresAt < now - AUDIT {
      forall o | o in t.tokens && t.tokens[o].family == t.tokens[h].family ensures t.tokens[o].expiresAt < now - AUDIT {
        assert TokenOk(t, o);
      }
    }
  }

  /** The purge removes a session exactly when it expired more than 30 days ago, and its tokens with it. */
  lemma PurgeSession(t: Tables, now: Time, s: Sid)
    requires TablesOk(t, now) && s in t.sessions
    ensures s in Purge(t, now).sessions <==> t.sessions[s].expiresAt >= now - AUDIT
  {
    var kept := Purge(t, now).tokens;
    if t.sessions[s].expiresAt < now - AUDIT {
      forall h | h in kept ensures kept[h].sid != s {
        if kept[h].sid == s { PurgeToken(t, now, h); }
      }
    }
  }

  lemma PurgeOk(t: Tables, now: Time)
    requires TablesOk(t, now)
    ensures TablesOk(Purge(t, now), now)
  {
    var r := Purge(t, now);
    forall h | h in r.tokens ensures TokenOk(r, h) {
      assert TokenOk(t, h);
      PurgeToken(t, now, h);
      PurgeSession(t, now, t.tokens[h].sid);
    }
    forall s | s in r.sessions ensures SessionOk(r, s, now) {
      assert SessionOk(t, s, now);
      PurgeSession(t, now, s);
      if r.sessions[s].revokedAt == None { PurgeToken(t, now, r.sessions[s].current); }
    }
    forall u, a, b | UnrevokedOf(r, u, a) && UnrevokedOf(r, u, b) ensures a == b {
      assert UnrevokedOf(t, u, a) && UnrevokedOf(t, u, b);
    }
  }

  // ---- The record of the past ---------------------------------------------------------

  /** Every session is recorded with its expiry; a recorded digest is still stored while its session is;
      a session leaves only when it expired more than 30 days ago. */
  ghost predicate HistoryOk(w: World) {
    && (forall s :: s in w.t.sessions ==>
            s in w.life && w.life[s] == w.t.sessions[s].expiresAt && w.t.sessions[s].family in w.families)
    && (forall h :: h in w.t.tokens ==> h in w.issued && w.issued[h] == w.t.tokens[h].sid)
    && (forall h :: h in w.issued ==> w.issued[h] in w.life && (w.issued[h] in w.t.sessions ==> h in w.t.tokens))
    && (forall s :: s in w.life && s !in w.t.sessions ==> w.life[s] < w.now - AUDIT)
  }

  /** What every step but the purge does to the tables. */
  ghost predicate Extends(w: World, t: Tables) {
    && (forall s :: s in w.t.sessions ==> s in t.sessions)
    && (forall h :: h in w.t.tokens ==> h in t.tokens && t.tokens[h].sid == w.t.tokens[h].sid)
    && (forall s :: s in t.sessions && s !in w.t.sessions ==> s !in w.life)
    && (forall h :: h in t.tokens && h !in w.t.tokens ==> h !in w.issued)
    && (forall h :: h in t.tokens ==> t.tokens[h].sid in t.sessions)
  }

  lemma ExtendSession(w: World, t: Tables, s: Sid)
    requires HistoryOk(w) && Extends(w, t)
    ensures var x := Observe(w, t);
            && (s in t.sessions ==>
                  s in x.life && x.life[s] == t.sessions[s].expiresAt && t.sessions[s].family in x.families)
            && (s in x.life && s !in t.sessions ==> x.life[s] < x.now - AUDIT)
  {
  }

  lemma ExtendToken(w: World, t: Tables, h: Digest)
    requires HistoryOk(w) && Extends(w, t)
    ensures var x := Observe(w, t);
            && (h in t.tokens ==> h in x.issued && x.issued[h] == t.tokens[h].sid)
            && (h in x.issued ==> x.issued[h] in x.life && (x.issued[h] in t.sessions ==> h in t.tokens))
  {
  }

  lemma ExtendKeeps(w: World, t: Tables)
    requires HistoryOk(w) && Extends(w, t)
    ensures HistoryOk(Observe(w, t))
  {
    var x := Observe(w, t);
    forall s | s in t.sessions
      ensures s in x.life && x.life[s] == t.sessions[s].expiresAt && t.sessions[s].family in x.families
    {
      ExtendSession(w, t, s);
    }
    forall s | s in x.life && s !in t.sessions ensures x.life[s] < x.now - AUDIT { ExtendSession(w, t, s); }
    forall h | h in t.tokens ensures h in x.issued && x.issued[h] == t.tokens[h].sid { ExtendToken(w, t, h); }
    forall h | h in x.issued
      ensures x.issued[h] in x.life && (x.issued[h] in t.sessions ==> h in t.tokens)
    {
      ExtendToken(w, t, h);
    }
  }

  /** What the purge does: sessions long expired go, with their tokens, and nothing else. */
  ghost predicate Shrinks(w: World, t: Tables) {
    && (forall s :: s in t.sessions ==> s in w.t.sessions && t.sessions[s] == w.t.sessions[s])
    && (forall h :: h in t.tokens ==> h in w.t.tokens && t.tokens[h] == w.t.tokens[h])
    && (forall s :: s in w.t.sessions && s !in t.sessions ==> w.t.sessions[s].expiresAt < w.now - AUDIT)
    && (forall h :: h in w.t.tokens && w.t.tokens[h].sid in t.sessions ==> h in t.tokens)
  }

  lemma ShrinkKeeps(w: World, t: Tables)
    requires HistoryOk(w) && Shrinks(w, t)
    ensures HistoryOk(Observe(w, t))
  {
    var x := Observe(w, t);
    assert x.issued == w.issued;
    assert x.life == w.life;
  }

  lemma PurgeShrinks(w: World)
    requires TablesOk(w.t, w.now)
    ensures Shrinks(w, Purge(w.t, w.now))
  {
    var t := Purge(w.t, w.now);
    forall s | s in w.t.sessions ensures s in t.sessions <==> w.t.sessions[s].expiresAt >= w.now - AUDIT {
      PurgeSession(w.t, w.now, s);
    }
    forall h | h in w.t.tokens && w.t.tokens[h].sid in t.sessions ensures h in t.tokens {
      PurgeToken(w.t, w.now, h);
    }
  }

  /** Both keys of a transfer end 24 hours after it was created, and a blob never stands without its meta. */
  ghost predicate VaultOk(v: Vault, created: map<TransferId, Time>) {
    && (forall id :: id in v.metas ==> id in created && v.metas[id].expiresAt == created[id] + TRANSFER_LIFE)
    && (forall id :: id in v.blobs ==> id in v.metas && v.blobs[id].expiresAt == v.metas[id].expiresAt)
  }

  ghost predicate Inv(w: World) {
    TablesOk(w.t, w.now) && HistoryOk(w) && VaultOk(w.v, w.created)
  }

  lemma LaterOk(t: Tables, now: Time, to: Time)
    requires TablesOk(t, now) && now <= to
    ensures TablesOk(t, to)
  {
    forall s | s in t.sessions ensures SessionOk(t, s, to) { assert SessionOk(t, s, now); }
  }

  lemma OtherColumnsOk(t: Tables, r: Tables, now: Time)
    requires TablesOk(t, now) && r.sessions == t.sessions && r.tokens == t.tokens && t.active.Keys <= r.active.Keys
    ensures TablesOk(r, now)
  {
    forall s | s in r.sessions ensures SessionOk(r, s, now) { assert SessionOk(t, s, now); }
    forall h | h in r.tokens ensures TokenOk(r, h) { assert TokenOk(t, h); }
    forall u, a, b | UnrevokedOf(r, u, a) && UnrevokedOf(r, u, b) ensures a == b {
      assert UnrevokedOf(t, u, a) && UnrevokedOf(t, u, b);
    }
  }

  lemma RevokeExtends(w: World, user: UserId, family: Option<Family>, sid: Option<Sid>)
    requires Inv(w)
    ensures Extends(w, Revoke(w.t, user, family, sid, w.now))
  {
    RevokeIs(w.t, user, family, sid, w.now);
    forall h | h in w.t.tokens
      ensures Revoke(w.t, user, family, sid, w.now).tokens[h].sid == w.t.tokens[h].sid
      ensures w.t.tokens[h].sid in w.t.sessions
    {
      assert TokenOk(w.t, h);
      assert RevokedToken(w.t.tokens[h], Revoke(w.t, user, family, sid, w.now).tokens[h],
                          w.t.tokens[h].sid in Chosen(w.t, user, family, sid));
    }
  }

  lemma FreshIsNew(w: World, f: Fresh)
    requires HistoryOk(w) && IsFresh(w, f)
    ensures NewTo(w.t, f)
  {
  }

  lemma CreateExtends(w: World, t: Tables, user: UserId, f: Fresh)
    requires HistoryOk(w) && Extends(w, t) && t.sessions.Keys == w.t.sessions.Keys && t.tokens.Keys == w.t.tokens.Keys
    requires IsFresh(w, f)
    ensures Extends(w, CreateSession(t, user, f, w.now))
  {
  }

  /** The tables of a step that opens a session in place of every other of the user. */
  lemma ReplaceKeeps(w: World, user: UserId, f: Fresh)
    requires Inv(w) && IsFresh(w, f) && user in w.t.active
    ensures var t := CreateSession(Revoke(w.t, user, None, None, w.now), user, f, w.now);
            TablesOk(t, w.now) && Extends(w, t)
  {
    FreshIsNew(w, f);
    ReplaceOk(w.t, user, f, w.now);
    RevokeExtends(w, user, None, None);
    RevokeIs(w.t, user, None, None, w.now);
    CreateExtends(w, Revoke(w.t, user, None, None, w.now), user, f);
  }

  lemma SignUpKeeps(w: World, user: UserId, f: Fresh)
    requires Inv(w) && IsFresh(w, f)
    ensures var t := Register(w.t, user, f, w.now); TablesOk(t, w.now) && Extends(w, t)
  {
    forall h | h in w.t.tokens ensures w.t.tokens[h].sid in w.t.sessions { assert TokenOk(w.t, h); }
    if user !in w.t.active {
      var t := w.t.(active := w.t.active[user := true]);
      OtherColumnsOk(w.t, t, w.now);
      FreshIsNew(w, f);
      forall s ensures !UnrevokedOf(t, user, s) { if s in w.t.sessions { assert SessionOk(w.t, s, w.now); } }
      CreateOk(t, user, f, w.now);
      CreateExtends(w, t, user, f);
    }
  }

  lemma ExchangeShape(t: Tables, user: UserId, f: Fresh, now: Time)
    requires IsActive(t, user)
    ensures var created, r := CreateSession(Revoke(t, user, None, None, now), user, f, now),
            Exchange(t, user, f, now).1;
            r.sessions == created.sessions && r.tokens == created.tokens && r.active == created.active
  {
  }

  lemma BootstrapKeeps(w: World, user: UserId, f: Fresh)
    requires Inv(w) && IsFresh(w, f)
    ensures var t := Exchange(w.t, user, f, w.now).1; TablesOk(t, w.now) && Extends(w, t)
  {
    if IsActive(w.t, user) {
      ReplaceKeeps(w, user, f);
      ExchangeShape(w.t, user, f, w.now);
      OtherColumnsOk(CreateSession(Revoke(w.t, user, None, None, w.now), user, f, w.now),
                     Exchange(w.t, user, f, w.now).1, w.now);
    } else {
      SameExtends(w, w.t);
    }
  }

  lemma SameExtends(w: World, t: Tables)
    requires Inv(w) && t.sessions == w.t.sessions && t.tokens == w.t.tokens && w.t.active.Keys <= t.active.Keys
    ensures TablesOk(t, w.now) && Extends(w, t)
  {
    OtherColumnsOk(w.t, t, w.now);
    forall h | h in t.tokens ensures t.tokens[h].sid in t.sessions { assert TokenOk(t, h); }
  }

  lemma RotateExtends(w: World, h: Digest, next: Digest)
    requires Inv(w) && next !in w.issued && h in w.t.tokens && w.t.tokens[h].sid in w.t.sessions
    ensures Extends(w, Rotate(w.t, h, next, w.now))
  {
    forall x | x in w.t.tokens ensures w.t.tokens[x].sid in w.t.sessions { assert TokenOk(w.t, x); }
  }

  lemma PresentKeeps(w: World, h: Digest, allowed: bool, next: Digest)
    requires Inv(w) && next !in w.issued
    ensures var t := Refresh(w.t, h, allowed, next, w.now).1; TablesOk(t, w.now) && Extends(w, t)
  {
    var answer := Refresh(w.t, h, allowed, next, w.now).0;
    if answer.Issued? {
      AcceptedIsCurrent(w.t, h, allowed, next, w.now);
      RotateOk(w.t, h, next, w.now);
      RotateExtends(w, h, next);
    } else if answer.ReuseDetected? {
      var user, family := w.t.sessions[w.t.tokens[h].sid].user, Some(w.t.tokens[h].family);
      RevokeOk(w.t, user, family, None, w.now);
      RevokeExtends(w, user, family, None);
    } else {
      SameExtends(w, w.t);
    }
  }

  lemma SignOutKeeps(w: World, user: UserId, sid: Sid)
    requires Inv(w)
    ensures var t := Logout(w.t, user, sid, w.now); TablesOk(t, w.now) && Extends(w, t)
  {
    forall x | x in w.t.tokens ensures w.t.tokens[x].sid in w.t.sessions { assert TokenOk(w.t, x); }
    if Authenticated(w.t, user, sid, w.now, false) {
      RevokeOk(w.t, user, None, Some(sid), w.now);
      RevokeExtends(w, user, None, Some(sid));
    }
  }

  /** The tables after any step but the purge. */
  lemma AfterKeeps(w: World, l: Label)
    requires Inv(w) && Guard(w, l) && !l.Clean?
    ensures TablesOk(After(w, l), w.now) && Extends(w, After(w, l))
  {
    match l {
      case SignUp(u, f) => SignUpKeeps(w, u, f);
      case RecoverBy(u, valid, f) =>
        if valid && IsActive(w.t, u) { ReplaceKeeps(w, u, f); } else { SameExtends(w, After(w, l)); }
      case Bootstrap(u, f) => BootstrapKeeps(w, u, f);
      case Present(h, allowed, next) => PresentKeeps(w, h, allowed, next);
      case SignOut(u, s) => SignOutKeeps(w, u, s);
      case _ => SameExtends(w, After(w, l));
    }
  }

  lemma VaultKeeps(w: World, l: Label)
    requires Inv(w) && Guard(w, l)
    ensures VaultOk(VaultAfter(w, l), if l.OpenTransfer? then w.created[l.id := w.now] else w.created)
  {
  }

  lemma StepKeeps(w: World, l: Label)
    requires Inv(w)
    ensures Inv(Step(w, l))
  {
    if Guard(w, l) {
      VaultKeeps(w, l);
      if l.Clean? {
        PurgeOk(w.t, w.now);
        PurgeShrinks(w);
        ShrinkKeeps(w, After(w, l));
      } else {
        AfterKeeps(w, l);
        ExtendKeeps(w, After(w, l));
        LaterOk(After(w, l), w.now, Step(w, l).now);
      }
    }
  }

  lemma {:induction false} RunKeeps(w: World, ls: seq<Label>)
    requires Inv(w)
    ensures Inv(From(w, ls)) && w.now <= From(w, ls).now
  {
    if ls != [] {
      RunKeeps(w, ls[..|ls| - 1]);
      StepKeeps(From(w, ls[..|ls| - 1]), ls[|ls| - 1]);
    }
  }

  lemma RunInvariant(ls: seq<Label>)
    ensures Inv(Exec(ls))
  {
    RunKeeps(START, ls);
  }
}
