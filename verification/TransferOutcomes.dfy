/** What a key transfer answers: who may use it, that the new device gets its blob until the deadline, and
    that the replaced session can upload it. */
module TransferOutcomes {
  import opened Wrappers
  import opened Persistence
  import opened Ordering
  import opened Identity
  import opened Transfers
  import opened IdentityRuns
  import TransferLaws

  // ---- One access ---------------------------------------------------------------------------

  predicate LiveSession(t: Tables, user: UserId, sid: Sid, now: Time) {
    && sid in t.sessions && t.sessions[sid].user == user
    && t.sessions[sid].revokedAt == None && now < t.sessions[sid].expiresAt
  }

  /** The user's grant lets `sid` upload for its successor. */
  predicate Granted(t: Tables, user: UserId, sid: Sid, now: Time) {
    user in t.grants && t.grants[user].source == sid && now < t.grants[user].expiresAt
  }

  predicate SuccessorLives(t: Tables, user: UserId, now: Time)
    requires user in t.grants
  {
    var target := t.grants[user].target;
    target in t.sessions && t.sessions[target].revokedAt == None && now < t.sessions[target].expiresAt
  }

  predicate MayAct(t: Tables, user: UserId, sid: Sid, action: Action, now: Time) {
    && user in t.active && t.active[user]
    && (LiveSession(t, user, sid, now)
        || (action == Put && Granted(t, user, sid, now) && SuccessorLives(t, user, now)))
  }

  /** The session whose transfers the caller acts on. */
  function ActsFor(t: Tables, user: UserId, sid: Sid, action: Action, now: Time): Sid {
    if action == Put && Granted(t, user, sid, now) then t.grants[user].target else sid
  }

  /** The key of the transfer still stands. */
  predicate Stands(v: Vault, id: TransferId, now: Time) {
    id in v.metas && now < v.metas[id].expiresAt
  }

  predicate Filled(v: Vault, id: TransferId, now: Time) {
    id in v.blobs && now < v.blobs[id].expiresAt
  }

  /** Every access, by what it meets: who is let in, whose transfer it is, and what each action does then. */
  lemma AccessAnswers(t: Tables, v: Vault, user: UserId, sid: Sid, id: TransferId, action: Action, data: Bytes,
                      now: Time)
    ensures var (outcome, t', v') := Access(t, v, user, sid, id, action, data, now);
            if !MayAct(t, user, sid, action, now) then outcome == Unauthenticated && t' == t && v' == v
            else if !Stands(v, id, now) then outcome == Gone && t' == t && v' == v
            else if v.metas[id].owner != user || v.metas[id].target != ActsFor(t, user, sid, action, now)
            then outcome == NotFound && t' == t && v' == v
            else
              match action
              case Put =>
                && t' == t
                && if Filled(v, id, now) then outcome == AlreadyUploaded && v' == v
                   else outcome == Done && v' == v.(blobs := v.blobs[id := Blob(data, v.metas[id].expiresAt)])
              case Fetch =>
                && t' == t && v' == v
                && outcome == if Filled(v, id, now) then Fetched(v.blobs[id].data, v.metas[id].expiresAt) else NotReady
              case Delete =>
                && outcome == Done && v' == Vault(v.metas - {id}, v.blobs - {id})
                && t' == if user in t.grants && t.grants[user].target == sid
                         then t.(grants := t.grants - {user}) else t
  {
  }

  // ---- Whole runs -----------------------------------------------------------------------------

  /** A successful delete of the transfer, or the loss of Redis. */
  ghost predicate Removes(w: World, l: Label, id: TransferId) {
    || l.LoseRedis?
    || (l.UseTransfer? && l.id == id && l.action == Delete
        && Access(w.t, w.v, l.user, l.sid, id, Delete, l.data, w.now).0.Done?)
  }

  ghost predicate Uploads(w: World, l: Label, id: TransferId) {
    && l.UseTransfer? && l.id == id && l.action == Put
    && Access(w.t, w.v, l.user, l.sid, id, Put, l.data, w.now).0.Done?
  }

  ghost predicate NeverRemoved(w: World, q: seq<Label>, id: TransferId) {
    forall i :: 0 <= i < |q| ==> !Removes(From(w, q[..i]), q[i], id)
  }

  ghost predicate NeverUploaded(w: World, q: seq<Label>, id: TransferId) {
    forall i :: 0 <= i < |q| ==> !Uploads(From(w, q[..i]), q[i], id)
  }

  predicate SameKeys(v: Vault, x: Vault, id: TransferId) {
    && (id in v.metas <==> id in x.metas) && (id in v.metas ==> x.metas[id] == v.metas[id])
    && (id in v.blobs <==> id in x.blobs) && (id in v.blobs ==> x.blobs[id] == v.blobs[id])
  }

  lemma StepKeepsKeys(w: World, l: Label, id: TransferId)
    requires Inv(w) && id in w.created && !Removes(w, l, id) && !Uploads(w, l, id)
    ensures SameKeys(w.v, Step(w, l).v, id) && id in Step(w, l).created
  {
    if Guard(w, l) && l.UseTransfer? {
      AccessAnswers(w.t, w.v, l.user, l.sid, l.id, l.action, l.data, w.now);
    }
  }

  lemma {:induction false} KeysStay(w: World, q: seq<Label>, id: TransferId)
    requires Inv(w) && id in w.created && NeverRemoved(w, q, id) && NeverUploaded(w, q, id)
    ensures SameKeys(w.v, From(w, q).v, id) && id in From(w, q).created
  {
    if q != [] {
      var init, l := q[..|q| - 1], q[|q| - 1];
      forall i | 0 <= i < |init|
        ensures !Removes(From(w, init[..i]), init[i], id) && !Uploads(From(w, init[..i]), init[i], id)
      {
        assert init[..i] == q[..i] && init[i] == q[i];
      }
      KeysStay(w, init, id);
      RunKeeps(w, init);
      assert q[..|init|] == init && l == q[|init|];
      StepKeepsKeys(From(w, init), l, id);
    }
  }

  lemma FilledIsNotUploaded(w: World, id: TransferId, data: Bytes, user: UserId, sid: Sid, more: Bytes)
    requires Inv(w) && TransferLaws.Uploaded(w, id, data)
    ensures !Access(w.t, w.v, user, sid, id, Put, more, w.now).0.Done?
  {
    TransferLaws.UploadedBlocks(w, id, data, user, sid, more);
  }

  lemma NoSecondUpload(w: World, q: seq<Label>, id: TransferId, data: Bytes)
    requires Inv(w) && TransferLaws.Uploaded(w, id, data)
    ensures NeverUploaded(w, q, id)
  {
    forall i | 0 <= i < |q| ensures !Uploads(From(w, q[..i]), q[i], id) {
      TransferLaws.UploadedForever(w, q[..i], id, data);
      RunKeeps(w, q[..i]);
      if q[i].UseTransfer? && q[i].id == id && q[i].action == Put {
        FilledIsNotUploaded(From(w, q[..i]), id, data, q[i].user, q[i].sid, q[i].data);
      }
    }
  }

  /** After a successful upload, whatever happens other than a delete or a loss of Redis, the session that the
      transfer is for gets exactly what was uploaded until 24 hours after the creation, and then is told that
      it is gone. */
  lemma UploadIsFetched(p: seq<Label>, put: Label, q: seq<Label>, sid: Sid)
    requires put.UseTransfer? && Uploads(Exec(p), put, put.id)
    requires NeverRemoved(Step(Exec(p), put), q, put.id)
    requires var w := From(Step(Exec(p), put), q);
             MayAct(w.t, put.user, sid, Fetch, w.now) && sid == Exec(p).v.metas[put.id].target
    ensures put.id in Exec(p).created
    ensures var w := From(Step(Exec(p), put), q);
            var end := Exec(p).created[put.id] + 86_400_000;
            Access(w.t, w.v, put.user, sid, put.id, Fetch, [], w.now).0
            == if w.now < end then Fetched(put.data, end) else Gone
  {
    var w0, w1 := Exec(p), Step(Exec(p), put);
    RunInvariant(p);
    AccessAnswers(w0.t, w0.v, put.user, put.sid, put.id, Put, put.data, w0.now);
    TransferLaws.PutUploads(w0, put);
    TransferLaws.PutIsCreated(w0, put);
    IdentityRuns.StepKeeps(w0, put);
    NoSecondUpload(w1, q, put.id, put.data);
    KeysStay(w1, q, put.id);
    var w := From(w1, q);
    AccessAnswers(w.t, w.v, put.user, sid, put.id, Fetch, [], w.now);
  }

  /** A session that opens a transfer is told, until somebody uploads, that nothing is there yet. */
  lemma NotReadyBeforeUpload(p: seq<Label>, open: Label, q: seq<Label>)
    requires open.OpenTransfer? && Guard(Exec(p), open)
    requires MayAct(Exec(p).t, open.user, open.sid, Fetch, Exec(p).now)
    requires var w1 := Step(Exec(p), open); NeverRemoved(w1, q, open.id) && NeverUploaded(w1, q, open.id)
    requires var w := From(Step(Exec(p), open), q); MayAct(w.t, open.user, open.sid, Fetch, w.now)
    ensures var w := From(Step(Exec(p), open), q);
            Access(w.t, w.v, open.user, open.sid, open.id, Fetch, [], w.now).0
            == if w.now < Exec(p).now + 86_400_000 then NotReady else Gone
  {
    var w0, w1 := Exec(p), Step(Exec(p), open);
    RunInvariant(p);
    OpenedIsEmpty(w0, open);
    IdentityRuns.StepKeeps(w0, open);
    KeysStay(w1, q, open.id);
    var w := From(w1, q);
    AccessAnswers(w.t, w.v, open.user, open.sid, open.id, Fetch, [], w.now);
  }

  lemma StepIs(w: World, l: Label)
    requires Guard(w, l)
    ensures var x := Step(w, l);
            && x.t == After(w, l) && x.v == VaultAfter(w, l) && x.now == (if l.Tick? then l.to else w.now)
            && x.created == if l.OpenTransfer? then w.created[l.id := w.now] else w.created
  {
  }

  lemma CreationMakes(t: Tables, v: Vault, user: UserId, sid: Sid, id: TransferId, now: Time)
    requires MayAct(t, user, sid, Fetch, now) && id !in v.metas && id !in v.blobs
    ensures Create(t, v, user, sid, id, now) == (true, v.(metas := v.metas[id := Meta(user, sid, now + 86_400_000)]))
  {
  }

  lemma NotYetThere(w: World, id: TransferId)
    requires VaultOk(w.v, w.created) && id !in w.created
    ensures id !in w.v.metas && id !in w.v.blobs
  {
  }

  lemma OpenedIsEmpty(w: World, open: Label)
    requires VaultOk(w.v, w.created) && open.OpenTransfer? && Guard(w, open)
    requires MayAct(w.t, open.user, open.sid, Fetch, w.now)
    ensures var v := Step(w, open).v;
            && open.id in v.metas && v.metas[open.id] == Meta(open.user, open.sid, w.now + 86_400_000)
            && open.id !in v.blobs && open.id in Step(w, open).created
            && Step(w, open).t == w.t && Step(w, open).now == w.now
  {
    NotYetThere(w, open.id);
    CreationMakes(w.t, w.v, open.user, open.sid, open.id, w.now);
    StepIs(w, open);
  }

  /** A transfer that was deleted stays gone for whoever asks. */
  lemma RemovedIsGone(p: seq<Label>, q: seq<Label>, id: TransferId, user: UserId, sid: Sid, action: Action, data: Bytes)
    requires id in Exec(p).created && id !in Exec(p).v.metas
    requires var w := From(Exec(p), q); MayAct(w.t, user, sid, action, w.now)
    ensures var w := From(Exec(p), q); Access(w.t, w.v, user, sid, id, action, data, w.now).0 == Gone
  {
    StaysRemoved(Exec(p), q, id);
    var w := From(Exec(p), q);
    AccessAnswers(w.t, w.v, user, sid, id, action, data, w.now);
  }

  lemma {:induction false} StaysRemoved(w: World, q: seq<Label>, id: TransferId)
    requires id in w.created && id !in w.v.metas
    ensures id in From(w, q).created && id !in From(w, q).v.metas
  {
    if q != [] {
      var init, l := q[..|q| - 1], q[|q| - 1];
      StaysRemoved(w, init, id);
      var x := From(w, init);
      if l.UseTransfer? { AccessAnswers(x.t, x.v, l.user, l.sid, l.id, l.action, l.data, x.now); }
    }
  }

  // ---- The replaced session hands its keys over ---------------------------------------------------

  /** An exchange gives the one session that was live a grant for its successor. */
  lemma ExchangeGrantsTheReplaced(t: Tables, user: UserId, source: Sid, f: Fresh, now: Time)
    requires TablesOk(t, now) && user in t.active && t.active[user] && LiveSession(t, user, source, now)
    requires f.sid !in t.sessions && f.digest !in t.tokens
    ensures var r := Exchange(t, user, f, now).1;
            && Exchange(t, user, f, now).0 == Issued(f.sid, f.digest)
            && LiveSession(r, user, f.sid, now) && user in r.active && r.active[user]
            && Granted(r, user, source, now) && r.grants[user].target == f.sid
  {
    var keys := LiveKeys(t, user, now);
    var k := Key(1, t.sessions[source].createdAt, source);
    assert k in keys;
    forall x | x in keys ensures x == k { assert UnrevokedOf(t, user, x.id) && UnrevokedOf(t, user, source); }
    var all := Ascending(keys);
    assert all != [] && all[|all| - 1] in keys by {
      assert k in all;
    }
    assert Predecessor(t, user, now) == Some(source);
  }

  /** `target` replaced `source`, whose upload it awaits in the empty transfer `id`. */
  ghost predicate Awaits(w: World, user: UserId, source: Sid, target: Sid, id: TransferId, end: Time) {
    && MayAct(w.t, user, target, Fetch, w.now) && LiveSession(w.t, user, target, w.now)
    && Granted(w.t, user, source, w.now) && w.t.grants[user].target == target
    && id in w.v.metas && w.v.metas[id] == Meta(user, target, end) && id !in w.v.blobs && w.now < end
  }

  /** `target` replaced `source`, at `at`, and has no transfer `id` yet. */
  ghost predicate Replaced(w: World, user: UserId, source: Sid, target: Sid, id: TransferId, at: Time) {
    && VaultOk(w.v, w.created) && id !in w.created && user in w.t.active && w.t.active[user] && w.now == at
    && LiveSession(w.t, user, target, w.now)
    && Granted(w.t, user, source, w.now) && w.t.grants[user].target == target
  }

  lemma OpeningAwaits(w: World, user: UserId, source: Sid, target: Sid, id: TransferId, at: Time)
    requires Replaced(w, user, source, target, id, at)
    ensures Awaits(Step(w, OpenTransfer(user, target, id)), user, source, target, id, at + 86_400_000)
  {
    OpenedIsEmpty(w, OpenTransfer(user, target, id));
  }

  lemma AwaitedIsFetched(w: World, user: UserId, source: Sid, target: Sid, id: TransferId, end: Time, data: Bytes)
    requires Awaits(w, user, source, target, id, end)
    ensures var (outcome, t, v) := Access(w.t, w.v, user, source, id, Put, data, w.now);
            outcome == Done && Access(t, v, user, target, id, Fetch, [], w.now).0 == Fetched(data, end)
  {
    AccessAnswers(w.t, w.v, user, source, id, Put, data, w.now);
    var (outcome, t, v) := Access(w.t, w.v, user, source, id, Put, data, w.now);
    AccessAnswers(t, v, user, target, id, Fetch, [], w.now);
  }

  lemma AfterExchange(w: World, user: UserId, source: Sid, f: Fresh)
    requires Inv(w) && IsFresh(w, f) && user in w.t.active && w.t.active[user] && LiveSession(w.t, user, source, w.now)
    ensures var x := Step(w, Bootstrap(user, f));
            && x.created == w.created && x.now == w.now && user in x.t.active && x.t.active[user]
            && LiveSession(x.t, user, f.sid, x.now)
            && Granted(x.t, user, source, x.now) && x.t.grants[user].target == f.sid
  {
    FreshIsNew(w, f);
    ExchangeGrantsTheReplaced(w.t, user, source, f, w.now);
    StepIs(w, Bootstrap(user, f));
  }

  lemma PutStepIs(w: World, user: UserId, sid: Sid, id: TransferId, data: Bytes)
    ensures var (outcome, t, v) := Access(w.t, w.v, user, sid, id, Put, data, w.now);
            var x := Step(w, UseTransfer(user, sid, id, Put, data));
            x.t == t && x.v == v && x.now == w.now
  {
    StepIs(w, UseTransfer(user, sid, id, Put, data));
  }

  lemma TwoSteps(w: World, a: Label, b: Label)
    ensures From(w, [a, b]) == Step(Step(w, a), b)
  {
    assert [a, b][..1] == [a] && [a][..0] == [];
    assert From(w, [a]) == Step(From(w, []), a);
  }

  lemma ExchangeReplaces(w: World, user: UserId, source: Sid, f: Fresh, id: TransferId)
    requires Inv(w) && IsFresh(w, f) && user in w.t.active && w.t.active[user] && LiveSession(w.t, user, source, w.now)
    requires id !in w.created
    ensures Replaced(Step(w, Bootstrap(user, f)), user, source, f.sid, id, w.now)
  {
    AfterExchange(w, user, source, f);
    IdentityRuns.StepKeeps(w, Bootstrap(user, f));
  }

  lemma AwaitedUploads(w: World, user: UserId, source: Sid, target: Sid, id: TransferId, end: Time, data: Bytes)
    requires Awaits(w, user, source, target, id, end)
    ensures var x := Step(w, UseTransfer(user, source, id, Put, data));
            && Access(w.t, w.v, user, source, id, Put, data, w.now).0 == Done
            && Access(x.t, x.v, user, target, id, Fetch, [], x.now).0 == Fetched(data, end)
  {
    AwaitedIsFetched(w, user, source, target, id, end, data);
    PutStepIs(w, user, source, id, data);
  }

  lemma ReplacementAwaits(w: World, user: UserId, source: Sid, f: Fresh, id: TransferId)
    requires Inv(w) && IsFresh(w, f) && user in w.t.active && w.t.active[user] && LiveSession(w.t, user, source, w.now)
    requires id !in w.created
    ensures Awaits(Step(Step(w, Bootstrap(user, f)), OpenTransfer(user, f.sid, id)), user, source, f.sid, id,
                   w.now + 86_400_000)
  {
    ExchangeReplaces(w, user, source, f, id);
    OpeningAwaits(Step(w, Bootstrap(user, f)), user, source, f.sid, id, w.now);
  }

  lemma ReplacementAwaitsAt(w: World, user: UserId, source: Sid, f: Fresh, id: TransferId, x: World)
    requires Inv(w) && IsFresh(w, f) && user in w.t.active && w.t.active[user] && LiveSession(w.t, user, source, w.now)
    requires id !in w.created && x == From(w, [Bootstrap(user, f), OpenTransfer(user, f.sid, id)])
    ensures Awaits(x, user, source, f.sid, id, w.now + 86_400_000)
  {
    ReplacementAwaits(w, user, source, f, id);
    TwoSteps(w, Bootstrap(user, f), OpenTransfer(user, f.sid, id));
  }

  /** Whatever happened before, a session that is replaced by a bootstrap exchange uploads at once for the
      transfer that its successor opens, and the successor fetches what it uploaded. */
  lemma ReplacedSessionUploads(p: seq<Label>, user: UserId, source: Sid, f: Fresh, id: TransferId, data: Bytes,
                               w: World, uploaded: World)
    requires IsFresh(Exec(p), f) && id !in Exec(p).created && user in Exec(p).t.active && Exec(p).t.active[user]
    requires LiveSession(Exec(p).t, user, source, Exec(p).now)
    requires w == From(Exec(p), [Bootstrap(user, f), OpenTransfer(user, f.sid, id)])
    requires uploaded == Step(w, UseTransfer(user, source, id, Put, data))
    ensures Access(w.t, w.v, user, source, id, Put, data, w.now).0 == Done
    ensures Access(uploaded.t, uploaded.v, user, f.sid, id, Fetch, [], uploaded.now).0
         == Fetched(data, Exec(p).now + 86_400_000)
  {
    RunInvariant(p);
    ReplacementAwaitsAt(Exec(p), user, source, f, id, w);
    AwaitedUploads(w, user, source, f.sid, id, Exec(p).now + 86_400_000, data);
  }
}
