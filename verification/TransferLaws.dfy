/** Who can upload a key transfer, how often, and what the new device reads back, over whole runs. */
module TransferLaws {
  import opened Wrappers
  import opened Persistence
  import opened Ordering
  import opened Identity
  import opened Transfers
  import opened IdentityRuns

  // ---- Where a grant comes from -----------------------------------------------------------

  /** Step `i` exchanged a bootstrap token of `user` for session `target` while `source` was live. */
  ghost predicate Handover(ls: seq<Label>, i: nat, user: UserId, source: Sid, target: Sid) {
    && i < |ls| && ls[i].Bootstrap? && ls[i].user == user && ls[i].ids.sid == target
    && Guard(Exec(ls[..i]), ls[i]) && IsActive(Exec(ls[..i]).t, user)
    && LiveFor(Exec(ls[..i]).t, user, source, Exec(ls[..i]).now)
  }

  lemma PredecessorIsLive(t: Tables, user: UserId, now: Time)
    ensures Predecessor(t, user, now).Some? ==> LiveFor(t, user, Predecessor(t, user, now).value, now)
  {
    var keys := Ascending(LiveKeys(t, user, now));
    if keys != [] {
      assert keys[|keys| - 1] in LiveKeys(t, user, now);
    }
  }

  lemma ExchangeGrants(t: Tables, user: UserId, f: Fresh, now: Time, u: UserId)
    ensures var r := Exchange(t, user, f, now).1;
            u in r.grants ==>
              || (u in t.grants && r.grants[u] == t.grants[u])
              || (u == user && IsActive(t, user) && r.grants[u].target == f.sid
                    && LiveFor(t, user, r.grants[u].source, now))
  {
    PredecessorIsLive(t, user, now);
  }

  /** Only a bootstrap exchange makes a grant, and it names the session that was live just before. */
  lemma StepGrants(w: World, l: Label, u: UserId)
    requires Guard(w, l) && u in After(w, l).grants
    ensures || (u in w.t.grants && After(w, l).grants[u] == w.t.grants[u])
            || (l.Bootstrap? && l.user == u && IsActive(w.t, u) && After(w, l).grants[u].target == l.ids.sid
                && LiveFor(w.t, u, After(w, l).grants[u].source, w.now))
  {
    if l.Bootstrap? { ExchangeGrants(w.t, l.user, l.ids, w.now, u); }
  }

  lemma {:induction false} GrantOrigin(ls: seq<Label>, u: UserId) returns (i: nat)
    requires u in Exec(ls).t.grants
    ensures Handover(ls, i, u, Exec(ls).t.grants[u].source, Exec(ls).t.grants[u].target)
  {
    var init, l := ls[..|ls| - 1], ls[|ls| - 1];
    var w := Exec(init);
    if !Guard(w, l) {
      i := GrantOrigin(init, u);
      assert ls[..i] == init[..i];
    } else {
      StepGrants(w, l, u);
      if u in w.t.grants && After(w, l).grants[u] == w.t.grants[u] {
        i := GrantOrigin(init, u);
        assert ls[..i] == init[..i];
      } else {
        i := |init|;
      }
    }
  }

  /** A successful upload comes from the transfer's own live session, or from the session that was live
      just before the exchange that created that session - and, as a user never has two unrevoked
      sessions, that was the only one. */
  lemma UploadOrigin(ls: seq<Label>, user: UserId, sid: Sid, id: TransferId, data: Bytes)
    requires var w := Exec(ls); Access(w.t, w.v, user, sid, id, Put, data, w.now).0.Done?
    ensures var w := Exec(ls);
            && id in w.v.metas && w.v.metas[id].owner == user
            && var target := w.v.metas[id].target;
            && (|| (sid == target && LiveFor(w.t, user, sid, w.now))
                || (exists i: nat :: Handover(ls, i, user, sid, target)
                                && forall other :: UnrevokedOf(Exec(ls[..i]).t, user, other) ==> other == sid))
  {
    var w := Exec(ls);
    if GrantFor(w.t, user, sid, w.now) {
      var i := GrantOrigin(ls, user);
      RunInvariant(ls[..i]);
      var t := Exec(ls[..i]).t;
      assert UnrevokedOf(t, user, sid);
    }
  }

  // ---- One upload, one content, one deadline ------------------------------------------------

  /** While the transfer stands, its blob does, and holds `data`. */
  ghost predicate Uploaded(w: World, id: TransferId, data: Bytes) {
    && id in w.created
    && (id in w.v.metas ==> id in w.v.blobs && w.v.blobs[id].data == data)
  }

  lemma PutUploads(w: World, l: Label)
    requires Inv(w) && l.UseTransfer? && l.action == Put
    requires Access(w.t, w.v, l.user, l.sid, l.id, Put, l.data, w.now).0.Done?
    ensures Uploaded(Step(w, l), l.id, l.data)
  {
  }

  lemma ScriptUploaded(v: Vault, created: map<TransferId, Time>, owner: UserId, target: Sid, x: TransferId,
                       action: Action, more: Bytes, now: Time,
                       id: TransferId, data: Bytes)
    requires VaultOk(v, created) && (id in v.metas ==> id in v.blobs && v.blobs[id].data == data)
    ensures var v' := Script(v, owner, target, x, action, more, now).1;
            id in v'.metas ==> id in v'.blobs && v'.blobs[id].data == data
  {
  }

  lemma {:induction false} UploadedForever(w: World, q: seq<Label>, id: TransferId, data: Bytes)
    requires Inv(w) && Uploaded(w, id, data)
    ensures Uploaded(From(w, q), id, data)
  {
    if q != [] {
      var init, l := q[..|q| - 1], q[|q| - 1];
      UploadedForever(w, init, id, data);
      RunKeeps(w, init);
      var x := From(w, init);
      if Guard(x, l) && l.UseTransfer? {
        ScriptUploaded(x.v, x.created, l.user, TargetOf(x.t, l.user, l.sid, l.action, x.now), l.id, l.action, l.data,
                       x.now, id, data);
      }
    }
  }

  lemma UploadedBlocks(w: World, id: TransferId, data: Bytes, user: UserId, sid: Sid, more: Bytes)
    requires Inv(w) && Uploaded(w, id, data)
    ensures !Access(w.t, w.v, user, sid, id, Put, more, w.now).0.Done?
    ensures var outcome := Access(w.t, w.v, user, sid, id, Fetch, [], w.now).0;
            outcome.Fetched? ==> outcome == Fetched(data, w.created[id] + TRANSFER_LIFE)
  {
  }

  lemma PutIsCreated(w: World, put: Label)
    requires Inv(w) && put.UseTransfer? && put.action == Put
    requires Access(w.t, w.v, put.user, put.sid, put.id, Put, put.data, w.now).0.Done?
    ensures put.id in w.created && Step(w, put).created == w.created
  {
  }

  /** After one successful upload no other upload of the transfer succeeds, in any continuation; and a later
      fetch can only return what was uploaded, with the deadline the transfer had from the start. */
  lemma UploadedOnce(p: seq<Label>, put: Label, q: seq<Label>, user: UserId, sid: Sid, more: Bytes)
    requires put.UseTransfer? && put.action == Put
    requires var w := Exec(p); Access(w.t, w.v, put.user, put.sid, put.id, Put, put.data, w.now).0.Done?
    ensures var w := From(Step(Exec(p), put), q);
            put.id in Exec(p).created && !Access(w.t, w.v, user, sid, put.id, Put, more, w.now).0.Done?
    ensures var w := From(Step(Exec(p), put), q);
            var outcome := Access(w.t, w.v, user, sid, put.id, Fetch, [], w.now).0;
            outcome.Fetched? ==> outcome == Fetched(put.data, Exec(p).created[put.id] + TRANSFER_LIFE)
  {
    var w0 := Exec(p);
    RunInvariant(p);
    PutUploads(w0, put);
    PutIsCreated(w0, put);
    StepKeeps(w0, put);
    var w1 := Step(w0, put);
    UploadedForever(w1, q, put.id, put.data);
    RunKeeps(w1, q);
    CreatedForever(w1, q, put.id);
    UploadedBlocks(From(w1, q), put.id, put.data, user, sid, more);
  }

  lemma {:induction false} CreatedForever(w: World, q: seq<Label>, id: TransferId)
    requires id in w.created
    ensures id in From(w, q).created && From(w, q).created[id] == w.created[id]
  {
    if q != [] { CreatedForever(w, q[..|q| - 1], id); }
  }

  /** A blob can be read only before the deadline set when its transfer was created. */
  lemma BlobWithinDeadline(ls: seq<Label>, id: TransferId)
    requires HasBlob(Exec(ls).v, id, Exec(ls).now)
    ensures id in Exec(ls).created && HasMeta(Exec(ls).v, id, Exec(ls).now)
    ensures Exec(ls).now < Exec(ls).created[id] + TRANSFER_LIFE
  {
    RunInvariant(ls);
  }
}
