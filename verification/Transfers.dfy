/** The one-shot key transfer to a new device (python/chat/transfers.py): two Redis keys per transfer,
    both ending at the transfer's first deadline, guarded by the session and the upload grant. */
module Transfers {
  import opened Wrappers
  import opened Persistence
  import opened Identity

  type TransferId = nat

  const TRANSFER_LIFE: Time := DAY

  datatype Meta = Meta(owner: UserId, target: Sid, expiresAt: Time)

  datatype Blob = Blob(data: Bytes, expiresAt: Time)

  /** A key whose time has come is gone. */
  datatype Vault = Vault(metas: map<TransferId, Meta>, blobs: map<TransferId, Blob>)

  const EMPTY_VAULT := Vault(map[], map[])

  datatype Action = Put | Fetch | Delete

  datatype Outcome =
    | Unauthenticated | NotFound | Gone | AlreadyUploaded | NotReady | Done
    | Fetched(data: Bytes, expiresAt: Time)

  predicate HasMeta(v: Vault, id: TransferId, now: Time) {
    id in v.metas && v.metas[id].expiresAt > now
  }

  predicate HasBlob(v: Vault, id: TransferId, now: Time) {
    id in v.blobs && v.blobs[id].expiresAt > now
  }

  /** SET NX with an absolute expiry. */
  function CreateMeta(v: Vault, user: UserId, sid: Sid, id: TransferId, now: Time): Vault {
    if HasMeta(v, id, now) then v else v.(metas := v.metas[id := Meta(user, sid, now + TRANSFER_LIFE)])
  }

  /** The Lua script: the blob gets the time the transfer has left. */
  function Script(v: Vault, owner: UserId, target: Sid, id: TransferId, action: Action, data: Bytes,
                  now: Time): (Outcome, Vault) {
    if !HasMeta(v, id, now) then (Gone, v)
    else
      var meta := v.metas[id];
      if meta.owner != owner || meta.target != target then (NotFound, v)
      else
        match action
        case Put =>
          if HasBlob(v, id, now) then (AlreadyUploaded, v)
          else (Done, v.(blobs := v.blobs[id := Blob(data, now + (meta.expiresAt - now))]))
        case Delete => (Done, Vault(v.metas - {id}, v.blobs - {id}))
        case Fetch =>
          if HasBlob(v, id, now) then (Fetched(v.blobs[id].data, meta.expiresAt), v) else (NotReady, v)
  }

  function TargetOf(t: Tables, user: UserId, sid: Sid, action: Action, now: Time): Sid {
    if action == Put && GrantFor(t, user, sid, now) then t.grants[user].target else sid
  }

  function Access(t: Tables, v: Vault, user: UserId, sid: Sid, id: TransferId, action: Action, data: Bytes,
                  now: Time): (Outcome, Tables, Vault) {
    if !Authenticated(t, user, sid, now, action == Put) then (Unauthenticated, t, v)
    else
      var (outcome, v') := Script(v, user, TargetOf(t, user, sid, action, now), id, action, data, now);
      var spent := action == Delete && outcome.Done? && user in t.grants && t.grants[user].target == sid;
      (outcome, if spent then t.(grants := t.grants - {user}) else t, v')
  }

  function Create(t: Tables, v: Vault, user: UserId, sid: Sid, id: TransferId, now: Time): (bool, Vault) {
    if Authenticated(t, user, sid, now, false) then (true, CreateMeta(v, user, sid, id, now)) else (false, v)
  }

  class TransferService {
    const store: IdentityStore
    var metas: map<TransferId, Meta>
    var blobs: map<TransferId, Blob>

    constructor (store: IdentityStore)
      ensures this.store == store && View() == EMPTY_VAULT
    {
      this.store, metas, blobs := store, map[], map[];
    }

    ghost function View(): Vault
      reads this
    {
      Vault(metas, blobs)
    }

    method IsAuthenticated(user: UserId, sid: Sid, now: Time, upload: bool) returns (ok: bool)
      ensures ok == Authenticated(store.View(), user, sid, now, upload)
    {
      var valid := sid in store.sessions && store.sessions[sid].user == user
                   && store.sessions[sid].revokedAt == None && store.sessions[sid].expiresAt > now;
      if !valid && upload {
        if user in store.grants {
          var g := store.grants[user];
          valid := g.source == sid && g.expiresAt > now && g.target in store.sessions
                   && store.sessions[g.target].revokedAt == None && store.sessions[g.target].expiresAt > now;
        }
      }
      return valid && user in store.active && store.active[user];
    }

    method CreateTransfer(user: UserId, sid: Sid, id: TransferId, now: Time) returns (ok: bool)
      modifies this`metas
      ensures (ok, View()) == Create(store.View(), old(View()), user, sid, id, now)
    {
      ok := IsAuthenticated(user, sid, now, false);
      if ok && !(id in metas && metas[id].expiresAt > now) {
        metas := metas[id := Meta(user, sid, now + TRANSFER_LIFE)];
      }
    }

    method RunScript(owner: UserId, target: Sid, id: TransferId, action: Action, data: Bytes, now: Time)
      returns (outcome: Outcome)
      modifies this`metas, this`blobs
      ensures (outcome, View()) == Script(old(View()), owner, target, id, action, data, now)
    {
      if id !in metas || metas[id].expiresAt <= now {
        return Gone;
      }
      var meta := metas[id];
      if meta.owner != owner || meta.target != target {
        return NotFound;
      }
      var ttl := meta.expiresAt - now;
      if action == Put {
        if id in blobs && blobs[id].expiresAt > now {
          return AlreadyUploaded;
        }
        blobs := blobs[id := Blob(data, now + ttl)];
        return Done;
      } else if action == Delete {
        metas := metas - {id};
        blobs := blobs - {id};
        return Done;
      }
      if id !in blobs || blobs[id].expiresAt <= now {
        return NotReady;
      }
      return Fetched(blobs[id].data, meta.expiresAt);
    }

    method AccessTransfer(user: UserId, sid: Sid, id: TransferId, action: Action, data: Bytes, now: Time)
      returns (outcome: Outcome)
      modifies this`metas, this`blobs, store`grants
      ensures (outcome, store.View(), View())
              == Access(old(store.View()), old(View()), user, sid, id, action, data, now)
    {
      var ok := IsAuthenticated(user, sid, now, action == Put);
      if !ok {
        return Unauthenticated;
      }
      var target := sid;
      if action == Put && user in store.grants {
        var g := store.grants[user];
        if g.source == sid && g.expiresAt > now {
          target := g.target;
        }
      }
      outcome := RunScript(user, target, id, action, data, now);
      if action == Delete && outcome.Done? && user in store.grants && store.grants[user].target == sid {
        store.grants := store.grants - {user};
      }
    }
  }
}
