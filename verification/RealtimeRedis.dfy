/** The volatile half of an ephemeral delivery (python/chat/realtime_redis.py): presence per
    connection, attempts, payloads with a deadline, and the four sorted sets that index attempts. */
module RealtimeRedis {
  import opened Wrappers
  import opened Persistence
  import opened Ordering

  const RETENTION: Time := 30 * DAY
  const ACTIVE_LIMIT: nat := 1000

  datatype Phase = Offered | ReadyToSend | Sending | Sent | AttemptFailed | AttemptDelivered

  datatype Reason =
    | OfferTimeout | DeliveryTimeout | RecipientDisconnected
    | ConversationWasClosed | TemporaryUnavailable | VoteIsOpen

  datatype Attempt = Attempt(
    conversation: ConversationId, sender: UserId, recipient: UserId, deadline: Time, phase: Phase,
    connection: Option<ConnectionId>, failure: Option<Reason>, retainUntil: Time)

  /** `ephemeral:delivery:{message}:{recipient}`; its value is the time its TTL ends. */
  datatype PayloadKey = PayloadKey(message: MessageId, recipient: UserId)

  /** One member of one sorted set: the set is named by a conversation, a user or a connection. */
  datatype Entry = Entry(index: nat, message: MessageId)

  datatype Redis = Redis(
    presence: map<ConnectionId, UserId>, attempts: map<MessageId, Attempt>, payloads: map<PayloadKey, Time>,
    deadlines: map<MessageId, Time>, byConversation: map<Entry, Time>,
    byRecipient: map<Entry, Time>, byConnection: map<Entry, Time>)

  const LOST := Redis(map[], map[], map[], map[], map[], map[], map[])

  predicate Terminal(p: Phase) {
    p == AttemptFailed || p == AttemptDelivered
  }

  predicate Connected(r: Redis, connection: Option<ConnectionId>, user: UserId) {
    connection.Some? && connection.value in r.presence && r.presence[connection.value] == user
  }

  function Get(r: Redis, m: MessageId): Option<Attempt> {
    if m in r.attempts then Some(r.attempts[m]) else None
  }

  predicate HasPayload(r: Redis, m: MessageId, a: Attempt, now: Time) {
    var k := PayloadKey(m, a.recipient);
    k in r.payloads && r.payloads[k] > now
  }

  function Create(r: Redis, m: MessageId, a: Attempt): Redis {
    r.(attempts := r.attempts[m := a],
       deadlines := r.deadlines[m := a.deadline],
       byConversation := r.byConversation[Entry(a.conversation, m) := a.deadline],
       byRecipient := r.byRecipient[Entry(a.recipient, m) := a.deadline])
  }

  function Save(r: Redis, m: MessageId, a: Attempt): Redis {
    var kept := r.(
                attempts := r.attempts[m := a],
                byRecipient := if a.phase != Offered then r.byRecipient - {Entry(a.recipient, m)} else r.byRecipient);
    if Terminal(a.phase) then
      kept.(payloads := r.payloads - {PayloadKey(m, a.recipient)},
            deadlines := r.deadlines - {m},
            byConversation := r.byConversation - {Entry(a.conversation, m)},
            byConnection := if a.connection.Some? then r.byConnection - {Entry(a.connection.value, m)}
              else r.byConnection)
    else
      kept.(deadlines := r.deadlines[m := a.deadline],
            byConversation := r.byConversation[Entry(a.conversation, m) := a.deadline],
            byConnection := if a.connection.Some? then r.byConnection[Entry(a.connection.value, m) := a.deadline]
            else r.byConnection)
  }

  function PutPayload(r: Redis, m: MessageId, a: Attempt): Redis {
    r.(payloads := r.payloads[PayloadKey(m, a.recipient) := a.deadline])
  }

  function DropPayload(r: Redis, m: MessageId, recipient: UserId): Redis {
    r.(payloads := r.payloads - {PayloadKey(m, recipient)})
  }

  // ---- The indexes agree with the attempts ------------------------------------------

  predicate Live(a: Attempt) {
    !Terminal(a.phase)
  }

  predicate Holds(index: map<Entry, Time>, e: Entry, score: Time) {
    e in index && index[e] == score
  }

  /** Every index holds message `m` exactly where attempt `a` says it belongs, with its deadline. */
  ghost predicate Indexed(r: Redis, m: MessageId, a: Attempt) {
    && (if Live(a) then m in r.deadlines && r.deadlines[m] == a.deadline else m !in r.deadlines)
    && (forall c: nat :: if Live(a) && c == a.conversation
                         then Holds(r.byConversation, Entry(c, m), a.deadline) else Entry(c, m) !in r.byConversation)
    && (forall u: nat :: if a.phase == Offered && u == a.recipient
                         then Holds(r.byRecipient, Entry(u, m), a.deadline) else Entry(u, m) !in r.byRecipient)
    && (forall k: nat :: if Live(a) && a.connection == Some(k)
                         then Holds(r.byConnection, Entry(k, m), a.deadline) else Entry(k, m) !in r.byConnection)
  }

  ghost predicate Unindexed(r: Redis, m: MessageId) {
    && m !in r.deadlines
    && (forall c: nat :: Entry(c, m) !in r.byConversation && Entry(c, m) !in r.byRecipient
          && Entry(c, m) !in r.byConnection)
  }

  ghost predicate IndexOk(r: Redis) {
    forall m :: if m in r.attempts then Indexed(r, m, r.attempts[m]) else Unindexed(r, m)
  }

  /** `save` never moves an attempt: same conversation and recipient, and a connection only ever fills in. */
  ghost predicate Follows(a: Attempt, b: Attempt) {
    && b.conversation == a.conversation && b.recipient == a.recipient
    && (a.connection.Some? ==> b.connection == a.connection)
    && b.phase != Offered
  }

  lemma CreateKeepsIndexes(r: Redis, m: MessageId, a: Attempt)
    requires IndexOk(r) && m !in r.attempts && a.phase == Offered && a.connection == None
    ensures IndexOk(Create(r, m, a))
  {
    assert Unindexed(r, m);
    var s := Create(r, m, a);
    forall x ensures if x in s.attempts then Indexed(s, x, s.attempts[x]) else Unindexed(s, x) {
      if x in r.attempts { assert Indexed(r, x, r.attempts[x]); } else { assert Unindexed(r, x); }
    }
  }

  lemma SaveIndexes(r: Redis, m: MessageId, a: Attempt)
    requires if m in r.attempts then Indexed(r, m, r.attempts[m]) && Follows(r.attempts[m], a) else Unindexed(r, m)
    requires a.phase != Offered
    ensures Indexed(Save(r, m, a), m, a)
  {
  }

  lemma SaveLeavesOthers(r: Redis, m: MessageId, a: Attempt, x: MessageId)
    requires x != m
    ensures forall b :: Indexed(r, x, b) ==> Indexed(Save(r, m, a), x, b)
    ensures Unindexed(r, x) ==> Unindexed(Save(r, m, a), x)
  {
  }

  lemma SaveKeepsIndexes(r: Redis, m: MessageId, a: Attempt)
    requires IndexOk(r) && a.phase != Offered
    requires m in r.attempts ==> Follows(r.attempts[m], a)
    ensures IndexOk(Save(r, m, a))
  {
    var s := Save(r, m, a);
    forall x ensures if x in s.attempts then Indexed(s, x, s.attempts[x]) else Unindexed(s, x) {
      if x != m { SaveLeavesOthers(r, m, a, x); } else { SaveIndexes(r, m, a); }
    }
  }

  // ---- Reading an index -------------------------------------------------------------

  datatype Filter = All | OfConversation(conversation: ConversationId) | OfConnection(connection: ConnectionId)
                  | OfRecipient(recipient: UserId)

  /** The members of the sorted set a filter names, as (score, member). */
  function IndexKeys(r: Redis, f: Filter): set<Key> {
    match f
    case All => set m | m in r.deadlines :: Key(1, r.deadlines[m], m)
    case OfConversation(c) => set e | e in r.byConversation && e.index == c :: Key(1, r.byConversation[e], e.message)
    case OfConnection(c) => set e | e in r.byConnection && e.index == c :: Key(1, r.byConnection[e], e.message)
    case OfRecipient(u) => set e | e in r.byRecipient && e.index == u :: Key(1, r.byRecipient[e], e.message)
  }

  /** What a scan of every attempt would select. */
  predicate Selects(f: Filter, a: Attempt) {
    match f
    case All => Live(a)
    case OfConversation(c) => Live(a) && a.conversation == c
    case OfConnection(c) => Live(a) && a.connection == Some(c)
    case OfRecipient(u) => a.phase == Offered && a.recipient == u
  }

  function ScanKeys(r: Redis, f: Filter): set<Key> {
    set m | m in r.attempts && Selects(f, r.attempts[m]) :: Key(1, r.attempts[m].deadline, m)
  }

  /** ZRANGEBYSCORE -inf +inf LIMIT 0 1000: by score, then by member. */
  ghost function ActiveKeys(r: Redis, f: Filter): seq<Key> {
    Take(Ascending(IndexKeys(r, f)), ACTIVE_LIMIT)
  }

  lemma IndexKeysAreScanKeys(r: Redis, f: Filter, m: MessageId, at: Time)
    requires if m in r.attempts then Indexed(r, m, r.attempts[m]) else Unindexed(r, m)
    ensures Key(1, at, m) in IndexKeys(r, f) <==> Key(1, at, m) in ScanKeys(r, f)
  {
    match f {
      case All =>
      case OfConversation(c) =>
        if Entry(c, m) in r.byConversation { assert Key(1, r.byConversation[Entry(c, m)], m) in IndexKeys(r, f); }
      case OfConnection(c) =>
        if Entry(c, m) in r.byConnection { assert Key(1, r.byConnection[Entry(c, m)], m) in IndexKeys(r, f); }
      case OfRecipient(u) =>
        if Entry(u, m) in r.byRecipient { assert Key(1, r.byRecipient[Entry(u, m)], m) in IndexKeys(r, f); }
    }
  }

  lemma IndexIsScan(r: Redis, f: Filter)
    requires IndexOk(r)
    ensures IndexKeys(r, f) == ScanKeys(r, f)
  {
    forall k | k in IndexKeys(r, f) ensures k in ScanKeys(r, f) {
      IndexKeysAreScanKeys(r, f, k.id, k.at);
    }
    forall k | k in ScanKeys(r, f) ensures k in IndexKeys(r, f) {
      IndexKeysAreScanKeys(r, f, k.id, k.at);
    }
  }

  /** Reading through an index is a full scan of the attempts in deadline order, up to its limit. */
  lemma ActiveIsFullScan(r: Redis, f: Filter)
    requires IndexOk(r)
    ensures ActiveKeys(r, f) == Take(Ascending(ScanKeys(r, f)), ACTIVE_LIMIT)
    ensures forall k :: k in ActiveKeys(r, f) ==> k in ScanKeys(r, f)
  {
    IndexIsScan(r, f);
  }

  function DropEntry(r: Redis, f: Filter, m: MessageId): Redis {
    match f
    case All => r.(deadlines := r.deadlines - {m})
    case OfConversation(c) => r.(byConversation := r.byConversation - {Entry(c, m)})
    case OfConnection(c) => r.(byConnection := r.byConnection - {Entry(c, m)})
    case OfRecipient(u) => r.(byRecipient := r.byRecipient - {Entry(u, m)})
  }

  /** Reading an index removes the members whose attempt has expired. */
  function Sweep(r: Redis, f: Filter, keys: seq<Key>): (s: Redis)
    ensures s.attempts == r.attempts
  {
    if keys == [] then r
    else
      var before, m := Sweep(r, f, keys[..|keys| - 1]), keys[|keys| - 1].id;
      if m in r.attempts then before else DropEntry(before, f, m)
  }

  /** The members whose attempt is still there, in index order. */
  function Found(r: Redis, keys: seq<Key>): seq<MessageId> {
    if keys == [] then []
    else
      var m := keys[|keys| - 1].id;
      Found(r, keys[..|keys| - 1]) + if m in r.attempts then [m] else []
  }

  /** With indexes that agree, a read removes nothing and finds every member. */
  lemma {:induction false} SweepIsIdle(r: Redis, f: Filter, keys: seq<Key>)
    requires forall k :: k in keys ==> k.id in r.attempts
    ensures Sweep(r, f, keys) == r
    ensures |Found(r, keys)| == |keys|
    ensures forall i :: 0 <= i < |keys| ==> Found(r, keys)[i] == keys[i].id
  {
    if keys != [] {
      SweepIsIdle(r, f, keys[..|keys| - 1]);
    }
  }

  /** One Redis server. Every method runs its commands on the keys kept here in the order of the source. */
  class RedisServer {
    var presence: map<ConnectionId, UserId>
    var attempts: map<MessageId, Attempt>
    var payloads: map<PayloadKey, Time>
    var deadlines: map<MessageId, Time>
    var byConversation: map<Entry, Time>
    var byRecipient: map<Entry, Time>
    var byConnection: map<Entry, Time>

    constructor ()
      ensures View() == LOST
    {
      presence, attempts, payloads := map[], map[], map[];
      deadlines, byConversation, byRecipient, byConnection := map[], map[], map[], map[];
    }

    ghost function View(): Redis
      reads this
    {
      Redis(presence, attempts, payloads, deadlines, byConversation, byRecipient, byConnection)
    }

    /** A first announcement needs a new key and a renewal an existing one: a lost connection stays lost. The
        time to live of the key is not kept, so a lapse is a step of its own, and neither is the set of a
        user's connections. */
    method Announce(user: UserId, connection: ConnectionId, renew: bool) returns (ok: bool)
      modifies this`presence
      ensures ok <==> (renew <==> connection in old(presence))
      ensures presence == if ok then old(presence)[connection := user] else old(presence)
    {
      ok := if renew then connection in presence else connection !in presence;
      if ok {
        presence := presence[connection := user];
      }
    }

    predicate IsConnected(connection: Option<ConnectionId>, user: UserId)
      reads this
      ensures IsConnected(connection, user) == Connected(View(), connection, user)
    {
      connection.Some? && connection.value in presence && presence[connection.value] == user
    }

    predicate PayloadPresent(m: MessageId, a: Attempt, now: Time)
      reads this
      ensures PayloadPresent(m, a, now) == HasPayload(View(), m, a, now)
    {
      PayloadKey(m, a.recipient) in payloads && payloads[PayloadKey(m, a.recipient)] > now
    }

    method Disconnect(connection: ConnectionId)
      modifies this`presence
      ensures presence == old(presence) - {connection}
    {
      presence := presence - {connection};
    }

    /** SET NX: false when an attempt with this identifier is already there, and then nothing changes. */
    method CreateAttempt(m: MessageId, a: Attempt) returns (ok: bool)
      modifies this
      ensures ok <==> m !in old(attempts)
      ensures View() == if ok then Create(old(View()), m, a) else old(View())
    {
      if m in attempts {
        return false;
      }
      attempts := attempts[m := a];
      deadlines := deadlines[m := a.deadline];
      byConversation := byConversation[Entry(a.conversation, m) := a.deadline];
      byRecipient := byRecipient[Entry(a.recipient, m) := a.deadline];
      return true;
    }

    /** The writes of save on the attempt, the payload and the four sorted sets. The times to live, and the
        offer key that the same pipeline writes, are left out. */
    method SaveAttempt(m: MessageId, a: Attempt)
      modifies this
      ensures View() == Save(old(View()), m, a)
    {
      attempts := attempts[m := a];
      if a.phase != Offered {
        byRecipient := byRecipient - {Entry(a.recipient, m)};
      }
      if a.phase == AttemptFailed || a.phase == AttemptDelivered {
        payloads := payloads - {PayloadKey(m, a.recipient)};
        deadlines := deadlines - {m};
        byConversation := byConversation - {Entry(a.conversation, m)};
        if a.connection.Some? {
          byConnection := byConnection - {Entry(a.connection.value, m)};
        }
      } else {
        deadlines := deadlines[m := a.deadline];
        byConversation := byConversation[Entry(a.conversation, m) := a.deadline];
        if a.connection.Some? {
          byConnection := byConnection[Entry(a.connection.value, m) := a.deadline];
        }
      }
    }

    /** Refused once the deadline has passed; otherwise the key lives exactly until the deadline. */
    method WritePayload(m: MessageId, a: Attempt, now: Time) returns (ok: bool)
      modifies this
      ensures ok <==> a.deadline > now
      ensures View() == if ok then PutPayload(old(View()), m, a) else old(View())
    {
      var remaining := a.deadline - now;
      if remaining <= 0 {
        return false;
      }
      payloads := payloads[PayloadKey(m, a.recipient) := now + remaining];
      return true;
    }

    method DeletePayload(m: MessageId, recipient: UserId)
      modifies this
      ensures View() == DropPayload(old(View()), m, recipient)
    {
      payloads := payloads - {PayloadKey(m, recipient)};
    }

    method Members(f: Filter) returns (keys: set<Key>)
      ensures keys == IndexKeys(View(), f)
    {
      match f {
        case All => keys := set m | m in deadlines :: Key(1, deadlines[m], m);
        case OfConversation(c) =>
          keys := set e | e in byConversation && e.index == c :: Key(1, byConversation[e], e.message);
        case OfConnection(c) =>
          keys := set e | e in byConnection && e.index == c :: Key(1, byConnection[e], e.message);
        case OfRecipient(u) =>
          keys := set e | e in byRecipient && e.index == u :: Key(1, byRecipient[e], e.message);
      }
    }

    /** ZREM of one member from the set the filter names. */
    method Remove(f: Filter, m: MessageId)
      modifies this
      ensures View() == DropEntry(old(View()), f, m)
    {
      match f {
        case All => deadlines := deadlines - {m};
        case OfConversation(c) => byConversation := byConversation - {Entry(c, m)};
        case OfConnection(c) => byConnection := byConnection - {Entry(c, m)};
        case OfRecipient(u) => byRecipient := byRecipient - {Entry(u, m)};
      }
    }

    method Collect(f: Filter, batch: seq<Key>) returns (found: seq<MessageId>)
      modifies this
      ensures found == Found(old(View()), batch)
      ensures View() == Sweep(old(View()), f, batch)
    {
      found := [];
      for i := 0 to |batch|
        invariant found == Found(old(View()), batch[..i])
        invariant View() == Sweep(old(View()), f, batch[..i])
      {
        assert batch[..i + 1][..i] == batch[..i];
        var m := batch[i].id;
        if m in attempts {
          found := found + [m];
        } else {
          Remove(f, m);
        }
      }
      assert batch[..|batch|] == batch;
    }

    /** Reads up to 1000 members of the index and drops those without an attempt. */
    method Active(f: Filter) returns (found: seq<MessageId>)
      modifies this
      ensures found == Found(old(View()), ActiveKeys(old(View()), f))
      ensures View() == Sweep(old(View()), f, ActiveKeys(old(View()), f))
    {
      var keys := Members(f);
      var sorted := Sort(keys);
      found := Collect(f, Take(sorted, ACTIVE_LIMIT));
    }
  }
}
