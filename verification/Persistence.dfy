/** The PostgreSQL tables that conversations, votes and deliveries share, and the two
    operations of python/chat/persistence.py on them: the idempotent write of a message
    and the lazily filtered history. Times are integer milliseconds of one clock. */
module Persistence {
  import opened Wrappers

  type Time = int
  type UserId = nat
  type ConversationId = nat
  type MessageId = nat
  type ConnectionId = nat
  type Bytes = seq<bv8>

  const DAY: Time := 86_400_000
  const EVENT_LIFE: Time := 30 * DAY
  const GRACE_CEILING: nat := 5

  datatype Mode = Stored | Ephemeral
  datatype Status = Pending | Active | Closed
  datatype Membership = Invited | Accepted | Left
  datatype VoteStatus = Open | Approved | Rejected
  datatype DeliveryStatus = Waiting | Delivered | Failed | Expired

  datatype Vote = Vote(
    eligible: set<UserId>, eligibleMembers: nat, createdAt: Time, expiresAt: Time,
    status: VoteStatus, closedAt: Option<Time>, ballots: map<UserId, bool>)

  /** A conversation has exactly a host and a guest; only their membership status changes. */
  datatype Conversation = Conversation(
    mode: Mode, status: Status, graceLimit: nat, graceUsed: nat,
    host: UserId, guest: UserId, hostStatus: Membership, guestStatus: Membership,
    acceptedAt: Option<Time>, votes: seq<Vote>)

  datatype Content = Content(cryptoMeta: Bytes, ciphertext: Bytes)

  /** SHA-256 of the version, the metadata and the ciphertext, taken as injective. */
  datatype Fingerprint = Fingerprint(of: Content)

  datatype Event = Event(
    conversation: ConversationId, sender: UserId, sentAt: Time, expiresAt: Time,
    fingerprint: Fingerprint, mode: Mode)

  datatype StoredContent = StoredContent(content: Content, isGrace: bool, expiresAt: Time)

  datatype Delivery = Delivery(
    recipient: UserId, status: DeliveryStatus, receivedAt: Option<Time>,
    deadline: Option<Time>, connection: Option<ConnectionId>)

  datatype Db = Db(
    conversations: map<ConversationId, Conversation>, events: map<MessageId, Event>,
    messages: map<MessageId, StoredContent>, deliveries: map<MessageId, Delivery>)

  datatype Write = Write(id: MessageId, conversation: ConversationId, sender: UserId, content: Content)

  /** Unavailable and Conflict are exceptions; only Created lets the caller go on to publish. */
  datatype Outcome = Unavailable | Conflict | Duplicate(original: Event) | Created(event: Event)

  function Present(c: Conversation, u: UserId): bool {
    (u == c.host && c.hostStatus != Left) || (u == c.guest && c.guestStatus != Left)
  }

  predicate BothPresent(c: Conversation) {
    c.hostStatus != Left && c.guestStatus != Left
  }

  function Peer(c: Conversation, u: UserId): UserId {
    if u == c.host then c.guest else c.host
  }

  predicate VoteOpen(c: Conversation, t: Time) {
    exists v :: v in c.votes && v.status == Open && v.expiresAt > t
  }

  function Min(a: nat, b: nat): nat { if a <= b then a else b }

  predicate GraceExhausted(c: Conversation) {
    c.status == Pending && c.graceUsed >= Min(GRACE_CEILING, c.graceLimit)
  }

  /** The vote is checked at `checkAt` and the event stamped at `stampAt`: two clock reads. */
  function Record(db: Db, w: Write, checkAt: Time, stampAt: Time): (Outcome, Db) {
    if w.conversation !in db.conversations then (Unavailable, db)
    else
      var c := db.conversations[w.conversation];
      if w.id in db.events then
        var e := db.events[w.id];
        if e.conversation != w.conversation || e.sender != w.sender || e.fingerprint != Fingerprint(w.content)
        then (Conflict, db) else (Duplicate(e), db)
      else if c.status == Closed || !Present(c, w.sender) || !BothPresent(c)
           || VoteOpen(c, checkAt) || GraceExhausted(c) then (Unavailable, db)
      else
        var grace := c.status == Pending;
        var e := Event(w.conversation, w.sender, stampAt, stampAt + EVENT_LIFE, Fingerprint(w.content), c.mode);
        (Created(e), Db(
          db.conversations[w.conversation := c.(graceUsed := c.graceUsed + if grace then 1 else 0)],
          db.events[w.id := e],
          if c.mode == Stored
          then db.messages[w.id := StoredContent(w.content, grace, stampAt + EVENT_LIFE)] else db.messages,
          db.deliveries[w.id := Delivery(Peer(c, w.sender), Waiting, None, None, None)]))
  }

  /** The purge of expired content and expired events; deleting an event cascades. */
  function Cleanup(db: Db, t: Time): Db {
    Db(db.conversations,
       map m | m in db.events && db.events[m].expiresAt > t :: db.events[m],
       map m | m in db.messages && db.messages[m].expiresAt > t
               && !(m in db.events && db.events[m].expiresAt <= t) :: db.messages[m],
       map m | m in db.deliveries && !(m in db.events && db.events[m].expiresAt <= t) :: db.deliveries[m])
  }

  /** How many of the ballots cast so far say yes. */
  function YesVotes(v: Vote): nat {
    |YesVoters(v)|
  }

  function YesVoters(v: Vote): set<UserId> {
    set u | u in v.ballots && v.ballots[u]
  }

  function NoVoters(v: Vote): set<UserId> {
    set u | u in v.ballots && !v.ballots[u]
  }

  /** The reader's own view of a vote that is due: nobody has to have resolved it. */
  predicate GraceHidden(c: Conversation, t: Time) {
    exists v :: v in c.votes
                && (v.status == Rejected
                    || (v.status == Open && v.expiresAt <= t && 2 * YesVotes(v) <= v.eligibleMembers))
  }

  predicate Visible(db: Db, conversation: ConversationId, viewer: UserId, m: MessageId, t: Time) {
    && conversation in db.conversations
    && var c := db.conversations[conversation];
    && c.mode == Stored && Present(c, viewer)
    && m in db.events && db.events[m].conversation == conversation && db.events[m].expiresAt > t
    && m in db.messages && db.messages[m].expiresAt > t
    && !(db.messages[m].isGrace && GraceHidden(c, t))
  }

  /** Message rows the history query may return, before ordering and paging. */
  function History(db: Db, conversation: ConversationId, viewer: UserId, t: Time): map<MessageId, StoredContent> {
    map m | m in db.messages && Visible(db, conversation, viewer, m, t) :: db.messages[m]
  }

  /** One PostgreSQL database: the tables, and the write of python/chat/persistence.py. */
  class Database {
    var conversations: map<ConversationId, Conversation>
    var events: map<MessageId, Event>
    var messages: map<MessageId, StoredContent>
    var deliveries: map<MessageId, Delivery>

    constructor ()
      ensures View() == Db(map[], map[], map[], map[])
    {
      conversations, events, messages, deliveries := map[], map[], map[], map[];
    }

    ghost function View(): Db
      reads this
    {
      Db(conversations, events, messages, deliveries)
    }

    /** Statement by statement: lock, duplicate check, guards, event, content, delivery, counter. */
    method RecordMessage(w: Write, checkAt: Time, stampAt: Time) returns (outcome: Outcome)
      modifies this
      ensures (outcome, View()) == Record(old(View()), w, checkAt, stampAt)
    {
      if w.conversation !in conversations {
        return Unavailable;
      }
      var c := conversations[w.conversation];
      if w.id in events {
        var existing := events[w.id];
        if existing.conversation != w.conversation || existing.sender != w.sender
           || existing.fingerprint != Fingerprint(w.content) {
          return Conflict;
        }
        return Duplicate(existing);
      }
      if c.status == Closed {
        return Unavailable;
      }
      if !Present(c, w.sender) || !BothPresent(c) {
        return Unavailable;
      }
      if VoteOpen(c, checkAt) {
        return Unavailable;
      }
      var grace := c.status == Pending;
      if grace && c.graceUsed >= Min(c.graceLimit, GRACE_CEILING) {
        return Unavailable;
      }
      var event := Event(w.conversation, w.sender, stampAt, stampAt + EVENT_LIFE, Fingerprint(w.content), c.mode);
      events := events[w.id := event];
      if c.mode == Stored {
        messages := messages[w.id := StoredContent(w.content, grace, event.sentAt + EVENT_LIFE)];
      }
      deliveries := deliveries[w.id := Delivery(Peer(c, w.sender), Waiting, None, None, None)];
      if grace {
        c := c.(graceUsed := c.graceUsed + 1);
      }
      conversations := conversations[w.conversation := c];
      return Created(event);
    }

    /** Statement order of CLEANUP_SQL: contents first, then events with their cascades. */
    method Purge(t: Time)
      modifies this
      ensures View() == Cleanup(old(View()), t)
    {
      messages := map m | m in messages && messages[m].expiresAt > t :: messages[m];
      var gone := set m | m in events && events[m].expiresAt <= t;
      events := events - gone;
      messages := messages - gone;
      deliveries := deliveries - gone;
    }
  }
}
