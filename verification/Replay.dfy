/** The ordered relay of a history replay (python/chat/replay.py): one Redis key per replay counts the
    items and names the two sockets; what passes is published to the target socket and not stored. */
module Replay {
  import opened Wrappers
  import opened Persistence
  import opened Messaging

  type ReplayId = nat

  const REPLAY_LIFE: Time := 900_000
  const ITEM_CEILING: nat := 4_294_967_295

  /** The re-encrypted copy of one message; `text` is what the receiver's key makes of it, if anything. */
  datatype Item = Item(id: Option<MessageId>, time: Option<Time>, text: Option<Bytes>)

  datatype Body = Begin | Piece(sequence: nat, item: Item) | End(count: nat)

  datatype Frame = Frame(replay: ReplayId, body: Body)

  datatype Track = Track(
    sender: UserId, connection: ConnectionId, conversation: ConversationId,
    recipient: UserId, target: ConnectionId, next: nat, finished: bool, expiresAt: Time)

  /** Who sends: the authenticated user, over which socket, about which conversation. */
  datatype Origin = Origin(user: UserId, connection: ConnectionId, conversation: ConversationId)

  /** One frame on the channel of its recipient, for one of the recipient's sockets. */
  datatype Published = Published(recipient: UserId, target: ConnectionId, origin: Origin, frame: Frame)

  /** The keys by replay, and everything published so far in order. */
  datatype Relay = Relay(tracks: map<ReplayId, Track>, log: seq<Published>)

  const SILENT := Relay(map[], [])

  /** Outside facts of one call: presence keys, the sockets of the peer, and the rate limiter's verdict. */
  datatype Ambient = Ambient(connected: set<ConnectionId>, peerSockets: seq<ConnectionId>, allowed: bool)

  datatype Verdict =
    | Refused(refusal: Refusal) | NotActive | NoRecipient | TooMany
    | NotFound404 | Conflict409 | Expired410 | BadSequence422 | Unavailable503 | Relayed

  predicate HasTrack(tracks: map<ReplayId, Track>, id: ReplayId, now: Time) {
    id in tracks && tracks[id].expiresAt > now
  }

  predicate SameOrigin(t: Track, o: Origin) {
    t.sender == o.user && t.connection == o.connection && t.conversation == o.conversation
  }

  function OriginOf(t: Track): Origin {
    Origin(t.sender, t.connection, t.conversation)
  }

  predicate MemberAccepted(c: Conversation, u: UserId) {
    (u == c.host && c.hostStatus == Accepted) || (u == c.guest && c.guestStatus == Accepted)
  }

  /** The checks before the script. */
  function Gate(db: Db, o: Origin, body: Body, a: Ambient, now: Time): Option<Verdict> {
    match Permitted(db, o.user, o.conversation, now)
    case Some(refusal) => Some(Refused(refusal))
    case None =>
      var c := db.conversations[o.conversation];
      if c.status != Active then Some(NotActive)
      else if body.Begin? && (!MemberAccepted(c, Peer(c, o.user)) || a.peerSockets == []) then Some(NoRecipient)
      else if body.Piece? && !a.allowed then Some(TooMany)
      else None
  }

  function NumberOf(body: Body): nat {
    match body
    case Begin => 0
    case Piece(sequence, _) => sequence
    case End(count) => count
  }

  /** The record the script works on, or its early refusal. */
  function Loaded(tracks: map<ReplayId, Track>, o: Origin, begun: Track, f: Frame, now: Time): (Verdict, Track) {
    if f.body.Begin? then
      if HasTrack(tracks, f.replay, now) then (Conflict409, begun) else (Relayed, begun)
    else if !HasTrack(tracks, f.replay, now) then (Expired410, begun)
    else
      var t := tracks[f.replay];
      if !SameOrigin(t, o) then (NotFound404, t)
      else if t.finished then (Expired410, t)
      else if NumberOf(f.body) != t.next then (BadSequence422, t)
      else (Relayed, t)
  }

  /** The Lua script, with the record a begin would install. */
  function Script(r: Relay, o: Origin, begun: Track, f: Frame, connected: set<ConnectionId>,
                  now: Time): (Verdict, Relay) {
    var (early, t) := Loaded(r.tracks, o, begun, f, now);
    if early != Relayed then (early, r)
    else if t.connection !in connected || t.target !in connected
    then (Unavailable503, r.(tracks := r.tracks - {f.replay}))
    else if f.body.Piece? && t.next >= ITEM_CEILING then (BadSequence422, r)
    else
      var t' := t.(next := if f.body.Piece? then t.next + 1 else t.next, finished := t.finished || f.body.End?);
      (Relayed, Relay(r.tracks[f.replay := t'], r.log + [Published(t.recipient, t.target, o, f)]))
  }

  function NewTrack(db: Db, o: Origin, a: Ambient, now: Time): Track
    requires o.conversation in db.conversations
  {
    Track(o.user, o.connection, o.conversation, Peer(db.conversations[o.conversation], o.user),
          if a.peerSockets == [] then 0 else a.peerSockets[0], 0, false, now + REPLAY_LIFE)
  }

  function RelayFrame(db: Db, r: Relay, o: Origin, f: Frame, a: Ambient, now: Time): (Verdict, Relay) {
    match Gate(db, o, f.body, a, now)
    case Some(verdict) => (verdict, r)
    case None => Script(r, o, NewTrack(db, o, a, now), f, a.connected, now)
  }

  class RelayServer {
    const messenger: Messenger
    var tracks: map<ReplayId, Track>
    var log: seq<Published>

    constructor (messenger: Messenger)
      ensures this.messenger == messenger && View() == SILENT
    {
      this.messenger, tracks, log := messenger, map[], [];
    }

    ghost function View(): Relay
      reads this
    {
      Relay(tracks, log)
    }

    method RunScript(o: Origin, begun: Track, f: Frame, connected: set<ConnectionId>, now: Time)
      returns (verdict: Verdict)
      modifies this
      ensures (verdict, View()) == Script(old(View()), o, begun, f, connected, now)
    {
      var data := begun;
      var present := f.replay in tracks && tracks[f.replay].expiresAt > now;
      if f.body.Begin? {
        if present {
          return Conflict409;
        }
      } else {
        if !present {
          return Expired410;
        }
        data := tracks[f.replay];
        if data.sender != o.user || data.connection != o.connection || data.conversation != o.conversation {
          return NotFound404;
        }
        if data.finished {
          return Expired410;
        }
        if NumberOf(f.body) != data.next {
          return BadSequence422;
        }
      }
      if data.connection !in connected || data.target !in connected {
        tracks := tracks - {f.replay};
        return Unavailable503;
      }
      if f.body.Piece? {
        if data.next >= ITEM_CEILING {
          return BadSequence422;
        }
        data := data.(next := data.next + 1);
      }
      if f.body.End? {
        data := data.(finished := true);
      }
      tracks := tracks[f.replay := data];
      log := log + [Published(data.recipient, data.target, o, f)];
      return Relayed;
    }

    method Handle(o: Origin, f: Frame, a: Ambient, now: Time) returns (verdict: Verdict)
      modifies this
      ensures (verdict, View()) == RelayFrame(messenger.database.View(), old(View()), o, f, a, now)
    {
      var refusal := messenger.CheckPermitted(o.user, o.conversation, now);
      if refusal.Some? {
        return Refused(refusal.value);
      }
      var row := messenger.database.conversations[o.conversation];
      if row.status != Active {
        return NotActive;
      }
      var begun := Track(o.user, o.connection, o.conversation, Peer(row, o.user), 0, 0, false, now + REPLAY_LIFE);
      if f.body.Begin? {
        if !MemberAccepted(row, begun.recipient) || a.peerSockets == [] {
          return NoRecipient;
        }
      } else if f.body.Piece? && !a.allowed {
        return TooMany;
      }
      if a.peerSockets != [] {
        begun := begun.(target := a.peerSockets[0]);
      }
      verdict := RunScript(o, begun, f, a.connected, now);
    }
  }
}
