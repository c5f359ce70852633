/** The receiving half of a replay in the browser (web/public/chat.js): items collect aside and join the
    room's messages only when an end arrives with the right count. */
module ReplayRoom {
  import opened Wrappers
  import opened Persistence
  import opened Replay

  const ROOM_LIMIT: nat := 500

  datatype Copy = Copy(
    id: MessageId, text: Bytes, own: bool, grace: bool, time: Time, expires: Option<Time>, recovered: bool)

  datatype VoteView = VoteView(id: nat, status: VoteStatus)

  datatype Incoming = Incoming(id: ReplayId, next: nat, messages: seq<Copy>)

  /** `messages` in insertion order, as a JavaScript Map keeps them; identifiers are distinct. */
  datatype Room = Room(acceptedAt: Option<Time>, vote: Option<VoteView>, messages: seq<Copy>, replay: Option<Incoming>)

  predicate HasId(ms: seq<Copy>, id: MessageId) {
    exists i :: 0 <= i < |ms| && ms[i].id == id
  }

  predicate GraceRejected(vote: Option<VoteView>) {
    vote.Some? && vote.value.status == VoteStatus.Rejected
  }

  function NonGrace(ms: seq<Copy>): seq<Copy> {
    if ms == [] then [] else NonGrace(ms[..|ms| - 1]) + if ms[|ms| - 1].grace then [] else [ms[|ms| - 1]]
  }

  /** The first of the oldest messages: what a stable sort by time puts in front. */
  function Oldest(ms: seq<Copy>): (k: nat)
    requires ms != []
    ensures k < |ms| && forall j :: 0 <= j < |ms| ==> ms[k].time <= ms[j].time
    ensures forall j :: 0 <= j < k ==> ms[k].time < ms[j].time
  {
    if |ms| == 1 then 0
    else
      var k := Oldest(ms[..|ms| - 1]);
      if ms[|ms| - 1].time < ms[k].time then |ms| - 1 else k
  }

  function Drop(ms: seq<Copy>, k: nat): seq<Copy>
    requires k < |ms|
  {
    ms[..k] + ms[k + 1..]
  }

  function Trim(ms: seq<Copy>): seq<Copy>
    decreases |ms|
  {
    if |ms| <= ROOM_LIMIT then ms else Trim(Drop(ms, Oldest(ms)))
  }

  lemma TrimStep(ms: seq<Copy>)
    requires |ms| > ROOM_LIMIT
    ensures Trim(ms) == Trim(ms[..Oldest(ms)] + ms[Oldest(ms) + 1..])
  {
  }

  /** Adds what is neither rejected grace nor already held, in order. */
  function Merge(ms: seq<Copy>, add: seq<Copy>, rejected: bool): seq<Copy> {
    if add == [] then ms
    else
      var before, c := Merge(ms, add[..|add| - 1], rejected), add[|add| - 1];
      if (c.grace && rejected) || HasId(before, c.id) then before else before + [c]
  }

  function IsGrace(acceptedAt: Option<Time>, time: Time): bool {
    acceptedAt == None || time < acceptedAt.value
  }

  function Or<T>(value: Option<T>, other: T): T {
    if value.Some? then value.value else other
  }

  function CopyOf(acceptedAt: Option<Time>, x: Item, at: Time, unique: MessageId): Copy
    requires x.text.Some?
  {
    Copy(Or(x.id, unique), x.text.value, false, IsGrace(acceptedAt, Or(x.time, at)), Or(x.time, at), None, true)
  }

  /** One frame, received at `at`; `unique` is the identifier an item without one gets. An error forgets
      the replay. */
  function ReceiveReplay(r: Room, f: Frame, at: Time, unique: MessageId): Room {
    if f.body.Begin? then r.(replay := Some(Incoming(f.replay, 0, [])))
    else if r.replay == None || r.replay.value.id != f.replay then r
    else
      var p := r.replay.value;
      match f.body
      case Piece(sequence, x) =>
        if sequence != p.next || p.next >= ROOM_LIMIT || x.text == None then r.(replay := None)
        else r.(replay := Some(Incoming(p.id, p.next + 1, p.messages + [CopyOf(r.acceptedAt, x, at, unique)])))
      case End(count) =>
        if count != p.next then r.(replay := None)
        else r.(replay := None, messages := Trim(Merge(r.messages, p.messages, GraceRejected(r.vote))))
  }

  /** A late reading of an open vote does not undo its result; a rejection removes grace copies, those of a
      replay under way included. */
  function ApplyVote(r: Room, vote: Option<VoteView>): Room {
    if r.vote.Some? && r.vote.value.status != Open && vote.Some? && vote.value.status == Open
      && vote.value.id == r.vote.value.id
    then r
    else if !GraceRejected(vote) then r.(vote := vote)
    else
      r.(vote := vote, messages := NonGrace(r.messages),
         replay := if r.replay == None then None
           else Some(r.replay.value.(messages := NonGrace(r.replay.value.messages))))
  }

  function Put(ms: seq<Copy>, c: Copy): seq<Copy> {
    if HasId(ms, c.id) then seq(|ms|, i requires 0 <= i < |ms| => if ms[i].id == c.id then c else ms[i]) else ms + [c]
  }

  /** One message received or read from the history. */
  function Receive(r: Room, c: Copy): Room {
    if c.grace && GraceRejected(r.vote) then r else r.(messages := Trim(Put(r.messages, c)))
  }

  class ChatRoom {
    var acceptedAt: Option<Time>
    var vote: Option<VoteView>
    var messages: seq<Copy>
    var replay: Option<Incoming>

    constructor (acceptedAt: Option<Time>)
      ensures View() == Room(acceptedAt, None, [], None)
    {
      this.acceptedAt, vote, messages, replay := acceptedAt, None, [], None;
    }

    ghost function View(): Room
      reads this
    {
      Room(acceptedAt, vote, messages, replay)
    }

    static method OldestOf(ms: seq<Copy>) returns (oldest: nat)
      requires ms != []
      ensures oldest == Oldest(ms)
    {
      oldest := 0;
      for j := 1 to |ms|
        invariant oldest == Oldest(ms[..j]) < j
      {
        assert ms[..j + 1][..j] == ms[..j];
        if ms[j].time < ms[oldest].time {
          oldest := j;
        }
      }
      assert ms[..|ms|] == ms;
    }

    method DropOldest()
      requires |messages| > ROOM_LIMIT
      modifies this`messages
      ensures |messages| == |old(messages)| - 1 && Trim(messages) == Trim(old(messages))
    {
      var oldest := OldestOf(messages);
      TrimStep(messages);
      messages := messages[..oldest] + messages[oldest + 1..];
    }

    method TrimMessages()
      modifies this`messages
      ensures messages == Trim(old(messages))
    {
      while |messages| > ROOM_LIMIT
        invariant Trim(messages) == Trim(old(messages))
      {
        DropOldest();
      }
    }

    static method WithoutGrace(ms: seq<Copy>) returns (kept: seq<Copy>)
      ensures kept == NonGrace(ms)
    {
      kept := [];
      for i := 0 to |ms|
        invariant kept == NonGrace(ms[..i])
      {
        assert ms[..i + 1][..i] == ms[..i];
        if !ms[i].grace {
          kept := kept + [ms[i]];
        }
      }
      assert ms[..|ms|] == ms;
    }

    method MergeCopies(add: seq<Copy>)
      modifies this`messages
      ensures messages == Merge(old(messages), add, GraceRejected(vote))
    {
      for i := 0 to |add|
        invariant messages == Merge(old(messages), add[..i], GraceRejected(vote))
      {
        assert add[..i + 1][..i] == add[..i];
        if !(add[i].grace && GraceRejected(vote)) && !HasId(messages, add[i].id) {
          messages := messages + [add[i]];
        }
      }
      assert add[..|add|] == add;
    }

    method OnReplay(f: Frame, at: Time, unique: MessageId)
      modifies this
      ensures View() == ReceiveReplay(old(View()), f, at, unique)
    {
      if f.body.Begin? {
        replay := Some(Incoming(f.replay, 0, []));
        return;
      }
      if replay == None || replay.value.id != f.replay {
        return;
      }
      var p := replay.value;
      if f.body.Piece? {
        if f.body.sequence != p.next || p.next >= ROOM_LIMIT || f.body.item.text == None {
          replay := None;
          return;
        }
        p := p.(messages := p.messages + [CopyOf(acceptedAt, f.body.item, at, unique)]);
        replay := Some(p.(next := p.next + 1));
      } else if f.body.count == p.next {
        MergeCopies(p.messages);
        replay := None;
        TrimMessages();
      } else {
        replay := None;
      }
    }

    method OnVote(view: Option<VoteView>)
      modifies this
      ensures View() == ApplyVote(old(View()), view)
    {
      if vote.Some? && vote.value.status != Open && view.Some? && view.value.status == Open
        && view.value.id == vote.value.id {
        return;
      }
      vote := view;
      if view.Some? && view.value.status == VoteStatus.Rejected {
        messages := WithoutGrace(messages);
        if replay.Some? {
          var kept := WithoutGrace(replay.value.messages);
          replay := Some(replay.value.(messages := kept));
        }
      }
    }

    method OnMessage(c: Copy)
      modifies this
      ensures View() == Receive(old(View()), c)
    {
      if !(c.grace && GraceRejected(vote)) {
        if HasId(messages, c.id) {
          messages := seq(|messages|, i requires 0 <= i < |messages| reads this =>
            if messages[i].id == c.id then c else messages[i]);
        } else {
          messages := messages + [c];
        }
        assert messages == Put(old(messages), c);
        TrimMessages();
      }
    }
  }
}
