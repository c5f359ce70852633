/** The relay of a replay publishes begin, the items from 0 without gaps, and an end with their number. */
module ReplayLaws {
  import opened Wrappers
  import opened Persistence
  import opened Messaging
  import opened Replay

  datatype Call = Call(db: Db, origin: Origin, frame: Frame, ambient: Ambient, now: Time)

  function Step(r: Relay, c: Call): Relay {
    RelayFrame(c.db, r, c.origin, c.frame, c.ambient, c.now).1
  }

  function Exec(cs: seq<Call>): Relay {
    if cs == [] then SILENT else Step(Exec(cs[..|cs| - 1]), cs[|cs| - 1])
  }

  /** What was published for a replay since its last begin. */
  function Since(log: seq<Published>, id: ReplayId): seq<Published> {
    if log == [] then []
    else
      var p := log[|log| - 1];
      if p.frame.replay != id then Since(log[..|log| - 1], id)
      else if p.frame.body.Begin? then [p]
      else Since(log[..|log| - 1], id) + [p]
  }

  lemma SinceGrows(log: seq<Published>, p: Published, id: ReplayId)
    ensures Since(log + [p], id) ==
            if p.frame.replay != id then Since(log, id) else if p.frame.body.Begin? then [p] else Since(log, id) + [p]
  {
    assert (log + [p])[..|log|] == log;
  }

  /** Begin, `next` items numbered from 0, and - once finished - an end that counts them, all of one
      sender and to one socket. */
  ghost predicate InOrder(ps: seq<Published>, o: Origin, target: ConnectionId, next: nat, finished: bool) {
    && |ps| == 1 + next + (if finished then 1 else 0)
    && (forall i :: 0 <= i < |ps| ==> ps[i].origin == o && ps[i].target == target)
    && ps[0].frame.body.Begin?
    && (forall i :: 0 < i <= next ==> ps[i].frame.body.Piece? && ps[i].frame.body.sequence == i - 1)
    && (finished ==> ps[next + 1].frame.body == End(next))
  }

  ghost predicate SomeOrder(ps: seq<Published>) {
    ps == [] || exists o, target, next: nat, finished :: InOrder(ps, o, target, next, finished)
  }

  ghost predicate TrackOk(r: Relay, id: ReplayId) {
    && SomeOrder(Since(r.log, id))
    && (id in r.tracks ==>
          var t := r.tracks[id];
          InOrder(Since(r.log, id), OriginOf(t), t.target, t.next, t.finished))
  }

  lemma ScriptOther(r: Relay, o: Origin, begun: Track, f: Frame, connected: set<ConnectionId>, now: Time, id: ReplayId)
    requires TrackOk(r, id) && f.replay != id
    ensures TrackOk(Script(r, o, begun, f, connected, now).1, id)
  {
    var r' := Script(r, o, begun, f, connected, now).1;
    if |r'.log| == |r.log| + 1 { SinceGrows(r.log, r'.log[|r.log|], id); }
  }

  lemma InOrderGrows(ps: seq<Published>, p: Published, o: Origin, target: ConnectionId, next: nat)
    requires InOrder(ps, o, target, next, false) && p.origin == o && p.target == target
    ensures p.frame.body.Piece? && p.frame.body.sequence == next ==> InOrder(ps + [p], o, target, next + 1, false)
    ensures p.frame.body == End(next) ==> InOrder(ps + [p], o, target, next, true)
  {
  }

  /** What a relayed call adds to the log and makes of the record. */
  lemma RelayedShape(r: Relay, o: Origin, begun: Track, f: Frame, connected: set<ConnectionId>, now: Time)
    requires Script(r, o, begun, f, connected, now).0.Relayed?
    ensures var r' := Script(r, o, begun, f, connected, now).1;
            && f.replay in r'.tracks
            && var t' := r'.tracks[f.replay];
            && r'.log == r.log + [Published(t'.recipient, t'.target, o, f)]
            && (f.body.Begin? ==> t' == begun.(finished := begun.finished))
            && (!f.body.Begin? ==>
                  && f.replay in r.tracks
                  && var t := r.tracks[f.replay];
                  && SameOrigin(t, o) && !t.finished && NumberOf(f.body) == t.next
                  && t' == t.(next := if f.body.Piece? then t.next + 1 else t.next, finished := f.body.End?))
  {
  }

  lemma ScriptOwn(r: Relay, o: Origin, begun: Track, f: Frame, connected: set<ConnectionId>, now: Time)
    requires TrackOk(r, f.replay) && OriginOf(begun) == o && begun.next == 0 && !begun.finished
    ensures TrackOk(Script(r, o, begun, f, connected, now).1, f.replay)
  {
    var (verdict, r') := Script(r, o, begun, f, connected, now);
    if verdict.Relayed? {
      RelayedShape(r, o, begun, f, connected, now);
      OwnGrows(r, r', o, f);
    }
  }

  lemma OwnGrows(r: Relay, r': Relay, o: Origin, f: Frame)
    requires TrackOk(r, f.replay) && f.replay in r'.tracks
    requires var t' := r'.tracks[f.replay];
             && OriginOf(t') == o && r'.log == r.log + [Published(t'.recipient, t'.target, o, f)]
             && (f.body.Begin? ==> t'.next == 0 && !t'.finished)
             && (!f.body.Begin? ==>
                   && f.replay in r.tracks
                   && var t := r.tracks[f.replay];
                   && SameOrigin(t, o) && !t.finished && NumberOf(f.body) == t.next
                   && t' == t.(next := if f.body.Piece? then t.next + 1 else t.next, finished := f.body.End?))
    ensures TrackOk(r', f.replay)
  {
    var t' := r'.tracks[f.replay];
    var p := Published(t'.recipient, t'.target, o, f);
    SinceGrows(r.log, p, f.replay);
    if f.body.Begin? {
      assert InOrder([p], o, t'.target, 0, false);
    } else {
      InOrderGrows(Since(r.log, f.replay), p, o, t'.target, r.tracks[f.replay].next);
    }
    assert InOrder(Since(r'.log, f.replay), OriginOf(t'), t'.target, t'.next, t'.finished);
  }

  lemma StepOrder(r: Relay, c: Call, id: ReplayId)
    requires TrackOk(r, id)
    ensures TrackOk(Step(r, c), id)
  {
    if Gate(c.db, c.origin, c.frame.body, c.ambient, c.now) == None {
      var begun := NewTrack(c.db, c.origin, c.ambient, c.now);
      if c.frame.replay == id {
        ScriptOwn(r, c.origin, begun, c.frame, c.ambient.connected, c.now);
      } else {
        ScriptOther(r, c.origin, begun, c.frame, c.ambient.connected, c.now, id);
      }
    }
  }

  /** For every sequence of calls by any number of sockets, what a replay published since its last begin is
      begin, items 0, 1, ... without gaps, and possibly an end whose count is the number of items. */
  lemma {:induction false} RelayedInOrder(cs: seq<Call>, id: ReplayId)
    ensures TrackOk(Exec(cs), id)
  {
    if cs != [] {
      RelayedInOrder(cs[..|cs| - 1], id);
      StepOrder(Exec(cs[..|cs| - 1]), cs[|cs| - 1], id);
    }
  }

  // ---- The producer -------------------------------------------------------------------------

  /** The frames of one replay: begin, one item per message, end. */
  function Produced(id: ReplayId, xs: seq<Item>): seq<Frame> {
    [Frame(id, Begin)] + seq(|xs|, i requires 0 <= i < |xs| => Frame(id, Piece(i, xs[i]))) + [Frame(id, End(|xs|))]
  }

  /** The generator of python/chat_client/recovery.py: it stops at 2^32 - 1 items. */
  method ReplayHistory(id: ReplayId, entries: seq<Item>) returns (ok: bool, frames: seq<Frame>)
    ensures ok <==> |entries| <= ITEM_CEILING
    ensures ok ==> frames == Produced(id, entries)
    ensures !ok ==> frames == Produced(id, entries[..ITEM_CEILING])[..1 + ITEM_CEILING]
  {
    frames := [Frame(id, Begin)];
    var count := 0;
    while count < |entries|
      invariant 0 <= count <= |entries| && count <= ITEM_CEILING
      invariant |frames| == 1 + count && frames[0] == Frame(id, Begin)
      invariant forall i :: 0 < i <= count ==> frames[i] == Frame(id, Piece(i - 1, entries[i - 1]))
    {
      if count >= ITEM_CEILING {
        return false, frames;
      }
      frames := frames + [Frame(id, Piece(count, entries[count]))];
      count := count + 1;
    }
    return true, frames + [Frame(id, End(count))];
  }

  // ---- What the relay lets through of one producer --------------------------------------------

  /** Only `o` opens the replay, and its frames are the producer's. */
  predicate Admissible(f: Frame, from: Origin, id: ReplayId, o: Origin, xs: seq<Item>) {
    f.replay == id ==> if from == o then f in Produced(id, xs) else !f.body.Begin?
  }

  /** Calls in any order and number, of any sockets. */
  ghost predicate Genuine(cs: seq<Call>, id: ReplayId, o: Origin, xs: seq<Item>) {
    forall i :: 0 <= i < |cs| ==> Admissible(cs[i].frame, cs[i].origin, id, o, xs)
  }

  function FramesOf(ps: seq<Published>): seq<Frame> {
    seq(|ps|, i requires 0 <= i < |ps| => ps[i].frame)
  }

  ghost predicate FromProducer(ps: seq<Published>, id: ReplayId, o: Origin, xs: seq<Item>) {
    forall i :: 0 <= i < |ps| ==> ps[i].origin == o && ps[i].frame in Produced(id, xs)
  }

  ghost predicate OnlyFrom(r: Relay, id: ReplayId, o: Origin, xs: seq<Item>) {
    && FromProducer(Since(r.log, id), id, o, xs)
    && (id in r.tracks ==> OriginOf(r.tracks[id]) == o)
  }

  /** A relayed frame carries the origin the record was begun with. */
  lemma RelayedOrigin(r: Relay, from: Origin, begun: Track, f: Frame, connected: set<ConnectionId>, now: Time)
    requires OriginOf(begun) == from
    ensures var (verdict, r') := Script(r, from, begun, f, connected, now);
            if verdict.Relayed? then
              && |r'.log| == |r.log| + 1 && r'.log[..|r.log|] == r.log
              && r'.log[|r.log|].origin == from && r'.log[|r.log|].frame == f
              && f.replay in r'.tracks && OriginOf(r'.tracks[f.replay]) == from
              && (f.body.Begin? || (f.replay in r.tracks && OriginOf(r.tracks[f.replay]) == from))
              && (forall x :: x != f.replay && x in r'.tracks ==> x in r.tracks && r'.tracks[x] == r.tracks[x])
            else
              r'.log == r.log && forall x :: x in r'.tracks ==> x in r.tracks && r'.tracks[x] == r.tracks[x]
  {
  }

  lemma ScriptProducer(r: Relay, from: Origin, begun: Track, f: Frame, connected: set<ConnectionId>, now: Time,
                       id: ReplayId, o: Origin, xs: seq<Item>)
    requires OnlyFrom(r, id, o, xs) && OriginOf(begun) == from && Admissible(f, from, id, o, xs)
    ensures OnlyFrom(Script(r, from, begun, f, connected, now).1, id, o, xs)
  {
    var (verdict, r') := Script(r, from, begun, f, connected, now);
    RelayedOrigin(r, from, begun, f, connected, now);
    if verdict.Relayed? {
      assert r'.log == r.log + [r'.log[|r.log|]];
      SinceGrows(r.log, r'.log[|r.log|], id);
    }
  }

  lemma StepProducer(r: Relay, c: Call, id: ReplayId, o: Origin, xs: seq<Item>)
    requires OnlyFrom(r, id, o, xs) && Admissible(c.frame, c.origin, id, o, xs)
    ensures OnlyFrom(Step(r, c), id, o, xs)
  {
    if Gate(c.db, c.origin, c.frame.body, c.ambient, c.now) == None {
      var begun := NewTrack(c.db, c.origin, c.ambient, c.now);
      ScriptProducer(r, c.origin, begun, c.frame, c.ambient.connected, c.now, id, o, xs);
    }
  }

  lemma {:induction false} RelayedFromProducer(cs: seq<Call>, id: ReplayId, o: Origin, xs: seq<Item>)
    requires Genuine(cs, id, o, xs)
    ensures OnlyFrom(Exec(cs), id, o, xs)
  {
    if cs != [] {
      RelayedFromProducer(cs[..|cs| - 1], id, o, xs);
      StepProducer(Exec(cs[..|cs| - 1]), cs[|cs| - 1], id, o, xs);
    }
  }

  lemma ProducedAt(id: ReplayId, xs: seq<Item>, f: Frame)
    requires f in Produced(id, xs)
    ensures f.replay == id
    ensures f.body.Piece? ==> f.body.sequence < |xs| && f.body.item == xs[f.body.sequence]
    ensures f.body.End? ==> f.body.count == |xs|
  {
  }

  lemma OrderedIsProduced(ps: seq<Published>, o: Origin, target: ConnectionId, next: nat, finished: bool, id: ReplayId,
                          xs: seq<Item>, i: nat)
    requires InOrder(ps, o, target, next, finished) && FromProducer(ps, id, o, xs) && i < |ps|
    ensures i < |Produced(id, xs)| && ps[i].frame == Produced(id, xs)[i]
  {
    ProducedAt(id, xs, ps[i].frame);
    if i == next + 1 && 0 < next { ProducedAt(id, xs, ps[next].frame); }
  }

  /** Whatever is refused, lost or repeated on the way in, what the relay publishes for a fresh replay is a
      prefix of what its producer meant to send. */
  lemma RelayedIsPrefix(cs: seq<Call>, id: ReplayId, o: Origin, xs: seq<Item>)
    requires Genuine(cs, id, o, xs)
    ensures FramesOf(Since(Exec(cs).log, id)) <= Produced(id, xs)
  {
    var ps := Since(Exec(cs).log, id);
    RelayedInOrder(cs, id);
    RelayedFromProducer(cs, id, o, xs);
    if ps != [] {
      var o', target, next: nat, finished :| InOrder(ps, o', target, next, finished);
      assert ps[0].origin == o' == o;
      forall i | 0 <= i < |ps| ensures i < |Produced(id, xs)| && ps[i].frame == Produced(id, xs)[i] {
        OrderedIsProduced(ps, o, target, next, finished, id, xs, i);
      }
      var fs, all := FramesOf(ps), Produced(id, xs);
      assert ps[|ps| - 1].frame == all[|ps| - 1];
      PrefixByIndex(fs, all);
    }
  }

  lemma PrefixByIndex<T>(a: seq<T>, b: seq<T>)
    requires |a| <= |b| && forall i :: 0 <= i < |a| ==> a[i] == b[i]
    ensures a <= b
  {
  }
}
