/** What the relay of a replay answers and publishes: the condition of every refusal, and that a producer who
    is let in reaches the socket of the peer with all it sent. */
module RelayOutcomes {
  import opened Wrappers
  import opened Persistence
  import opened Messaging
  import opened Admission
  import opened Replay
  import opened ReplayLaws

  // ---- One call -----------------------------------------------------------------------------

  /** The sender may write to an active conversation. */
  predicate LetIn(c: Call) {
    && Inside(c.db, c.origin.user, c.origin.conversation)
    && Writable(c.db.conversations[c.origin.conversation], c.now)
    && c.db.conversations[c.origin.conversation].status == Active
  }

  /** The other member, as long as it has accepted. */
  predicate PeerThere(c: Call)
    requires c.origin.conversation in c.db.conversations
  {
    var row := c.db.conversations[c.origin.conversation];
    if c.origin.user == row.host then row.guestStatus == Accepted else row.hostStatus == Accepted
  }

  predicate TwoMembers(c: Call)
    requires c.origin.conversation in c.db.conversations
  {
    c.db.conversations[c.origin.conversation].host != c.db.conversations[c.origin.conversation].guest
  }

  predicate Standing(r: Relay, id: ReplayId, now: Time) {
    id in r.tracks && now < r.tracks[id].expiresAt
  }

  predicate Begins(c: Call) { c.frame.body == Begin }

  lemma OutsiderIsRefused(r: Relay, c: Call)
    requires !LetIn(c) || (c.frame.body.Piece? && !c.ambient.allowed)
    ensures RelayFrame(c.db, r, c.origin, c.frame, c.ambient, c.now)
            == (if !Inside(c.db, c.origin.user, c.origin.conversation) then Refused(NotFound)
                else
                  var row := c.db.conversations[c.origin.conversation];
                  if row.status == Closed then Refused(ConversationShut)
                  else if exists v :: v in row.votes && v.status == VoteStatus.Open && v.expiresAt > c.now
                  then Refused(VotingInProgress)
                  else if row.status == Pending && !(row.graceUsed < 5 && row.graceUsed < row.graceLimit)
                  then Refused(GraceLimitReached)
                  else if row.status == Pending then NotActive
                  else TooMany, r)
  {
    WhyNotWritable(c.db, c.origin.user, c.origin.conversation, c.now);
  }

  /** A begin from a sender who is let in: it names the first socket of the peer and starts at item 0, for 15
      minutes, exactly when the peer is there, no such replay stands and both sockets are connected. */
  lemma BeginAnswers(r: Relay, c: Call)
    requires LetIn(c) && Begins(c) && TwoMembers(c)
    ensures var (verdict, after) := RelayFrame(c.db, r, c.origin, c.frame, c.ambient, c.now);
            var o, id, sockets := c.origin, c.frame.replay, c.ambient.peerSockets;
            var row := c.db.conversations[o.conversation];
            if !PeerThere(c) || sockets == [] then verdict == NoRecipient && after == r
            else if Standing(r, id, c.now) then verdict == Conflict409 && after == r
            else if o.connection !in c.ambient.connected || sockets[0] !in c.ambient.connected
            then verdict == Unavailable503 && after == Relay(r.tracks - {id}, r.log)
            else
              var peer := if o.user == row.host then row.guest else row.host;
              && verdict == Relayed
              && after.tracks == r.tracks[id := Track(o.user, o.connection, o.conversation, peer, sockets[0], 0, false,
                                                      c.now + 900_000)]
              && after.log == r.log + [Published(peer, sockets[0], o, c.frame)]
  {
    WhyNotWritable(c.db, c.origin.user, c.origin.conversation, c.now);
  }

  /** An item or the end from a sender who is let in: only the socket that began the replay goes on with it,
      in order, up to 2^32 - 1 items and until its end; then the frame goes to the socket named at the begin.
      When either socket is gone nothing is published and the replay is forgotten. */
  lemma NextAnswers(r: Relay, c: Call)
    requires LetIn(c) && !Begins(c) && (c.frame.body.Piece? ==> c.ambient.allowed)
    ensures var (verdict, after) := RelayFrame(c.db, r, c.origin, c.frame, c.ambient, c.now);
            var o, id, body := c.origin, c.frame.replay, c.frame.body;
            if !Standing(r, id, c.now) then verdict == Expired410 && after == r
            else
              var t := r.tracks[id];
              if t.sender != o.user || t.connection != o.connection || t.conversation != o.conversation
              then verdict == NotFound404 && after == r
              else if t.finished then verdict == Expired410 && after == r
              else if t.next != (if body.Piece? then body.sequence else body.count)
              then verdict == BadSequence422 && after == r
              else if o.connection !in c.ambient.connected || t.target !in c.ambient.connected
              then verdict == Unavailable503 && after == Relay(r.tracks - {id}, r.log)
              else if body.Piece? && body.sequence >= 4_294_967_295 then verdict == BadSequence422 && after == r
              else
                && verdict == Relayed
                && after.tracks == r.tracks[id := if body.Piece? then t.(next := t.next + 1) else t.(finished := true)]
                && after.log == r.log + [Published(t.recipient, t.target, o, c.frame)]
  {
    WhyNotWritable(c.db, c.origin.user, c.origin.conversation, c.now);
  }

  // ---- A whole replay -------------------------------------------------------------------------

  predicate Own(c: Call, id: ReplayId, o: Origin) {
    c.frame.replay == id && c.origin == o
  }

  /** The calls of this producer among all. */
  function Ours(q: seq<Call>, id: ReplayId, o: Origin): seq<Frame> {
    if q == [] then []
    else Ours(q[..|q| - 1], id, o) + if Own(q[|q| - 1], id, o) then [q[|q| - 1].frame] else []
  }

  /** Let in, inside the rate limit, and both sockets connected. */
  predicate Smooth(c: Call, target: ConnectionId) {
    && LetIn(c) && (c.frame.body.Piece? ==> c.ambient.allowed)
    && c.origin.connection in c.ambient.connected && target in c.ambient.connected
  }

  /** The producer's begin, over an identifier that no replay holds. */
  predicate Starts(r: Relay, c: Call, id: ReplayId, o: Origin, target: ConnectionId) {
    && Own(c, id, o) && Begins(c) && Smooth(c, target) && TwoMembers(c) && PeerThere(c)
    && !Standing(r, id, c.now) && c.ambient.peerSockets != [] && c.ambient.peerSockets[0] == target
  }

  /** Within 15 minutes of the begin, and smooth where it is the producer's. */
  predicate Undisturbed(q: seq<Call>, id: ReplayId, o: Origin, target: ConnectionId, start: Time) {
    forall i :: 0 <= i < |q| ==> q[i].now < start + 900_000 && (Own(q[i], id, o) ==> Smooth(q[i], target))
  }

  /** `n` frames of the producer have passed. */
  ghost predicate Passed(r: Relay, id: ReplayId, o: Origin, peer: UserId, target: ConnectionId, end: Time,
                         xs: seq<Item>, n: nat) {
    && 1 <= n <= |xs| + 2 && id in r.tracks
    && r.tracks[id] == Track(o.user, o.connection, o.conversation, peer, target,
                             if n == |xs| + 2 then |xs| else n - 1, n == |xs| + 2, end)
    && FramesOf(Since(r.log, id)) == Produced(id, xs)[..n]
    && forall i :: 0 <= i < |Since(r.log, id)| ==>
         && Since(r.log, id)[i].recipient == peer && Since(r.log, id)[i].target == target
         && Since(r.log, id)[i].origin == o
  }

  /** Another replay, and another socket that meddles with this one, change nothing of it. */
  lemma ForeignCallKeeps(r: Relay, c: Call, id: ReplayId, o: Origin)
    requires !Own(c, id, o) && Standing(r, id, c.now) && OriginOf(r.tracks[id]) == o
    ensures id in Step(r, c).tracks && Step(r, c).tracks[id] == r.tracks[id]
    ensures Since(Step(r, c).log, id) == Since(r.log, id)
  {
    var after := Step(r, c);
    if |after.log| == |r.log| + 1 { SinceGrows(r.log, after.log[|r.log|], id); }
  }

  lemma FramesGrow(ps: seq<Published>, p: Published)
    ensures FramesOf(ps + [p]) == FramesOf(ps) + [p.frame]
  {
  }

  lemma SinceOfNext(r: Relay, log: seq<Published>, p: Published, id: ReplayId)
    requires log == r.log + [p] && p.frame.replay == id
    ensures FramesOf(Since(log, id))
         == if p.frame.body.Begin? then [p.frame] else FramesOf(Since(r.log, id)) + [p.frame]
    ensures forall q :: q in Since(log, id) ==> q == p || (!p.frame.body.Begin? && q in Since(r.log, id))
  {
    SinceGrows(r.log, p, id);
    FramesGrow(Since(r.log, id), p);
  }

  lemma ProducedNext(id: ReplayId, xs: seq<Item>, n: nat)
    requires 1 <= n < |xs| + 2
    ensures Produced(id, xs)[n] == Frame(id, if n == |xs| + 1 then End(|xs|) else Piece(n - 1, xs[n - 1]))
    ensures Produced(id, xs)[..n + 1] == Produced(id, xs)[..n] + [Produced(id, xs)[n]]
  {
  }

  lemma BeginPasses(r: Relay, c: Call, id: ReplayId, o: Origin, target: ConnectionId, xs: seq<Item>)
    requires Starts(r, c, id, o, target)
    ensures var row := c.db.conversations[o.conversation];
            var peer := if o.user == row.host then row.guest else row.host;
            Passed(Step(r, c), id, o, peer, target, c.now + 900_000, xs, 1)
  {
    BeginAnswers(r, c);
    var after := Step(r, c);
    SinceOfNext(r, after.log, after.log[|r.log|], id);
    assert Produced(id, xs)[..1] == [c.frame];
  }

  lemma NextPasses(r: Relay, c: Call, id: ReplayId, o: Origin, peer: UserId, target: ConnectionId, end: Time,
                   xs: seq<Item>, n: nat)
    requires Passed(r, id, o, peer, target, end, xs, n) && n < |xs| + 2 && |xs| <= 4_294_967_295
    requires Own(c, id, o) && Smooth(c, target) && c.now < end && c.frame == Produced(id, xs)[n]
    ensures Passed(Step(r, c), id, o, peer, target, end, xs, n + 1)
  {
    ProducedNext(id, xs, n);
    NextAnswers(r, c);
    var after := Step(r, c);
    SinceOfNext(r, after.log, after.log[|r.log|], id);
  }

  lemma {:induction false} OursPass(r: Relay, begin: Call, q: seq<Call>, id: ReplayId, o: Origin, peer: UserId,
                                    target: ConnectionId, xs: seq<Item>)
    requires Passed(Step(r, begin), id, o, peer, target, begin.now + 900_000, xs, 1)
    requires Undisturbed(q, id, o, target, begin.now) && |xs| <= 4_294_967_295
    requires [Frame(id, Begin)] + Ours(q, id, o) <= Produced(id, xs)
    ensures Passed(After(Step(r, begin), q), id, o, peer, target, begin.now + 900_000, xs, 1 + |Ours(q, id, o)|)
  {
    if q != [] {
      var init, c := q[..|q| - 1], q[|q| - 1];
      OursPass(r, begin, init, id, o, peer, target, xs);
      var x, n := After(Step(r, begin), init), 1 + |Ours(init, id, o)|;
      if Own(c, id, o) {
        assert c.frame == ([Frame(id, Begin)] + Ours(q, id, o))[n];
        NextPasses(x, c, id, o, peer, target, begin.now + 900_000, xs, n);
      } else {
        ForeignCallKeeps(x, c, id, o);
      }
    }
  }

  function After(r: Relay, q: seq<Call>): Relay {
    if q == [] then r else Step(After(r, q[..|q| - 1]), q[|q| - 1])
  }

  lemma {:induction false} ExecAfter(p: seq<Call>, q: seq<Call>)
    ensures Exec(p + q) == After(Exec(p), q)
  {
    if q == [] {
      assert p + q == p;
    } else {
      ExecAfter(p, q[..|q| - 1]);
      assert (p + q)[..|p + q| - 1] == p + q[..|q| - 1];
    }
  }

  /** A producer who begins a replay, and whose calls are let in while both sockets stay connected, reaches the
      peer with all it sends in order within 15 minutes: whatever other sockets do meanwhile, what the relay
      publishes for it is exactly what was sent, to the member and the socket chosen at the begin. */
  lemma SentIsPublished(p: seq<Call>, begin: Call, q: seq<Call>, id: ReplayId, o: Origin, target: ConnectionId,
                        xs: seq<Item>)
    requires Starts(Exec(p), begin, id, o, target) && Undisturbed(q, id, o, target, begin.now)
    requires |xs| <= 4_294_967_295
    requires [begin.frame] + Ours(q, id, o) <= Produced(id, xs)
    ensures var row, ps := begin.db.conversations[o.conversation], Since(Exec(p + [begin] + q).log, id);
            && FramesOf(ps) == [begin.frame] + Ours(q, id, o)
            && forall i :: 0 <= i < |ps| ==>
                 && ps[i].target == target && ps[i].origin == o
                 && ps[i].recipient == if o.user == row.host then row.guest else row.host
  {
    var row := begin.db.conversations[o.conversation];
    var peer := if o.user == row.host then row.guest else row.host;
    BeginPasses(Exec(p), begin, id, o, target, xs);
    OursPass(Exec(p), begin, q, id, o, peer, target, xs);
    ExecAfter(p + [begin], q);
    assert (p + [begin])[..|p|] == p;
    assert begin.frame == Frame(id, Begin);
  }
}
