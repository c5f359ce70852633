/** Who may write to a conversation, said of its members, its votes and its counters. */
module Admission {
  import opened Wrappers
  import opened Persistence
  import opened Messaging

  /** The user is a member who has not left. */
  predicate Inside(db: Db, user: UserId, id: ConversationId) {
    && id in db.conversations
    && var c := db.conversations[id];
    (user == c.host && c.hostStatus != Left) || (user == c.guest && c.guestStatus != Left)
  }

  /** Not closed, nobody voting, and grace left while it is pending. */
  predicate Writable(c: Conversation, now: Time) {
    && c.status != Closed
    && (forall v :: v in c.votes && v.status == VoteStatus.Open ==> v.expiresAt <= now)
    && (c.status == Pending ==> c.graceUsed < 5 && c.graceUsed < c.graceLimit)
  }

  predicate Both(c: Conversation) {
    c.hostStatus != Left && c.guestStatus != Left
  }

  function Other(c: Conversation, user: UserId): UserId {
    if user == c.host then c.guest else c.host
  }

  /** Why a user who is inside may not write, in the order of the checks. */
  lemma WhyNotWritable(db: Db, user: UserId, id: ConversationId, now: Time)
    ensures !Inside(db, user, id) <==> Permitted(db, user, id, now) == Some(NotFound)
    ensures Inside(db, user, id) && Writable(db.conversations[id], now) <==> Permitted(db, user, id, now) == None
    ensures Inside(db, user, id) && !Writable(db.conversations[id], now) ==>
              var c := db.conversations[id];
              Permitted(db, user, id, now)
              == Some(if c.status == Closed then ConversationShut
                      else if exists v :: v in c.votes && v.status == VoteStatus.Open && v.expiresAt > now
                      then VotingInProgress else GraceLimitReached)
  {
  }
}
