/** Keyset pages of the message history (python/chat/persistence.py, resources.py): newest first, one row
    more than the page is fetched to know whether a next cursor is due. */
module Pagination {
  import opened Wrappers
  import opened Persistence
  import opened Ordering

  function Reversed(s: seq<Key>): seq<Key> {
    if s == [] then [] else [s[|s| - 1]] + Reversed(s[..|s| - 1])
  }

  lemma {:induction false} ReversedAt(s: seq<Key>, i: nat)
    requires i < |s|
    ensures |Reversed(s)| == |s| && Reversed(s)[i] == s[|s| - 1 - i]
  {
    if i > 0 { ReversedAt(s[..|s| - 1], i - 1); } else if |s| > 1 { ReversedAt(s[..|s| - 1], 0); }
  }

  lemma {:induction false} ReversedHas(s: seq<Key>, k: Key)
    ensures |Reversed(s)| == |s| && (k in Reversed(s) <==> k in s)
  {
    if s != [] {
      ReversedHas(s[..|s| - 1], k);
      assert s == s[..|s| - 1] + [s[|s| - 1]];
    }
  }

  ghost predicate Decreasing(s: seq<Key>) {
    forall i, j :: 0 <= i < j < |s| ==> Less(s[j], s[i])
  }

  /** ORDER BY sent_at DESC, id DESC. */
  ghost function Descending(s: set<Key>): seq<Key> {
    Reversed(Ascending(s))
  }

  lemma DescendingSorts(s: set<Key>)
    ensures Decreasing(Descending(s)) && |Descending(s)| == |s| && forall k :: k in Descending(s) <==> k in s
  {
    var a, r := Ascending(s), Descending(s);
    forall i, j | 0 <= i < j < |r| ensures Less(r[j], r[i]) {
      ReversedHas(a, r[i]);
      ReversedAt(a, i);
      ReversedAt(a, j);
    }
    forall k ensures k in r <==> k in s { ReversedHas(a, k); }
    ReversedHas(a, Key(0, 0, 0));
  }

  function Below(s: set<Key>, before: Option<Key>): set<Key> {
    set k | k in s && (before == None || Less(k, before.value))
  }

  /** The rows of one page, and the cursor of the next one if there is more. */
  datatype Page = Page(items: seq<Key>, next: Option<Key>)

  function Cut(rows: seq<Key>, limit: nat): Page
    requires limit > 0
  {
    var visible := Take(rows, limit);
    Page(visible, if |rows| > limit then Some(visible[|visible| - 1]) else None)
  }

  ghost function PageOf(s: set<Key>, limit: nat, before: Option<Key>): Page
    requires limit > 0
  {
    Cut(Take(Descending(Below(s, before)), limit + 1), limit)
  }

  /** The positions of the rows the history query selects. */
  function VisibleKeys(db: Db, conversation: ConversationId, viewer: UserId, t: Time): set<Key> {
    set m | m in db.messages && Visible(db, conversation, viewer, m, t) :: Key(1, db.events[m].sentAt, m)
  }

  datatype Listing = NoConversation | NotStored | Listed(page: Page)

  ghost function HistoryPage(db: Db, conversation: ConversationId, viewer: UserId, limit: nat, before: Option<Key>,
                             t: Time): Listing
    requires limit > 0
  {
    if conversation !in db.conversations || !Present(db.conversations[conversation], viewer) then NoConversation
    else if db.conversations[conversation].mode != Stored then NotStored
    else Listed(PageOf(VisibleKeys(db, conversation, viewer, t), limit, before))
  }

  class HistoryReader {
    const database: Database

    constructor (database: Database)
      ensures this.database == database
    {
      this.database := database;
    }

    /** Messages.history: the query with its page predicate, order and limit. */
    method Query(conversation: ConversationId, viewer: UserId, limit: nat, before: Option<Key>, t: Time)
      returns (rows: seq<Key>)
      requires conversation in database.conversations
      ensures rows == Take(Descending(Below(VisibleKeys(database.View(), conversation, viewer, t), before)), limit)
    {
      var c := database.conversations[conversation];
      var keys := set m | m in database.messages && m in database.events
                          && c.mode == Stored && Present(c, viewer)
                          && database.events[m].conversation == conversation && database.events[m].expiresAt > t
                          && database.messages[m].expiresAt > t
                          && !(database.messages[m].isGrace && GraceHidden(c, t))
                          :: Key(1, database.events[m].sentAt, m);
      assert keys == VisibleKeys(database.View(), conversation, viewer, t);
      var older := set k | k in keys && (before == None || Less(k, before.value));
      assert older == Below(VisibleKeys(database.View(), conversation, viewer, t), before);
      var sorted := Sort(older);
      rows := Take(Reversed(sorted), limit);
    }

    method ReadPage(conversation: ConversationId, viewer: UserId, limit: nat, before: Option<Key>, t: Time)
      returns (listing: Listing)
      requires limit > 0
      ensures listing == HistoryPage(database.View(), conversation, viewer, limit, before, t)
    {
      if conversation !in database.conversations || !Present(database.conversations[conversation], viewer) {
        return NoConversation;
      }
      if database.conversations[conversation].mode != Stored {
        return NotStored;
      }
      var rows := Query(conversation, viewer, limit + 1, before, t);
      var page := CutPage(rows, limit);
      return Listed(page);
    }

    static method CutPage(rows: seq<Key>, limit: nat) returns (page: Page)
      requires limit > 0
      ensures page == Cut(rows, limit)
    {
      var visible := if |rows| <= limit then rows else rows[..limit];
      var next: Option<Key> := None;
      if |rows| > limit {
        next := Some(visible[|visible| - 1]);
      }
      return Page(visible, next);
    }
  }
}
