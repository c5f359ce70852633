/** A cursor walk over a history that changes between the pages: nothing twice, nothing missed that stayed,
    and over an unchanging history exactly the sorted list. */
module PaginationLaws {
  import opened Wrappers
  import opened Persistence
  import opened Ordering
  import opened Pagination

  predicate Under(k: Key, before: Option<Key>) {
    before == None || Less(k, before.value)
  }

  /** What a page is to the sorted rows it is cut from. */
  ghost predicate PageFits(p: Page, s: set<Key>, limit: nat, before: Option<Key>) {
    && Decreasing(p.items) && (forall k :: k in p.items ==> k in s && Under(k, before))
    && (p.next == None ==> forall k :: k in s && Under(k, before) ==> k in p.items)
    && (p.next.Some? ==>
          && |p.items| == limit > 0 && p.next.value == p.items[limit - 1]
          && forall k :: k in s && Under(k, before) && k !in p.items ==> Less(k, p.next.value))
  }

  lemma CutFits(all: seq<Key>, limit: nat, k: Key)
    requires limit > 0 && Decreasing(all)
    ensures var p := Cut(Take(all, limit + 1), limit);
            && (p.next == None <==> |all| <= limit) && p.items == Take(all, limit)
            && (p.next.Some? ==>
                  p.next.value == all[limit - 1] && (k in all && k !in p.items ==> Less(k, p.next.value)))
  {
    var p := Cut(Take(all, limit + 1), limit);
    if |all| > limit && k in all && k !in p.items {
      forall i | 0 <= i < limit ensures all[i] in p.items { assert p.items[i] == all[i]; }
      var i :| 0 <= i < |all| && all[i] == k;
    }
  }

  /** A page lists rows under its cursor from the newest down; without a next cursor it lists them all, with
      one it is full and what it omits lies under that cursor. */
  lemma PageIsPrefix(s: set<Key>, limit: nat, before: Option<Key>)
    requires limit > 0
    ensures PageFits(PageOf(s, limit, before), s, limit, before)
    ensures PageOf(s, limit, before).next == None <==> |Below(s, before)| <= limit
  {
    var all, p := Descending(Below(s, before)), PageOf(s, limit, before);
    DescendingSorts(Below(s, before));
    CutFits(all, limit, Key(0, 0, 0));
    forall k | k in p.items ensures k in s && Under(k, before) {
      var i :| 0 <= i < |p.items| && p.items[i] == k;
      assert all[i] == k && k in all;
    }
    forall k | k in s && Under(k, before) ensures k in all { assert k in Below(s, before); }
    forall k | k in all && k !in p.items ensures p.next.Some? && Less(k, p.next.value) { CutFits(all, limit, k); }
  }

  /** What a walk returns, one visible set for each page it reads, and the cursor it would go on with. */
  ghost function Walk(ss: seq<set<Key>>, limit: nat, before: Option<Key>): Page
    requires limit > 0 && ss != []
    decreases |ss|
  {
    var p := PageOf(ss[0], limit, before);
    if p.next == None || |ss| == 1 then p
    else
      var rest := Walk(ss[1..], limit, p.next);
      Page(p.items + rest.items, rest.next)
  }

  /** Whatever happens between the pages, the walk goes strictly down. */
  lemma {:induction false} WalkDescends(ss: seq<set<Key>>, limit: nat, before: Option<Key>)
    requires limit > 0 && ss != []
    ensures Decreasing(Walk(ss, limit, before).items)
    ensures forall k :: k in Walk(ss, limit, before).items ==> Under(k, before)
    decreases |ss|
  {
    var p := PageOf(ss[0], limit, before);
    PageIsPrefix(ss[0], limit, before);
    if p.next.Some? && |ss| > 1 {
      WalkDescends(ss[1..], limit, p.next);
      JoinDescends(p, Walk(ss[1..], limit, p.next).items, before);
    }
  }

  lemma JoinDescends(p: Page, rest: seq<Key>, before: Option<Key>)
    requires p.next.Some? && p.items != [] && p.next.value == p.items[|p.items| - 1]
    requires Decreasing(p.items) && Decreasing(rest)
    requires forall k :: k in p.items ==> Under(k, before)
    requires forall k :: k in rest ==> Under(k, p.next)
    ensures Decreasing(p.items + rest) && forall k :: k in p.items + rest ==> Under(k, before)
  {
    var all, n := p.items + rest, |p.items|;
    assert p.items[n - 1] in p.items;
    forall i, j | 0 <= i < j < |all| ensures Less(all[j], all[i]) {
      if i < n <= j {
        assert all[j] == rest[j - n] && rest[j - n] in rest;
        assert i == n - 1 || Less(p.items[n - 1], p.items[i]);
      }
    }
  }

  /** A row that is visible for every page is returned, or lies under the cursor the walk stopped at. */
  lemma {:induction false} WalkFinds(ss: seq<set<Key>>, limit: nat, before: Option<Key>, k: Key)
    requires limit > 0 && ss != [] && Under(k, before)
    requires forall i :: 0 <= i < |ss| ==> k in ss[i]
    ensures var w := Walk(ss, limit, before); k in w.items || (w.next.Some? && Less(k, w.next.value))
    decreases |ss|
  {
    var p := PageOf(ss[0], limit, before);
    PageIsPrefix(ss[0], limit, before);
    if p.next.Some? && |ss| > 1 && k !in p.items {
      WalkFinds(ss[1..], limit, p.next, k);
    }
  }

  // ---- An unchanging history --------------------------------------------------------------------

  lemma {:induction false} DecreasingUnique(r: seq<Key>, q: seq<Key>)
    requires Decreasing(r) && Decreasing(q) && forall k :: k in r <==> k in q
    ensures r == q
  {
    if q != [] { assert q[0] in r; }
    if r != [] {
      assert r[0] in q && q[0] in r;
      assert r[0] == q[0];
      forall k ensures k in r[1..] <==> k in q[1..] {
        if k in r[1..] { assert k in r && k != r[0]; }
        if k in q[1..] { assert k in q && k != q[0]; }
      }
      DecreasingUnique(r[1..], q[1..]);
    }
  }

  lemma UnlistedBelow(p: Page, s: set<Key>, limit: nat, before: Option<Key>, k: Key)
    requires PageFits(p, s, limit, before) && p.next.Some?
    ensures k in Below(s, p.next) <==> k in Below(s, before) && k !in p.items
  {
    assert p.items[limit - 1] in p.items;
    if k in p.items {
      var i :| 0 <= i < |p.items| && p.items[i] == k;
      assert i == limit - 1 || Less(p.items[limit - 1], p.items[i]);
    }
  }

  /** The rows under the next cursor are the rows under this one that the page did not list. */
  lemma NextBelow(p: Page, s: set<Key>, limit: nat, before: Option<Key>)
    requires PageFits(p, s, limit, before) && p.next.Some?
    ensures |Below(s, p.next)| == |Below(s, before)| - limit
  {
    var listed := set k | k in p.items;
    forall k
      ensures k in Below(s, p.next) <==> k in Below(s, before) && k !in listed
    {
      UnlistedBelow(p, s, limit, before, k);
    }
    assert Below(s, p.next) == Below(s, before) - listed;
    ListedSize(p.items);
    assert listed <= Below(s, before);
  }

  lemma {:induction false} ListedSize(items: seq<Key>)
    requires Decreasing(items)
    ensures |set k | k in items| == |items|
  {
    if items != [] {
      var init, last := items[..|items| - 1], items[|items| - 1];
      ListedSize(init);
      assert items == init + [last];
      assert (set k | k in items) == (set k | k in init) + {last};
      assert last !in init;
    }
  }

  ghost predicate Unchanging(ss: seq<set<Key>>, s: set<Key>) {
    forall i :: 0 <= i < |ss| ==> ss[i] == s
  }

  /** How many rows `n` pages hold. */
  function Capacity(n: nat, limit: nat): nat {
    if n == 0 then 0 else limit + Capacity(n - 1, limit)
  }

  lemma {:induction false} CapacityIs(n: nat, limit: nat)
    ensures Capacity(n, limit) == n * limit
  {
    if n > 0 {
      CapacityIs(n - 1, limit);
      assert n * limit == limit + (n - 1) * limit;
    }
  }

  /** A walk of `n` pages over one visible set. */
  ghost function Rounds(s: set<Key>, n: nat, limit: nat, before: Option<Key>): Page
    requires limit > 0 && n > 0
    decreases n
  {
    var p := PageOf(s, limit, before);
    if p.next == None || n == 1 then p
    else
      var rest := Rounds(s, n - 1, limit, p.next);
      Page(p.items + rest.items, rest.next)
  }

  lemma RoundsStep(s: set<Key>, n: nat, limit: nat, before: Option<Key>)
    requires limit > 0 && n > 0
    ensures var p, w := PageOf(s, limit, before), Rounds(s, n, limit, before);
            if p.next == None || n == 1 then w == p
            else w == Page(p.items + Rounds(s, n - 1, limit, p.next).items, Rounds(s, n - 1, limit, p.next).next)
  {
  }

  lemma WalkStep(ss: seq<set<Key>>, limit: nat, before: Option<Key>)
    requires limit > 0 && ss != []
    ensures var p := PageOf(ss[0], limit, before);
            Walk(ss, limit, before) ==
            if p.next == None || |ss| == 1 then p
            else Page(p.items + Walk(ss[1..], limit, p.next).items, Walk(ss[1..], limit, p.next).next)
  {
  }

  lemma UnchangingTail(ss: seq<set<Key>>, s: set<Key>)
    requires ss != [] && Unchanging(ss, s)
    ensures ss[0] == s && Unchanging(ss[1..], s)
  {
  }

  lemma {:induction false} WalkIsRounds(ss: seq<set<Key>>, s: set<Key>, n: nat, limit: nat, before: Option<Key>)
    requires limit > 0 && n > 0 && |ss| == n && Unchanging(ss, s)
    ensures Walk(ss, limit, before) == Rounds(s, n, limit, before)
    decreases n
  {
    UnchangingTail(ss, s);
    if n > 1 {
      var next, tail := PageOf(s, limit, before).next, ss[1..];
      WalkIsRounds(tail, s, n - 1, limit, next);
      WalkStep(ss, limit, before);
      RoundsStep(s, n, limit, before);
    }
  }

  /** What a page tells about the number of rows, without looking at them. */
  lemma PageCounts(s: set<Key>, limit: nat, before: Option<Key>, p: Page)
    requires limit > 0 && p == PageOf(s, limit, before)
    ensures p.next == None <==> |Below(s, before)| <= limit
    ensures p.next.Some? ==> |Below(s, p.next)| == |Below(s, before)| - limit
  {
    PageIsPrefix(s, limit, before);
    if p.next.Some? { NextBelow(p, s, limit, before); }
  }

  lemma RoundsNext(s: set<Key>, n: nat, limit: nat, before: Option<Key>, p: Page)
    requires limit > 0 && n > 0 && p == PageOf(s, limit, before)
    ensures Rounds(s, n, limit, before).next
         == if p.next == None || n == 1 then p.next else Rounds(s, n - 1, limit, p.next).next
  {
    RoundsStep(s, n, limit, before);
  }

  lemma {:induction false} RoundsEnd(s: set<Key>, n: nat, limit: nat, before: Option<Key>)
    requires limit > 0 && n > 0
    ensures Rounds(s, n, limit, before).next == None <==> |Below(s, before)| <= Capacity(n, limit)
    decreases n
  {
    var p := PageOf(s, limit, before);
    PageCounts(s, limit, before, p);
    RoundsNext(s, n, limit, before, p);
    CapacityStep(n, limit);
    if p.next.Some? && n > 1 { RoundsEnd(s, n - 1, limit, p.next); }
  }

  lemma CapacityStep(n: nat, limit: nat)
    requires n > 0
    ensures Capacity(n, limit) == limit + Capacity(n - 1, limit) && (n == 1 ==> Capacity(n, limit) == limit)
  {
  }

  lemma LastPageIsList(p: Page, s: set<Key>, limit: nat, before: Option<Key>)
    requires PageFits(p, s, limit, before) && p.next == None
    ensures p.items == Descending(Below(s, before))
  {
    DescendingSorts(Below(s, before));
    DecreasingUnique(p.items, Descending(Below(s, before)));
  }

  lemma {:induction false} RoundsDescend(s: set<Key>, n: nat, limit: nat, before: Option<Key>)
    requires limit > 0 && n > 0 && Rounds(s, n, limit, before).next == None
    ensures Rounds(s, n, limit, before).items == Descending(Below(s, before))
    decreases n
  {
    var p := PageOf(s, limit, before);
    PageIsPrefix(s, limit, before);
    RoundsStep(s, n, limit, before);
    if p.next == None {
      LastPageIsList(p, s, limit, before);
    } else {
      RoundsDescend(s, n - 1, limit, p.next);
      JoinIsList(p, s, limit, before);
    }
  }

  lemma JoinIsList(p: Page, s: set<Key>, limit: nat, before: Option<Key>)
    requires PageFits(p, s, limit, before) && p.next.Some?
    ensures p.items + Descending(Below(s, p.next)) == Descending(Below(s, before))
  {
    var rest, all := Descending(Below(s, p.next)), Descending(Below(s, before));
    DescendingSorts(Below(s, before));
    DescendingSorts(Below(s, p.next));
    JoinDescends(p, rest, before);
    forall k ensures k in p.items + rest <==> k in all { UnlistedBelow(p, s, limit, before, k); }
    DecreasingUnique(p.items + rest, all);
  }

  /** Over an unchanging history the walk ends exactly when its pages can hold all rows, and then it has
      returned the sorted list. */
  lemma WalkIsList(ss: seq<set<Key>>, s: set<Key>, limit: nat)
    requires limit > 0 && ss != [] && Unchanging(ss, s)
    ensures var w := Walk(ss, limit, None);
            && (w.next == None <==> |s| <= |ss| * limit)
            && (w.next == None ==> w.items == Descending(s))
  {
    assert Below(s, None) == s;
    WalkIsRounds(ss, s, |ss|, limit, None);
    RoundsEnd(s, |ss|, limit, None);
    CapacityIs(|ss|, limit);
    if Walk(ss, limit, None).next == None { RoundsDescend(s, |ss|, limit, None); }
  }

  lemma PageRows(s: set<Key>, limit: nat, before: Option<Key>, k: Key)
    requires limit > 0 && k in PageOf(s, limit, before).items
    ensures k in s && (before.Some? ==> Less(k, before.value))
  {
    DescendingSorts(Below(s, before));
    var rows := Take(Descending(Below(s, before)), limit + 1);
    assert k in rows && k in Descending(Below(s, before));
  }

  lemma PageSize(s: set<Key>, limit: nat, before: Option<Key>)
    requires limit > 0
    ensures |PageOf(s, limit, before).items| <= limit
  {
  }

  lemma SeenAtItsStamp(db: Db, id: ConversationId, viewer: UserId, t: Time, k: Key)
    requires k in VisibleKeys(db, id, viewer, t)
    ensures k.id in History(db, id, viewer, t) && k.id in db.events && k.at == db.events[k.id].sentAt
  {
  }

  /** Who is refused a history, and what a page of it is made of: rows under the cursor that the viewer may see,
      at the place of their event. */
  lemma ListingIs(db: Db, id: ConversationId, viewer: UserId, limit: nat, before: Option<Key>, t: Time)
    requires limit > 0
    ensures var listing := HistoryPage(db, id, viewer, limit, before, t);
            if id !in db.conversations then listing == NoConversation
            else
              var c := db.conversations[id];
              if !((viewer == c.host && c.hostStatus != Left) || (viewer == c.guest && c.guestStatus != Left))
              then listing == NoConversation
              else if c.mode == Ephemeral then listing == NotStored
              else
                && listing.Listed? && |listing.page.items| <= limit
                && forall k :: k in listing.page.items ==>
                     && k.id in History(db, id, viewer, t) && k.id in db.events && k.at == db.events[k.id].sentAt
                     && (before.Some? ==> Less(k, before.value))
  {
    var keys := VisibleKeys(db, id, viewer, t);
    PageSize(keys, limit, before);
    forall k | k in PageOf(keys, limit, before).items
      ensures k in keys && (before.Some? ==> Less(k, before.value))
      ensures k.id in History(db, id, viewer, t) && k.id in db.events && k.at == db.events[k.id].sentAt
    {
      PageRows(keys, limit, before, k);
      SeenAtItsStamp(db, id, viewer, t, k);
    }
  }
}
