/** The total order of (score or timestamp, identifier) that sorted sets, keyset pages and
    the pending query share, and the sorted list of a finite set of such keys. */
module Ordering {
  /** `group` separates NULL timestamps (0), which sort first, from known ones (1). */
  datatype Key = Key(group: nat, at: int, id: nat)

  predicate Less(a: Key, b: Key) {
    a.group < b.group || (a.group == b.group && (a.at < b.at || (a.at == b.at && a.id < b.id)))
  }

  ghost predicate Increasing(s: seq<Key>) {
    forall i, j :: 0 <= i < j < |s| ==> Less(s[i], s[j])
  }

  ghost predicate IsLeast(k: Key, s: set<Key>) {
    k in s && forall x :: x in s ==> x == k || Less(k, x)
  }

  lemma {:induction false} LeastExists(s: set<Key>)
    requires s != {}
    ensures exists k :: IsLeast(k, s)
    decreases |s|
  {
    var x :| x in s;
    var rest := s - {x};
    if rest == {} {
      assert s == {x};
      assert IsLeast(x, s);
    } else {
      assert |rest| < |s|;
      LeastExists(rest);
      var y :| IsLeast(y, rest);
      var least := if Less(x, y) then x else y;
      forall z | z in s ensures z == least || Less(least, z) {
        assert z == x || z in rest;
      }
      assert IsLeast(least, s);
    }
  }

  ghost function Least(s: set<Key>): (k: Key)
    requires s != {}
    ensures IsLeast(k, s)
  {
    LeastExists(s);
    var k :| IsLeast(k, s);
    k
  }

  /** The elements of `s` in increasing order. */
  ghost function Ascending(s: set<Key>): (r: seq<Key>)
    ensures forall k :: k in r <==> k in s
    ensures Increasing(r) && |r| == |s|
    decreases |s|
  {
    if s == {} then []
    else
      var k := Least(s);
      assert |s - {k}| < |s|;
      [k] + Ascending(s - {k})
  }

  /** Only one increasing sequence has a given set of elements. */
  lemma {:induction false} IncreasingUnique(r: seq<Key>, q: seq<Key>)
    requires Increasing(r) && Increasing(q)
    requires forall k :: k in r <==> k in q
    ensures r == q
  {
    if q != [] {
      assert q[0] in r;
    }
    if r != [] {
      assert r[0] in q && q[0] in r;
      assert r[0] == q[0];
      forall k ensures k in r[1..] <==> k in q[1..] {
        if k in r[1..] { assert k in r && k != r[0]; }
        if k in q[1..] { assert k in q && k != q[0]; }
      }
      IncreasingUnique(r[1..], q[1..]);
    }
  }

  /** The first `n` elements of a sorted list, all of it when it is shorter. */
  function Take(s: seq<Key>, n: nat): seq<Key> {
    if |s| <= n then s else s[..n]
  }

  lemma SmallerComesFirst(all: seq<Key>, n: nat, k: Key, x: Key)
    requires Increasing(all) && k in Take(all, n) && x in all && Less(x, k)
    ensures x in Take(all, n)
  {
    var i :| 0 <= i < |Take(all, n)| && Take(all, n)[i] == k;
    var j :| 0 <= j < |all| && all[j] == x;
    assert all[i] == k;
    assert j <= i;
    assert Take(all, n)[j] == x;
  }

  lemma SubsetSize<T>(a: set<T>, b: set<T>)
    requires a <= b
    ensures |a| <= |b|
  {
    assert b == a + (b - a);
  }

  /** The elements of `s` that come before `k`. */
  function Before(s: set<Key>, k: Key): set<Key> {
    set x | x in s && Less(x, k)
  }

  /** The position of an element in the sorted list is the number of smaller elements. */
  lemma {:induction false} Rank(all: seq<Key>, i: nat)
    requires Increasing(all) && i < |all|
    ensures |set x | x in all && Less(x, all[i])| == i
  {
    var smaller := set x | x in all && Less(x, all[i]);
    var prefix := set x | x in all[..i];
    forall x ensures x in smaller <==> x in prefix {
      if x in smaller {
        var j :| 0 <= j < |all| && all[j] == x;
        assert j < i;
        assert all[..i][j] == x;
      }
      if x in prefix {
        var j :| 0 <= j < i && all[..i][j] == x;
        assert Less(all[j], all[i]);
      }
    }
    assert smaller == prefix;
    DistinctSize(all[..i]);
  }

  lemma {:induction false} DistinctSize(s: seq<Key>)
    requires Increasing(s)
    ensures |set x | x in s| == |s|
  {
    if s != [] {
      var init, last := s[..|s| - 1], s[|s| - 1];
      DistinctSize(init);
      assert s == init + [last];
      assert (set x | x in s) == (set x | x in init) + {last};
      assert last !in init;
    }
  }

  lemma TakenFirst(all: seq<Key>, n: nat, i: nat)
    requires Increasing(all) && i < |all|
    ensures all[i] in Take(all, n) <==> i < n
  {
    if i < n {
      assert Take(all, n)[i] == all[i];
    } else {
      forall j | 0 <= j < n ensures Take(all, n)[j] != all[i] { assert Less(all[j], all[i]); }
    }
  }

  /** The first `n` of a sorted set are the elements with fewer than `n` before them. */
  lemma InFirst(s: set<Key>, n: nat, k: Key)
    requires k in s
    ensures k in Take(Ascending(s), n) <==> |Before(s, k)| < n
  {
    var all := Ascending(s);
    assert k in all;
    var i :| 0 <= i < |all| && all[i] == k;
    Rank(all, i);
    assert Before(s, k) == set x | x in all && Less(x, all[i]);
    TakenFirst(all, n, i);
  }

  ghost predicate SetOf(r: seq<Key>, s: set<Key>) {
    Increasing(r) && forall k :: k in r <==> k in s
  }

  lemma InsertedAt(r: seq<Key>, k: Key, i: nat)
    requires Increasing(r) && i <= |r|
    requires (forall j :: 0 <= j < i ==> Less(r[j], k)) && (i < |r| ==> Less(k, r[i]))
    ensures Increasing(r[..i] + [k] + r[i..])
    ensures forall x :: x in r[..i] + [k] + r[i..] <==> x in r || x == k
  {
    var q := r[..i] + [k] + r[i..];
    forall a, b | 0 <= a < b < |q| ensures Less(q[a], q[b]) {
      if i < b {
        assert q[b] == r[b - 1];
        assert b - 1 == i || Less(r[i], r[b - 1]);
      }
    }
    assert r == r[..i] + r[i..];
  }

  /** Inserts a key into an increasing sequence, scanning from the front. */
  method Insert(r: seq<Key>, k: Key) returns (q: seq<Key>)
    requires Increasing(r) && k !in r
    ensures Increasing(q) && forall x :: x in q <==> x in r || x == k
  {
    var i := 0;
    while i < |r| && Less(r[i], k)
      invariant 0 <= i <= |r|
      invariant forall j :: 0 <= j < i ==> Less(r[j], k)
    {
      i := i + 1;
    }
    InsertedAt(r, k, i);
    q := r[..i] + [k] + r[i..];
  }

  /** Sorts a finite set of keys. */
  method Sort(s: set<Key>) returns (r: seq<Key>)
    ensures r == Ascending(s)
  {
    r := [];
    var rest := s;
    while rest != {}
      invariant rest <= s
      invariant SetOf(r, s - rest)
      decreases rest
    {
      var k :| k in rest;
      r := Insert(r, k);
      rest := rest - {k};
    }
    assert s - rest == s;
    IncreasingUnique(r, Ascending(s));
  }
}
