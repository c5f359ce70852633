/** Backup retention (python/chat/backup.py): the last seven days, and the newest copy of each of the four
    newest weeks. A copy is named by its moment in microseconds, which its file name spells. */
module Retention {
  import opened Ordering

  type Moment = int

  const DAY: Moment := 86_400_000_000
  const KEPT_WEEKS: nat := 4

  /** ISO weeks start on Monday, and 1 January 1970 was a Thursday: weeks are numbered, not named by year. */
  function Week(s: Moment): int {
    (s / DAY + 3) / 7
  }

  function LaterWeeks(d: set<Moment>, w: int): set<int> {
    set s | s in d && Week(s) > w :: Week(s)
  }

  predicate Recent(s: Moment, now: Moment) {
    s >= now - 7 * DAY
  }

  predicate NewestOfWeek(d: set<Moment>, s: Moment) {
    s in d && forall t :: t in d && Week(t) == Week(s) ==> t <= s
  }

  predicate Retained(d: set<Moment>, now: Moment, s: Moment) {
    s in d && (Recent(s, now) || (NewestOfWeek(d, s) && |LaterWeeks(d, Week(s))| < KEPT_WEEKS))
  }

  function Retain(d: set<Moment>, now: Moment): set<Moment> {
    set s | s in d && Retained(d, now, s)
  }

  // ---- The four newest weeks --------------------------------------------------------------------

  function Above(ws: set<int>, w: int): set<int> {
    set x | x in ws && x > w
  }

  /** The members with fewer than `n` greater ones. */
  function Top(ws: set<int>, n: nat): set<int> {
    set w | w in ws && |Above(ws, w)| < n
  }

  ghost predicate IsGreatest(ws: set<int>, m: int) {
    m in ws && forall x :: x in ws ==> x <= m
  }

  lemma {:induction false} GreatestExists(ws: set<int>, x: int) returns (m: int)
    requires x in ws
    ensures IsGreatest(ws, m)
    decreases |ws|
  {
    m := x;
    if y :| y in ws && y != x {
      m := GreatestExists(ws - {x}, y);
      if m < x { m := x; }
      forall z | z in ws ensures z <= m { assert z == x || z in ws - {x}; }
    } else {
      forall z | z in ws ensures z <= m { assert z == x; }
    }
  }

  /** There are `n` of them, or all. */
  lemma {:induction false} TopSize(ws: set<int>, n: nat)
    ensures |Top(ws, n)| == if |ws| <= n then |ws| else n
    decreases |ws|
  {
    if n == 0 || !(exists x :: x in ws) {
      assert n == 0 || ws == {};
      assert Top(ws, n) == {};
    } else {
      var x :| x in ws;
      var m := GreatestExists(ws, x);
      assert |ws - {m}| == |ws| - 1;
      TopSize(ws - {m}, n - 1);
      TopOfRest(ws, n, m);
    }
  }

  lemma AboveRest(ws: set<int>, m: int, w: int)
    requires IsGreatest(ws, m) && w in ws
    ensures if w == m then |Above(ws, w)| == 0 else |Above(ws, w)| == |Above(ws - {m}, w)| + 1
  {
    if w == m {
      assert Above(ws, w) == {};
    } else {
      assert Above(ws, w) == Above(ws - {m}, w) + {m};
    }
  }

  lemma TopOfRest(ws: set<int>, n: nat, m: int)
    requires IsGreatest(ws, m) && n > 0
    ensures |Top(ws, n)| == |Top(ws - {m}, n - 1)| + 1
  {
    forall w ensures w in Top(ws, n) <==> w in Top(ws - {m}, n - 1) + {m} {
      if w in ws { AboveRest(ws, m, w); }
    }
    assert Top(ws, n) == Top(ws - {m}, n - 1) + {m};
  }

  function WeeksOf(d: set<Moment>): set<int> {
    set s | s in d :: Week(s)
  }

  lemma {:induction false} NewestExists(d: set<Moment>, w: int) returns (s: Moment)
    requires w in WeeksOf(d)
    ensures Week(s) == w && NewestOfWeek(d, s)
  {
    var week := set x | x in d && Week(x) == w;
    var x :| x in d && Week(x) == w;
    s := GreatestExists(week, x);
    forall t | t in d && Week(t) == w ensures t <= s { assert t in week; }
  }

  /** A retention keeps a copy of every one of the four newest weeks. */
  lemma TopWeekKept(d: set<Moment>, now: Moment, w: int)
    requires w in WeeksOf(d) && |LaterWeeks(d, w)| < KEPT_WEEKS
    ensures w in WeeksOf(Retain(d, now))
  {
    var s := NewestExists(d, w);
    assert s in Retain(d, now);
  }

  /** Whether four later weeks exist looks the same before and after an earlier retention. */
  lemma LaterWeeksSurvive(d: set<Moment>, now: Moment, more: set<Moment>, w: int)
    ensures var u, v := d + more, Retain(d, now) + more;
            LaterWeeks(v, w) <= LaterWeeks(u, w)
            && (|LaterWeeks(u, w)| < KEPT_WEEKS <==> |LaterWeeks(v, w)| < KEPT_WEEKS)
  {
    var u, v, k := d + more, Retain(d, now) + more, Retain(d, now);
    SubsetSize(LaterWeeks(v, w), LaterWeeks(u, w));
    var later := LaterWeeks(d, w);
    var top := Top(later, KEPT_WEEKS);
    TopSize(later, KEPT_WEEKS);
    forall x | x in top ensures x in LaterWeeks(k, w) {
      assert Above(later, x) == LaterWeeks(d, x);
      TopWeekKept(d, now, x);
    }
    SubsetSize(top, LaterWeeks(k, w));
    SubsetSize(LaterWeeks(k, w), LaterWeeks(v, w));
    if |later| < KEPT_WEEKS {
      forall x | x in LaterWeeks(u, w) ensures x in LaterWeeks(v, w) {
        if x in later {
          SubsetSize(Above(later, x), later);
          assert x in top;
        }
      }
      assert LaterWeeks(u, w) == LaterWeeks(v, w);
    }
  }

  lemma RetainedStays(d: set<Moment>, now1: Moment, more: set<Moment>, now2: Moment, s: Moment)
    requires now1 <= now2 && Retained(d + more, now2, s)
    ensures Retained(Retain(d, now1) + more, now2, s)
  {
    var u, v := d + more, Retain(d, now1) + more;
    LaterWeeksSurvive(d, now1, more, Week(s));
    if s in d && s !in more {
      if !Recent(s, now2) {
        SubsetSize(LaterWeeks(d, Week(s)), LaterWeeks(u, Week(s)));
        assert NewestOfWeek(d, s);
      }
      assert s in Retain(d, now1);
    }
  }

  lemma RetainedWas(d: set<Moment>, now1: Moment, more: set<Moment>, now2: Moment, s: Moment)
    requires now1 <= now2 && Retained(Retain(d, now1) + more, now2, s)
    ensures Retained(d + more, now2, s)
  {
    var u, v := d + more, Retain(d, now1) + more;
    var w := Week(s);
    if !Recent(s, now2) {
      LaterWeeksSurvive(d, now1, more, w);
      var m := NewestExists(u, w);
      if m in d {
        assert NewestOfWeek(d, m);
        SubsetSize(LaterWeeks(d, w), LaterWeeks(u, w));
        assert m in Retain(d, now1);
      }
      assert m == s;
    }
  }

  /** Retaining in two steps is retaining once: with any copies added in between, an earlier retention changes
      nothing of what a later one keeps. */
  lemma IncrementalIsOneShot(d: set<Moment>, now1: Moment, more: set<Moment>, now2: Moment)
    requires now1 <= now2
    ensures Retain(Retain(d, now1) + more, now2) == Retain(d + more, now2)
  {
    forall s ensures s in Retain(Retain(d, now1) + more, now2) <==> s in Retain(d + more, now2) {
      if s in Retain(d + more, now2) { RetainedStays(d, now1, more, now2, s); }
      if s in Retain(Retain(d, now1) + more, now2) { RetainedWas(d, now1, more, now2, s); }
    }
  }

  // ---- Any schedule -------------------------------------------------------------------------------

  /** One run of the job: copies made since the last one, then a retention. */
  datatype Job = Job(made: set<Moment>, at: Moment)

  function Held(jobs: seq<Job>): set<Moment> {
    if jobs == [] then {}
    else Retain(Held(jobs[..|jobs| - 1]) + jobs[|jobs| - 1].made, jobs[|jobs| - 1].at)
  }

  function Made(jobs: seq<Job>): set<Moment> {
    if jobs == [] then {} else Made(jobs[..|jobs| - 1]) + jobs[|jobs| - 1].made
  }

  predicate InTime(jobs: seq<Job>) {
    forall i, j :: 0 <= i <= j < |jobs| ==> jobs[i].at <= jobs[j].at
  }

  /** After any schedule the directory holds exactly what one retention of all copies ever made would keep. */
  lemma {:induction false} ScheduleIsOneShot(jobs: seq<Job>)
    requires jobs != [] && InTime(jobs)
    ensures Held(jobs) == Retain(Made(jobs), jobs[|jobs| - 1].at)
  {
    var init, last := jobs[..|jobs| - 1], jobs[|jobs| - 1];
    if init != [] {
      ScheduleIsOneShot(init);
      IncrementalIsOneShot(Made(init), init[|init| - 1].at, last.made, last.at);
    }
  }

  // ---- The job ------------------------------------------------------------------------------------

  ghost predicate Falling(s: seq<int>) {
    forall i, j :: 0 <= i < j < |s| ==> s[j] < s[i]
  }

  lemma WeekMonotone(s: Moment, t: Moment)
    requires s <= t
    ensures Week(s) <= Week(t)
  {
  }

  lemma {:induction false} FallingSize(s: seq<int>)
    requires Falling(s)
    ensures |set x | x in s| == |s|
  {
    if s != [] {
      var init, last := s[..|s| - 1], s[|s| - 1];
      FallingSize(init);
      assert s == init + [last];
      assert (set x | x in s) == (set x | x in init) + {last};
    }
  }

  /** The weeks met so far, newest first, and the newest copy of each. */
  ghost predicate Heads(done: seq<Moment>, weeks: seq<int>, heads: seq<Moment>) {
    && |heads| == |weeks| && Falling(weeks)
    && (forall j :: 0 <= j < |weeks| ==>
          heads[j] in done && Week(heads[j]) == weeks[j]
          && forall t :: t in done && Week(t) == weeks[j] ==> t <= heads[j])
    && (forall t :: t in done ==> Week(t) in weeks)
  }

  lemma EarlierHeads(d: set<Moment>, all: seq<Moment>, weeks: seq<int>, heads: seq<Moment>, j: nat, x: int)
    requires (forall s :: s in all <==> s in d) && Heads(all, weeks, heads) && j < |weeks|
    ensures x in LaterWeeks(d, weeks[j]) <==> x in weeks[..j]
  {
    if x in LaterWeeks(d, weeks[j]) {
      var i :| 0 <= i < |weeks| && weeks[i] == x;
      assert weeks[..j][i] == x;
    }
    if x in weeks[..j] {
      var i :| 0 <= i < j && weeks[..j][i] == x;
      assert heads[i] in d && Week(heads[i]) == x;
    }
  }

  lemma HeadRank(d: set<Moment>, all: seq<Moment>, weeks: seq<int>, heads: seq<Moment>, j: nat)
    requires (forall s :: s in all <==> s in d) && Heads(all, weeks, heads) && j < |weeks|
    ensures NewestOfWeek(d, heads[j]) && |LaterWeeks(d, weeks[j])| == j
  {
    var before := set x | x in weeks[..j];
    forall x ensures x in LaterWeeks(d, weeks[j]) <==> x in before { EarlierHeads(d, all, weeks, heads, j, x); }
    assert LaterWeeks(d, weeks[j]) == before;
    FallingSize(weeks[..j]);
  }

  lemma HeadsAreTop(d: set<Moment>, all: seq<Moment>, weeks: seq<int>, heads: seq<Moment>, s: Moment)
    requires (forall x :: x in all <==> x in d) && Heads(all, weeks, heads)
    ensures s in heads[..if |heads| < KEPT_WEEKS then |heads| else KEPT_WEEKS]
            <==> NewestOfWeek(d, s) && |LaterWeeks(d, Week(s))| < KEPT_WEEKS
  {
    var first := heads[..if |heads| < KEPT_WEEKS then |heads| else KEPT_WEEKS];
    if s in first {
      var j :| 0 <= j < |first| && first[j] == s;
      HeadRank(d, all, weeks, heads, j);
    }
    if NewestOfWeek(d, s) && |LaterWeeks(d, Week(s))| < KEPT_WEEKS {
      var j :| 0 <= j < |weeks| && weeks[j] == Week(s);
      HeadRank(d, all, weeks, heads, j);
      assert first[j] == s;
    }
  }

  function KeysOf(d: set<Moment>): set<Key> {
    set s | s in d :: Key(1, -s, 0)
  }

  lemma KeyOfStamp(d: set<Moment>, k: Key)
    ensures k in KeysOf(d) <==> -k.at in d && k == Key(1, k.at, 0)
  {
    if -k.at in d && k == Key(1, k.at, 0) { assert k == Key(1, -(-k.at), 0); }
  }

  lemma StampFound(d: set<Moment>, sorted: seq<Key>, s: Moment) returns (i: nat)
    requires sorted == Ascending(KeysOf(d)) && s in d
    ensures i < |sorted| && sorted[i] == Key(1, -s, 0)
  {
    KeyOfStamp(d, Key(1, -s, 0));
    assert Key(1, -s, 0) in sorted;
    i :| 0 <= i < |sorted| && sorted[i] == Key(1, -s, 0);
  }

  lemma StampsFall(d: set<Moment>, sorted: seq<Key>, all: seq<Moment>)
    requires sorted == Ascending(KeysOf(d))
    requires |all| == |sorted| && forall i :: 0 <= i < |all| ==> all[i] == -sorted[i].at
    ensures Falling(all) && forall s :: s in all <==> s in d
  {
    forall i | 0 <= i < |all| ensures all[i] in d && sorted[i] == Key(1, -all[i], 0) {
      assert sorted[i] in sorted;
      KeyOfStamp(d, sorted[i]);
    }
    forall s | s in d ensures s in all {
      var i := StampFound(d, sorted, s);
      assert all[i] == s;
    }
    forall i, j | 0 <= i < j < |all| ensures all[j] < all[i] { assert Less(sorted[i], sorted[j]); }
  }

  class BackupDirectory {
    var copies: set<Moment>

    constructor ()
      ensures copies == {}
    {
      copies := {};
    }

    /** The stamps, newest first. */
    method SortedStamps() returns (all: seq<Moment>)
      ensures Falling(all) && forall s :: s in all <==> s in copies
    {
      var sorted := Sort(KeysOf(copies));
      all := seq(|sorted|, i requires 0 <= i < |sorted| => -sorted[i].at);
      StampsFall(copies, sorted, all);
    }

    /** weeks.setdefault over the stamps, newest first. */
    method HeadsOf(all: seq<Moment>) returns (weeks: seq<int>, heads: seq<Moment>)
      requires Falling(all)
      ensures Heads(all, weeks, heads)
    {
      weeks, heads := [], [];
      for i := 0 to |all|
        invariant Heads(all[..i], weeks, heads)
      {
        var week := Week(all[i]);
        HeadsGrow(all, i, weeks, heads);
        if week !in weeks {
          weeks, heads := weeks + [week], heads + [all[i]];
        }
      }
      assert all[..|all|] == all;
    }

    method RetainCopies(now: Moment)
      modifies this
      ensures copies == Retain(old(copies), now)
    {
      var all := SortedStamps();
      var weeks, heads := HeadsOf(all);
      var keep := set s | s in all && s >= now - 7 * DAY;
      var first := heads[..if |heads| < KEPT_WEEKS then |heads| else KEPT_WEEKS];
      keep := keep + set s | s in first;
      forall s ensures s in copies && s in keep <==> Retained(copies, now, s) {
        HeadsAreTop(copies, all, weeks, heads, s);
      }
      copies := set s | s in copies && s in keep;
    }
  }

  lemma EarlierAreNewer(all: seq<Moment>, i: nat, t: Moment)
    requires i < |all| && Falling(all) && t in all[..i]
    ensures all[i] < t && Week(all[i]) <= Week(t)
  {
    var j :| 0 <= j < i && all[..i][j] == t;
    assert all[j] == t;
    WeekMonotone(all[i], t);
  }

  lemma HeadsGrow(all: seq<Moment>, i: nat, weeks: seq<int>, heads: seq<Moment>)
    requires i < |all| && Falling(all) && Heads(all[..i], weeks, heads)
    ensures if Week(all[i]) in weeks then Heads(all[..i + 1], weeks, heads)
            else Heads(all[..i + 1], weeks + [Week(all[i])], heads + [all[i]])
  {
    var s, done := all[i], all[..i];
    assert all[..i + 1] == done + [s];
    forall t | t in done ensures s < t && Week(s) <= Week(t) { EarlierAreNewer(all, i, t); }
    if Week(s) in weeks { HeadsSame(done, weeks, heads, s); } else { HeadsMore(done, weeks, heads, s); }
  }

  lemma HeadsSame(done: seq<Moment>, weeks: seq<int>, heads: seq<Moment>, s: Moment)
    requires Heads(done, weeks, heads) && Week(s) in weeks && forall t :: t in done ==> s < t && Week(s) <= Week(t)
    ensures Heads(done + [s], weeks, heads)
  {
  }

  lemma HeadsMore(done: seq<Moment>, weeks: seq<int>, heads: seq<Moment>, s: Moment)
    requires Heads(done, weeks, heads) && Week(s) !in weeks && forall t :: t in done ==> s < t && Week(s) <= Week(t)
    ensures Heads(done + [s], weeks + [Week(s)], heads + [s])
  {
    forall j | 0 <= j < |weeks| ensures Week(s) < weeks[j] { assert heads[j] in done; }
  }

  // ---- What a retention keeps ---------------------------------------------------------------------

  /** Weeks begin on Mondays at midnight: 5 January 1970, the Monday of week 1, is day 4. */
  lemma WeekIs(s: Moment, k: int)
    ensures Week(s) == k <==> (7 * k - 3) * 86_400_000_000 <= s < (7 * k + 4) * 86_400_000_000
  {
  }

  /** The weeks after that of `s` that have a copy, by their number. */
  function WeeksAfter(d: set<Moment>, s: Moment): set<int> {
    set t | t in d && Week(t) > Week(s) :: Week(t)
  }

  /** A copy stays exactly when it is at most seven days old, or the newest of its week with fewer than four
      later weeks that have copies. */
  lemma RetainedIff(d: set<Moment>, now: Moment, s: Moment)
    ensures s in Retain(d, now) <==>
              && s in d
              && (|| s + 604_800_000_000 >= now
                  || ((forall t :: t in d && t > s ==> Week(t) != Week(s)) && |WeeksAfter(d, s)| < 4))
  {
    assert LaterWeeks(d, Week(s)) == WeeksAfter(d, s);
  }
}
