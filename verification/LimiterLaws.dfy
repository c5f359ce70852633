/** What the limiter admits is exactly what the past admits: both algorithms decide like a full record of
    every admission, so their bounds are tight, and the life of a key changes no decision. */
module LimiterLaws {
  import opened Wrappers
  import opened Limiter

  ghost predicate Nondecreasing(ts: seq<real>) {
    forall i, j :: 0 <= i <= j < |ts| ==> ts[i] <= ts[j]
  }

  // ---- The sliding window ---------------------------------------------------------------------

  /** The decisions on a sequence of arrivals, and the state after it. */
  function Slides(ts: seq<real>, k: Rule, expires: bool): (seq<bool>, Window) {
    if ts == [] then ([], Window([], 0.0))
    else
      var (ds, s) := Slides(ts[..|ts| - 1], k, expires);
      var (ok, s') := Slide(s, k, ts[|ts| - 1], expires);
      (ds + [ok], s')
  }

  /** The admitted arrivals, in order. */
  function Admitted(ts: seq<real>, ds: seq<bool>): seq<real>
    requires |ds| == |ts|
  {
    if ts == [] then []
    else Admitted(ts[..|ts| - 1], ds[..|ts| - 1]) + if ds[|ts| - 1] then [ts[|ts| - 1]] else []
  }

  /** The decision a full record makes: fewer than `limit` admissions in the window that ends now. */
  ghost predicate DecidesByRecord(ts: seq<real>, ds: seq<bool>, k: Rule, i: nat)
    requires |ds| == |ts| && i < |ts|
  {
    ds[i] <==> |After(Admitted(ts[..i], ds[..i]), ts[i] - k.window)| < k.limit
  }

  lemma AfterAppend(s: seq<real>, x: real, from: real)
    ensures After(s + [x], from) == After(s, from) + if x > from then [x] else []
  {
    assert (s + [x])[..|s|] == s;
  }

  lemma {:induction false} AfterTwice(s: seq<real>, a: real, b: real)
    requires a <= b
    ensures After(After(s, a), b) == After(s, b)
  {
    if s != [] {
      var init, x := s[..|s| - 1], s[|s| - 1];
      AfterTwice(init, a, b);
      if x > a { AfterAppend(After(init, a), x, b); } else { assert After(init, a) + [] == After(init, a); }
    }
  }

  lemma {:induction false} AfterNone(s: seq<real>, from: real)
    requires forall i :: 0 <= i < |s| ==> s[i] <= from
    ensures After(s, from) == []
  {
    if s != [] { AfterNone(s[..|s| - 1], from); }
  }

  lemma AdmittedAppend(ts: seq<real>, ds: seq<bool>, t: real, d: bool)
    requires |ds| == |ts|
    ensures Admitted(ts + [t], ds + [d]) == Grown(Admitted(ts, ds), t, d)
  {
    assert (ts + [t])[..|ts|] == ts && (ds + [d])[..|ts|] == ds;
  }

  /** At `now` the state counts the admissions that a full record counts. */
  predicate Counts(s: Window, adm: seq<real>, k: Rule, now: real, expires: bool) {
    After(if expires && s.until <= now then [] else s.stamps, now - k.window) == After(adm, now - k.window)
  }

  /** From `at` on, the state knows every admission that still matters, expired or not. */
  ghost predicate Remembers(s: Window, adm: seq<real>, k: Rule, at: real, expires: bool) {
    && (forall now :: now >= at ==> Counts(s, adm, k, now, expires))
    && (forall i :: 0 <= i < |adm| ==> adm[i] <= at && adm[i] + k.window <= s.until)
  }

  function Grown(adm: seq<real>, t: real, ok: bool): seq<real> {
    if ok then adm + [t] else adm
  }

  function Kept(s: Window, k: Rule, t: real, expires: bool): seq<real> {
    After(if expires && s.until <= t then [] else s.stamps, t - k.window)
  }

  lemma AdmitAfter(adm: seq<real>, t: real, from: real, later: real)
    requires from <= later
    ensures After(After(adm, from) + [t], later) == After(adm + [t], later)
  {
    AfterTwice(adm, from, later);
    AfterAppend(After(adm, from), t, later);
    AfterAppend(adm, t, later);
  }

  lemma AdmitCounts(s: Window, adm: seq<real>, k: Rule, t: real, expires: bool, now: real)
    requires s == Window(After(adm, t - k.window) + [t], t + k.window) && t <= now && ValidRule(k)
    requires forall i :: 0 <= i < |adm| ==> adm[i] <= t
    ensures Counts(s, adm + [t], k, now, expires)
  {
    if expires && s.until <= now {
      AfterNone(adm + [t], now - k.window);
    } else {
      AdmitAfter(adm, t, t - k.window, now - k.window);
    }
  }

  lemma RefuseCounts(s: Window, adm: seq<real>, k: Rule, t: real, expires: bool, now: real)
    requires s == Window(After(adm, t - k.window), s.until) && t <= now && ValidRule(k)
    requires forall i :: 0 <= i < |adm| ==> adm[i] + k.window <= s.until
    ensures Counts(s, adm, k, now, expires)
  {
    var from, later := t - k.window, now - k.window;
    if expires && s.until <= now {
      EndedCounts(adm, later);
    } else {
      StillCounts(s.stamps, adm, from, later);
    }
  }

  lemma EndedCounts(adm: seq<real>, later: real)
    requires forall i :: 0 <= i < |adm| ==> adm[i] <= later
    ensures After([], later) == After(adm, later)
  {
    AfterNone(adm, later);
  }

  lemma StillCounts(stamps: seq<real>, adm: seq<real>, from: real, later: real)
    requires from <= later && stamps == After(adm, from)
    ensures After(stamps, later) == After(adm, later)
  {
    AfterTwice(adm, from, later);
  }

  lemma SlideRemembers(s: Window, adm: seq<real>, k: Rule, t: real, expires: bool)
    requires Remembers(s, adm, k, t, expires) && ValidRule(k)
    ensures var (ok, s') := Slide(s, k, t, expires); Remembers(s', Grown(adm, t, ok), k, t, expires)
  {
    var (ok, s') := Slide(s, k, t, expires);
    assert Counts(s, adm, k, t, expires);
    assert Kept(s, k, t, expires) == After(adm, t - k.window);
    if ok {
      assert s' == Window(After(adm, t - k.window) + [t], t + k.window);
      forall now: real ensures now >= t ==> Counts(s', adm + [t], k, now, expires) {
        if now >= t { AdmitCounts(s', adm, k, t, expires, now); }
      }
    } else {
      assert s' == Window(After(adm, t - k.window), s.until);
      forall now: real ensures now >= t ==> Counts(s', adm, k, now, expires) {
        if now >= t { RefuseCounts(s', adm, k, t, expires, now); }
      }
    }
  }

  lemma RemembersLater(s: Window, adm: seq<real>, k: Rule, t: real, at: real, expires: bool)
    requires Remembers(s, adm, k, t, expires) && t <= at
    ensures Remembers(s, adm, k, at, expires)
  {
  }

  lemma {:induction false} SlidesRemember(ts: seq<real>, k: Rule, expires: bool, at: real)
    requires Nondecreasing(ts) && ValidRule(k) && (ts == [] || ts[|ts| - 1] <= at)
    ensures var (ds, s) := Slides(ts, k, expires); |ds| == |ts| && Remembers(s, Admitted(ts, ds), k, at, expires)
    decreases |ts|
  {
    if ts != [] {
      var init, t := ts[..|ts| - 1], ts[|ts| - 1];
      SlidesRemember(init, k, expires, t);
      var (ds, s) := Slides(init, k, expires);
      SlideRemembers(s, Admitted(init, ds), k, t, expires);
      var (ok, s') := Slide(s, k, t, expires);
      AdmittedAppend(init, ds, t, ok);
      assert init + [t] == ts;
      RemembersLater(s', Grown(Admitted(init, ds), t, ok), k, t, at, expires);
    }
  }

  lemma {:induction false} SlidesLength(ts: seq<real>, k: Rule, expires: bool)
    ensures |Slides(ts, k, expires).0| == |ts|
  {
    if ts != [] { SlidesLength(ts[..|ts| - 1], k, expires); }
  }

  lemma PrefixOfAppend<T>(a: seq<T>, b: seq<T>, x: T, i: nat)
    requires b == a + [x] && i <= |a|
    ensures b[..i] == a[..i]
  {
  }

  lemma {:induction false} SlidesPrefix(ts: seq<real>, k: Rule, expires: bool, i: nat)
    requires i <= |ts|
    ensures |Slides(ts, k, expires).0| == |ts| && Slides(ts, k, expires).0[..i] == Slides(ts[..i], k, expires).0
    decreases |ts|
  {
    SlidesLength(ts, k, expires);
    if i == |ts| {
      assert ts[..i] == ts;
    } else {
      var init := ts[..|ts| - 1];
      SlidesPrefix(init, k, expires, i);
      assert init[..i] == ts[..i];
      var (ds, s) := Slides(init, k, expires);
      PrefixOfAppend(ds, Slides(ts, k, expires).0, Slide(s, k, ts[|ts| - 1], expires).0, i);
    }
  }

  lemma SlideDecides(s: Window, adm: seq<real>, k: Rule, t: real, expires: bool)
    requires Counts(s, adm, k, t, expires)
    ensures Slide(s, k, t, expires).0 <==> |After(adm, t - k.window)| < k.limit
  {
  }

  lemma LastSlide(ts: seq<real>, k: Rule, expires: bool, i: nat)
    requires i < |ts|
    ensures var ds := Slides(ts, k, expires).0;
            |ds| == |ts| && ds[..i] == Slides(ts[..i], k, expires).0
              && ds[i] == Slide(Slides(ts[..i], k, expires).1, k, ts[i], expires).0
  {
    SlidesPrefix(ts, k, expires, i);
    SlidesPrefix(ts, k, expires, i + 1);
    SlidesPrefix(ts[..i], k, expires, i);
    assert ts[..i + 1][..i] == ts[..i] && ts[..i + 1][i] == ts[i];
    var ds := Slides(ts, k, expires).0;
    assert ds[i] == ds[..i + 1][i];
  }

  /** Every decision, on every sequence of arrivals and whether keys expire or not, is the decision of a full
      record: admitted exactly when fewer than `limit` were admitted in the window that ends now. So a refusal
      means the window is full. */
  lemma WindowDecidesByRecord(ts: seq<real>, k: Rule, expires: bool, i: nat)
    requires Nondecreasing(ts) && ValidRule(k) && i < |ts|
    ensures var ds := Slides(ts, k, expires).0; |ds| == |ts| && DecidesByRecord(ts, ds, k, i)
  {
    LastSlide(ts, k, expires, i);
    SlidesRemember(ts[..i], k, expires, ts[i]);
    var (ds, s) := Slides(ts[..i], k, expires);
    assert Counts(s, Admitted(ts[..i], ds), k, ts[i], expires);
    SlideDecides(s, Admitted(ts[..i], ds), k, ts[i], expires);
  }

  /** A key that ends decides like one that never does. */
  lemma {:induction false} WindowExpiryIsInvisible(ts: seq<real>, k: Rule)
    requires Nondecreasing(ts) && ValidRule(k)
    ensures Slides(ts, k, true).0 == Slides(ts, k, false).0
  {
    if ts != [] {
      var n := |ts| - 1;
      WindowExpiryIsInvisible(ts[..n], k);
      SlidesPrefix(ts, k, true, n);
      SlidesPrefix(ts, k, false, n);
      WindowDecidesByRecord(ts, k, true, n);
      WindowDecidesByRecord(ts, k, false, n);
    }
  }

  /** The admissions among arrivals `i` to `j`. */
  function CountBetween(ds: seq<bool>, i: nat, j: nat): nat
    requires i <= j <= |ds|
  {
    if i == j then 0 else CountBetween(ds, i, j - 1) + if ds[j - 1] then 1 else 0
  }

  lemma CountOne(adm: seq<real>, t: real, d: bool, from: real)
    requires t > from
    ensures |After(Grown(adm, t, d), from)| == |After(adm, from)| + if d then 1 else 0
  {
    AfterAppend(adm, t, from);
  }

  lemma {:induction false} CountAdmitted(ts: seq<real>, ds: seq<bool>, i: nat, j: nat, from: real)
    requires |ds| == |ts| && i <= j <= |ts| && Nondecreasing(ts) && (i < j ==> ts[i] > from)
    ensures CountBetween(ds, i, j) <= |After(Admitted(ts[..j], ds[..j]), from)|
    decreases j
  {
    if i < j {
      CountAdmitted(ts, ds, i, j - 1, from);
      AdmittedAppend(ts[..j - 1], ds[..j - 1], ts[j - 1], ds[j - 1]);
      assert ts[..j] == ts[..j - 1] + [ts[j - 1]] && ds[..j] == ds[..j - 1] + [ds[j - 1]];
      CountOne(Admitted(ts[..j - 1], ds[..j - 1]), ts[j - 1], ds[j - 1], from);
    }
  }

  /** Among arrivals less than a window apart - those of any half-open window - at most `limit` are admitted. */
  lemma {:induction false} WindowBound(ts: seq<real>, k: Rule, expires: bool, i: nat, j: nat)
    requires Nondecreasing(ts) && ValidRule(k) && i < j <= |ts| && ts[j - 1] - ts[i] < k.window
    ensures |Slides(ts, k, expires).0| == |ts| && CountBetween(Slides(ts, k, expires).0, i, j) <= k.limit
    decreases j
  {
    var ds := Slides(ts, k, expires).0;
    WindowDecidesByRecord(ts, k, expires, j - 1);
    if ds[j - 1] {
      CountAdmitted(ts, ds, i, j - 1, ts[j - 1] - k.window);
    } else if i < j - 1 {
      WindowBound(ts, k, expires, i, j - 1);
    }
  }
}
