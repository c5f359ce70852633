/** The token bucket admits exactly what the bound burst + elapsed * limit / window leaves room for.
    Measured in tokens instead of milliseconds, and with a state that is never lost, the bucket is a
    tank that fills at rate one; the script refines it. */
module BucketLaws {
  import opened Wrappers
  import opened Limiter
  import opened LimiterLaws

  // ---- The tank ---------------------------------------------------------------------------------

  datatype Tank = Tank(tokens: real, stamp: real)

  function Contents(q: Option<Tank>, b: real, u: real): real {
    if q == None then b else Least(b, q.value.tokens + Greatest(0.0, u - q.value.stamp))
  }

  function Take(q: Option<Tank>, b: real, u: real): (bool, Option<Tank>) {
    if Contents(q, b, u) < 1.0 then (false, q) else (true, Some(Tank(Contents(q, b, u) - 1.0, u)))
  }

  function Takes(us: seq<real>, b: real): (seq<bool>, Option<Tank>) {
    if us == [] then ([], None)
    else
      var (ds, q) := Takes(us[..|us| - 1], b);
      var (ok, q') := Take(q, b, us[|us| - 1]);
      (ds + [ok], q')
  }

  function Spent(ok: bool): real { if ok then 1.0 else 0.0 }

  /** The least headroom before arrival `j`, computed arrival by arrival. */
  function Room(us: seq<real>, ds: seq<bool>, b: real, j: nat): real
    requires j < |us| && j <= |ds|
  {
    if j == 0 then b else Least(b, Room(us, ds, b, j - 1) - Spent(ds[j - 1]) + us[j] - us[j - 1])
  }

  lemma {:induction false} RoomIsLeast(us: seq<real>, ds: seq<bool>, b: real, i: nat, j: nat)
    requires i <= j < |us| && j <= |ds|
    ensures Room(us, ds, b, j) <= b + us[j] - us[i] - CountBetween(ds, i, j) as real
    decreases j
  {
    if i < j { RoomIsLeast(us, ds, b, i, j - 1); }
  }

  lemma {:induction false} RoomIsReached(us: seq<real>, ds: seq<bool>, b: real, j: nat) returns (i: nat)
    requires j < |us| && j <= |ds|
    ensures i <= j && Room(us, ds, b, j) == b + us[j] - us[i] - CountBetween(ds, i, j) as real
    decreases j
  {
    if j == 0 || Room(us, ds, b, j) == b {
      i := j;
    } else {
      i := RoomIsReached(us, ds, b, j - 1);
    }
  }

  lemma {:induction false} RoomAgrees(us: seq<real>, ds: seq<bool>, vs: seq<real>, es: seq<bool>, b: real, j: nat)
    requires j < |us| && j < |vs| && j <= |es| && j <= |ds|
    requires (forall x :: 0 <= x <= j ==> us[x] == vs[x]) && (forall x :: 0 <= x < j ==> es[x] == ds[x])
    ensures Room(us, ds, b, j) == Room(vs, es, b, j)
  {
    if j > 0 { RoomAgrees(us, ds, vs, es, b, j - 1); }
  }

  /** From `at` on the tank holds what it held then and what flowed in since. */
  ghost predicate Holding(q: Option<Tank>, b: real, v: real, at: real) {
    0.0 <= v <= b && forall u: real :: u >= at ==> Contents(q, b, u) == Least(b, v + u - at)
  }

  lemma TakeHolds(q: Option<Tank>, b: real, v: real, at: real, u: real)
    requires Holding(q, b, v, at) && at <= u && b >= 1.0
    ensures var (ok, q') := Take(q, b, u);
            var room := Least(b, v + u - at);
            (ok <==> room >= 1.0) && Holding(q', b, room - Spent(ok), u)
  {
    assert Contents(q, b, u) == Least(b, v + u - at);
  }

  lemma {:induction false} TakesLength(us: seq<real>, b: real)
    ensures |Takes(us, b).0| == |us|
  {
    if us != [] { TakesLength(us[..|us| - 1], b); }
  }

  /** After the arrivals up to `n` the tank holds the room of the last one, less its own admission. */
  lemma {:induction false} TakesHold(us: seq<real>, b: real, n: nat)
    requires b >= 1.0 && |us| == n + 1 && Nondecreasing(us)
    ensures var (ds, q) := Takes(us, b);
            |ds| == n + 1 && (ds[n] <==> Room(us, ds, b, n) >= 1.0)
              && Holding(q, b, Room(us, ds, b, n) - Spent(ds[n]), us[n])
    decreases n
  {
    var (before, q) := Takes(us[..n], b);
    var ds := Takes(us, b).0;
    TakesLength(us[..n], b);
    if n == 0 {
      assert Holding(None, b, b, us[0]);
      TakeHolds(None, b, b, us[0], us[0]);
    } else {
      TakesHold(us[..n], b, n - 1);
      RoomAgrees(us, ds, us[..n], before, b, n - 1);
      TakeHolds(q, b, Room(us, ds, b, n - 1) - Spent(ds[n - 1]), us[n - 1], us[n]);
    }
  }

  lemma {:induction false} TakesPrefix(us: seq<real>, b: real, i: nat)
    requires i <= |us|
    ensures |Takes(us, b).0| == |us| && Takes(us, b).0[..i] == Takes(us[..i], b).0
    decreases |us|
  {
    TakesLength(us, b);
    if i == |us| {
      assert us[..i] == us;
    } else {
      var init := us[..|us| - 1];
      TakesPrefix(init, b, i);
      assert init[..i] == us[..i];
      var (ds, q) := Takes(init, b);
      PrefixOfAppend(ds, Takes(us, b).0, Take(q, b, us[|us| - 1]).0, i);
    }
  }

  lemma TakesDecide(us: seq<real>, b: real, j: nat)
    requires b >= 1.0 && Nondecreasing(us) && j < |us|
    ensures var ds := Takes(us, b).0; |ds| == |us| && (ds[j] <==> Room(us, ds, b, j) >= 1.0)
  {
    var ds, vs := Takes(us, b).0, us[..j + 1];
    TakesPrefix(us, b, j + 1);
    TakesHold(vs, b, j);
    RoomAgrees(us, ds, vs, Takes(vs, b).0, b, j);
  }

  // ---- The script refines the tank ----------------------------------------------------------------

  /** The decisions of a script on a sequence of arrivals, and the state after it. */
  function Run<S>(script: (S, real) -> (bool, S), s: S, ts: seq<real>): (seq<bool>, S) {
    if ts == [] then ([], s)
    else
      var (ds, x) := Run(script, s, ts[..|ts| - 1]);
      var (ok, y) := script(x, ts[|ts| - 1]);
      (ds + [ok], y)
  }

  /** A script whose every step keeps a relation to the tank decides like the tank. */
  lemma {:induction false} RunFollows<S(!new)>(script: (S, real) -> (bool, S), s: S, ts: seq<real>, us: seq<real>,
                                               b: real, relates: (S, Option<Tank>, nat) -> bool)
    requires |us| == |ts| && relates(s, None, 0)
    requires forall i: nat, x, q :: i < |ts| && relates(x, q, i) ==>
               script(x, ts[i]).0 == Take(q, b, us[i]).0 && relates(script(x, ts[i]).1, Take(q, b, us[i]).1, i + 1)
    ensures Run(script, s, ts).0 == Takes(us, b).0
    ensures relates(Run(script, s, ts).1, Takes(us, b).1, |ts|)
    decreases |ts|
  {
    if ts != [] {
      var n := |ts| - 1;
      var t0, u0 := ts[..n], us[..n];
      forall i: nat, x, q | i < n && relates(x, q, i)
        ensures script(x, t0[i]).0 == Take(q, b, u0[i]).0 && relates(script(x, t0[i]).1, Take(q, b, u0[i]).1, i + 1)
      {
        assert t0[i] == ts[i] && u0[i] == us[i];
      }
      RunFollows(script, s, t0, u0, b, relates);
      var x, q := Run(script, s, t0).1, Takes(u0, b).1;
      assert relates(x, q, n);
    }
  }

  function BucketScript(burst: real, rate: real, life: real,
                        expires: bool): (Option<Bucket>, real) -> (bool, Option<Bucket>) {
    (s, now) => Pour(s, burst, rate, life, now, expires)
  }

  function Pours(ts: seq<real>, burst: real, rate: real, life: real, expires: bool): seq<bool> {
    Run(BucketScript(burst, rate, life, expires), None, ts).0
  }

  /** The arrivals measured in tokens. */
  function Scaled(ts: seq<real>, rate: real): seq<real> {
    seq(|ts|, i requires 0 <= i < |ts| => ts[i] * rate)
  }

  lemma Monotone(x: real, y: real, r: real)
    requires x <= y && r >= 0.0
    ensures x * r <= y * r
  {
  }

  lemma Difference(x: real, y: real, r: real)
    ensures (y - x) * r == y * r - x * r
  {
  }

  /** What flows in between two moments, in both measures. */
  lemma Flow(stamp: real, now: real, r: real, flow: real, x: real, y: real)
    requires stamp <= now && r > 0.0 && x == stamp * r && y == now * r && flow == Greatest(0.0, now - stamp) * r
    ensures flow == Greatest(0.0, y - x)
  {
    Difference(stamp, now, r);
    Monotone(stamp, now, r);
  }

  /** A key that ended had time for an empty bucket to fill. */
  lemma Filled(stamp: real, life: real, now: real, r: real, b: real, x: real, y: real)
    requires stamp + life <= now && r > 0.0 && life * r >= b && x == stamp * r && y == now * r
    ensures x + b <= y
  {
    Monotone(stamp + life, now, r);
    assert (stamp + life) * r == stamp * r + life * r;
  }

  /** The key and the tank agree at `at`, which is `u` in tokens: the same tokens since the same moment, or no
      key and a full tank. */
  predicate Simulates(s: Option<Bucket>, q: Option<Tank>, b: real, r: real, life: real, at: real, u: real) {
    && (q == None ==> s == None)
    && (q.Some? ==> q.value.tokens >= 0.0)
    && (s.Some? ==>
          && q.Some? && s.value.tokens == q.value.tokens && q.value.stamp == s.value.stamp * r
          && s.value.stamp <= at && s.value.until == s.value.stamp + life)
    && (q.Some? && s == None ==> q.value.stamp + b <= u)
  }

  lemma StandingSimulates(s: Option<Bucket>, q: Option<Tank>, b: real, r: real, life: real, at: real, u: real,
                          now: real, v: real, expires: bool)
    requires Simulates(s, q, b, r, life, at, u) && at <= now && u <= v && r > 0.0 && life * r >= b && v == now * r
    ensures Simulates(Standing(s, now, expires), q, b, r, life, now, v)
  {
    if s.Some? && expires && s.value.until <= now {
      Filled(s.value.stamp, life, now, r, b, q.value.stamp, v);
    }
  }

  lemma SameLevel(s: Option<Bucket>, q: Option<Tank>, b: real, r: real, life: real, now: real, v: real)
    requires Simulates(s, q, b, r, life, now, v) && r > 0.0 && v == now * r
    ensures Level(s, b, r, now) == Contents(q, b, v)
  {
    if s.Some? {
      Flow(s.value.stamp, now, r, Greatest(0.0, now - s.value.stamp) * r, q.value.stamp, v);
    }
  }

  lemma PourTakes(s: Option<Bucket>, q: Option<Tank>, b: real, r: real, life: real, at: real, u: real, now: real,
                  v: real, expires: bool)
    requires Simulates(s, q, b, r, life, at, u) && at <= now && u <= v && r > 0.0 && life * r >= b && v == now * r
    ensures var (ok, s') := Pour(s, b, r, life, now, expires);
            var (ok', q') := Take(q, b, v);
            ok == ok' && Simulates(s', q', b, r, life, now, v)
  {
    StandingSimulates(s, q, b, r, life, at, u, now, v, expires);
    SameLevel(Standing(s, now, expires), q, b, r, life, now, v);
  }

  /** The moment of the last of the first `i` arrivals. */
  function Last(ts: seq<real>, i: nat): real {
    if ts == [] then 0.0 else if 0 < i <= |ts| then ts[i - 1] else ts[0]
  }

  function Relation(ts: seq<real>, us: seq<real>, b: real, r: real,
                    life: real): (Option<Bucket>, Option<Tank>, nat) -> bool {
    (s: Option<Bucket>, q: Option<Tank>, i: nat) => Simulates(s, q, b, r, life, Last(ts, i), Last(us, i))
  }

  lemma StepRelates(ts: seq<real>, us: seq<real>, b: real, r: real, life: real, expires: bool, s: Option<Bucket>,
                    q: Option<Tank>, i: nat)
    requires r > 0.0 && life * r >= b && Nondecreasing(ts) && Nondecreasing(us) && i < |ts| == |us|
    requires us[i] == ts[i] * r
    requires Relation(ts, us, b, r, life)(s, q, i)
    ensures var (ok, s') := Pour(s, b, r, life, ts[i], expires);
            var (ok', q') := Take(q, b, us[i]);
            ok == ok' && Relation(ts, us, b, r, life)(s', q', i + 1)
  {
    assert Simulates(s, q, b, r, life, Last(ts, i), Last(us, i));
    PourTakes(s, q, b, r, life, Last(ts, i), Last(us, i), ts[i], us[i], expires);
    assert Last(ts, i + 1) == ts[i] && Last(us, i + 1) == us[i];
    var s', q' := Pour(s, b, r, life, ts[i], expires).1, Take(q, b, us[i]).1;
    assert Simulates(s', q', b, r, life, Last(ts, i + 1), Last(us, i + 1));
  }

  lemma PoursTakes(ts: seq<real>, us: seq<real>, b: real, r: real, life: real, expires: bool)
    requires r > 0.0 && life * r >= b && Nondecreasing(ts) && Nondecreasing(us) && |us| == |ts|
    requires forall i :: 0 <= i < |ts| ==> us[i] == ts[i] * r
    ensures Pours(ts, b, r, life, expires) == Takes(us, b).0
  {
    var script, relates := BucketScript(b, r, life, expires), Relation(ts, us, b, r, life);
    forall i: nat, x, q | i < |ts| && relates(x, q, i)
      ensures script(x, ts[i]).0 == Take(q, b, us[i]).0 && relates(script(x, ts[i]).1, Take(q, b, us[i]).1, i + 1)
    {
      StepRelates(ts, us, b, r, life, expires, x, q, i);
    }
    assert relates(None, None, 0);
    RunFollows(script, None, ts, us, b, relates);
  }

  lemma ScaledNondecreasing(ts: seq<real>, r: real)
    requires Nondecreasing(ts) && r > 0.0
    ensures Nondecreasing(Scaled(ts, r)) && |Scaled(ts, r)| == |ts|
  {
    forall i, j | 0 <= i <= j < |ts| ensures Scaled(ts, r)[i] <= Scaled(ts, r)[j] { Monotone(ts[i], ts[j], r); }
  }

  // ---- What the script decides ----------------------------------------------------------------------

  /** How many more admissions the bound for the arrivals from `i` on allows at arrival `j`. */
  function Headroom(ts: seq<real>, ds: seq<bool>, burst: real, rate: real, i: nat, j: nat): real
    requires i <= j < |ts| && j <= |ds|
  {
    burst + (ts[j] - ts[i]) * rate - CountBetween(ds, i, j) as real
  }

  lemma HeadroomScaled(ts: seq<real>, ds: seq<bool>, b: real, r: real, i: nat, j: nat, us: seq<real>)
    requires i <= j < |ts| && j <= |ds| && us == Scaled(ts, r)
    ensures Headroom(ts, ds, b, r, i, j) == b + us[j] - us[i] - CountBetween(ds, i, j) as real
  {
    Difference(ts[i], ts[j], r);
  }

  /** Every decision is the decision of a full record, whether keys end or not: an arrival is admitted exactly
      when, for the stretch from every earlier arrival, one more stays within burst + elapsed * rate. */
  lemma DecidesByRecord(ts: seq<real>, b: real, r: real, life: real, expires: bool, j: nat)
    requires b >= 1.0 && r > 0.0 && life * r >= b && Nondecreasing(ts) && j < |ts|
    ensures var ds := Pours(ts, b, r, life, expires);
            |ds| == |ts| && (ds[j] <==> forall i: nat :: i <= j ==> Headroom(ts, ds, b, r, i, j) >= 1.0)
  {
    var ds, us := Pours(ts, b, r, life, expires), Scaled(ts, r);
    ScaledNondecreasing(ts, r);
    PoursTakes(ts, us, b, r, life, expires);
    TakesDecide(us, b, j);
    forall i: nat | i <= j ensures Room(us, ds, b, j) <= Headroom(ts, ds, b, r, i, j) {
      RoomIsLeast(us, ds, b, i, j);
      HeadroomScaled(ts, ds, b, r, i, j, us);
    }
    var i := RoomIsReached(us, ds, b, j);
    HeadroomScaled(ts, ds, b, r, i, j, us);
  }

  lemma {:induction false} TakesBound(us: seq<real>, b: real, i: nat, j: nat)
    requires b >= 1.0 && Nondecreasing(us) && i <= j < |us|
    ensures |Takes(us, b).0| == |us| && CountBetween(Takes(us, b).0, i, j + 1) as real <= b + us[j] - us[i]
    decreases j
  {
    var ds := Takes(us, b).0;
    TakesDecide(us, b, j);
    RoomIsLeast(us, ds, b, i, j);
    if !ds[j] && i < j { TakesBound(us, b, i, j - 1); }
  }

  lemma PoursScaledBound(ts: seq<real>, us: seq<real>, b: real, r: real, life: real, expires: bool, i: nat, j: nat)
    requires b >= 1.0 && r > 0.0 && life * r >= b && Nondecreasing(ts) && Nondecreasing(us) && i <= j < |ts| == |us|
    requires forall x :: 0 <= x < |ts| ==> us[x] == ts[x] * r
    ensures |Pours(ts, b, r, life, expires)| == |ts|
    ensures CountBetween(Pours(ts, b, r, life, expires), i, j + 1) as real <= b + us[j] - us[i]
  {
    PoursTakes(ts, us, b, r, life, expires);
    TakesBound(us, b, i, j);
  }

  lemma PoursBound(ts: seq<real>, b: real, r: real, life: real, expires: bool, i: nat, j: nat)
    requires b >= 1.0 && r > 0.0 && life * r >= b && Nondecreasing(ts) && i <= j < |ts|
    ensures var ds := Pours(ts, b, r, life, expires); |ds| == |ts| && Headroom(ts, ds, b, r, i, j) >= Spent(ds[j])
  {
    var ds, us := Pours(ts, b, r, life, expires), Scaled(ts, r);
    ScaledNondecreasing(ts, r);
    PoursScaledBound(ts, us, b, r, life, expires, i, j);
    HeadroomScaled(ts, ds, b, r, i, j, us);
  }

  lemma ExpiryIsInvisible(ts: seq<real>, b: real, r: real, life: real)
    requires r > 0.0 && life * r >= b && Nondecreasing(ts)
    ensures Pours(ts, b, r, life, true) == Pours(ts, b, r, life, false)
  {
    var us := Scaled(ts, r);
    ScaledNondecreasing(ts, r);
    PoursTakes(ts, us, b, r, life, true);
    PoursTakes(ts, us, b, r, life, false);
  }

  // ---- With the configured rule -----------------------------------------------------------------------

  lemma Quotients(w: real, b: real, l: real)
    requires w > 0.0 && l > 0.0
    ensures (w * (b / l)) * (l / w) == b
  {
    var x, y := b / l, l / w;
    assert x * l == b && y * w == l;
    assert (w * x) * y == x * (y * w);
  }

  /** A key lives long enough for an empty bucket to fill. */
  lemma LifeFills(k: Rule)
    requires ValidRule(k)
    ensures Rate(k) > 0.0 && Life(k) as real * Rate(k) >= k.burst as real
  {
    var w, b, l := k.window, k.burst as real, k.limit as real;
    Quotients(w, b, l);
    Monotone(b / l, Greatest(1.0, b / l), w);
    assert Life(k) as real >= w * Greatest(1.0, b / l) >= w * (b / l);
    Monotone(w * (b / l), Life(k) as real, Rate(k));
  }

  function Decisions(ts: seq<real>, k: Rule, expires: bool): seq<bool>
    requires ValidRule(k)
  {
    Pours(ts, k.burst as real, Rate(k), Life(k) as real, expires)
  }

  /** How many more admissions the configured bound for the arrivals from `i` on allows at arrival `j`. */
  function Allowance(ts: seq<real>, ds: seq<bool>, k: Rule, i: nat, j: nat): real
    requires ValidRule(k) && i <= j < |ts| && j <= |ds|
  {
    Headroom(ts, ds, k.burst as real, Rate(k), i, j)
  }

  /** The script admits an arrival exactly when the configured bound leaves room for one more on the stretch
      from every earlier arrival. */
  lemma BucketDecidesByRecord(ts: seq<real>, k: Rule, expires: bool, j: nat)
    requires ValidRule(k) && k.burst > 0 && Nondecreasing(ts) && j < |ts|
    ensures |Decisions(ts, k, expires)| == |ts|
    ensures Decisions(ts, k, expires)[j]
            <==> forall i: nat :: i <= j ==> Allowance(ts, Decisions(ts, k, expires), k, i, j) >= 1.0
  {
    LifeFills(k);
    DecidesByRecord(ts, k.burst as real, Rate(k), Life(k) as real, expires, j);
    var ds := Decisions(ts, k, expires);
    var b, r := k.burst as real, Rate(k);
    if forall i: nat :: i <= j ==> Allowance(ts, ds, k, i, j) >= 1.0 {
      forall i: nat | i <= j ensures Headroom(ts, ds, b, r, i, j) >= 1.0 {
        assert Allowance(ts, ds, k, i, j) >= 1.0;
      }
    }
  }

  /** So in any stretch of arrivals at most burst + elapsed * limit / window are admitted: what the bound leaves
      before the last arrival covers its own admission. */
  lemma BurstBound(ts: seq<real>, k: Rule, expires: bool, i: nat, j: nat)
    requires ValidRule(k) && k.burst > 0 && Nondecreasing(ts) && i <= j < |ts|
    ensures |Decisions(ts, k, expires)| == |ts|
    ensures Allowance(ts, Decisions(ts, k, expires), k, i, j) >= Spent(Decisions(ts, k, expires)[j])
  {
    LifeFills(k);
    PoursBound(ts, k.burst as real, Rate(k), Life(k) as real, expires, i, j);
  }

  /** A bucket whose key ends decides like one that never loses its state. */
  lemma BucketExpiryIsInvisible(ts: seq<real>, k: Rule)
    requires ValidRule(k) && Nondecreasing(ts)
    ensures Decisions(ts, k, true) == Decisions(ts, k, false)
  {
    LifeFills(k);
    ExpiryIsInvisible(ts, k.burst as real, Rate(k), Life(k) as real);
  }
}
