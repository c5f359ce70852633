/** What one call leaves in a limiter key: the arrival it admits, the tokens it spends, and how long the key is
    kept. */
module LimiterOutcomes {
  import opened Wrappers
  import opened Limiter

  /** A sliding window admits one more exactly when fewer than the limit arrived after its beginning, and then
      keeps the key for one window from now on; a refusal prolongs nothing. */
  lemma WindowAnswers(s: Window, k: Rule, now: real)
    ensures var (ok, after) := Slide(s, k, now, true);
            var kept := if s.until <= now then [] else After(s.stamps, now - k.window);
            && (ok <==> |kept| < k.limit)
            && after == if ok then Window(kept + [now], now + k.window) else Window(kept, s.until)
  {
  }

  /** What counts: the arrivals after the beginning of the window. */
  lemma {:induction false} CountsLater(stamps: seq<real>, from: real, x: real)
    ensures multiset(After(stamps, from))[x] == if x > from then multiset(stamps)[x] else 0
  {
    if stamps != [] {
      CountsLater(stamps[..|stamps| - 1], from, x);
      assert stamps == stamps[..|stamps| - 1] + [stamps[|stamps| - 1]];
    }
  }

  /** A bucket without a key is full; one with a key has gained `rate` tokens a millisecond, up to its size. An
      admission takes one, keeps the rest from now on and the key for `life`; a refusal changes nothing. */
  lemma BucketAnswers(s: Option<Bucket>, burst: real, rate: real, life: real, now: real, gained: real)
    requires s.Some? ==> gained == (if now <= s.value.stamp then 0.0 else now - s.value.stamp) * rate
    ensures var (ok, after) := Pour(s, burst, rate, life, now, true);
            var there := s.Some? && now < s.value.until;
            var tokens := if !there then burst
                          else if s.value.tokens + gained <= burst then s.value.tokens + gained else burst;
            && (ok <==> tokens >= 1.0)
            && after == if ok then Some(Bucket(tokens - 1.0, now, now + life)) else if there then s else None
  {
  }

  lemma CeilingIs(x: real, n: int)
    ensures Ceiling(x) == n <==> (n - 1) as real < x <= n as real
  {
  }

  /** A bucket is kept for the least whole number of milliseconds that is neither shorter than the window nor
      than the time in which an empty bucket fills. */
  lemma LifeIs(k: Rule, n: int, factor: real, fill: real)
    requires ValidRule(k) && factor == k.burst as real / k.limit as real && fill == k.window * factor
    ensures Life(k) == n <==>
              && k.window <= n as real && fill <= n as real
              && ((n - 1) as real < k.window || (n - 1) as real < fill)
  {
    var x := LifeMeans(k, factor);
    GreatestScales(k.window, factor, fill, x);
    LeastAbove(x, k.window, fill, n);
  }

  lemma LifeMeans(k: Rule, factor: real) returns (x: real)
    requires ValidRule(k) && factor == k.burst as real / k.limit as real
    ensures x == k.window * Greatest(1.0, factor) && Life(k) == Ceiling(x)
  {
    x := k.window * Greatest(1.0, factor);
  }

  lemma LeastAbove(x: real, a: real, b: real, n: int)
    requires x == Greatest(a, b)
    ensures Ceiling(x) == n <==> a <= n as real && b <= n as real && ((n - 1) as real < a || (n - 1) as real < b)
  {
    CeilingIs(x, n);
  }

  lemma GreatestScales(window: real, factor: real, fill: real, x: real)
    requires window > 0.0 && fill == window * factor && x == window * Greatest(1.0, factor)
    ensures x == Greatest(window, fill)
  {
    if factor >= 1.0 { Longer(window, factor - 1.0); } else { Longer(window, 1.0 - factor); }
  }

  lemma Longer(window: real, more: real)
    requires window > 0.0 && more >= 0.0
    ensures window * more >= 0.0
  {
  }
}
