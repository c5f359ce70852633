/** The Redis rate limiter (the Lua script of python/chat/identity_redis.py): a sliding window without a
    burst, a token bucket with one. Times are real milliseconds of the script's own clock, from which the
    life of a key is counted too. */
module Limiter {
  import opened Wrappers

  /** At most `limit` in `window`; `burst` tokens when it is positive. */
  datatype Rule = Rule(limit: nat, window: real, burst: nat)

  predicate ValidRule(k: Rule) {
    k.limit > 0 && k.window > 0.0
  }

  /** The score of every member of the sorted set, and when the key ends. */
  datatype Window = Window(stamps: seq<real>, until: real)

  datatype Bucket = Bucket(tokens: real, stamp: real, until: real)

  /** The scores after `from`: what ZREMRANGEBYSCORE up to it leaves. */
  function After(stamps: seq<real>, from: real): seq<real> {
    if stamps == [] then []
    else After(stamps[..|stamps| - 1], from) + if stamps[|stamps| - 1] > from then [stamps[|stamps| - 1]] else []
  }

  /** The script without a burst; `expires` tells whether keys end at all. */
  function Slide(s: Window, k: Rule, now: real, expires: bool): (bool, Window) {
    var kept := After(if expires && s.until <= now then [] else s.stamps, now - k.window);
    if |kept| >= k.limit then (false, s.(stamps := kept)) else (true, Window(kept + [now], now + k.window))
  }

  function Least(a: real, b: real): real { if a <= b then a else b }

  function Greatest(a: real, b: real): real { if a >= b then a else b }

  function Ceiling(x: real): int {
    if x.Floor as real == x then x.Floor else x.Floor + 1
  }

  function Rate(k: Rule): real
    requires ValidRule(k)
  {
    k.limit as real / k.window
  }

  /** The tokens there are at `now`, of at most `burst`, at `rate` tokens a millisecond. */
  function Level(s: Option<Bucket>, burst: real, rate: real, now: real): real {
    if s == None then burst
    else Least(burst, s.value.tokens + Greatest(0.0, now - s.value.stamp) * rate)
  }

  lemma NoFlow(now: real, rate: real)
    ensures Greatest(0.0, now - now) * rate == 0.0
  {
  }

  function Life(k: Rule): int
    requires ValidRule(k)
  {
    Ceiling(k.window * Greatest(1.0, k.burst as real / k.limit as real))
  }

  function Standing(s: Option<Bucket>, now: real, expires: bool): Option<Bucket> {
    if s.Some? && expires && s.value.until <= now then None else s
  }

  /** The script with a burst, its key kept for `life` after an admission. */
  function Pour(s: Option<Bucket>, burst: real, rate: real, life: real, now: real,
                expires: bool): (bool, Option<Bucket>) {
    var standing := Standing(s, now, expires);
    var level := Level(standing, burst, rate, now);
    if level < 1.0 then (false, standing) else (true, Some(Bucket(level - 1.0, now, now + life)))
  }

  /** One limiter key. */
  class RateKey {
    const rule: Rule
    var stamps: seq<real>
    var bucket: Option<(real, real)>
    var until: real

    constructor (rule: Rule)
      requires ValidRule(rule)
      ensures this.rule == rule && WindowView() == Window([], 0.0) && BucketView() == None
    {
      this.rule, stamps, bucket, until := rule, [], None, 0.0;
    }

    ghost function WindowView(): Window
      reads this
    {
      Window(stamps, until)
    }

    ghost function BucketView(): Option<Bucket>
      reads this
    {
      if bucket == None then None else Some(Bucket(bucket.value.0, bucket.value.1, until))
    }

    method RemoveUpTo(from: real)
      modifies this`stamps
      ensures stamps == After(old(stamps), from)
    {
      var kept: seq<real> := [];
      for i := 0 to |stamps|
        invariant kept == After(stamps[..i], from)
      {
        assert stamps[..i + 1][..i] == stamps[..i];
        if stamps[i] > from {
          kept := kept + [stamps[i]];
        }
      }
      assert stamps[..|stamps|] == stamps;
      stamps := kept;
    }

    method CheckWindow(now: real) returns (ok: bool)
      requires rule.burst == 0
      modifies this
      ensures (ok, WindowView()) == Slide(old(WindowView()), rule, now, true)
    {
      if until <= now {
        stamps := [];
      }
      RemoveUpTo(now - rule.window);
      if |stamps| >= rule.limit {
        return false;
      }
      stamps := stamps + [now];
      until := now + rule.window;
      return true;
    }

    /** The stored tokens, refilled up to `now`. */
    method Refill(now: real) returns (tokens: real)
      requires ValidRule(rule)
      ensures tokens == Level(BucketView(), rule.burst as real, Rate(rule), now)
    {
      var burst := rule.burst as real;
      tokens := if bucket == None then burst else bucket.value.0;
      var stamp := if bucket == None then now else bucket.value.1;
      if bucket == None {
        NoFlow(now, Rate(rule));
      }
      tokens := Least(burst, tokens + Greatest(0.0, now - stamp) * Rate(rule));
    }

    method CheckBucket(now: real) returns (ok: bool)
      requires ValidRule(rule) && rule.burst > 0
      modifies this
      ensures (ok, BucketView())
              == Pour(old(BucketView()), rule.burst as real, Rate(rule), Life(rule) as real, now, true)
    {
      if until <= now {
        bucket := None;
      }
      var tokens := Refill(now);
      if tokens < 1.0 {
        return false;
      }
      bucket := Some((tokens - 1.0, now));
      until := now + Life(rule) as real;
      return true;
    }
  }
}
