/** Provider health scoreboard: decaying counters, the health score, and the fallback ranking. */
module Scoreboard {
  import opened Wrappers

  datatype Stats = Stats(successes: real, attempts: real, latencySum: real, updatedAt: real)

  /** `halve(x)` stands for 0.5 to the power x; no half-life means no decay. */
  datatype Settings = Settings(halfLife: Option<real>, halve: real -> real, latencyRef: real)

  ghost predicate PowerOfSum(f: real -> real, a: real, b: real) {
    a >= 0.0 && b >= 0.0 ==> f(a + b) == f(a) * f(b)
  }

  ghost predicate InUnit(f: real -> real, a: real) {
    a >= 0.0 ==> 0.0 < f(a) <= 1.0
  }

  /** All that is used of the power function. */
  ghost predicate Halves(f: real -> real) {
    && f(0.0) == 1.0 && f(1.0) == 0.5
    && (forall a: real, b: real :: PowerOfSum(f, a, b))
    && (forall a: real :: InUnit(f, a))
  }

  ghost predicate Sound(c: Settings) {
    c.latencyRef > 0.0 && (c.halfLife.Some? ==> c.halfLife.value > 0.0) && Halves(c.halve)
  }

  /** Counters a scoreboard can hold. */
  ghost predicate Plausible(s: Stats) {
    0.0 <= s.successes <= s.attempts && s.latencySum >= 0.0
  }

  function Max0(x: real): real { if x > 0.0 then x else 0.0 }

  function DecayFactor(c: Settings, s: Stats, now: real): real
    requires c.halfLife.Some? ==> c.halfLife.value != 0.0
  {
    if c.halfLife.None? || s.attempts <= 0.0 then 1.0
    else
      var age := Max0(now - s.updatedAt);
      if age <= 0.0 then 1.0 else c.halve(age / c.halfLife.value)
  }

  function Scaled(s: Stats, k: real, now: real): Stats {
    Stats(s.successes * k, s.attempts * k, s.latencySum * k, now)
  }

  function Decayed(c: Settings, s: Stats, now: real): Stats
    requires c.halfLife.Some? ==> c.halfLife.value != 0.0
  {
    var factor := DecayFactor(c, s, now);
    if factor == 1.0 then s else Scaled(s, factor, now)
  }

  function Observed(c: Settings, s: Stats, now: real, success: bool, latency: real): Stats
    requires c.halfLife.Some? ==> c.halfLife.value != 0.0
  {
    var d := Decayed(c, s, now);
    Stats(d.successes + if success then 1.0 else 0.0, d.attempts + 1.0, d.latencySum + latency, now)
  }

  /** The score of the counters as they stand. */
  function Rate(c: Settings, s: Stats): real
    requires c.latencyRef > 0.0
    requires Plausible(s)
  {
    if s.attempts <= 0.0 then 0.0
    else
      var successRate := s.successes / s.attempts;
      var avgLatency := s.latencySum / s.attempts;
      LatencyTermIsPositive(s.latencySum, s.attempts, c.latencyRef);
      successRate / (1.0 + avgLatency / c.latencyRef)
  }

  // ---------------------------------------------------------- real arithmetic

  lemma LatencyTermIsPositive(l: real, a: real, ref: real)
    requires l >= 0.0 && a > 0.0 && ref > 0.0
    ensures l / a / ref >= 0.0 && l / ref >= 0.0
  {
    QuotientSign(l, a);
    QuotientSign(l / a, ref);
    QuotientSign(l, ref);
  }

  lemma QuotientSign(x: real, y: real)
    requires x >= 0.0 && y > 0.0
    ensures x / y >= 0.0
  {
    Cancel(x, y);
    CancelOrder(0.0, x / y, y);
  }

  lemma QuotientIs(q: real, x: real, y: real)
    requires y != 0.0 && q * y == x
    ensures q == x / y
  {
    assert (x / y) * y == x;
    assert (q - x / y) * y == 0.0;
  }

  lemma QuotientSum(x: real, y: real, k: real)
    requires k != 0.0
    ensures x / k + y / k == (x + y) / k
  {
    Cancel(x, k);
    Cancel(y, k);
    QuotientIs(x / k + y / k, x + y, k);
  }

  lemma Cancel(x: real, y: real)
    requires y != 0.0
    ensures x / y * y == x
  {
  }

  lemma ProductMonotone(a: real, b: real, k: real)
    requires a <= b && k >= 0.0
    ensures a * k <= b * k
  {
  }

  lemma QuotientAtMostOne(x: real, y: real)
    requires y > 0.0 && x <= y
    ensures x / y <= 1.0
  {
    Cancel(x, y);
    CancelOrder(x / y, 1.0, y);
  }

  /** A mediant lies between its two fractions. */
  lemma MediantBetween(p: real, q: real, r: real, s: real)
    requires q > 0.0 && s > 0.0
    ensures p / q <= r / s ==> p / q <= (p + r) / (q + s) <= r / s
    ensures r / s <= p / q ==> r / s <= (p + r) / (q + s) <= p / q
  {
    var x, y := p / q, r / s;
    Cancel(p, q);
    Cancel(r, s);
    var m := (p + r) / (q + s);
    Cancel(p + r, q + s);
    assert m * (q + s) == x * q + y * s;
    if x <= y {
      ProductMonotone(x, y, s);
      ProductMonotone(x, y, q);
      assert x * (q + s) <= m * (q + s) <= y * (q + s);
    } else {
      ProductMonotone(y, x, s);
      ProductMonotone(y, x, q);
      assert y * (q + s) <= m * (q + s) <= x * (q + s);
    }
    CancelOrder(x, m, q + s);
    CancelOrder(m, x, q + s);
    CancelOrder(y, m, q + s);
    CancelOrder(m, y, q + s);
  }

  lemma CancelOrder(a: real, b: real, k: real)
    requires k > 0.0
    ensures a * k <= b * k ==> a <= b
  {
    if a > b {
      assert (a - b) * k > 0.0;
      assert (a - b) * k == a * k - b * k;
    }
  }

  // ------------------------------------------------------------- the score

  /** Attempts plus the latency expressed in reference units. */
  ghost function Weight(c: Settings, s: Stats): real
    requires c.latencyRef > 0.0
  {
    s.attempts + s.latencySum / c.latencyRef
  }

  /** The score is successes over attempts plus latency in reference units, and lies between 0 and 1. */
  lemma ScoreForm(c: Settings, s: Stats)
    requires c.latencyRef > 0.0 && Plausible(s) && s.attempts > 0.0
    ensures Weight(c, s) >= s.attempts
    ensures Rate(c, s) == s.successes / Weight(c, s)
    ensures 0.0 <= Rate(c, s) <= 1.0
  {
    var sr, al, ref, w := s.successes / s.attempts, s.latencySum / s.attempts, c.latencyRef, Weight(c, s);
    LatencyTermIsPositive(s.latencySum, s.attempts, ref);
    var d := 1.0 + al / ref;
    assert d * s.attempts == w by {
      Cancel(s.latencySum, s.attempts);
      Cancel(al, ref);
      assert al / ref * s.attempts * ref == s.latencySum;
      QuotientIs(al / ref * s.attempts, s.latencySum, ref);
      assert d * s.attempts == s.attempts + al / ref * s.attempts;
    }
    var q := sr / d;
    assert q * w == s.successes by {
      Cancel(sr, d);
      Cancel(s.successes, s.attempts);
      assert q * (d * s.attempts) == (q * d) * s.attempts;
    }
    QuotientIs(q, s.successes, w);
    QuotientSign(s.successes, w);
    QuotientAtMostOne(s.successes, w);
  }

  ghost predicate Between(x: real, a: real, b: real) {
    a <= x <= b || b <= x <= a
  }

  lemma ScaledRate(c: Settings, s: Stats, k: real, now: real)
    requires c.latencyRef > 0.0 && Plausible(s) && k > 0.0
    ensures Plausible(Scaled(s, k, now))
    ensures Rate(c, Scaled(s, k, now)) == Rate(c, s)
  {
    ProductMonotone(s.successes, s.attempts, k);
    if s.attempts > 0.0 {
      assert s.attempts * k > 0.0;
      SameQuotient(s.successes, s.attempts, k);
      SameQuotient(s.latencySum, s.attempts, k);
    }
  }

  lemma SameQuotient(x: real, y: real, k: real)
    requires y > 0.0 && k > 0.0
    ensures y * k > 0.0 && (x * k) / (y * k) == x / y
  {
    Cancel(x, y);
    assert x / y * (y * k) == x * k;
    QuotientIs(x / y, x * k, y * k);
  }

  lemma FactorInRange(c: Settings, s: Stats, now: real)
    requires Sound(c)
    ensures 0.0 < DecayFactor(c, s, now) <= 1.0
  {
    if c.halfLife.Some? && now > s.updatedAt {
      QuotientSign(now - s.updatedAt, c.halfLife.value);
      assert InUnit(c.halve, (now - s.updatedAt) / c.halfLife.value);
    }
  }

  /** Decay alone never changes a score. */
  lemma DecayKeepsScore(c: Settings, s: Stats, now: real)
    requires Sound(c) && Plausible(s)
    ensures Plausible(Decayed(c, s, now))
    ensures Rate(c, Decayed(c, s, now)) == Rate(c, s)
  {
    FactorInRange(c, s, now);
    ScaledRate(c, s, DecayFactor(c, s, now), now);
  }

  /** One more outcome on counters as they stand. */
  lemma MediantScore(c: Settings, s: Stats, success: bool, latency: real, now: real)
    requires c.latencyRef > 0.0 && Plausible(s) && s.attempts > 0.0 && latency >= 0.0
    ensures var s' := Stats(s.successes + if success then 1.0 else 0.0, s.attempts + 1.0, s.latencySum + latency, now);
            && Plausible(s')
            && (!success ==> Rate(c, s') <= Rate(c, s))
            && 1.0 + latency / c.latencyRef > 0.0
            && (success ==> Between(Rate(c, s'), Rate(c, s), 1.0 / (1.0 + latency / c.latencyRef)))
  {
    var gain := if success then 1.0 else 0.0;
    var s' := Stats(s.successes + gain, s.attempts + 1.0, s.latencySum + latency, now);
    var ref := c.latencyRef;
    ScoreForm(c, s);
    ScoreForm(c, s');
    QuotientSign(latency, ref);
    var w, step := Weight(c, s), 1.0 + latency / ref;
    assert Weight(c, s') == w + step by {
      QuotientSum(s.latencySum, latency, ref);
    }
    MediantBetween(s.successes, w, gain, step);
    if !success {
      QuotientIs(0.0, 0.0, step);
    }
  }

  /** The score a run of successes of one latency settles at. */
  ghost function Target(c: Settings, latency: real): real
    requires c.latencyRef != 0.0 && 1.0 + latency / c.latencyRef != 0.0
  {
    1.0 / (1.0 + latency / c.latencyRef)
  }

  /**
    * Recording an outcome, decay included: a failure never raises the score; a success of latency l
    * moves it towards 1 / (1 + l / ref) and never past it; a first outcome sets it there, or to zero.
    */
  lemma OutcomeMovesScore(c: Settings, s: Stats, success: bool, latency: real, now: real)
    requires Sound(c) && Plausible(s) && latency >= 0.0
    ensures Plausible(Observed(c, s, now, success, latency)) && 1.0 + latency / c.latencyRef > 0.0
    ensures !success ==> Rate(c, Observed(c, s, now, success, latency)) <= Rate(c, s)
    ensures success ==> Between(Rate(c, Observed(c, s, now, success, latency)), Rate(c, s), Target(c, latency))
    ensures s.attempts == 0.0 && s.latencySum == 0.0 ==>
              Rate(c, Observed(c, s, now, success, latency)) == if success then Target(c, latency) else 0.0
  {
    var d := Decayed(c, s, now);
    DecayKeepsScore(c, s, now);
    QuotientSign(latency, c.latencyRef);
    if s.attempts > 0.0 {
      FactorInRange(c, s, now);
      PositiveProduct(s.attempts, DecayFactor(c, s, now));
      MediantScore(c, d, success, latency, now);
    } else {
      FirstOutcome(c, s, success, latency, now);
    }
  }

  lemma FirstOutcome(c: Settings, s: Stats, success: bool, latency: real, now: real)
    requires c.latencyRef > 0.0 && Plausible(s) && s.attempts == 0.0 && latency >= 0.0
    ensures var s' := Stats(s.successes + if success then 1.0 else 0.0, s.attempts + 1.0, s.latencySum + latency, now);
            && Plausible(s')
            && 0.0 <= Rate(c, s') && 1.0 + latency / c.latencyRef > 0.0
            && (!success ==> Rate(c, s') == 0.0)
            && (success ==> Rate(c, s') <= 1.0 / (1.0 + latency / c.latencyRef))
            && (success && s.latencySum == 0.0 ==> Rate(c, s') == 1.0 / (1.0 + latency / c.latencyRef))
  {
    var s' := Stats(s.successes + if success then 1.0 else 0.0, s.attempts + 1.0, s.latencySum + latency, now);
    ScoreForm(c, s');
    QuotientSign(latency, c.latencyRef);
    QuotientSign(s.latencySum, c.latencyRef);
    QuotientSum(s.latencySum, latency, c.latencyRef);
    var step := 1.0 + latency / c.latencyRef;
    if !success {
      QuotientIs(0.0, 0.0, Weight(c, s'));
    } else {
      LargerDivisor(1.0, step, Weight(c, s'));
      if s.latencySum == 0.0 {
        QuotientIs(0.0, 0.0, c.latencyRef);
      }
    }
  }

  lemma LargerDivisor(x: real, y: real, z: real)
    requires x >= 0.0 && 0.0 < y <= z
    ensures x / z <= x / y
  {
    Cancel(x, y);
    Cancel(x, z);
    QuotientSign(x, z);
    ProductMonotone(y, z, x / z);
    CancelOrder(x / z, x / y, y);
  }

  // --------------------------------------------------- reads over whole runs

  ghost predicate SameCounters(a: Stats, b: Stats) {
    a.successes == b.successes && a.attempts == b.attempts && a.latencySum == b.latencySum
  }

  lemma FactorsCompose(c: Settings, s: Stats, t: real, now: real)
    requires Sound(c) && s.updatedAt <= t <= now && s.attempts > 0.0
    ensures DecayFactor(c, s, now) == DecayFactor(c, s, t) * DecayFactor(c, s.(updatedAt := t), now)
  {
    if c.halfLife.Some? {
      var h := c.halfLife.value;
      QuotientSign(t - s.updatedAt, h);
      QuotientSign(now - t, h);
      QuotientSum(t - s.updatedAt, now - t, h);
      assert PowerOfSum(c.halve, (t - s.updatedAt) / h, (now - t) / h);
      assert (t - s.updatedAt) + (now - t) == now - s.updatedAt;
    }
  }

  lemma ScaleTwice(s: Stats, f: real, g: real, t: real, now: real)
    ensures SameCounters(Scaled(Scaled(s, f, t), g, now), Scaled(s, f * g, now))
    ensures SameCounters(Scaled(s, 1.0, now), s)
  {
    assert s.successes * (f * g) == s.successes * f * g;
    assert s.attempts * (f * g) == s.attempts * f * g;
    assert s.latencySum * (f * g) == s.latencySum * f * g;
  }

  lemma DecayedIsScaled(c: Settings, s: Stats, now: real)
    requires Sound(c)
    ensures SameCounters(Decayed(c, s, now), Scaled(s, DecayFactor(c, s, now), now))
  {
    ScaleTwice(s, 1.0, 1.0, now, now);
  }

  /** A factor depends on the counters only through whether there are any. */
  lemma FactorOf(c: Settings, a: Stats, b: Stats, now: real)
    requires Sound(c) && (a.attempts > 0.0 <==> b.attempts > 0.0) && a.updatedAt == b.updatedAt
    ensures DecayFactor(c, a, now) == DecayFactor(c, b, now)
  {
  }

  /** A read between two times leaves the counters of the later time as they would have been. */
  lemma ReadIsInvisible(c: Settings, s: Stats, t: real, now: real)
    requires Sound(c) && s.updatedAt <= t <= now && s.attempts >= 0.0
    ensures SameCounters(Decayed(c, Decayed(c, s, t), now), Decayed(c, s, now))
  {
    var f := DecayFactor(c, s, t);
    if f != 1.0 {
      var d := Decayed(c, s, t);
      FactorInRange(c, s, t);
      PositiveProduct(s.attempts, f);
      FactorOf(c, d, s.(updatedAt := t), now);
      var g := DecayFactor(c, d, now);
      FactorsCompose(c, s, t, now);
      DecayedIsScaled(c, d, now);
      DecayedIsScaled(c, s, now);
      ScaleTwice(s, f, g, t, now);
    }
  }

  lemma PositiveProduct(a: real, k: real)
    requires k > 0.0
    ensures a > 0.0 <==> a * k > 0.0
  {
    CancelOrder(a, 0.0, k);
    if a <= 0.0 {
      ProductMonotone(a, 0.0, k);
    }
  }

  datatype Event = Outcome(now: real, success: bool, latency: real) | Read(now: real)

  ghost function Replay(c: Settings, s: Stats, es: seq<Event>): Stats
    requires Sound(c)
  {
    if es == [] then s
    else
      var p, last := Replay(c, s, es[..|es| - 1]), es[|es| - 1];
      if last.Read? then Decayed(c, p, last.now) else Observed(c, p, last.now, last.success, last.latency)
  }

  ghost function OutcomesOnly(es: seq<Event>): seq<Event> {
    if es == [] then []
    else OutcomesOnly(es[..|es| - 1]) + if es[|es| - 1].Read? then [] else [es[|es| - 1]]
  }

  ghost predicate InOrder(start: real, es: seq<Event>, now: real) {
    if es == [] then start <= now
    else es[|es| - 1].now <= now && InOrder(start, es[..|es| - 1], es[|es| - 1].now)
  }

  lemma {:induction false} ReplayShape(c: Settings, s: Stats, es: seq<Event>, now: real)
    requires Sound(c) && Plausible(s) && InOrder(s.updatedAt, es, now)
    requires forall i | 0 <= i < |es| :: es[i].Outcome? ==> es[i].latency >= 0.0
    ensures Plausible(Replay(c, s, es)) && Replay(c, s, es).updatedAt <= now
    decreases |es|
  {
    if es != [] {
      var p, last := es[..|es| - 1], es[|es| - 1];
      ReplayShape(c, s, p, last.now);
      DecayKeepsScore(c, Replay(c, s, p), last.now);
    }
  }

  /** Counters that decay to the same take an outcome to the same. */
  lemma SameOutcome(c: Settings, x: Stats, y: Stats, e: Event)
    requires Sound(c) && e.Outcome? && SameCounters(Decayed(c, x, e.now), Decayed(c, y, e.now))
    ensures Observed(c, x, e.now, e.success, e.latency) == Observed(c, y, e.now, e.success, e.latency)
  {
  }

  /** Reads change no later counter, hence no later score: only recorded outcomes matter. */
  lemma {:induction false} ReadsNeverMatter(c: Settings, s: Stats, es: seq<Event>, now: real)
    requires Sound(c) && Plausible(s) && InOrder(s.updatedAt, es, now)
    requires forall i | 0 <= i < |es| :: es[i].Outcome? ==> es[i].latency >= 0.0
    ensures SameCounters(Decayed(c, Replay(c, s, es), now), Decayed(c, Replay(c, s, OutcomesOnly(es)), now))
    decreases |es|
  {
    if es != [] {
      var p, last := es[..|es| - 1], es[|es| - 1];
      ReadsNeverMatter(c, s, p, last.now);
      ReplayShape(c, s, p, last.now);
      if last.Read? {
        ReadIsInvisible(c, Replay(c, s, p), last.now, now);
        LaterStillInOrder(s.updatedAt, p, last.now, now);
        ReadsNeverMatter(c, s, p, now);
        assert OutcomesOnly(es) == OutcomesOnly(p);
      } else {
        assert OutcomesOnly(es)[..|OutcomesOnly(p)|] == OutcomesOnly(p);
        SameOutcome(c, Replay(c, s, p), Replay(c, s, OutcomesOnly(p)), last);
      }
    }
  }

  lemma LaterStillInOrder(start: real, es: seq<Event>, t: real, now: real)
    requires InOrder(start, es, t) && t <= now
    ensures InOrder(start, es, now)
  {
  }

  // ------------------------------------- what decay does, and the exact counters

  ghost function TwoTo(n: nat): real {
    if n == 0 then 1.0 else 2.0 * TwoTo(n - 1)
  }

  lemma {:induction false} HalfPower(f: real -> real, n: nat)
    requires Halves(f)
    ensures f(n as real) * TwoTo(n) == 1.0
    decreases n
  {
    if n > 0 {
      HalfPower(f, n - 1);
      assert PowerOfSum(f, (n - 1) as real, 1.0);
      assert (n - 1) as real + 1.0 == n as real;
      assert f(n as real) == f((n - 1) as real) * 0.5;
      assert f((n - 1) as real) * 0.5 * (2.0 * TwoTo(n - 1)) == f((n - 1) as real) * TwoTo(n - 1);
    }
  }

  lemma IdleFactor(c: Settings, s: Stats, n: nat, now: real)
    requires Sound(c) && c.halfLife.Some? && s.attempts > 0.0
    requires now - s.updatedAt == n as real * c.halfLife.value
    ensures DecayFactor(c, s, now) == c.halve(n as real)
  {
    QuotientIs(n as real, now - s.updatedAt, c.halfLife.value);
    if n > 0 {
      assert n as real * c.halfLife.value > 0.0;
    }
  }

  /** Every idle half-life halves the counters: after n of them they are 2^n times smaller. */
  lemma IdleHalfLivesHalve(c: Settings, s: Stats, n: nat, now: real)
    requires Sound(c) && c.halfLife.Some? && s.attempts > 0.0
    requires now - s.updatedAt == n as real * c.halfLife.value
    ensures SameCounters(Scaled(Decayed(c, s, now), TwoTo(n), now), s)
  {
    IdleFactor(c, s, n, now);
    HalfPower(c.halve, n);
    DecayedIsScaled(c, s, now);
    RescaleBack(s, Decayed(c, s, now), c.halve(n as real), TwoTo(n), now);
  }

  lemma RescaleBack(s: Stats, d: Stats, k: real, p: real, now: real)
    requires k * p == 1.0 && d.attempts == s.attempts * k && d.successes == s.successes * k
    requires d.latencySum == s.latencySum * k
    ensures SameCounters(Scaled(d, p, now), s)
  {
    Rescale(s.attempts, k, p);
    Rescale(s.successes, k, p);
    Rescale(s.latencySum, k, p);
  }

  lemma Rescale(x: real, k: real, p: real)
    requires k * p == 1.0
    ensures x * k * p == x
  {
    assert x * k * p == x * (k * p);
  }

  /** w gives an outcome's weight by its age: one half to the power of the age in half-lives, or always one. */
  ghost predicate Weighs(c: Settings, w: real -> real)
    requires Sound(c)
  {
    forall age: real | age >= 0.0 :: WeighsAt(c, w, age)
  }

  ghost predicate WeighsAt(c: Settings, w: real -> real, age: real)
    requires Sound(c)
  {
    w(age) == if c.halfLife.None? then 1.0 else c.halve(age / c.halfLife.value)
  }

  lemma WeightsCompose(c: Settings, w: real -> real, a: real, b: real)
    requires Sound(c) && Weighs(c, w) && a >= 0.0 && b >= 0.0
    ensures w(a + b) == w(a) * w(b) && w(0.0) == 1.0
  {
    assert WeighsAt(c, w, a) && WeighsAt(c, w, b) && WeighsAt(c, w, a + b) && WeighsAt(c, w, 0.0);
    if c.halfLife.Some? {
      var h := c.halfLife.value;
      QuotientSign(a, h);
      QuotientSign(b, h);
      QuotientSum(a, b, h);
      assert PowerOfSum(c.halve, a / h, b / h);
      QuotientIs(0.0, 0.0, h);
    }
  }

  /** The outcomes among the first n events, each weighted by its age at `now`. */
  ghost function Weighted(w: real -> real, es: seq<Event>, n: nat, now: real): Stats
    requires n <= |es|
  {
    if n == 0 then Stats(0.0, 0.0, 0.0, now)
    else if es[n - 1].Read? then Weighted(w, es, n - 1, now)
    else Joined(Weighted(w, es, n - 1, now), es[n - 1], w(now - es[n - 1].now))
  }

  /** One more outcome of weight k. */
  ghost function Joined(s: Stats, e: Event, k: real): Stats
    requires e.Outcome?
  {
    Stats(s.successes + (if e.success then k else 0.0), s.attempts + k, s.latencySum + e.latency * k, s.updatedAt)
  }

  /** Scaling what was weighted at t by the weight of the time since gives what is weighted at `now`. */
  lemma JoinedLater(a: Stats, b: Stats, e: Event, x: real, k: real, now: real)
    requires e.Outcome? && SameCounters(b, Scaled(a, k, now))
    ensures SameCounters(Joined(b, e, x * k), Scaled(Joined(a, e, x), k, now))
  {
    assert e.latency * (x * k) == e.latency * x * k;
  }

  lemma {:induction false} WeightedLater(c: Settings, w: real -> real, es: seq<Event>, n: nat, t: real, now: real)
    requires Sound(c) && Weighs(c, w) && n <= |es| && t <= now && forall i | 0 <= i < n :: es[i].now <= t
    ensures SameCounters(Weighted(w, es, n, now), Scaled(Weighted(w, es, n, t), w(now - t), now))
    decreases n
  {
    if n > 0 {
      WeightedLater(c, w, es, n - 1, t, now);
      var e := es[n - 1];
      if e.Outcome? {
        WeightsCompose(c, w, t - e.now, now - t);
        assert (t - e.now) + (now - t) == now - e.now;
        JoinedLater(Weighted(w, es, n - 1, t), Weighted(w, es, n - 1, now), e, w(t - e.now), w(now - t), now);
      }
    }
  }

  /** Nothing recorded yet, or something. */
  ghost predicate HasHistory(s: Stats, now: real) {
    && s.updatedAt <= now
    && (s.attempts > 0.0 || (s.attempts == 0.0 && s.successes == 0.0 && s.latencySum == 0.0))
  }

  lemma DecayKeepsHistory(c: Settings, s: Stats, now: real)
    requires Sound(c) && HasHistory(s, now)
    ensures HasHistory(Decayed(c, s, now), now)
  {
    FactorInRange(c, s, now);
    PositiveProduct(s.attempts, DecayFactor(c, s, now));
  }

  /** Decay multiplies the counters by the weight of the time since. */
  lemma DecayWeighs(c: Settings, w: real -> real, s: Stats, now: real)
    requires Sound(c) && Weighs(c, w) && HasHistory(s, now)
    ensures SameCounters(Decayed(c, s, now), Scaled(s, w(now - s.updatedAt), now))
  {
    var age := now - s.updatedAt;
    assert WeighsAt(c, w, age);
    WeightsCompose(c, w, 0.0, 0.0);
    DecayedIsScaled(c, s, now);
    if s.attempts > 0.0 {
      assert age <= 0.0 ==> w(age) == 1.0;
      assert DecayFactor(c, s, now) == w(age);
    }
  }

  lemma Chained(x: Stats, y: Stats, z: Stats)
    requires SameCounters(x, y) && SameCounters(y, z)
    ensures SameCounters(x, z)
  {
  }

  lemma SameScaled(x: Stats, y: Stats, k: real, now: real)
    requires SameCounters(x, y)
    ensures SameCounters(Scaled(x, k, now), Scaled(y, k, now))
  {
  }

  /** An outcome joins the counters with weight one. */
  lemma ObservedJoins(c: Settings, s: Stats, e: Event)
    requires Sound(c) && e.Outcome?
    ensures SameCounters(Observed(c, s, e.now, e.success, e.latency), Joined(Decayed(c, s, e.now), e, 1.0))
    ensures HasHistory(s, e.now) ==> HasHistory(Observed(c, s, e.now, e.success, e.latency), e.now)
  {
    if HasHistory(s, e.now) {
      DecayKeepsHistory(c, s, e.now);
    }
  }

  lemma SameJoined(x: Stats, y: Stats, e: Event, k: real)
    requires e.Outcome? && SameCounters(x, y)
    ensures SameCounters(Joined(x, e, k), Joined(y, e, k))
  {
  }

  /** The counters right after event n - 1. */
  lemma WeighedNow(c: Settings, w: real -> real, s: Stats, es: seq<Event>, n: nat)
    requires Sound(c) && Weighs(c, w) && 0 < n <= |es| && HasHistory(s, es[n - 1].now)
    requires SameCounters(Decayed(c, s, es[n - 1].now), Weighted(w, es, n - 1, es[n - 1].now))
    ensures var e := es[n - 1];
            var s' := if e.Read? then Decayed(c, s, e.now) else Observed(c, s, e.now, e.success, e.latency);
            HasHistory(s', e.now) && SameCounters(s', Weighted(w, es, n, e.now))
  {
    var e := es[n - 1];
    DecayKeepsHistory(c, s, e.now);
    if e.Outcome? {
      WeightsCompose(c, w, 0.0, 0.0);
      ObservedJoins(c, s, e);
      SameJoined(Decayed(c, s, e.now), Weighted(w, es, n - 1, e.now), e, 1.0);
      assert e.now - e.now == 0.0;
      Chained(Observed(c, s, e.now, e.success, e.latency), Joined(Decayed(c, s, e.now), e, 1.0),
              Weighted(w, es, n, e.now));
    }
  }

  lemma {:induction false} InOrderBounds(start: real, es: seq<Event>, now: real)
    requires InOrder(start, es, now)
    ensures start <= now && forall i | 0 <= i < |es| :: es[i].now <= now
    decreases |es|
  {
    if es != [] {
      InOrderBounds(start, es[..|es| - 1], es[|es| - 1].now);
    }
  }

  /**
    * The counters are exactly the outcomes weighted by age: after any ordered history of outcomes and reads of a
    * provider first seen at `start`, every outcome counts one half to the power of its age in half-lives.
    */
  lemma {:induction false} CountersAreWeighted(c: Settings, w: real -> real, start: real, es: seq<Event>, n: nat,
                                               now: real)
    requires Sound(c) && Weighs(c, w) && n <= |es| && InOrder(start, es[..n], now)
    ensures var s := Replay(c, Stats(0.0, 0.0, 0.0, start), es[..n]);
            && HasHistory(s, now) && SameCounters(Decayed(c, s, now), Weighted(w, es, n, now))
    decreases n
  {
    var zero := Stats(0.0, 0.0, 0.0, start);
    if n > 0 {
      var t := es[n - 1].now;
      assert es[..n][..n - 1] == es[..n - 1];
      CountersAreWeighted(c, w, start, es, n - 1, t);
      WeighedNow(c, w, Replay(c, zero, es[..n - 1]), es, n);
      InOrderBounds(start, es[..n], t);
      WeighedLater(c, w, Replay(c, zero, es[..n]), es, n, t, now);
    }
  }

  lemma WeighedInTwoSteps(c: Settings, w: real -> real, s: Stats, t: real, now: real)
    requires Sound(c) && Weighs(c, w) && HasHistory(s, t) && t <= now
    ensures SameCounters(Decayed(c, s, now), Scaled(Scaled(s, w(t - s.updatedAt), t), w(now - t), now))
  {
    assert (t - s.updatedAt) + (now - t) == now - s.updatedAt;
    WeightsCompose(c, w, t - s.updatedAt, now - t);
    DecayWeighs(c, w, s, now);
    ScaleTwice(s, w(t - s.updatedAt), w(now - t), t, now);
  }

  lemma WeighedLater(c: Settings, w: real -> real, s: Stats, es: seq<Event>, n: nat, t: real, now: real)
    requires Sound(c) && Weighs(c, w) && n <= |es| && t <= now && forall i | 0 <= i < n :: es[i].now <= t
    requires HasHistory(s, t) && SameCounters(Decayed(c, s, t), Weighted(w, es, n, t))
    ensures HasHistory(s, now) && SameCounters(Decayed(c, s, now), Weighted(w, es, n, now))
  {
    var a, b, d := w(t - s.updatedAt), w(now - t), Weighted(w, es, n, t);
    WeighedInTwoSteps(c, w, s, t, now);
    DecayWeighs(c, w, s, t);
    Chained(Scaled(s, a, t), Decayed(c, s, t), d);
    SameScaled(Scaled(s, a, t), d, b, now);
    WeightedLater(c, w, es, n, t, now);
    Chained(Decayed(c, s, now), Scaled(Scaled(s, a, t), b, now), Scaled(d, b, now));
    Chained(Decayed(c, s, now), Scaled(d, b, now), Weighted(w, es, n, now));
  }

  // --------------------------------------------------------------- ranking

  /** One line of the ranking table; no score for a provider without observations. */
  datatype Scored = Scored(score: Option<real>, index: nat, provider: string)

  predicate Beats(a: Option<real>, b: Option<real>) {
    a.Some? && (b.None? || a.value > b.value)
  }

  /** Higher score first, input order among equals and among the unobserved. */
  predicate Before(a: Scored, b: Scored) {
    Beats(a.score, b.score) || (!Beats(b.score, a.score) && a.index < b.index)
  }

  predicate Sorted(xs: seq<Scored>) {
    forall i, j | 0 <= i < j < |xs| :: Before(xs[i], xs[j])
  }

  /** The library sort, on lines with distinct indices. */
  function Insert(x: Scored, xs: seq<Scored>): (r: seq<Scored>)
    ensures |r| == |xs| + 1
  {
    if xs == [] || Before(x, xs[0]) then [x] + xs else [xs[0]] + Insert(x, xs[1..])
  }

  function Sort(xs: seq<Scored>): (r: seq<Scored>)
    ensures |r| == |xs|
  {
    if xs == [] then [] else Insert(xs[|xs| - 1], Sort(xs[..|xs| - 1]))
  }

  lemma {:induction false} InsertKeepsRows(x: Scored, xs: seq<Scored>)
    ensures multiset(Insert(x, xs)) == multiset(xs) + multiset{x}
    decreases |xs|
  {
    if xs != [] && !Before(x, xs[0]) {
      InsertKeepsRows(x, xs[1..]);
      assert xs == [xs[0]] + xs[1..];
    }
  }

  lemma {:induction false} SortKeepsRows(xs: seq<Scored>)
    ensures multiset(Sort(xs)) == multiset(xs)
    decreases |xs|
  {
    if xs != [] {
      SortKeepsRows(xs[..|xs| - 1]);
      InsertKeepsRows(xs[|xs| - 1], Sort(xs[..|xs| - 1]));
      assert xs == xs[..|xs| - 1] + [xs[|xs| - 1]];
    }
  }

  lemma BeforeIsStrictOrder(a: Scored, b: Scored, c: Scored)
    ensures Before(a, b) && Before(b, c) ==> Before(a, c)
    ensures a.index != b.index ==> Before(a, b) || Before(b, a)
    ensures !(Before(a, b) && Before(b, a))
  {
  }

  lemma {:induction false} InsertKeepsSorted(x: Scored, xs: seq<Scored>)
    requires Sorted(xs) && forall y <- xs :: y.index != x.index
    ensures Sorted(Insert(x, xs))
    decreases |xs|
  {
    if xs != [] {
      BeforeIsStrictOrder(x, xs[0], xs[0]);
      if Before(x, xs[0]) {
        forall j | 0 <= j < |xs| ensures Before(x, xs[j]) {
          BeforeIsStrictOrder(x, xs[0], xs[j]);
        }
      } else {
        InsertKeepsSorted(x, xs[1..]);
        var rest := Insert(x, xs[1..]);
        InsertKeepsRows(x, xs[1..]);
        forall j | 0 <= j < |rest| ensures Before(xs[0], rest[j]) {
          assert rest[j] in multiset(rest);
          assert rest[j] == x || rest[j] in xs[1..];
        }
      }
    }
  }

  ghost predicate Indexed(xs: seq<Scored>) {
    forall i | 0 <= i < |xs| :: xs[i].index == i
  }

  lemma {:induction false} SortSorts(xs: seq<Scored>)
    requires Indexed(xs)
    ensures Sorted(Sort(xs))
    decreases |xs|
  {
    if xs != [] {
      var p, x := xs[..|xs| - 1], xs[|xs| - 1];
      SortSorts(p);
      SortKeepsRows(p);
      forall y <- Sort(p) ensures y.index != x.index {
        assert y in multiset(Sort(p));
        assert y in p;
      }
      InsertKeepsSorted(x, Sort(p));
    }
  }

  type Board = map<string, Stats>

  ghost predicate AllPlausible(b: Board) {
    forall p <- b :: Plausible(b[p])
  }

  /** The provider's score as of now; None when nothing was ever recorded for it. */
  ghost function ScoreIn(c: Settings, b: Board, provider: string, now: real): Option<real>
    requires Sound(c) && AllPlausible(b)
  {
    if provider !in b then None
    else
      DecayKeepsScore(c, b[provider], now);
      Some(Rate(c, Decayed(c, b[provider], now)))
  }

  ghost function Table(c: Settings, b: Board, candidates: seq<string>, now: real): (t: seq<Scored>)
    requires Sound(c) && AllPlausible(b)
    ensures |t| == |candidates|
    ensures forall i | 0 <= i < |t| :: t[i] == Scored(ScoreIn(c, b, candidates[i], now), i, candidates[i])
  {
    seq(|candidates|, i requires 0 <= i < |candidates| => Scored(ScoreIn(c, b, candidates[i], now), i, candidates[i]))
  }

  function Names(t: seq<Scored>): (r: seq<string>)
    ensures |r| == |t| && forall i | 0 <= i < |t| :: r[i] == t[i].provider
  {
    seq(|t|, i requires 0 <= i < |t| => t[i].provider)
  }

  ghost function Ranking(c: Settings, b: Board, candidates: seq<string>, now: real): seq<Scored>
    requires Sound(c) && AllPlausible(b)
  {
    Sort(Table(c, b, candidates, now))
  }

  lemma NamesOfFirst(x: Scored, xs: seq<Scored>)
    ensures multiset(Names([x] + xs)) == multiset{x.provider} + multiset(Names(xs))
  {
    assert Names([x] + xs) == [x.provider] + Names(xs);
  }

  lemma {:induction false} NamesOfInsert(x: Scored, xs: seq<Scored>)
    ensures multiset(Names(Insert(x, xs))) == multiset(Names(xs)) + multiset{x.provider}
    decreases |xs|
  {
    if xs == [] || Before(x, xs[0]) {
      NamesOfFirst(x, xs);
    } else {
      NamesOfInsert(x, xs[1..]);
      NamesOfFirst(xs[0], xs[1..]);
      NamesOfFirst(xs[0], Insert(x, xs[1..]));
      assert xs == [xs[0]] + xs[1..];
    }
  }

  lemma {:induction false} NamesOfSort(xs: seq<Scored>)
    ensures multiset(Names(Sort(xs))) == multiset(Names(xs))
    decreases |xs|
  {
    if xs != [] {
      var p, x := xs[..|xs| - 1], xs[|xs| - 1];
      NamesOfSort(p);
      NamesOfInsert(x, Sort(p));
      NamesOfLast(p, x);
      assert xs == p + [x] && Sort(xs) == Insert(x, Sort(p));
    }
  }

  lemma NamesOfLast(p: seq<Scored>, x: Scored)
    ensures multiset(Names(p + [x])) == multiset(Names(p)) + multiset{x.provider}
  {
    assert Names(p + [x]) == Names(p) + [x.provider];
  }

  /** The score of an observed provider, from its counters as they stand: decay does not enter. */
  lemma ScoreInIs(c: Settings, b: Board, provider: string, now: real)
    requires Sound(c) && AllPlausible(b)
    ensures provider !in b ==> ScoreIn(c, b, provider, now) == None
    ensures provider in b ==>
              var s := b[provider];
              && (s.attempts == 0.0 ==> ScoreIn(c, b, provider, now) == Some(0.0))
              && (s.attempts > 0.0 ==>
                    && s.attempts + s.latencySum / c.latencyRef > 0.0
                    && ScoreIn(c, b, provider, now) == Some(s.successes / (s.attempts + s.latencySum / c.latencyRef)))
  {
    if provider in b {
      DecayKeepsScore(c, b[provider], now);
      if b[provider].attempts > 0.0 {
        ScoreForm(c, b[provider]);
      }
    }
  }

  /** The unobserved come last, no score is followed by a higher one, and equals keep the order given. */
  lemma SortedIsBestFirst(t: seq<Scored>)
    requires Sorted(t)
    ensures forall i, j | 0 <= i < j < |t| ::
              && (t[i].score.None? ==> t[j].score.None?)
              && (t[i].score.Some? && t[j].score.Some? ==> t[i].score.value >= t[j].score.value)
              && (t[i].score == t[j].score ==> t[i].index < t[j].index)
  {
    forall i, j | 0 <= i < j < |t|
      ensures t[i].score.None? ==> t[j].score.None?
      ensures t[i].score.Some? && t[j].score.Some? ==> t[i].score.value >= t[j].score.value
      ensures t[i].score == t[j].score ==> t[i].index < t[j].index
    {
      assert Before(t[i], t[j]);
    }
  }

  /** Best first: the candidates reordered by score, the unobserved last, ties as given. */
  lemma RankingIsRight(c: Settings, b: Board, candidates: seq<string>, now: real)
    requires Sound(c) && AllPlausible(b)
    ensures var t := Ranking(c, b, candidates, now);
            && Sorted(t) && multiset(Names(t)) == multiset(candidates)
            && (forall row <- t :: row.index < |candidates| && row.provider == candidates[row.index]
                                && row.score == ScoreIn(c, b, row.provider, now))
            && forall i, j | 0 <= i < j < |t| ::
                 && (t[i].score.None? ==> t[j].score.None?)
                 && (t[i].score.Some? && t[j].score.Some? ==> t[i].score.value >= t[j].score.value)
                 && (t[i].score == t[j].score ==> t[i].index < t[j].index)
  {
    var table, t := Table(c, b, candidates, now), Ranking(c, b, candidates, now);
    SortSorts(table);
    SortKeepsRows(table);
    NamesOfSort(table);
    assert Names(table) == candidates;
    forall row <- t
      ensures row.index < |candidates| && row.provider == candidates[row.index]
      ensures row.score == ScoreIn(c, b, row.provider, now)
    {
      assert row in multiset(t);
      assert row in table;
    }
    SortedIsBestFirst(t);
  }

  datatype ScoreError = BadSettings | EmptyProvider | NegativeLatency

  class ProviderFallbackScoreboard {
    const settings: Settings
    var stats: Board

    ghost predicate Valid()
      reads this
    {
      Sound(settings) && AllPlausible(stats)
    }

    constructor (settings: Settings)
      requires Sound(settings)
      ensures Valid() && this.settings == settings && stats == map[]
    {
      this.settings := settings;
      stats := map[];
    }

    static method Create(settings: Settings) returns (r: Result<ProviderFallbackScoreboard, ScoreError>)
      requires Halves(settings.halve)
      ensures r.Returned? <==> Sound(settings)
      ensures r.Returned? ==> fresh(r.value) && r.value.Valid()
      ensures r.Returned? ==> r.value.settings == settings && r.value.stats == map[]
    {
      if settings.halfLife.Some? && settings.halfLife.value <= 0.0 {
        return Raised(BadSettings);
      }
      if settings.latencyRef <= 0.0 {
        return Raised(BadSettings);
      }
      var board := new ProviderFallbackScoreboard(settings);
      r := Returned(board);
    }

    method RecordOutcome(provider: string, success: bool, latency: real, now: real) returns (r: Result<(), ScoreError>)
      requires Valid()
      modifies this
      ensures Valid()
      ensures provider == "" ==> r == Raised(EmptyProvider) && stats == old(stats)
      ensures provider != "" && latency < 0.0 ==> r == Raised(NegativeLatency) && stats == old(stats)
      ensures provider != "" && latency >= 0.0 ==> r == Returned(())
      ensures provider != "" && latency >= 0.0 ==>
        stats == old(stats)[provider := Observed(settings,
          if provider in old(stats) then old(stats)[provider] else Stats(0.0, 0.0, 0.0, now), now, success, latency)]
    {
      if provider == "" {
        return Raised(EmptyProvider);
      }
      if latency < 0.0 {
        return Raised(NegativeLatency);
      }
      var found := if provider in stats then stats[provider] else Stats(0.0, 0.0, 0.0, now);
      DecayKeepsScore(settings, found, now);
      var s := Decayed(settings, found, now);
      s := s.(attempts := s.attempts + 1.0);
      if success {
        s := s.(successes := s.successes + 1.0);
      }
      s := s.(latencySum := s.latencySum + latency, updatedAt := now);
      stats := stats[provider := s];
      r := Returned(());
    }

    method ScoreLocked(provider: string, now: real) returns (score: real)
      requires Valid() && provider in stats
      modifies this
      ensures Valid()
      ensures Some(score) == ScoreIn(settings, old(stats), provider, now)
      ensures stats == old(stats)[provider := Decayed(settings, old(stats)[provider], now)]
    {
      DecayKeepsScore(settings, stats[provider], now);
      var s := Decayed(settings, stats[provider], now);
      stats := stats[provider := s];
      if s.attempts <= 0.0 {
        return 0.0;
      }
      LatencyTermIsPositive(s.latencySum, s.attempts, settings.latencyRef);
      score := s.successes / s.attempts / (1.0 + s.latencySum / s.attempts / settings.latencyRef);
    }

    method Score(provider: string, now: real) returns (r: Result<real, ScoreError>)
      requires Valid()
      modifies this
      ensures Valid()
      ensures provider == "" ==> r == Raised(EmptyProvider)
      ensures provider != "" ==>
        r == Returned(match ScoreIn(settings, old(stats), provider, now) case None => 0.0 case Some(x) => x)
      ensures stats == if provider != "" && provider in old(stats)
                       then old(stats)[provider := Decayed(settings, old(stats)[provider], now)] else old(stats)
    {
      if provider == "" {
        return Raised(EmptyProvider);
      }
      if provider !in stats {
        return Returned(0.0);
      }
      var score := ScoreLocked(provider, now);
      r := Returned(score);
    }

    method Rank(candidates: seq<string>, now: real) returns (ranked: seq<string>)
      requires Valid()
      modifies this
      ensures Valid()
      ensures ranked == Names(Ranking(settings, old(stats), candidates, now))
      ensures stats == Touched(settings, old(stats), candidates, now)
    {
      var scored: seq<Scored> := [];
      ghost var start := stats;
      assert candidates[..0] == [];
      for i := 0 to |candidates|
        invariant Valid()
        invariant scored == Table(settings, start, candidates, now)[..i]
        invariant stats == Touched(settings, start, candidates[..i], now)
      {
        var provider := candidates[i];
        assert candidates[..i + 1] == candidates[..i] + [provider];
        var score := None;
        if provider in stats {
          TouchedScore(settings, start, candidates[..i], provider, now);
          var known := ScoreLocked(provider, now);
          score := Some(known);
        }
        scored := scored + [Scored(score, i, provider)];
      }
      assert candidates[..|candidates|] == candidates;
      assert scored == Table(settings, start, candidates, now);
      ranked := Names(Sort(scored));
    }
  }

  /** Reading a provider decays its counters in place. */
  ghost function Touched(c: Settings, b: Board, read: seq<string>, now: real): Board
    requires Sound(c)
  {
    map p | p in b :: if p in read then Decayed(c, b[p], now) else b[p]
  }

  /** Ranking only reads: whatever is asked later finds the counters it would have found anyway. */
  lemma RankIsInvisible(c: Settings, b: Board, read: seq<string>, p: string, now: real, later: real)
    requires Sound(c) && AllPlausible(b) && p in b && b[p].updatedAt <= now <= later
    ensures p in Touched(c, b, read, now)
    ensures SameCounters(Decayed(c, Touched(c, b, read, now)[p], later), Decayed(c, b[p], later))
  {
    ReadIsInvisible(c, b[p], now, later);
  }

  /** A further read at the same instant changes neither the counters nor the score. */
  lemma TouchedScore(c: Settings, b: Board, read: seq<string>, provider: string, now: real)
    requires Sound(c) && AllPlausible(b) && provider in b
    ensures AllPlausible(Touched(c, b, read, now))
    ensures ScoreIn(c, Touched(c, b, read, now), provider, now) == ScoreIn(c, b, provider, now)
    ensures Touched(c, b, read, now)[provider := Decayed(c, Touched(c, b, read, now)[provider], now)]
         == Touched(c, b, read + [provider], now)
  {
    forall p <- b ensures Plausible(Touched(c, b, read, now)[p]) {
      DecayKeepsScore(c, b[p], now);
    }
  }
}
