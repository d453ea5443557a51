/** Token buckets: the level is the tightest of all the window bounds, and nothing else. */
module TokenBucket {
  import opened Clock
  import opened Wrappers

  datatype Bucket = Bucket(tokens: real, updatedAt: real)

  datatype Limits = Limits(capacity: real, rate: real)

  datatype LimitError = BadSettings | EmptyTenant | BadTokens | Exceeded

  function Min(a: real, b: real): real { if b < a then b else a }

  function Max0(a: real): real { if a > 0.0 then a else 0.0 }

  function Refill(l: Limits, found: Option<Bucket>, now: real): Bucket {
    var bucket := match found case None => Bucket(l.capacity, now) case Some(b) => b;
    Bucket(Min(l.capacity, bucket.tokens + Max0(now - bucket.updatedAt) * l.rate), now)
  }

  // ------------------------------------------------------- history of one key

  /** One visit to a key's bucket: sampled clock and tokens taken (0 when rejected or only read). */
  datatype Visit = Visit(now: real, taken: real)

  ghost function After(l: Limits, h: seq<Visit>): Option<Bucket>
    decreases |h|
  {
    if h == [] then None
    else
      var last := h[|h| - 1];
      var b := Refill(l, After(l, h[..|h| - 1]), last.now);
      Some(b.(tokens := b.tokens - last.taken))
  }

  /** Tokens on offer to a call sampled at `now` after the history h. */
  ghost function Level(l: Limits, h: seq<Visit>, now: real): real {
    Refill(l, After(l, h), now).tokens
  }

  /** Forward clock movement from visit i to `now`: backward samples count as no movement. */
  ghost function Elapsed(h: seq<Visit>, i: nat, now: real): real
    requires i < |h|
    decreases |h|
  {
    var last := h[|h| - 1];
    Max0(now - last.now) + if i == |h| - 1 then 0.0 else Elapsed(h[..|h| - 1], i, last.now)
  }

  /** Tokens taken by visit i and every later one. */
  ghost function Taken(h: seq<Visit>, i: nat): real
    requires i < |h|
    decreases |h|
  {
    h[|h| - 1].taken + if i == |h| - 1 then 0.0 else Taken(h[..|h| - 1], i)
  }

  /** What the window opened by visit i still allows at `now`. */
  ghost function Window(l: Limits, h: seq<Visit>, i: nat, now: real): real
    requires i < |h|
  {
    l.capacity + l.rate * Elapsed(h, i, now) - Taken(h, i)
  }

  ghost predicate Fits(l: Limits, h: seq<Visit>, now: real, tokens: real) {
    tokens <= l.capacity && forall i | 0 <= i < |h| :: tokens <= Window(l, h, i, now)
  }

  /** Tokens earned from the last visit to now. */
  ghost function Gain(l: Limits, last: Visit, now: real): real {
    Max0(now - last.now) * l.rate
  }

  lemma AfterStep(l: Limits, p: seq<Visit>, v: Visit)
    ensures After(l, p + [v]) == Some(Bucket(Level(l, p, v.now) - v.taken, v.now))
  {
    assert (p + [v])[..|p|] == p;
  }

  lemma LevelStep(l: Limits, p: seq<Visit>, v: Visit, now: real)
    ensures Level(l, p + [v], now) == Min(l.capacity, Level(l, p, v.now) - v.taken + Gain(l, v, now))
  {
    AfterStep(l, p, v);
  }

  lemma WindowStep(l: Limits, p: seq<Visit>, v: Visit, i: nat, now: real)
    requires i <= |p|
    ensures Window(l, p + [v], i, now)
         == (if i == |p| then l.capacity else Window(l, p, i, v.now)) - v.taken + Gain(l, v, now)
  {
    var h := p + [v];
    assert h[..|h| - 1] == p;
    var a := Max0(now - v.now);
    if i < |p| {
      Distribute(l.rate, a, Elapsed(p, i, v.now));
    }
  }

  lemma GainNotNegative(l: Limits, last: Visit, now: real)
    requires l.rate >= 0.0
    ensures Gain(l, last, now) >= 0.0
  {
    NotNegativeProduct(Max0(now - last.now), l.rate);
  }

  lemma NotNegativeProduct(a: real, b: real)
    requires a >= 0.0 && b >= 0.0
    ensures a * b >= 0.0
  {
  }

  lemma Distribute(r: real, a: real, b: real)
    ensures r * (a + b) == a * r + r * b
  {
  }

  lemma {:induction false} LevelWithinWindow(l: Limits, h: seq<Visit>, i: nat, now: real)
    requires i < |h|
    ensures Level(l, h, now) <= Window(l, h, i, now)
    decreases |h|
  {
    var p, v := h[..|h| - 1], h[|h| - 1];
    assert h == p + [v];
    LevelStep(l, p, v, now);
    WindowStep(l, p, v, i, now);
    if i < |p| {
      LevelWithinWindow(l, p, i, v.now);
    } else {
      LevelWithinCapacity(l, p, v.now);
    }
  }

  lemma LevelWithinCapacity(l: Limits, h: seq<Visit>, now: real)
    ensures Level(l, h, now) <= l.capacity
  {
  }

  /** The visit whose window the level meets; |h| when it is the capacity that limits it. */
  lemma {:induction false} LevelMeetsWindow(l: Limits, h: seq<Visit>, now: real) returns (i: nat)
    ensures i <= |h|
    ensures Level(l, h, now) == if i == |h| then l.capacity else Window(l, h, i, now)
    decreases |h|
  {
    i := 0;
    if h != [] {
      var p, v := h[..|h| - 1], h[|h| - 1];
      assert h == p + [v];
      i := LevelMeetsWindow(l, p, v.now);
      LevelStep(l, p, v, now);
      WindowStep(l, p, v, i, now);
      if Level(l, h, now) == l.capacity {
        i := |h|;
      }
    } else {
      FullWhenFresh(l, now);
    }
  }

  lemma FullWhenFresh(l: Limits, now: real)
    ensures Level(l, [], now) == l.capacity
  {
    assert Max0(now - now) == 0.0;
  }

  /** The level lies under the capacity and every window bound, and meets one of them. */
  lemma LevelIsTightestWindow(l: Limits, h: seq<Visit>, now: real)
    ensures Level(l, h, now) <= l.capacity
    ensures forall i | 0 <= i < |h| :: Level(l, h, now) <= Window(l, h, i, now)
    ensures Level(l, h, now) == l.capacity || exists i :: 0 <= i < |h| && Level(l, h, now) == Window(l, h, i, now)
  {
    LevelWithinCapacity(l, h, now);
    forall i | 0 <= i < |h| ensures Level(l, h, now) <= Window(l, h, i, now) {
      LevelWithinWindow(l, h, i, now);
    }
    var i := LevelMeetsWindow(l, h, now);
  }

  /** Admission is exact: a call is within the level iff no window bound, nor the capacity, forbids it. */
  lemma AdmittedIffFits(l: Limits, h: seq<Visit>, now: real, tokens: real)
    ensures tokens <= Level(l, h, now) <==> Fits(l, h, now, tokens)
  {
    LevelIsTightestWindow(l, h, now);
  }

  /** Histories the limiter can produce: nobody takes more than the level. */
  ghost predicate Legal(l: Limits, h: seq<Visit>)
    decreases |h|
  {
    h == [] ||
    var last := h[|h| - 1];
    && Legal(l, h[..|h| - 1])
    && 0.0 <= last.taken
    && (last.taken == 0.0 || last.taken <= Level(l, h[..|h| - 1], last.now))
  }

  lemma {:induction false} LevelNotNegative(l: Limits, h: seq<Visit>, now: real)
    requires Legal(l, h) && l.capacity >= 0.0 && l.rate >= 0.0
    ensures Level(l, h, now) >= 0.0
    decreases |h|
  {
    if h != [] {
      var p, last := h[..|h| - 1], h[|h| - 1];
      LevelNotNegative(l, p, last.now);
      assert h == p + [last];
      LevelStep(l, p, last, now);
      GainNotNegative(l, last, now);
    }
  }

  /** Visit i and the later ones took at most capacity + rate * (forward clock movement up to `now`). */
  ghost predicate WithinForwardBound(l: Limits, h: seq<Visit>, i: nat, now: real)
    requires i < |h|
  {
    Taken(h, i) <= l.capacity + l.rate * Elapsed(h, i, now)
  }

  /** No stretch of visits takes more than capacity + rate * (forward clock movement over the stretch). */
  lemma WindowBound(l: Limits, h: seq<Visit>, i: nat)
    requires Legal(l, h) && l.capacity >= 0.0 && l.rate >= 0.0 && i < |h|
    ensures WithinForwardBound(l, h, i, h[|h| - 1].now)
  {
    WindowNotNegative(l, h, i, h[|h| - 1].now);
    WindowAllows(l, h, i, h[|h| - 1].now);
  }

  lemma WindowAllows(l: Limits, h: seq<Visit>, i: nat, now: real)
    requires i < |h|
    ensures Window(l, h, i, now) >= 0.0 <==> WithinForwardBound(l, h, i, now)
  {
  }

  lemma WindowNotNegative(l: Limits, h: seq<Visit>, i: nat, now: real)
    requires Legal(l, h) && l.capacity >= 0.0 && l.rate >= 0.0 && i < |h|
    ensures Window(l, h, i, now) >= 0.0
  {
    LevelNotNegative(l, h, now);
    LevelWithinWindow(l, h, i, now);
  }

  ghost predicate Nondecreasing(h: seq<Visit>, i: nat, now: real)
    requires i < |h|
    decreases |h|
  {
    h[|h| - 1].now <= now && (i < |h| - 1 ==> Nondecreasing(h[..|h| - 1], i, h[|h| - 1].now))
  }

  /** Forward movement is clock time exactly when the samples since visit i never step back. */
  lemma {:induction false} ElapsedIsClockTime(h: seq<Visit>, i: nat, now: real)
    requires i < |h|
    ensures Elapsed(h, i, now) >= now - h[i].now
    ensures Elapsed(h, i, now) == now - h[i].now <==> Nondecreasing(h, i, now)
    decreases |h|
  {
    if i < |h| - 1 {
      ElapsedIsClockTime(h[..|h| - 1], i, h[|h| - 1].now);
    }
  }

  /** With samples out of order the clock-time bound is false: two tokens pass a one-token bucket at one instant. */
  lemma OutOfOrderSampleAdmitsTwice()
    ensures var l := Limits(1.0, 1.0);
            var h := [Visit(10.0, 1.0), Visit(0.0, 0.0), Visit(10.0, 1.0)];
            Legal(l, h) && Taken(h, 0) > l.capacity + l.rate * (h[2].now - h[0].now)
  {
    var l := Limits(1.0, 1.0);
    var h := [Visit(10.0, 1.0), Visit(0.0, 0.0), Visit(10.0, 1.0)];
    var h1, h2 := h[..1], h[..2];
    assert h2[..1] == h1 && h1[..0] == [] && h[..|h| - 1] == h2 && h2[..|h2| - 1] == h1;
    assert After(l, h1) == Some(Bucket(0.0, 10.0));
    assert Level(l, [], 10.0) == 1.0 && Legal(l, []);
    assert h1[..|h1| - 1] == [] && Legal(l, h1);
    assert After(l, h2) == Some(Bucket(0.0, 0.0));
    assert h2[|h2| - 1].taken == 0.0 && Legal(l, h2);
    assert Level(l, h2, 10.0) == 1.0;
    assert Taken(h1, 0) == 1.0 && Taken(h2, 0) == 1.0;
  }

  ghost function Samples(h: seq<Visit>): (ns: seq<real>)
    ensures |ns| == |h| && forall i | 0 <= i < |ns| :: ns[i] == h[i].now
  {
    seq(|h|, i requires 0 <= i < |h| => h[i].now)
  }

  /** The stretch of visits i..k takes at most capacity + rate * (clock time over the stretch). */
  ghost predicate WithinClockBound(l: Limits, h: seq<Visit>, i: nat, k: nat)
    requires i <= k < |h|
  {
    Taken(h[..k + 1], i) <= l.capacity + l.rate * (h[k].now - h[i].now)
  }

  ghost predicate MeetsClockBound(l: Limits, h: seq<Visit>) {
    forall i, k | 0 <= i <= k < |h| :: WithinClockBound(l, h, i, k)
  }

  lemma {:induction false} LegalPrefix(l: Limits, h: seq<Visit>, n: nat)
    requires Legal(l, h) && n <= |h|
    ensures Legal(l, h[..n])
    decreases |h|
  {
    if n < |h| {
      LegalPrefix(l, h[..|h| - 1], n);
      assert h[..|h| - 1][..n] == h[..n];
    } else {
      assert h[..n] == h;
    }
  }

  lemma {:induction false} AscendingIsNondecreasing(h: seq<Visit>, i: nat, k: nat)
    requires i <= k < |h| && NeverStepsBack(Samples(h))
    ensures Nondecreasing(h[..k + 1], i, h[k].now)
    decreases k
  {
    if i < k {
      AscendingIsNondecreasing(h, i, k - 1);
      assert h[..k + 1][..k] == h[..k];
      assert Samples(h)[k - 1] <= Samples(h)[k];
    }
  }

  lemma AscendingMeetsClockBound(l: Limits, h: seq<Visit>, i: nat, k: nat)
    requires l.capacity >= 0.0 && l.rate >= 0.0 && Legal(l, h) && NeverStepsBack(Samples(h)) && i <= k < |h|
    ensures WithinClockBound(l, h, i, k)
  {
    LegalPrefix(l, h, k + 1);
    WindowNotNegative(l, h[..k + 1], i, h[k].now);
    AscendingWindow(l, h, i, k);
  }

  lemma AscendingWindow(l: Limits, h: seq<Visit>, i: nat, k: nat)
    requires NeverStepsBack(Samples(h)) && i <= k < |h|
    ensures Window(l, h[..k + 1], i, h[k].now) >= 0.0 <==> WithinClockBound(l, h, i, k)
  {
    AscendingIsNondecreasing(h, i, k);
    ElapsedIsClockTime(h[..k + 1], i, h[k].now);
    assert l.rate * Elapsed(h[..k + 1], i, h[k].now) == l.rate * (h[k].now - h[i].now);
  }

  /** Visits over the samples that take the whole capacity at j and nothing elsewhere. */
  ghost function OneGrab(l: Limits, ns: seq<real>, j: nat): (h: seq<Visit>)
    ensures Samples(h) == ns
  {
    seq(|ns|, i requires 0 <= i < |ns| => Visit(ns[i], if i == j then l.capacity else 0.0))
  }

  lemma {:induction false} OneGrabIsLegal(l: Limits, ns: seq<real>, j: nat, n: nat)
    requires l.capacity >= 0.0 && l.rate >= 0.0 && n <= |ns|
    ensures Legal(l, OneGrab(l, ns, j)[..n])
    ensures n <= j ==> forall now :: Level(l, OneGrab(l, ns, j)[..n], now) == l.capacity
    decreases n
  {
    var h := OneGrab(l, ns, j);
    if n == 0 {
      forall now ensures Level(l, [], now) == l.capacity {
        FullWhenFresh(l, now);
      }
    } else {
      OneGrabIsLegal(l, ns, j, n - 1);
      assert h[..n] == h[..n - 1] + [h[n - 1]];
      LegalStep(l, h[..n - 1], h[n - 1]);
      if n <= j {
        forall now ensures Level(l, h[..n], now) == l.capacity {
          LevelStep(l, h[..n - 1], h[n - 1], now);
          GainNotNegative(l, h[n - 1], now);
        }
      }
    }
  }

  lemma GrabBreaksClockBound(l: Limits, ns: seq<real>, k: nat)
    requires l.capacity >= 0.0 && l.rate > 0.0 && 0 < k < |ns| && ns[k - 1] > ns[k]
    ensures Legal(l, OneGrab(l, ns, k - 1)) && !WithinClockBound(l, OneGrab(l, ns, k - 1), k - 1, k)
  {
    var h := OneGrab(l, ns, k - 1);
    OneGrabIsLegal(l, ns, k - 1, |ns|);
    assert h[..|ns|] == h;
    var w := h[..k + 1];
    assert w[..|w| - 1] == h[..k];
    assert Taken(h[..k], k - 1) == l.capacity;
    assert Taken(w, k - 1) == l.capacity;
    NegativeProduct(l.rate, ns[k] - ns[k - 1]);
  }

  /** Over given samples every lawful history meets the clock-time bound exactly when the samples never step back. */
  lemma ClockBoundIff(l: Limits, ns: seq<real>)
    requires l.capacity >= 0.0 && l.rate > 0.0
    ensures (forall h | Samples(h) == ns && Legal(l, h) :: MeetsClockBound(l, h)) <==> NeverStepsBack(ns)
  {
    if NeverStepsBack(ns) {
      forall h | Samples(h) == ns && Legal(l, h) ensures MeetsClockBound(l, h) {
        forall i, k | 0 <= i <= k < |h| ensures WithinClockBound(l, h, i, k) {
          AscendingMeetsClockBound(l, h, i, k);
        }
      }
    } else {
      var k :| 0 < k < |ns| && ns[k - 1] > ns[k];
      GrabBreaksClockBound(l, ns, k);
      assert !MeetsClockBound(l, OneGrab(l, ns, k - 1));
    }
  }

  lemma NegativeProduct(a: real, b: real)
    requires a > 0.0 && b < 0.0
    ensures a * b < 0.0
  {
  }

  /** The visits that took something. */
  ghost function Admissions(h: seq<Visit>): seq<Visit>
    decreases |h|
  {
    if h == [] then []
    else
      var rest := Admissions(h[..|h| - 1]);
      if h[|h| - 1].taken == 0.0 then rest else rest + [h[|h| - 1]]
  }

  lemma TwoGainsAreOne(l: Limits, x: real, last: Visit, t: real, now: real)
    requires l.rate >= 0.0 && last.now <= t <= now
    ensures Min(l.capacity, Min(l.capacity, x + Gain(l, last, t)) + Gain(l, Visit(t, 0.0), now))
         == Min(l.capacity, x + Gain(l, last, now))
  {
    var a, b := t - last.now, now - t;
    Distribute(l.rate, a, b);
    NotNegativeProduct(b, l.rate);
  }

  lemma LevelAfterRead(l: Limits, p: seq<Visit>, last: Visit, t: real, now: real)
    requires l.rate >= 0.0 && last.now <= t <= now
    ensures Min(l.capacity, Level(l, p + [last], t) + Gain(l, Visit(t, 0.0), now)) == Level(l, p + [last], now)
  {
    TwoGainsAreOne(l, Level(l, p, last.now) - last.taken, last, t, now);
    assert Level(l, p + [last], t) == Min(l.capacity, Level(l, p, last.now) - last.taken + Gain(l, last, t)) by {
      LevelStep(l, p, last, t);
    }
    assert Level(l, p + [last], now) == Min(l.capacity, Level(l, p, last.now) - last.taken + Gain(l, last, now)) by {
      LevelStep(l, p, last, now);
    }
  }

  lemma ReadChangesNothing(l: Limits, h: seq<Visit>, t: real, now: real)
    requires l.rate >= 0.0 && t <= now
    requires h != [] ==> h[|h| - 1].now <= t
    ensures Level(l, h + [Visit(t, 0.0)], now) == Level(l, h, now)
  {
    LevelStep(l, h, Visit(t, 0.0), now);
    if h == [] {
      GainNotNegative(l, Visit(t, 0.0), now);
      FullWhenFresh(l, t);
      FullWhenFresh(l, now);
    } else {
      LevelAfterRead(l, h[..|h| - 1], h[|h| - 1], t, now);
      assert h[..|h| - 1] + [h[|h| - 1]] == h;
    }
  }

  /** Rejected calls and reads never affect a later decision: the level depends on the admissions alone. */
  lemma {:induction false} OnlyAdmissionsMatter(l: Limits, h: seq<Visit>, now: real)
    requires l.rate >= 0.0
    requires h != [] ==> Nondecreasing(h, 0, now)
    ensures Level(l, h, now) == Level(l, Admissions(h), now)
    ensures Admissions(h) != [] ==> h != [] && Admissions(h)[|Admissions(h)| - 1].now <= h[|h| - 1].now
    decreases |h|
  {
    if h != [] {
      var p, last := h[..|h| - 1], h[|h| - 1];
      assert h == p + [last];
      OnlyAdmissionsMatter(l, p, last.now);
      if last.taken == 0.0 {
        ReadChangesNothing(l, p, last.now, now);
        ReadChangesNothing(l, Admissions(p), last.now, now);
        LevelStep(l, Admissions(p), last, now);
        LevelStep(l, p, last, now);
      } else {
        LevelStep(l, p, last, now);
        LevelStep(l, Admissions(p), last, now);
      }
    }
  }

  ghost predicate Nonincreasing(h: seq<Visit>, now: real)
    requires h != []
    decreases |h|
  {
    now <= h[|h| - 1].now && (|h| > 1 ==> Nonincreasing(h[..|h| - 1], h[|h| - 1].now))
  }

  lemma {:induction false} DirectionOfSamples(h: seq<Visit>, now: real)
    requires h != []
    ensures Nondecreasing(h, 0, now) <==> NeverStepsBack(Samples(h) + [now])
    ensures Nonincreasing(h, now) <==> NeverStepsForward(Samples(h) + [now])
    decreases |h|
  {
    var p, last, ns := h[..|h| - 1], h[|h| - 1], Samples(h) + [now];
    assert ns[|p|] == last.now && ns[|h|] == now;
    if p != [] {
      DirectionOfSamples(p, last.now);
      var ms := Samples(p) + [last.now];
      assert forall i | 0 <= i < |ms| :: ms[i] == ns[i];
      assert NeverStepsBack(ns) <==> NeverStepsBack(ms) && ns[|p|] <= ns[|h|] by { LastStep(ms, ns); }
      assert NeverStepsForward(ns) <==> NeverStepsForward(ms) && ns[|h|] <= ns[|p|] by { LastStep(ms, ns); }
    }
  }

  lemma LastStep(ms: seq<real>, ns: seq<real>)
    requires ms != [] && |ns| == |ms| + 1 && forall i | 0 <= i < |ms| :: ms[i] == ns[i]
    ensures NeverStepsBack(ns) <==> NeverStepsBack(ms) && ns[|ms| - 1] <= ns[|ms|]
    ensures NeverStepsForward(ns) <==> NeverStepsForward(ms) && ns[|ms|] <= ns[|ms| - 1]
  {
    if NeverStepsBack(ns) {
      forall i | 0 < i < |ms| ensures ms[i - 1] <= ms[i] {
        assert ns[i - 1] <= ns[i];
      }
    }
    if NeverStepsForward(ns) {
      forall i | 0 < i < |ms| ensures ms[i] <= ms[i - 1] {
        assert ns[i] <= ns[i - 1];
      }
    }
  }

  /** While samples fall there is no refill at all, so reads change nothing either. */
  lemma {:induction false} FallingAdmissions(l: Limits, h: seq<Visit>, now: real)
    requires h != [] ==> Nonincreasing(h, now)
    ensures Level(l, h, now) == Level(l, Admissions(h), now)
    ensures Admissions(h) != [] ==> h != [] && Admissions(h)[|Admissions(h)| - 1].now >= h[|h| - 1].now
    decreases |h|
  {
    if h != [] {
      var p, last, kept := h[..|h| - 1], h[|h| - 1], Admissions(h[..|h| - 1]);
      assert h == p + [last];
      FallingAdmissions(l, p, last.now);
      LevelStep(l, p, last, now);
      if last.taken != 0.0 {
        LevelStep(l, kept, last, now);
      } else if kept == [] {
        FullWhenFresh(l, now);
        FullWhenFresh(l, last.now);
      } else {
        var q, a := kept[..|kept| - 1], kept[|kept| - 1];
        assert kept == q + [a];
        LevelStep(l, q, a, now);
        LevelStep(l, q, a, last.now);
      }
    }
  }

  /** Forward movement exceeds clock time as soon as the samples both rise and fall. */
  lemma {:induction false} ZigzagMovesFurther(h: seq<Visit>, now: real)
    requires h != []
    ensures Elapsed(h, 0, now) >= Max0(now - h[0].now)
    ensures Nonincreasing(h, now) <==> Elapsed(h, 0, now) == 0.0
    ensures Elapsed(h, 0, now) == Max0(now - h[0].now) <==> Nondecreasing(h, 0, now) || Nonincreasing(h, now)
    decreases |h|
  {
    ElapsedIsClockTime(h, 0, now);
    if |h| > 1 {
      ZigzagMovesFurther(h[..|h| - 1], h[|h| - 1].now);
      ElapsedIsClockTime(h[..|h| - 1], 0, h[|h| - 1].now);
    }
  }

  /** A grab of the whole capacity, then reads: the bucket holds what forward movement has refilled. */
  lemma {:induction false} LevelAfterGrab(l: Limits, h: seq<Visit>, now: real)
    requires l.rate == 1.0 && l.capacity > 0.0 && h != [] && h[0].taken == l.capacity
    requires forall i | 0 < i < |h| :: h[i].taken == 0.0
    ensures Level(l, h, now) == Min(l.capacity, Elapsed(h, 0, now))
    ensures Admissions(h) == [h[0]]
    decreases |h|
  {
    var p, v := h[..|h| - 1], h[|h| - 1];
    assert h == p + [v];
    LevelStep(l, p, v, now);
    if p == [] {
      FullWhenFresh(l, v.now);
      assert Admissions(p) == [];
    } else {
      LevelAfterGrab(l, p, v.now);
    }
  }

  /** Whatever the limits, the level at `now` depends on the admissions alone. */
  ghost predicate AdmissionsDecide(ns: seq<real>, now: real) {
    forall l: Limits, h: seq<Visit> | l.capacity >= 0.0 && l.rate >= 0.0 && Samples(h) == ns && Legal(l, h) ::
      Level(l, h, now) == Level(l, Admissions(h), now)
  }

  lemma ZigzagReadMatters(ns: seq<real>, now: real)
    requires ns != [] && !NeverStepsBack(ns + [now]) && !NeverStepsForward(ns + [now])
    ensures !AdmissionsDecide(ns, now)
  {
    var clock := Max0(now - ns[0]);
    var l := Limits(clock + 1.0, 1.0);
    var h := OneGrab(l, ns, 0);
    OneGrabIsLegal(l, ns, 0, |ns|);
    assert h[..|ns|] == h;
    DirectionOfSamples(h, now);
    ZigzagMovesFurther(h, now);
    LevelAfterGrab(l, h, now);
    LevelAfterGrab(l, [h[0]], now);
    assert [h[0]][..0] == [];
    assert Elapsed([h[0]], 0, now) == clock;
  }

  /** Reads and rejected calls are invisible over given samples exactly when those only rise or only fall. */
  lemma AdmissionsDecideIff(ns: seq<real>, now: real)
    ensures AdmissionsDecide(ns, now) <==> NeverStepsBack(ns + [now]) || NeverStepsForward(ns + [now])
  {
    if NeverStepsBack(ns + [now]) || NeverStepsForward(ns + [now]) {
      forall l: Limits, h: seq<Visit> | l.capacity >= 0.0 && l.rate >= 0.0 && Samples(h) == ns && Legal(l, h)
        ensures Level(l, h, now) == Level(l, Admissions(h), now)
      {
        if h != [] {
          DirectionOfSamples(h, now);
          if Nondecreasing(h, 0, now) {
            OnlyAdmissionsMatter(l, h, now);
          } else {
            FallingAdmissions(l, h, now);
          }
        }
      }
    } else {
      ZigzagReadMatters(ns, now);
    }
  }

  // ------------------------------------------------------------- the limiters

  /** The stored buckets are what the logged visits leave behind. */
  ghost predicate Tracks(l: Limits, buckets: map<string, Bucket>, log: map<string, seq<Visit>>) {
    && buckets.Keys == log.Keys
    && forall k <- log :: After(l, log[k]) == Some(buckets[k])
  }

  ghost predicate AllLegal(l: Limits, log: map<string, seq<Visit>>) {
    forall k <- log :: Legal(l, log[k])
  }

  ghost function LogOf(log: map<string, seq<Visit>>, k: string): seq<Visit> {
    if k in log then log[k] else []
  }

  ghost function Visited(log: map<string, seq<Visit>>, k: string, now: real, taken: real): map<string, seq<Visit>> {
    log[k := LogOf(log, k) + [Visit(now, taken)]]
  }

  function Found(buckets: map<string, Bucket>, k: string): Option<Bucket> {
    if k in buckets then Some(buckets[k]) else None
  }

  lemma RefillIsLevel(l: Limits, buckets: map<string, Bucket>, log: map<string, seq<Visit>>, k: string, now: real)
    requires Tracks(l, buckets, log)
    ensures Refill(l, Found(buckets, k), now) == Bucket(Level(l, LogOf(log, k), now), now)
  {
  }

  lemma TracksVisit(l: Limits, buckets: map<string, Bucket>, log: map<string, seq<Visit>>, k: string,
                    now: real, taken: real)
    requires Tracks(l, buckets, log)
    ensures Tracks(l, buckets[k := Bucket(Level(l, LogOf(log, k), now) - taken, now)], Visited(log, k, now, taken))
  {
    AfterStep(l, LogOf(log, k), Visit(now, taken));
  }

  lemma Overwrite(m: map<string, Bucket>, k: string, a: Bucket, b: Bucket)
    ensures m[k := a][k := b] == m[k := b]
  {
  }

  lemma LegalStep(l: Limits, h: seq<Visit>, v: Visit)
    requires Legal(l, h) && 0.0 <= v.taken && (v.taken == 0.0 || v.taken <= Level(l, h, v.now))
    ensures Legal(l, h + [v])
  {
    assert (h + [v])[..|h|] == h;
  }

  lemma LegalVisit(l: Limits, log: map<string, seq<Visit>>, k: string, now: real, taken: real)
    requires AllLegal(l, log)
    requires 0.0 <= taken && (taken == 0.0 || taken <= Level(l, LogOf(log, k), now))
    ensures AllLegal(l, Visited(log, k, now, taken))
  {
    LegalStep(l, LogOf(log, k), Visit(now, taken));
  }

  /** Tokens taken from the bucket just refilled count as taken by the same visit. */
  lemma TakeAfterRefill(l: Limits, buckets: map<string, Bucket>, log: map<string, seq<Visit>>, k: string,
                        bucket: Bucket, tokens: real)
    requires Tracks(l, buckets, log) && AllLegal(l, log)
    requires bucket.tokens == Level(l, LogOf(log, k), bucket.updatedAt) && 0.0 < tokens <= bucket.tokens
    ensures Tracks(l, buckets[k := bucket][k := bucket.(tokens := bucket.tokens - tokens)],
                   Visited(log, k, bucket.updatedAt, tokens))
    ensures AllLegal(l, Visited(log, k, bucket.updatedAt, tokens))
  {
    Overwrite(buckets, k, bucket, bucket.(tokens := bucket.tokens - tokens));
    TracksVisit(l, buckets, log, k, bucket.updatedAt, tokens);
    LegalVisit(l, log, k, bucket.updatedAt, tokens);
  }

  /** Hard per-tenant limiter; `log` records, per tenant, every visit so far. */
  class TenantRateLimiter {
    const limits: Limits
    var buckets: map<string, Bucket>
    ghost var log: map<string, seq<Visit>>

    ghost predicate Valid()
      reads this
    {
      limits.capacity > 0.0 && limits.rate > 0.0 && Tracks(limits, buckets, log) && AllLegal(limits, log)
    }

    constructor (capacity: int, refillPerSecond: real)
      requires capacity > 0 && refillPerSecond > 0.0
      ensures Valid() && limits == Limits(capacity as real, refillPerSecond) && log == map[]
    {
      limits := Limits(capacity as real, refillPerSecond);
      buckets, log := map[], map[];
    }

    static method Create(capacity: int, refillPerSecond: real) returns (r: Result<TenantRateLimiter, LimitError>)
      ensures r.Raised? <==> capacity <= 0 || refillPerSecond <= 0.0
      ensures r.Returned? ==> fresh(r.value) && r.value.Valid() && r.value.log == map[]
      ensures r.Returned? ==> r.value.limits == Limits(capacity as real, refillPerSecond)
    {
      if capacity <= 0 || refillPerSecond <= 0.0 {
        return Raised(BadSettings);
      }
      var limiter := new TenantRateLimiter(capacity, refillPerSecond);
      r := Returned(limiter);
    }

    method RefillLocked(tenantId: string, now: real) returns (bucket: Bucket)
      requires Valid()
      modifies this
      ensures Valid()
      ensures log == Visited(old(log), tenantId, now, 0.0)
      ensures bucket == Bucket(Level(limits, LogOf(old(log), tenantId), now), now)
      ensures buckets == old(buckets)[tenantId := bucket]
    {
      RefillIsLevel(limits, buckets, log, tenantId, now);
      TracksVisit(limits, buckets, log, tenantId, now, 0.0);
      LegalVisit(limits, log, tenantId, now, 0.0);
      bucket := Refill(limits, Found(buckets, tenantId), now);
      buckets := buckets[tenantId := bucket];
      log := Visited(log, tenantId, now, 0.0);
    }

    /** Admits iff no window of this tenant's history forbids it; only an admission takes tokens. */
    method AssertAllowed(tenantId: string, tokens: int, now: real) returns (r: Result<(), LimitError>)
      requires Valid()
      modifies this
      ensures Valid()
      ensures tenantId == "" ==> r == Raised(EmptyTenant)
      ensures tenantId != "" && tokens <= 0 ==> r == Raised(BadTokens)
      ensures tenantId == "" || tokens <= 0 ==> log == old(log) && buckets == old(buckets)
      ensures tenantId != "" && tokens > 0 ==>
        r == if Fits(limits, LogOf(old(log), tenantId), now, tokens as real) then Returned(()) else Raised(Exceeded)
      ensures tenantId != "" && tokens > 0 ==>
        log == Visited(old(log), tenantId, now, if r.Returned? then tokens as real else 0.0)
    {
      if tenantId == "" {
        return Raised(EmptyTenant);
      }
      if tokens <= 0 {
        return Raised(BadTokens);
      }
      AdmittedIffFits(limits, LogOf(log, tenantId), now, tokens as real);
      var ok := Take(tenantId, tokens as real, now);
      r := if ok then Returned(()) else Raised(Exceeded);
    }

    /** The locked region of AssertAllowed. */
    method Take(tenantId: string, tokens: real, now: real) returns (ok: bool)
      requires Valid() && tokens > 0.0
      modifies this
      ensures Valid()
      ensures ok <==> tokens <= Level(limits, LogOf(old(log), tenantId), now)
      ensures log == Visited(old(log), tenantId, now, if ok then tokens else 0.0)
    {
      var bucket := RefillLocked(tenantId, now);
      ok := bucket.tokens >= tokens;
      if ok {
        TakeAfterRefill(limits, old(buckets), old(log), tenantId, bucket, tokens);
        buckets := buckets[tenantId := bucket.(tokens := bucket.tokens - tokens)];
        log := Visited(old(log), tenantId, now, tokens);
      }
    }

    /** Reports the level. */
    method Remaining(tenantId: string, now: real) returns (r: Result<real, LimitError>)
      requires Valid()
      modifies this
      ensures Valid()
      ensures tenantId == "" ==> r == Raised(EmptyTenant) && log == old(log)
      ensures tenantId != "" ==> r == Returned(Level(limits, LogOf(old(log), tenantId), now))
      ensures tenantId != "" ==> log == Visited(old(log), tenantId, now, 0.0)
    {
      if tenantId == "" {
        return Raised(EmptyTenant);
      }
      var bucket := RefillLocked(tenantId, now);
      r := Returned(bucket.tokens);
    }
  }

  /** The router's per-key limiter: the same bucket, without argument checks. */
  class TokenBucketRateLimiter {
    const limits: Limits
    var buckets: map<string, Bucket>
    ghost var log: map<string, seq<Visit>>

    ghost predicate Valid()
      reads this
    {
      Tracks(limits, buckets, log)
    }

    constructor (capacity: int, refillPerSecond: real)
      ensures Valid() && limits == Limits(capacity as real, refillPerSecond) && log == map[]
    {
      limits := Limits(capacity as real, refillPerSecond);
      buckets, log := map[], map[];
    }

    method AssertAllowed(apiKeyId: string, tokens: int, now: real) returns (r: Result<(), LimitError>)
      requires Valid()
      modifies this
      ensures Valid()
      ensures r == if Fits(limits, LogOf(old(log), apiKeyId), now, tokens as real)
                   then Returned(()) else Raised(Exceeded)
      ensures log == Visited(old(log), apiKeyId, now, if r.Returned? then tokens as real else 0.0)
    {
      AdmittedIffFits(limits, LogOf(log, apiKeyId), now, tokens as real);
      var ok := Take(apiKeyId, tokens as real, now);
      r := if ok then Returned(()) else Raised(Exceeded);
    }

    /** Refill, then take the tokens when there are enough. */
    method Take(apiKeyId: string, tokens: real, now: real) returns (ok: bool)
      requires Valid()
      modifies this
      ensures Valid()
      ensures ok <==> tokens <= Level(limits, LogOf(old(log), apiKeyId), now)
      ensures log == Visited(old(log), apiKeyId, now, if ok then tokens else 0.0)
    {
      RefillIsLevel(limits, buckets, log, apiKeyId, now);
      var bucket := Refill(limits, Found(buckets, apiKeyId), now);
      ok := bucket.tokens >= tokens;
      ghost var taken := if ok then tokens else 0.0;
      TracksVisit(limits, buckets, log, apiKeyId, now, taken);
      log := Visited(log, apiKeyId, now, taken);
      buckets := buckets[apiKeyId := if ok then bucket.(tokens := bucket.tokens - tokens) else bucket];
    }
  }
}
