/** The durable idempotency store: leased claims, completion, release, replay and lazy eviction. */
module Idempotency {
  import opened Clock
  import opened Wrappers

  datatype Slot = Slot(key: string, tenant: string)

  /** One table row; a pending row keeps its owner's token in `body`. */
  datatype Row = Row(body: string, status: int, createdAt: real, expiresAt: real) {
    predicate Pending() { status == PENDING }
  }

  const PENDING := 0

  type Table = map<Slot, Row>

  datatype Reservation = Reservation(slot: Slot, token: string)

  datatype Config = Config(ttl: real, memory: bool)

  datatype Event =
    | Reserve(slot: Slot, token: string, lease: real, now: real)
    | Complete(owner: Reservation, body: string, status: int, now: real)
    | Release(owner: Reservation)
    | Put(slot: Slot, body: string, status: int, now: real)
    | Get(slot: Slot, now: real)
    | Evict(now: real)

  datatype Outcome =
    | BadArgument
    | Granted(reservation: Reservation)
    | InUse
    | Found(row: Row)
    | Missing
    | Stored(ok: bool)
    | Done

  function Evicted(t: Table, now: real): Table {
    map s | s in t && t[s].expiresAt > now :: t[s]
  }

  predicate Owns(t: Table, owner: Reservation) {
    owner.slot in t && t[owner.slot].Pending() && t[owner.slot].body == owner.token
  }

  // ------------------------------------------- what the store's statements do

  /** Table and answer after one locked region, statement by statement. */
  function Step(c: Config, t: Table, e: Event): (Table, Outcome) {
    match e
    case Reserve(slot, token, lease, now) =>
      if slot.key == "" || slot.tenant == "" || lease <= 0.0 then (t, BadArgument)
      else
        var left := Evicted(t, now);
        if slot !in left then (left[slot := Row(token, PENDING, now, now + lease)], Granted(Reservation(slot, token)))
        else (left, if left[slot].Pending() then InUse else Found(left[slot]))
    case Complete(owner, body, status, now) =>
      var row := Row(body, status, now, now + c.ttl);
      if Owns(t, owner) then (t[owner.slot := row], Stored(true))
      else
        var left := Evicted(t, now);
        if owner.slot !in left then (left[owner.slot := row], Stored(true)) else (left, Stored(false))
    case Release(owner) =>
      (if Owns(t, owner) then t - {owner.slot} else t, Done)
    case Put(slot, body, status, now) =>
      if slot.key == "" || slot.tenant == "" then (t, BadArgument)
      else
        var left := Evicted(t, now);
        // A refused put closes its file connection without a commit, which undoes the eviction.
        if slot in left then (if c.memory then left else t, Stored(false))
        else (left[slot := Row(body, status, now, now + c.ttl)], Stored(true))
    case Get(slot, now) =>
      var left := Evicted(t, now);
      (left, if slot in left && !left[slot].Pending() then Found(left[slot]) else Missing)
    case Evict(now) => (Evicted(t, now), Done)
  }

  ghost function Outcomes(c: Config, t: Table, es: seq<Event>): (r: seq<Outcome>)
    ensures |r| == |es|
    decreases |es|
  {
    if es == [] then [] else [Step(c, t, es[0]).1] + Outcomes(c, Step(c, t, es[0]).0, es[1..])
  }

  ghost function Final(c: Config, t: Table, es: seq<Event>): Table
    decreases |es|
  {
    if es == [] then t else Final(c, Step(c, t, es[0]).0, es[1..])
  }

  // --------------------------- the promise: a map whose entries carry a deadline

  /** The entry a caller at `now` may see. */
  function Live(t: Table, s: Slot, now: real): Option<Row> {
    if s in t && t[s].expiresAt > now then Some(t[s]) else None
  }

  /** The store without any eviction: an expired entry simply counts as absent. */
  ghost function Promise(c: Config, t: Table, e: Event): (Table, Outcome) {
    match e
    case Reserve(slot, token, lease, now) =>
      if slot.key == "" || slot.tenant == "" || lease <= 0.0 then (t, BadArgument)
      else (match Live(t, slot, now)
            case None => (t[slot := Row(token, PENDING, now, now + lease)], Granted(Reservation(slot, token)))
            case Some(row) => (t, if row.Pending() then InUse else Found(row)))
    case Complete(owner, body, status, now) =>
      (match Live(t, owner.slot, now)
       case None => (t[owner.slot := Row(body, status, now, now + c.ttl)], Stored(true))
       case Some(row) =>
         if row.Pending() && row.body == owner.token
         then (t[owner.slot := Row(body, status, now, now + c.ttl)], Stored(true))
         else (t, Stored(false)))
    case Release(owner) =>
      (if Owns(t, owner) then t - {owner.slot} else t, Done)
    case Put(slot, body, status, now) =>
      if slot.key == "" || slot.tenant == "" then (t, BadArgument)
      else if Live(t, slot, now).None? then (t[slot := Row(body, status, now, now + c.ttl)], Stored(true))
      else (t, Stored(false))
    case Get(slot, now) =>
      (match Live(t, slot, now)
       case Some(row) => (t, if row.Pending() then Missing else Found(row))
       case None => (t, Missing))
    case Evict(_) => (t, Done)
  }

  ghost function PromisedOutcomes(c: Config, t: Table, es: seq<Event>): (r: seq<Outcome>)
    ensures |r| == |es|
    decreases |es|
  {
    if es == [] then [] else [Promise(c, t, es[0]).1] + PromisedOutcomes(c, Promise(c, t, es[0]).0, es[1..])
  }

  ghost predicate SameView(t: Table, u: Table, clock: real) {
    forall s: Slot :: Live(t, s, clock) == Live(u, s, clock)
  }

  /** A release samples no clock. */
  ghost function ClockOf(e: Event, clock: real): real {
    if e.Release? then clock else e.now
  }

  ghost predicate Ordered(es: seq<Event>, clock: real) {
    es == [] || (clock <= ClockOf(es[0], clock) && Ordered(es[1..], ClockOf(es[0], clock)))
  }

  lemma ViewsAgreeLater(t: Table, u: Table, clock: real, now: real)
    requires SameView(t, u, clock) && clock <= now
    ensures SameView(t, u, now)
  {
    forall s: Slot ensures Live(t, s, now) == Live(u, s, now) {
      assert Live(t, s, clock) == Live(u, s, clock);
    }
  }

  lemma EvictionKeepsView(t: Table, now: real)
    ensures SameView(Evicted(t, now), t, now)
    ensures forall s :: s in Evicted(t, now) <==> Live(t, s, now).Some?
  {
  }

  lemma WritesAgree(t: Table, u: Table, now: real, s: Slot, row: Row)
    requires SameView(t, u, now)
    ensures SameView(t[s := row], u[s := row], now)
  {
    var t', u' := t[s := row], u[s := row];
    forall x: Slot ensures Live(t', x, now) == Live(u', x, now) {
      assert Live(t, x, now) == Live(u, x, now);
    }
  }

  lemma ReleasesAgree(t: Table, u: Table, now: real, owner: Reservation)
    requires SameView(t, u, now)
    ensures SameView(if Owns(t, owner) then t - {owner.slot} else t,
                     if Owns(u, owner) then u - {owner.slot} else u, now)
  {
    var t' := if Owns(t, owner) then t - {owner.slot} else t;
    var u' := if Owns(u, owner) then u - {owner.slot} else u;
    forall x: Slot ensures Live(t', x, now) == Live(u', x, now) {
      assert Live(t, x, now) == Live(u, x, now);
    }
  }

  /** One locked region answers like the promise and leaves the same view, whatever rows it evicts or leaves behind. */
  lemma StepKeepsPromise(c: Config, t: Table, u: Table, e: Event, clock: real)
    requires SameView(t, u, clock) && clock <= ClockOf(e, clock)
    ensures Step(c, t, e).1 == Promise(c, u, e).1
    ensures SameView(Step(c, t, e).0, Promise(c, u, e).0, ClockOf(e, clock))
  {
    var now := ClockOf(e, clock);
    ViewsAgreeLater(t, u, clock, now);
    var left := Evicted(t, now);
    EvictionKeepsView(t, now);
    assert SameView(left, u, now) by {
      forall s: Slot ensures Live(left, s, now) == Live(u, s, now) {
        assert Live(left, s, now) == Live(t, s, now) == Live(u, s, now);
      }
    }
    match e
    case Reserve(slot, token, lease, _) =>
      assert Live(left, slot, now) == Live(u, slot, now);
      WritesAgree(left, u, now, slot, Row(token, PENDING, now, now + lease));
    case Complete(owner, body, status, _) =>
      assert Live(left, owner.slot, now) == Live(t, owner.slot, now) == Live(u, owner.slot, now);
      WritesAgree(left, u, now, owner.slot, Row(body, status, now, now + c.ttl));
      WritesAgree(t, u, now, owner.slot, Row(body, status, now, now + c.ttl));
    case Release(owner) =>
      ReleasesAgree(t, u, now, owner);
    case Put(slot, body, status, _) =>
      assert Live(left, slot, now) == Live(u, slot, now);
      WritesAgree(left, u, now, slot, Row(body, status, now, now + c.ttl));
    case Get(slot, _) =>
      assert Live(left, slot, now) == Live(u, slot, now);
    case Evict(_) =>
  }

  /** Lazy eviction is invisible over whole runs with ordered clock samples. */
  lemma {:induction false} RunKeepsPromise(c: Config, t: Table, u: Table, es: seq<Event>, clock: real)
    requires SameView(t, u, clock) && Ordered(es, clock)
    ensures Outcomes(c, t, es) == PromisedOutcomes(c, u, es)
    decreases |es|
  {
    if es != [] {
      StepKeepsPromise(c, t, u, es[0], clock);
      RunKeepsPromise(c, Step(c, t, es[0]).0, Promise(c, u, es[0]).0, es[1..], ClockOf(es[0], clock));
    }
  }

  /** Two tables that differ only in expired rows are indistinguishable from here on. */
  lemma OnlyVisibleRowsMatter(c: Config, t: Table, u: Table, es: seq<Event>, clock: real)
    requires SameView(t, u, clock) && Ordered(es, clock)
    ensures Outcomes(c, t, es) == Outcomes(c, u, es)
  {
    RunKeepsPromise(c, t, u, es, clock);
    RunKeepsPromise(c, u, u, es, clock);
  }

  /** Out-of-order samples break it: a late reader's eviction grants a key that is still claimed. */
  lemma OutOfOrderSampleIsVisible(c: Config)
    ensures var s := Slot("k", "t");
            var es := [Reserve(s, "a", 10.0, 0.0), Get(s, 20.0), Reserve(s, "b", 10.0, 5.0)];
            Outcomes(c, map[], es)[2] == Granted(Reservation(s, "b")) && PromisedOutcomes(c, map[], es)[2] == InUse
  {
    var s := Slot("k", "t");
    var e0, e1, e2 := Reserve(s, "a", 10.0, 0.0), Get(s, 20.0), Reserve(s, "b", 10.0, 5.0);
    var es := [e0, e1, e2];
    assert es[1..] == [e1, e2] && es[1..][1..] == [e2];
    var held: Table := map[s := Row("a", PENDING, 0.0, 10.0)];
    assert Step(c, map[], e0).0 == held && Promise(c, map[], e0).0 == held;
    assert Step(c, held, e1).0 == map[];
    assert Promise(c, held, e1).0 == held;
    assert Step(c, map[], e2).1 == Granted(Reservation(s, "b")) && Promise(c, held, e2).1 == InUse;
    assert Outcomes(c, map[], es)[2] == Outcomes(c, held, es[1..])[1] == Outcomes(c, map[], [e2])[0];
    assert PromisedOutcomes(c, map[], es)[2] == PromisedOutcomes(c, held, es[1..])[1];
    assert PromisedOutcomes(c, held, es[1..])[1] == PromisedOutcomes(c, held, [e2])[0];
  }

  /** The clock samples of a run, in lock order; a release takes none. */
  ghost function Samples(es: seq<Event>): seq<real> {
    if es == [] then [] else (if es[0].Release? then [] else [es[0].now]) + Samples(es[1..])
  }

  lemma {:induction false} AscendingIsOrdered(es: seq<Event>, clock: real)
    requires NeverStepsBack([clock] + Samples(es))
    ensures Ordered(es, clock)
    decreases |es|
  {
    if es != [] {
      var ns := [clock] + Samples(es);
      if es[0].Release? {
        assert Samples(es) == Samples(es[1..]);
      } else {
        assert ns[0] <= ns[1] == es[0].now;
        forall i | 0 < i < |ns[1..]| ensures ns[1..][i - 1] <= ns[1..][i] {
          assert ns[i] <= ns[i + 1];
        }
        assert ns[1..] == [es[0].now] + Samples(es[1..]);
      }
      AscendingIsOrdered(es[1..], ClockOf(es[0], clock));
    }
  }

  lemma LaterAnswer(c: Config, t: Table, u: Table, es: seq<Event>, k: nat)
    requires 0 < k < |es|
    ensures Outcomes(c, t, es)[k] == Outcomes(c, Step(c, t, es[0]).0, es[1..])[k - 1]
    ensures PromisedOutcomes(c, u, es)[k] == PromisedOutcomes(c, Promise(c, u, es[0]).0, es[1..])[k - 1]
  {
  }

  lemma EvictFirst(c: Config, t: Table, u: Table, es: seq<Event>, k: nat)
    requires 0 < k < |es| && es[0].Evict?
    ensures Outcomes(c, t, es)[k] == Outcomes(c, Evicted(t, es[0].now), es[1..])[k - 1]
    ensures PromisedOutcomes(c, u, es)[k] == PromisedOutcomes(c, u, es[1..])[k - 1]
  {
    LaterAnswer(c, t, u, es, k);
  }

  /** Nothing but evictions before a claim of s at position q. */
  ghost predicate Probes(es: seq<Event>, s: Slot, q: nat, now: real) {
    q < |es| && es[q] == Reserve(s, "b", 1.0, now) && forall i | 0 <= i < q :: es[i].Evict?
  }

  lemma {:induction false} ProbeFindsNothing(c: Config, t: Table, u: Table, s: Slot, row: Row, es: seq<Event>,
                                             q: nat, now: real)
    requires Probes(es, s, q, now) && now < row.expiresAt && s.key != "" && s.tenant != ""
    requires s in u && u[s] == row && s !in t
    ensures Outcomes(c, t, es)[q] == Granted(Reservation(s, "b"))
    ensures PromisedOutcomes(c, u, es)[q] == if row.Pending() then InUse else Found(row)
    decreases q
  {
    if q > 0 {
      EvictFirst(c, t, u, es, q);
      ProbeFindsNothing(c, Evicted(t, es[0].now), u, s, row, es[1..], q - 1, now);
    }
  }

  /** A row evicted at j is gone for a claim whose sample lies before the expiry; by the promise it still stands. */
  lemma {:induction false} ProbeSeesEviction(c: Config, t: Table, u: Table, s: Slot, row: Row, es: seq<Event>,
                                             j: nat, q: nat, now: real)
    requires Probes(es, s, q, now) && j < q && now < row.expiresAt <= es[j].now && s.key != "" && s.tenant != ""
    requires s in u && u[s] == row && (s in t ==> t[s] == row)
    ensures Outcomes(c, t, es)[q] == Granted(Reservation(s, "b"))
    ensures PromisedOutcomes(c, u, es)[q] == if row.Pending() then InUse else Found(row)
    decreases q
  {
    EvictFirst(c, t, u, es, q);
    if j > 0 {
      ProbeSeesEviction(c, Evicted(t, es[0].now), u, s, row, es[1..], j - 1, q - 1, now);
    } else {
      ProbeFindsNothing(c, Evicted(t, es[0].now), u, s, row, es[1..], q - 1, now);
    }
  }

  lemma {:induction false} SamplesOf(es: seq<Event>, ns: seq<real>)
    requires |es| == |ns| && forall i | 0 <= i < |es| :: !es[i].Release? && es[i].now == ns[i]
    ensures Samples(es) == ns
    decreases |es|
  {
    if es != [] {
      SamplesOf(es[1..], ns[1..]);
    }
  }

  /** Evictions over the samples ns, with a claim of s at position q and, given a lease, another at position p. */
  ghost function Probe(s: Slot, ns: seq<real>, p: nat, lease: Option<real>, q: nat): (es: seq<Event>)
    ensures |es| == |ns| && Samples(es) == ns
    ensures forall i | 0 <= i < |es| ::
              es[i] == if i == q then Reserve(s, "b", 1.0, ns[i])
                       else if lease.Some? && i == p then Reserve(s, "a", lease.value, ns[i])
                       else Evict(ns[i])
  {
    var es := seq(|ns|, i requires 0 <= i < |ns| =>
      if i == q then Reserve(s, "b", 1.0, ns[i])
      else if lease.Some? && i == p then Reserve(s, "a", lease.value, ns[i])
      else Evict(ns[i]));
    SamplesOf(es, ns);
    es
  }

  /** Whatever the table holds at the start, every run over the samples ns answers like the promise. */
  ghost predicate EvictionInvisible(c: Config, ns: seq<real>) {
    forall t: Table, es: seq<Event> | Samples(es) == ns :: Outcomes(c, t, es) == PromisedOutcomes(c, t, es)
  }

  /** Lazy eviction is invisible over given samples exactly when they never step back. */
  lemma EvictionInvisibleIff(c: Config, ns: seq<real>)
    ensures EvictionInvisible(c, ns) <==> NeverStepsBack(ns)
  {
    if NeverStepsBack(ns) {
      forall t: Table, es: seq<Event> | Samples(es) == ns ensures Outcomes(c, t, es) == PromisedOutcomes(c, t, es) {
        var clock := if ns == [] then 0.0 else ns[0];
        AscendingIsOrdered(es, clock);
        RunKeepsPromise(c, t, t, es, clock);
      }
    } else {
      var q :| 0 < q < |ns| && ns[q - 1] > ns[q];
      var s, row := Slot("k", "t"), Row("", 200, 0.0, ns[q - 1]);
      var es, t := Probe(s, ns, 0, None, q), map[s := row];
      ProbeSeesEviction(c, t, t, s, row, es, q - 1, q, ns[q]);
      assert Outcomes(c, t, es)[q] != PromisedOutcomes(c, t, es)[q];
    }
  }

  // A store that starts empty holds only rows that outlive their own sample, so it tolerates more.

  ghost predicate AllOutlive(t: Table, clock: real) {
    forall s <- t :: t[s].expiresAt > clock
  }

  /** While samples fall nothing is ever evicted: store and promise hold the very same rows. */
  lemma FallingStepKeepsRows(c: Config, t: Table, e: Event, clock: real)
    requires c.ttl > 0.0 && AllOutlive(t, clock) && ClockOf(e, clock) <= clock
    ensures Step(c, t, e) == Promise(c, t, e) && AllOutlive(Step(c, t, e).0, ClockOf(e, clock))
  {
    if !e.Release? {
      assert Evicted(t, e.now) == t;
    }
  }

  lemma RisesFromHere(clock: real, ns: seq<real>)
    requires NoPeak([clock] + ns) && ns != [] && clock < ns[0]
    ensures NeverStepsBack([clock] + ns)
  {
    var all := [clock] + ns;
    forall i | 0 < i < |all| ensures all[i - 1] <= all[i] {
      if i > 1 {
        assert i > 2 ==> !Peak(all, 0, 1, i - 1);
        assert !Peak(all, 0, i - 1, i);
      }
    }
  }

  lemma {:induction false} NoPeakKeepsPromise(c: Config, t: Table, es: seq<Event>, clock: real)
    requires c.ttl > 0.0 && AllOutlive(t, clock) && NoPeak([clock] + Samples(es))
    ensures Outcomes(c, t, es) == PromisedOutcomes(c, t, es)
    decreases |es|
  {
    if es != [] {
      var all, next := [clock] + Samples(es), ClockOf(es[0], clock);
      if next <= clock {
        FallingStepKeepsRows(c, t, es[0], clock);
        if es[0].Release? {
          assert Samples(es) == Samples(es[1..]);
        } else {
          assert all[1..] == [next] + Samples(es[1..]);
          forall p: nat, j: nat, q: nat ensures !Peak(all[1..], p, j, q) {
            assert !Peak(all, p + 1, j + 1, q + 1);
          }
        }
        NoPeakKeepsPromise(c, Step(c, t, es[0]).0, es[1..], next);
      } else {
        RisesFromHere(clock, Samples(es));
        AscendingIsOrdered(es, clock);
        RunKeepsPromise(c, t, t, es, clock);
      }
    }
  }

  lemma NothingToEvict(now: real)
    ensures Evicted(map[], now) == map[]
  {
  }

  lemma ClaimThenProbe(c: Config, s: Slot, es: seq<Event>, lease: real, first: real, j: nat, q: nat, now: real)
    requires es != [] && es[0] == Reserve(s, "a", lease, first) && 0 < j < q && Probes(es[1..], s, q - 1, now)
    requires s.key != "" && s.tenant != "" && lease > 0.0 && now < first + lease <= es[j].now
    ensures Outcomes(c, map[], es)[q] == Granted(Reservation(s, "b"))
    ensures PromisedOutcomes(c, map[], es)[q] == InUse
  {
    var row := Row("a", PENDING, first, first + lease);
    NothingToEvict(first);
    assert Step(c, map[], es[0]).0 == map[s := row] && Promise(c, map[], es[0]).0 == map[s := row];
    LaterAnswer(c, map[], map[], es, q);
    ProbeSeesEviction(c, map[s := row], map[s := row], s, row, es[1..], j - 1, q - 1, now);
  }

  /** A claim at p, evicted at j under a peak, is granted again at q. */
  lemma {:induction false} PeakGrantsTwice(c: Config, s: Slot, es: seq<Event>, lease: real, p: nat, j: nat, q: nat)
    requires p < j < q < |es| && es[p].Reserve? && es[p] == Reserve(s, "a", lease, es[p].now)
    requires es[q].Reserve? && es[q] == Reserve(s, "b", 1.0, es[q].now)
    requires forall i | 0 <= i < q && i != p :: es[i].Evict?
    requires s.key != "" && s.tenant != "" && lease > 0.0 && es[q].now < es[p].now + lease <= es[j].now
    ensures Outcomes(c, map[], es)[q] == Granted(Reservation(s, "b"))
    ensures PromisedOutcomes(c, map[], es)[q] == InUse
    decreases p
  {
    if p == 0 {
      ClaimThenProbe(c, s, es, lease, es[0].now, j, q, es[q].now);
    } else {
      NothingToEvict(es[0].now);
      EvictFirst(c, map[], map[], es, q);
      PeakGrantsTwice(c, s, es[1..], lease, p - 1, j - 1, q - 1);
    }
  }

  /** Every run of a store that starts empty answers like the promise. */
  ghost predicate FreshStoreFaithful(c: Config, ns: seq<real>) {
    forall es: seq<Event> | Samples(es) == ns :: Outcomes(c, map[], es) == PromisedOutcomes(c, map[], es)
  }

  /** For a store that starts empty the exact condition is weaker: no sample above both an earlier and a later one. */
  lemma FreshStoreFaithfulIff(c: Config, ns: seq<real>)
    requires c.ttl > 0.0
    ensures FreshStoreFaithful(c, ns) <==> NoPeak(ns)
  {
    if NoPeak(ns) {
      forall es: seq<Event> | Samples(es) == ns ensures Outcomes(c, map[], es) == PromisedOutcomes(c, map[], es) {
        var clock := if ns == [] then 0.0 else ns[0];
        forall p: nat, j: nat, q: nat ensures !Peak([clock] + ns, p, j, q) {
          if p < j < q {
            assert p > 0 ==> !Peak(ns, p - 1, j - 1, q - 1);
            assert !Peak(ns, 0, j - 1, q - 1);
          }
        }
        NoPeakKeepsPromise(c, map[], es, clock);
      }
    } else {
      var p: nat, j: nat, q: nat :| Peak(ns, p, j, q);
      var s, lease := Slot("k", "t"), ns[j] - ns[p];
      var es := Probe(s, ns, p, Some(lease), q);
      PeakGrantsTwice(c, s, es, lease, p, j, q);
      assert Outcomes(c, map[], es)[q] != PromisedOutcomes(c, map[], es)[q];
    }
  }

  // ------------------------------------------------ ownership over whole runs

  ghost predicate Holds(t: Table, owner: Reservation, until: real) {
    Owns(t, owner) && t[owner.slot].expiresAt == until
  }

  ghost predicate ByOwner(e: Event, owner: Reservation) {
    (e.Complete? || e.Release?) && e.owner == owner
  }

  ghost predicate Before(e: Event, until: real) {
    e.Release? || e.now < until
  }

  /** What everybody else is told about a slot that is claimed. */
  ghost predicate ShutOut(e: Event, r: Outcome, slot: Slot) {
    match e
    case Reserve(s, _, lease, _) =>
      s == slot ==> r == InUse || (r == BadArgument && (lease <= 0.0 || s.key == "" || s.tenant == ""))
    case Complete(o, _, _, _) => o.slot == slot ==> r == Stored(false)
    case Release(_) => r == Done
    case Put(s, _, _, _) => s == slot ==> r == Stored(false) || (r == BadArgument && (s.key == "" || s.tenant == ""))
    case Get(s, _) => s == slot ==> r == Missing
    case Evict(_) => r == Done
  }

  ghost predicate Bystanders(es: seq<Event>, owner: Reservation, until: real) {
    forall i | 0 <= i < |es| :: !ByOwner(es[i], owner) && Before(es[i], until)
  }

  lemma ClaimSurvivesStep(c: Config, t: Table, e: Event, owner: Reservation, until: real)
    requires Holds(t, owner, until) && !ByOwner(e, owner) && Before(e, until)
    ensures Holds(Step(c, t, e).0, owner, until)
    ensures ShutOut(e, Step(c, t, e).1, owner.slot)
  {
  }

  /** Exclusive ownership: until its owner acts or its lease ends, a claim stands and everyone else is shut out. */
  lemma {:induction false} ClaimIsExclusive(c: Config, t: Table, es: seq<Event>, owner: Reservation, until: real)
    requires Holds(t, owner, until) && Bystanders(es, owner, until)
    ensures Holds(Final(c, t, es), owner, until)
    ensures forall i | 0 <= i < |es| :: ShutOut(es[i], Outcomes(c, t, es)[i], owner.slot)
    decreases |es|
  {
    if es != [] {
      var t' := Step(c, t, es[0]).0;
      ClaimSurvivesStep(c, t, es[0], owner, until);
      assert Bystanders(es[1..], owner, until) by {
        forall i | 0 <= i < |es[1..]| ensures !ByOwner(es[1..][i], owner) && Before(es[1..][i], until) {
          assert es[1..][i] == es[i + 1];
        }
      }
      ClaimIsExclusive(c, t', es[1..], owner, until);
      forall i | 0 <= i < |es| ensures ShutOut(es[i], Outcomes(c, t, es)[i], owner.slot) {
        if i > 0 {
          assert es[i] == es[1..][i - 1] && Outcomes(c, t, es)[i] == Outcomes(c, t', es[1..])[i - 1];
        }
      }
    }
  }

  /** A granted claim excludes every other request for the lease, and its owner can then always complete it. */
  lemma GrantIsExclusive(c: Config, t: Table, e: Event, es: seq<Event>, body: string, status: int, now: real)
    requires e.Reserve? && Step(c, t, e).1.Granted?
    requires Bystanders(es, Reservation(e.slot, e.token), e.now + e.lease)
    ensures var t' := Step(c, t, e).0;
            var owner := Reservation(e.slot, e.token);
            && Step(c, t, e).1 == Granted(owner)
            && Live(t, e.slot, e.now).None?
            && (forall i | 0 <= i < |es| :: ShutOut(es[i], Outcomes(c, t', es)[i], e.slot))
            && Step(c, Final(c, t', es), Complete(owner, body, status, now)).1 == Stored(true)
  {
    ClaimIsExclusive(c, Step(c, t, e).0, es, Reservation(e.slot, e.token), e.now + e.lease);
  }

  // --------------------------------------------------- replay over whole runs

  ghost predicate Answers(t: Table, s: Slot, row: Row) {
    s in t && t[s] == row && !row.Pending()
  }

  /** What everybody, the former owner included, is told about a slot with a stored response. */
  ghost predicate Replays(e: Event, r: Outcome, s: Slot, row: Row) {
    match e
    case Reserve(x, _, lease, _) =>
      x == s ==> r == Found(row) || (r == BadArgument && (lease <= 0.0 || x.key == "" || x.tenant == ""))
    case Complete(o, _, _, _) => o.slot == s ==> r == Stored(false)
    case Release(_) => r == Done
    case Put(x, _, _, _) => x == s ==> r == Stored(false) || (r == BadArgument && (x.key == "" || x.tenant == ""))
    case Get(x, _) => x == s ==> r == Found(row)
    case Evict(_) => r == Done
  }

  lemma AnswerSurvivesStep(c: Config, t: Table, e: Event, s: Slot, row: Row)
    requires Answers(t, s, row) && Before(e, row.expiresAt)
    ensures Answers(Step(c, t, e).0, s, row) && Replays(e, Step(c, t, e).1, s, row)
  {
  }

  lemma {:induction false} AnswerIsStable(c: Config, t: Table, es: seq<Event>, s: Slot, row: Row)
    requires Answers(t, s, row) && forall i | 0 <= i < |es| :: Before(es[i], row.expiresAt)
    ensures Answers(Final(c, t, es), s, row)
    ensures forall i | 0 <= i < |es| :: Replays(es[i], Outcomes(c, t, es)[i], s, row)
    decreases |es|
  {
    if es != [] {
      var t' := Step(c, t, es[0]).0;
      AnswerSurvivesStep(c, t, es[0], s, row);
      AnswerIsStable(c, t', es[1..], s, row);
      forall i | 0 <= i < |es| ensures Replays(es[i], Outcomes(c, t, es)[i], s, row) {
        if i > 0 {
          assert es[i] == es[1..][i - 1] && Outcomes(c, t, es)[i] == Outcomes(c, t', es[1..])[i - 1];
        }
      }
    }
  }

  /** Replay stability: after a successful complete or put, the same response answers until its time to live ends. */
  lemma StoredResponseIsReplayed(c: Config, t: Table, e: Event, es: seq<Event>)
    requires (e.Complete? || e.Put?) && e.status != 0 && Step(c, t, e).1 == Stored(true)
    requires forall i | 0 <= i < |es| :: Before(es[i], e.now + c.ttl)
    ensures var s := if e.Put? then e.slot else e.owner.slot;
            var row := Row(e.body, e.status, e.now, e.now + c.ttl);
            forall i | 0 <= i < |es| :: Replays(es[i], Outcomes(c, Step(c, t, e).0, es)[i], s, row)
  {
    AnswerIsStable(c, Step(c, t, e).0, es, if e.Put? then e.slot else e.owner.slot,
                   Row(e.body, e.status, e.now, e.now + c.ttl));
  }

  /** A late completion is kept exactly when the slot is free again or still the owner's own. */
  lemma CompletionStoredIff(c: Config, t: Table, owner: Reservation, body: string, status: int, now: real)
    ensures Step(c, t, Complete(owner, body, status, now)).1
         == Stored(Live(t, owner.slot, now).None? || Owns(t, owner))
  {
  }

  // -------------------------------------------------------------- the class

  class IdempotencyStore {
    const config: Config
    var rows: Table

    constructor (config: Config)
      requires config.ttl > 0.0
      ensures this.config == config && rows == map[]
    {
      this.config := config;
      rows := map[];
    }

    static method Create(config: Config) returns (r: Result<IdempotencyStore, Outcome>)
      ensures r.Raised? <==> config.ttl <= 0.0
      ensures r.Returned? ==> fresh(r.value) && r.value.config == config && r.value.rows == map[]
    {
      if config.ttl <= 0.0 {
        return Raised(BadArgument);
      }
      var store := new IdempotencyStore(config);
      r := Returned(store);
    }

    method EvictExpiredLocked(now: real)
      modifies this
      ensures rows == Evicted(old(rows), now)
    {
      rows := map s | s in rows && rows[s].expiresAt > now :: rows[s];
    }

    /** INSERT OR IGNORE: true when the row went in. */
    method InsertOrIgnore(slot: Slot, row: Row) returns (inserted: bool)
      modifies this
      ensures inserted <==> slot !in old(rows)
      ensures rows == if inserted then old(rows)[slot := row] else old(rows)
    {
      inserted := slot !in rows;
      if inserted {
        rows := rows[slot := row];
      }
    }

    method Reserve(slot: Slot, token: string, lease: real, now: real) returns (r: Outcome)
      modifies this
      ensures (rows, r) == Step(config, old(rows), Event.Reserve(slot, token, lease, now))
    {
      if slot.key == "" || slot.tenant == "" || lease <= 0.0 {
        return BadArgument;
      }
      EvictExpiredLocked(now);
      var inserted := InsertOrIgnore(slot, Row(token, PENDING, now, now + lease));
      if inserted {
        return Granted(Reservation(slot, token));
      }
      var record := rows[slot];
      r := if record.Pending() then InUse else Found(record);
    }

    method Complete(owner: Reservation, body: string, status: int, now: real) returns (r: Outcome)
      modifies this
      ensures (rows, r) == Step(config, old(rows), Event.Complete(owner, body, status, now))
    {
      var row := Row(body, status, now, now + config.ttl);
      var stored := Owns(rows, owner);
      if stored {
        rows := rows[owner.slot := row];
      } else {
        EvictExpiredLocked(now);
        stored := InsertOrIgnore(owner.slot, row);
      }
      r := Stored(stored);
    }

    method Release(owner: Reservation) returns (r: Outcome)
      modifies this
      ensures (rows, r) == Step(config, old(rows), Event.Release(owner))
    {
      if Owns(rows, owner) {
        rows := rows - {owner.slot};
      }
      r := Done;
    }

    method Put(slot: Slot, body: string, status: int, now: real) returns (r: Outcome)
      modifies this
      ensures (rows, r) == Step(config, old(rows), Event.Put(slot, body, status, now))
      ensures r == Stored(false) && !config.memory ==> rows == old(rows)
      ensures r == Stored(false) && config.memory ==>
                forall s :: s in rows <==> s in old(rows) && old(rows)[s].expiresAt > now
    {
      if slot.key == "" || slot.tenant == "" {
        return BadArgument;
      }
      var uncommitted := rows;
      EvictExpiredLocked(now);
      if slot in rows {
        if !config.memory {
          rows := uncommitted;
        }
        return Stored(false);
      }
      rows := rows[slot := Row(body, status, now, now + config.ttl)];
      r := Stored(true);
    }

    method Get(slot: Slot, now: real) returns (r: Outcome)
      modifies this
      ensures (rows, r) == Step(config, old(rows), Event.Get(slot, now))
    {
      EvictExpiredLocked(now);
      if slot !in rows || rows[slot].Pending() {
        return Missing;
      }
      r := Found(rows[slot]);
    }

    /** Deletes the expired rows and counts them. */
    method EvictExpired(now: real) returns (deleted: nat)
      modifies this
      ensures rows == Step(config, old(rows), Event.Evict(now)).0
      ensures deleted == |set s | s in old(rows) && old(rows)[s].expiresAt <= now|
    {
      var expired := set s | s in rows && rows[s].expiresAt <= now;
      deleted := |expired|;
      EvictExpiredLocked(now);
    }

    method Apply(e: Event) returns (r: Outcome)
      modifies this
      ensures (rows, r) == Step(config, old(rows), e)
    {
      match e
      case Reserve(slot, token, lease, now) => r := Reserve(slot, token, lease, now);
      case Complete(owner, body, status, now) => r := Complete(owner, body, status, now);
      case Release(owner) => r := Release(owner);
      case Put(slot, body, status, now) => r := Put(slot, body, status, now);
      case Get(slot, now) => r := Get(slot, now);
      case Evict(now) =>
        var _ := EvictExpired(now);
        r := Done;
    }
  }
}
