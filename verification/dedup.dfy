/** Request fingerprint window: observations describe the current chain of close sightings. */
module Dedup {
  import opened Clock
  import opened Wrappers

  datatype Entry = Entry(firstSeen: real, lastSeen: real, hits: nat)

  datatype Observation = Observation(isDuplicate: bool, priorSeenAt: Option<real>, age: Option<real>, hits: nat)

  datatype FingerprintError = BadWindow | EmptyFingerprint

  type Entries = map<string, Entry>

  function Evicted(window: real, es: Entries, now: real): Entries {
    map k | k in es && now - es[k].lastSeen <= window :: es[k]
  }

  /** One locked region. */
  function Observe(window: real, es: Entries, fingerprint: string, now: real): (Entries, Observation) {
    var left := Evicted(window, es, now);
    if fingerprint !in left then (left[fingerprint := Entry(now, now, 1)], Observation(false, None, None, 1))
    else
      var e := left[fingerprint];
      (left[fingerprint := Entry(e.firstSeen, now, e.hits + 1)],
       Observation(true, Some(e.firstSeen), Some(now - e.firstSeen), e.hits + 1))
  }

  // -------------------------------------------------------------- the history

  /** One locked region of the deduper: an observation, or a size query, which evicts as well. */
  datatype Visit = Sighting(fingerprint: string, at: real) | SizeQuery(at: real)

  ghost function Visited(window: real, es: Entries, v: Visit): Entries {
    match v
    case Sighting(fingerprint, at) => Observe(window, es, fingerprint, at).0
    case SizeQuery(at) => Evicted(window, es, at)
  }

  /** The table after the first n visits. */
  ghost function Replay(window: real, log: seq<Visit>, n: nat): Entries
    requires n <= |log|
  {
    if n == 0 then map[] else Visited(window, Replay(window, log, n - 1), log[n - 1])
  }

  predicate Sees(v: Visit, fingerprint: string) {
    v.Sighting? && v.fingerprint == fingerprint
  }

  ghost predicate Below(ps: seq<nat>, n: nat) {
    forall i | 0 <= i < |ps| :: ps[i] < n
  }

  /** Which of the first n visits saw the fingerprint, oldest first. */
  ghost function Sightings(log: seq<Visit>, fingerprint: string, n: nat): (ps: seq<nat>)
    requires n <= |log|
    ensures Below(ps, n)
  {
    if n == 0 then []
    else
      var before := Sightings(log, fingerprint, n - 1);
      if Sees(log[n - 1], fingerprint) then before + [n - 1] else before
  }

  lemma {:induction false} SightingsAreAll(log: seq<Visit>, fingerprint: string, n: nat)
    requires n <= |log|
    ensures var ps := Sightings(log, fingerprint, n);
            && (forall p: nat :: p in ps <==> p < n && Sees(log[p], fingerprint))
            && (forall i, j | 0 <= i < j < |ps| :: ps[i] < ps[j])
    decreases n
  {
    if n > 0 {
      SightingsAreAll(log, fingerprint, n - 1);
    }
  }

  /** No visit after p, up to and including q, was sampled more than a window after p. */
  ghost predicate Kept(window: real, log: seq<Visit>, p: nat, q: nat)
    requires p < |log| && q < |log|
  {
    forall j | p < j <= q :: log[j].at - log[p].at <= window
  }

  /** Sighting i was kept until the next one. */
  ghost predicate Linked(window: real, log: seq<Visit>, ps: seq<nat>, i: nat)
    requires Below(ps, |log|) && i + 1 < |ps|
  {
    Kept(window, log, ps[i], ps[i + 1])
  }

  /** Where the chain of sightings, each kept until the next one, begins. */
  ghost function ChainStart(window: real, log: seq<Visit>, ps: seq<nat>, m: nat): (k: nat)
    requires m < |ps| && Below(ps, |log|)
    ensures k <= m
  {
    if m == 0 || !Linked(window, log, ps, m - 1) then m else ChainStart(window, log, ps, m - 1)
  }

  /** The chain is maximal: each sighting kept until the next, and cut off from anything before it. */
  lemma {:induction false} ChainIsMaximal(window: real, log: seq<Visit>, ps: seq<nat>, m: nat)
    requires m < |ps| && Below(ps, |log|)
    ensures var k := ChainStart(window, log, ps, m);
            && (forall i | k <= i < m :: Linked(window, log, ps, i))
            && (k > 0 ==> !Linked(window, log, ps, k - 1))
    decreases m
  {
    if m > 0 && Linked(window, log, ps, m - 1) {
      ChainIsMaximal(window, log, ps, m - 1);
    }
  }

  lemma {:induction false} ChainStartOfPrefix(window: real, log: seq<Visit>, ps: seq<nat>, p: nat, m: nat)
    requires m < |ps| && Below(ps, |log|) && Below(ps + [p], |log|)
    ensures ChainStart(window, log, ps + [p], m) == ChainStart(window, log, ps, m)
    decreases m
  {
    if m > 0 {
      ChainStartOfPrefix(window, log, ps, p, m - 1);
    }
  }

  /** First and last sighting of the chain that ends with the last of ps, and its length. */
  ghost function Summary(window: real, log: seq<Visit>, ps: seq<nat>): Entry
    requires ps != [] && Below(ps, |log|)
  {
    var k := ChainStart(window, log, ps, |ps| - 1);
    Entry(log[ps[k]].at, log[ps[|ps| - 1]].at, |ps| - k)
  }

  /** The chain that sighting n ends. */
  ghost function Chain(window: real, log: seq<Visit>, n: nat): Entry
    requires n < |log| && log[n].Sighting?
  {
    Summary(window, log, Sightings(log, log[n].fingerprint, n + 1))
  }

  lemma ChainGrows(window: real, log: seq<Visit>, before: seq<nat>, p: nat)
    requires p < |log| && Below(before, p)
    ensures Below(before + [p], |log|)
    ensures Summary(window, log, before + [p])
         == if before != [] && Kept(window, log, before[|before| - 1], p)
            then Entry(Summary(window, log, before).firstSeen, log[p].at, Summary(window, log, before).hits + 1)
            else Entry(log[p].at, log[p].at, 1)
  {
    var ps := before + [p];
    if before != [] {
      ChainStartOfPrefix(window, log, before, p, |before| - 1);
      assert Linked(window, log, ps, |before| - 1) <==> Kept(window, log, before[|before| - 1], p);
    }
  }

  /** A fingerprint is in the table while its last sighting is kept, and then with the summary of its chain. */
  ghost predicate Holds(window: real, es: Entries, log: seq<Visit>, fingerprint: string, n: nat)
    requires n <= |log|
  {
    var ps := Sightings(log, fingerprint, n);
    && (fingerprint in es <==> ps != [] && Kept(window, log, ps[|ps| - 1], n - 1))
    && (fingerprint in es ==> es[fingerprint] == Summary(window, log, ps))
  }

  lemma KeptOneMore(window: real, log: seq<Visit>, p: nat, q: nat)
    requires p < q < |log|
    ensures Kept(window, log, p, q) <==> Kept(window, log, p, q - 1) && log[q].at - log[p].at <= window
  {
  }

  /** What one visit's eviction leaves of a fingerprint. */
  lemma EvictionHolds(window: real, es: Entries, log: seq<Visit>, fingerprint: string, n: nat)
    requires n < |log| && Holds(window, es, log, fingerprint, n)
    ensures var ps, left := Sightings(log, fingerprint, n), Evicted(window, es, log[n].at);
            && (fingerprint in left <==> ps != [] && Kept(window, log, ps[|ps| - 1], n))
            && (fingerprint in left ==> left[fingerprint] == Summary(window, log, ps))
  {
    var ps := Sightings(log, fingerprint, n);
    if ps != [] {
      KeptOneMore(window, log, ps[|ps| - 1], n);
    }
  }

  lemma SightingHolds(window: real, es: Entries, log: seq<Visit>, n: nat)
    requires n < |log| && log[n].Sighting? && Holds(window, es, log, log[n].fingerprint, n)
    ensures Holds(window, Observe(window, es, log[n].fingerprint, log[n].at).0, log, log[n].fingerprint, n + 1)
  {
    EvictionHolds(window, es, log, log[n].fingerprint, n);
    ChainGrows(window, log, Sightings(log, log[n].fingerprint, n), n);
  }

  lemma OtherVisitHolds(window: real, es: Entries, log: seq<Visit>, fingerprint: string, n: nat)
    requires n < |log| && !Sees(log[n], fingerprint) && Holds(window, es, log, fingerprint, n)
    ensures Holds(window, Visited(window, es, log[n]), log, fingerprint, n + 1)
  {
    EvictionHolds(window, es, log, fingerprint, n);
  }

  /** The table after any history whatever, samples in any order. */
  lemma {:induction false} ReplayHolds(window: real, log: seq<Visit>, fingerprint: string, n: nat)
    requires n <= |log|
    ensures Holds(window, Replay(window, log, n), log, fingerprint, n)
    decreases n
  {
    if n > 0 {
      ReplayHolds(window, log, fingerprint, n - 1);
      if Sees(log[n - 1], fingerprint) {
        SightingHolds(window, Replay(window, log, n - 1), log, n - 1);
      } else {
        OtherVisitHolds(window, Replay(window, log, n - 1), log, fingerprint, n - 1);
      }
    }
  }

  /** The observation made by visit n. */
  ghost function Observed(window: real, log: seq<Visit>, n: nat): Observation
    requires n < |log| && log[n].Sighting?
  {
    Observe(window, Replay(window, log, n), log[n].fingerprint, log[n].at).1
  }

  /**
    * Any history, samples in any order: a sighting is a duplicate exactly when the previous one has been kept
    * until now, and the observation reports the length and the first sighting of the maximal chain it ends.
    */
  lemma ObservationDescribesChain(window: real, log: seq<Visit>, n: nat)
    requires n < |log| && log[n].Sighting?
    ensures var before := Sightings(log, log[n].fingerprint, n);
            var o, chain := Observed(window, log, n), Chain(window, log, n);
            && (o.isDuplicate <==> before != [] && Kept(window, log, before[|before| - 1], n))
            && o.hits == chain.hits
            && o.priorSeenAt == (if o.isDuplicate then Some(chain.firstSeen) else None)
            && o.age == (if o.isDuplicate then Some(log[n].at - chain.firstSeen) else None)
  {
    ReplayHolds(window, log, log[n].fingerprint, n);
    EvictionHolds(window, Replay(window, log, n), log, log[n].fingerprint, n);
    ChainGrows(window, log, Sightings(log, log[n].fingerprint, n), n);
  }

  // ------------------------------------------- when the clock times alone decide

  ghost function Samples(log: seq<Visit>): (ns: seq<real>)
    ensures |ns| == |log| && forall i | 0 <= i < |ns| :: ns[i] == log[i].at
  {
    seq(|log|, i requires 0 <= i < |log| => log[i].at)
  }

  /** Without a peak in the samples a sighting is kept exactly as long as its own window lasts. */
  lemma KeptForItsWindow(window: real, log: seq<Visit>, p: nat, q: nat)
    requires window > 0.0 && NoPeak(Samples(log)) && p < q < |log|
    ensures Kept(window, log, p, q) <==> log[q].at - log[p].at <= window
  {
    forall j | p < j < q && log[j].at - log[p].at > window ensures log[q].at - log[p].at > window {
      assert !Peak(Samples(log), p, j, q);
    }
  }

  /** Sighting i is within a window of the next one. */
  ghost predicate Near(window: real, log: seq<Visit>, ps: seq<nat>, i: nat)
    requires Below(ps, |log|) && i + 1 < |ps|
  {
    log[ps[i + 1]].at - log[ps[i]].at <= window
  }

  lemma LinkedIffNear(window: real, log: seq<Visit>, fingerprint: string, n: nat, i: nat)
    requires window > 0.0 && NoPeak(Samples(log)) && n <= |log| && i + 1 < |Sightings(log, fingerprint, n)|
    ensures Linked(window, log, Sightings(log, fingerprint, n), i)
       <==> Near(window, log, Sightings(log, fingerprint, n), i)
  {
    SightingsAreAll(log, fingerprint, n);
    var ps := Sightings(log, fingerprint, n);
    KeptForItsWindow(window, log, ps[i], ps[i + 1]);
  }

  /**
    * Without a peak in the samples the chain an observation describes is the longest run of sightings each within
    * a window of the one before; a duplicate is a sighting near the previous one.
    */
  lemma ObservationByTimes(window: real, log: seq<Visit>, n: nat) returns (k: nat)
    requires window > 0.0 && NoPeak(Samples(log)) && n < |log| && log[n].Sighting?
    ensures var ps, o := Sightings(log, log[n].fingerprint, n + 1), Observed(window, log, n);
            && k < |ps| && ps[|ps| - 1] == n
            && (forall i | k <= i < |ps| - 1 :: Near(window, log, ps, i))
            && (k > 0 ==> !Near(window, log, ps, k - 1))
            && o.hits == |ps| - k && (o.isDuplicate <==> k < |ps| - 1)
            && o.priorSeenAt == (if o.isDuplicate then Some(log[ps[k]].at) else None)
            && o.age == (if o.isDuplicate then Some(log[n].at - log[ps[k]].at) else None)
  {
    var ps := Sightings(log, log[n].fingerprint, n + 1);
    k := ChainStart(window, log, ps, |ps| - 1);
    ObservationDescribesChain(window, log, n);
    ChainIsMaximal(window, log, ps, |ps| - 1);
    forall i | 0 <= i < |ps| - 1 ensures Linked(window, log, ps, i) <==> Near(window, log, ps, i) {
      LinkedIffNear(window, log, log[n].fingerprint, n + 1, i);
    }
    assert |ps| > 1 ==> (Linked(window, log, ps, |ps| - 2) <==> Kept(window, log, ps[|ps| - 2], n));
  }

  /** Visit n, if a sighting, is called a duplicate exactly when the previous sighting is within the window. */
  ghost predicate JudgedByTimes(window: real, log: seq<Visit>, n: nat)
    requires n < |log|
  {
    log[n].Sighting? ==>
      var before := Sightings(log, log[n].fingerprint, n);
      Observed(window, log, n).isDuplicate
      <==> before != [] && log[n].at - log[before[|before| - 1]].at <= window
  }

  ghost predicate TimesDecide(ns: seq<real>) {
    forall window: real, log: seq<Visit>, n: nat | window > 0.0 && Samples(log) == ns && n < |ns| ::
      JudgedByTimes(window, log, n)
  }

  /** Two sightings of one fingerprint with nothing but size queries around them. */
  ghost function Pair(ns: seq<real>, p: nat, q: nat): (log: seq<Visit>)
    ensures Samples(log) == ns
  {
    seq(|ns|, i requires 0 <= i < |ns| => if i == p || i == q then Sighting("a", ns[i]) else SizeQuery(ns[i]))
  }

  lemma PeakHidesDuplicate(ns: seq<real>, p: nat, j: nat, q: nat) returns (window: real)
    requires Peak(ns, p, j, q)
    ensures window > 0.0 && !JudgedByTimes(window, Pair(ns, p, q), q)
  {
    var log, gap := Pair(ns, p, q), ns[q] - ns[p];
    window := ((if gap > 0.0 then gap else 0.0) + (ns[j] - ns[p])) / 2.0;
    var before := Sightings(log, "a", q);
    SightingsAreAll(log, "a", q);
    assert p in before;
    assert before[|before| - 1] in before && before[|before| - 1] == p;
    ObservationDescribesChain(window, log, q);
    assert log[j].at - log[p].at > window;
  }

  /** For every window and history over the samples duplicates are judged by their own times iff there is no peak. */
  lemma TimesDecideIff(ns: seq<real>)
    ensures TimesDecide(ns) <==> NoPeak(ns)
  {
    if NoPeak(ns) {
      forall window: real, log: seq<Visit>, n: nat | window > 0.0 && Samples(log) == ns && n < |ns|
        ensures JudgedByTimes(window, log, n)
      {
        if log[n].Sighting? {
          var before := Sightings(log, log[n].fingerprint, n);
          ObservationDescribesChain(window, log, n);
          if before != [] {
            KeptForItsWindow(window, log, before[|before| - 1], n);
          }
        }
      }
    } else {
      var p: nat, j: nat, q: nat :| Peak(ns, p, j, q);
      var window := PeakHidesDuplicate(ns, p, j, q);
    }
  }

  /** The smallest instance: another request's later sample evicts a sighting that was close. */
  lemma OutOfOrderSampleHidesDuplicate()
    ensures var log := [Sighting("a", 0.0), Sighting("b", 5.0), Sighting("a", 0.5)];
            Sightings(log, "a", 2) == [0] && !Observed(1.0, log, 2).isDuplicate
  {
    var log := [Sighting("a", 0.0), Sighting("b", 5.0), Sighting("a", 0.5)];
    assert Sightings(log, "a", 1) == [0];
    ObservationDescribesChain(1.0, log, 2);
    assert log[1].at - log[0].at > 1.0;
  }

  class RequestFingerprintDeduper {
    const window: real
    var entries: Entries

    constructor (window: real)
      requires window > 0.0
      ensures this.window == window && entries == map[]
    {
      this.window := window;
      entries := map[];
    }

    static method Create(window: real) returns (r: Result<RequestFingerprintDeduper, FingerprintError>)
      ensures r.Raised? <==> window <= 0.0
      ensures r.Returned? ==> fresh(r.value) && r.value.window == window && r.value.entries == map[]
    {
      if window <= 0.0 {
        return Raised(BadWindow);
      }
      var deduper := new RequestFingerprintDeduper(window);
      r := Returned(deduper);
    }

    method EvictExpiredLocked(now: real)
      modifies this
      ensures entries == Evicted(window, old(entries), now)
    {
      var expired := set k | k in entries && now - entries[k].lastSeen > window;
      entries := entries - expired;
    }

    /** `observe`. */
    method Record(fingerprint: string, now: real) returns (r: Result<Observation, FingerprintError>)
      modifies this
      ensures r.Raised? <==> fingerprint == ""
      ensures r.Raised? ==> entries == old(entries)
      ensures r.Returned? ==> (entries, r.value) == Observe(window, old(entries), fingerprint, now)
    {
      if fingerprint == "" {
        return Raised(EmptyFingerprint);
      }
      EvictExpiredLocked(now);
      if fingerprint !in entries {
        entries := entries[fingerprint := Entry(now, now, 1)];
        return Returned(Observation(false, None, None, 1));
      }
      var existing := entries[fingerprint];
      var prior := existing.firstSeen;
      existing := existing.(hits := existing.hits + 1);
      existing := existing.(lastSeen := now);
      entries := entries[fingerprint := existing];
      r := Returned(Observation(true, Some(prior), Some(now - prior), existing.hits));
    }

    method Size(now: real) returns (n: nat)
      modifies this
      ensures entries == Evicted(window, old(entries), now) && n == |entries|
    {
      EvictExpiredLocked(now);
      n := |entries|;
    }
  }
}
