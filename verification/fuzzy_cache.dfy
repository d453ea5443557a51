/** Fuzzy response cache: what it can answer from is the last few unexpired stores, nothing else. */
module FuzzyCache {
  import opened Wrappers

  // -------------------------------------------------------------- similarity

  /** All three-character windows of the padded text. */
  function CharTrigrams(text: string): set<string> {
    var padded := "  " + text + "  ";
    if |padded| < 3 then {padded}
    else set i | 0 <= i < |padded| - 2 :: Window(padded, i)
  }

  function Window(padded: string, i: nat): string
    requires i + 3 <= |padded|
  {
    padded[i..i + 3]
  }

  /** w is the three characters of s from position i on. */
  ghost predicate RunAt(s: string, i: nat, w: string) {
    i + 3 <= |s| && w == [s[i], s[i + 1], s[i + 2]]
  }

  /** A fingerprint holds exactly the runs of three characters of the text with two spaces on each side. */
  lemma TrigramsAreRuns(text: string, w: string)
    ensures w in CharTrigrams(text) <==> exists i :: RunAt("  " + text + "  ", i, w)
  {
    var padded := "  " + text + "  ";
    forall i: nat | i + 3 <= |padded| ensures Window(padded, i) == [padded[i], padded[i + 1], padded[i + 2]] {
    }
    if i: nat :| RunAt(padded, i, w) {
      assert w == Window(padded, i);
    } else if w in CharTrigrams(text) {
      var i: nat :| i < |padded| - 2 && w == Window(padded, i);
      assert RunAt(padded, i, w);
    }
  }

  function Jaccard(a: set<string>, b: set<string>): real {
    if a == {} && b == {} then 1.0
    else if a == {} || b == {} then 0.0
    else
      UnionNotEmpty(a, b);
      |a * b| as real / |a + b| as real
  }

  lemma UnionNotEmpty(a: set<string>, b: set<string>)
    ensures a != {} ==> |a + b| > 0
  {
    if a != {} {
      var x :| x in a;
      assert x in a + b;
    }
  }

  lemma SubsetCard(a: set<string>, b: set<string>)
    requires a <= b
    ensures |a| <= |b| && (|a| == |b| ==> a == b)
  {
    assert b == a + (b - a) && a !! (b - a);
    assert |b| == |a| + |b - a|;
  }

  /** ws are the runs of three characters of the padded text, all of them. */
  ghost predicate RunsOf(ws: set<string>, text: string) {
    forall w :: w in ws <==> exists i :: RunAt("  " + text + "  ", i, w)
  }

  lemma FingerprintIsRuns(text: string)
    ensures RunsOf(CharTrigrams(text), text) && CharTrigrams(text) != {}
  {
    var padded := "  " + text + "  ";
    forall w ensures w in CharTrigrams(text) <==> exists i :: RunAt(padded, i, w) {
      TrigramsAreRuns(text, w);
    }
    var first := [padded[0], padded[1], padded[2]];
    assert RunAt(padded, 0, first) && first in CharTrigrams(text);
  }

  /** Similarity of nonempty fingerprints: windows in common over windows in either. */
  lemma JaccardIsOverlap(a: set<string>, b: set<string>)
    requires a != {}
    ensures |a + b| > 0 && Jaccard(a, b) * |a + b| as real == |a * b| as real
  {
    UnionNotEmpty(a, b);
    if b == {} {
      assert a * b == {};
    }
  }

  /** Similarity is symmetric, between 0 and 1, and 1 only for equal fingerprints. */
  lemma JaccardIsSimilarity(a: set<string>, b: set<string>)
    ensures Jaccard(a, b) == Jaccard(b, a)
    ensures 0.0 <= Jaccard(a, b) <= 1.0
    ensures Jaccard(a, b) == 1.0 <==> a == b
  {
    assert a * b == b * a && a + b == b + a;
    if a != {} && b != {} {
      UnionNotEmpty(a, b);
      SubsetCard(a * b, a + b);
      RatioBounds(|a * b|, |a + b|);
      if a * b == a + b {
        assert a == b;
      }
      if a == b {
        assert a * b == a && a + b == a;
      }
    }
  }

  lemma RatioBounds(x: nat, y: nat)
    requires x <= y && y > 0
    ensures 0.0 <= x as real / y as real <= 1.0
    ensures x as real / y as real == 1.0 <==> x == y
  {
    var q, n := x as real / y as real, y as real;
    assert q * n == x as real;
    ScaleOrder(q, 1.0, n);
    ScaleOrder(0.0, q, n);
  }

  // ----------------------------------------------------------------- entries

  /** `value` is the stored response, opaque to the cache. */
  datatype Entry = Entry(key: string, namespace: string, trigrams: set<string>, value: string, expiresAt: real)

  datatype Hit = Hit(key: string, value: string, similarity: real)

  /** Insertion-ordered dictionary of the cache; keys are unique by construction. */
  type Entries = seq<Entry>

  function Purged(es: Entries, now: real): Entries {
    if es == [] then []
    else Purged(es[..|es| - 1], now) + if es[|es| - 1].expiresAt > now then [es[|es| - 1]] else []
  }

  /** Index of the first entry with the smallest expiry. */
  function Oldest(es: Entries): (k: nat)
    requires es != []
    ensures k < |es|
    ensures forall i | 0 <= i < |es| :: es[k].expiresAt <= es[i].expiresAt
    ensures forall i | 0 <= i < k :: es[i].expiresAt > es[k].expiresAt
  {
    var n := |es| - 1;
    if n == 0 then 0
    else
      var k := Oldest(es[..n]);
      assert forall i | 0 <= i < n :: es[..n][i] == es[i];
      if es[n].expiresAt < es[k].expiresAt then n else k
  }

  function Trimmed(es: Entries, max: nat): Entries
    requires max >= 1
    decreases |es|
  {
    if |es| <= max then es
    else
      var k := Oldest(es);
      Trimmed(es[..k] + es[k + 1..], max)
  }

  function Stored(es: Entries, e: Entry, max: nat, now: real): Entries
    requires max >= 1
  {
    Trimmed(Purged(es, now) + [e], max)
  }

  /** A purge keeps exactly the unexpired entries, and their order: it purges any two parts separately. */
  lemma {:induction false} PurgeIsExact(a: Entries, b: Entries, now: real)
    ensures Purged(a + b, now) == Purged(a, now) + Purged(b, now)
    ensures forall e :: e in Purged(b, now) <==> e in b && e.expiresAt > now
    decreases |b|
  {
    if b == [] {
      assert a + b == a;
    } else {
      assert (a + b)[..|a + b| - 1] == a + b[..|b| - 1];
      PurgeIsExact(a, b[..|b| - 1], now);
    }
  }

  /** Entry d goes before entry p: it expires earlier, or at the same time and was stored first. */
  ghost predicate GoesBefore(es: Entries, d: nat, p: nat)
    requires d < |es| && p < |es|
  {
    es[d].expiresAt < es[p].expiresAt || (es[d].expiresAt == es[p].expiresAt && d < p)
  }

  /** The trim drops nothing up to the cap, and beyond it first the entry that goes before every other. */
  lemma TrimDropsNearestExpiry(es: Entries, max: nat) returns (k: nat)
    requires max >= 1
    ensures |es| <= max ==> Trimmed(es, max) == es
    ensures |es| > max ==>
              && k < |es| && (forall i: nat | i < |es| && i != k :: GoesBefore(es, k, i))
              && Trimmed(es, max) == Trimmed(es[..k] + es[k + 1..], max)
  {
    k := if |es| > max then Oldest(es) else 0;
  }

  // ------------------------------------------------------------- the history

  /** A store samples its expiry first and the purge clock later; a lookup purges too. */
  datatype Event = Store(entry: Entry, now: real) | Lookup(now: real)

  ghost function Replay(max: nat, log: seq<Event>): Entries
    requires max >= 1
  {
    if log == [] then []
    else
      var es, last := Replay(max, log[..|log| - 1]), log[|log| - 1];
      match last
      case Store(e, now) => Stored(es, e, max, now)
      case Lookup(now) => Purged(es, now)
  }

  ghost function Stores(log: seq<Event>): Entries {
    if log == [] then []
    else Stores(log[..|log| - 1]) + if log[|log| - 1].Store? then [log[|log| - 1].entry] else []
  }

  ghost predicate ByExpiry(es: Entries) {
    forall i, j | 0 <= i < j < |es| :: es[i].expiresAt <= es[j].expiresAt
  }

  /** Clock samples in lock order never step back, nor do the expiries they give. */
  ghost predicate Ordered(log: seq<Event>, now: real) {
    && ByExpiry(Stores(log))
    && (log == [] || (log[|log| - 1].now <= now && Ordered(log[..|log| - 1], log[|log| - 1].now)))
  }

  /** A store can still answer: unexpired, and fewer than `max` stores came after it. */
  ghost predicate Eligible(stores: Entries, i: nat, max: nat, now: real)
    requires i < |stores|
  {
    stores[i].expiresAt > now && |stores| - 1 - i < max
  }

  /** Everything from position k on. */
  ghost predicate KeepsFrom(es: Entries, stores: Entries, k: nat, max: nat, clock: real) {
    && k <= |stores| && es == stores[k..] && |es| <= max
    && forall i | 0 <= i < k :: !Eligible(stores, i, max, clock)
  }

  lemma {:induction false} PurgeIsSuffix(es: Entries, now: real) returns (k: nat)
    requires ByExpiry(es)
    ensures k <= |es| && Purged(es, now) == es[k..]
    ensures forall i | 0 <= i < k :: es[i].expiresAt <= now
    ensures forall i | k <= i < |es| :: es[i].expiresAt > now
    decreases |es|
  {
    k := 0;
    if es != [] {
      var p, last := es[..|es| - 1], es[|es| - 1];
      k := PurgeIsSuffix(p, now);
      if last.expiresAt > now {
        SuffixOfLast(p, last, k);
        assert es == p + [last];
      } else {
        forall i | 0 <= i < |p| ensures p[i].expiresAt <= now {
          assert p[i] == es[i];
        }
        k := |es|;
      }
    }
  }

  lemma SuffixOfLast(p: Entries, last: Entry, k: nat)
    requires k <= |p|
    ensures (p + [last])[k..] == p[k..] + [last]
  {
  }

  lemma OldestIsFirst(es: Entries)
    requires ByExpiry(es) && es != []
    ensures Oldest(es) == 0
  {
  }

  lemma TrimDropsFirst(es: Entries, max: nat)
    requires max >= 1 && ByExpiry(es) && |es| <= max + 1
    ensures Trimmed(es, max) == if |es| <= max then es else es[1..]
  {
    if |es| > max {
      OldestIsFirst(es);
      assert es[..0] + es[1..] == es[1..];
    }
  }

  lemma ByExpirySuffix(es: Entries, k: nat)
    requires ByExpiry(es) && k <= |es|
    ensures ByExpiry(es[k..])
  {
  }

  lemma PurgeKeeps(es: Entries, stores: Entries, k: nat, max: nat, clock: real, now: real) returns (m: nat)
    requires ByExpiry(stores) && KeepsFrom(es, stores, k, max, clock) && clock <= now
    ensures k <= m && KeepsFrom(Purged(es, now), stores, m, max, now)
    ensures forall i | k <= i < m :: stores[i].expiresAt <= now
    ensures forall i | m <= i < |stores| :: stores[i].expiresAt > now
  {
    ByExpirySuffix(stores, k);
    var d := PurgeIsSuffix(es, now);
    m := k + d;
    assert stores[k..][d..] == stores[m..];
    forall i | 0 <= i < m ensures !Eligible(stores, i, max, now) {
      if i < k {
        assert !Eligible(stores, i, max, clock);
      } else {
        assert es[i - k] == stores[i];
      }
    }
    forall i | m <= i < |stores| ensures stores[i].expiresAt > now {
      assert es[i - k] == stores[i];
    }
    forall i | k <= i < m ensures stores[i].expiresAt <= now {
      assert es[i - k] == stores[i];
    }
  }

  lemma StoreKeeps(es: Entries, stores: Entries, k: nat, e: Entry, max: nat, clock: real, now: real) returns (m: nat)
    requires max >= 1 && ByExpiry(stores + [e]) && KeepsFrom(es, stores, k, max, clock) && clock <= now
    ensures KeepsFrom(Stored(es, e, max, now), stores + [e], m, max, now)
  {
    var more := stores + [e];
    assert ByExpiry(stores) by {
      forall i, j | 0 <= i < j < |stores| ensures stores[i].expiresAt <= stores[j].expiresAt {
        assert more[i] == stores[i] && more[j] == stores[j];
      }
    }
    var p := PurgeKeeps(es, stores, k, max, clock, now);
    assert stores[p..] + [e] == more[p..];
    ByExpirySuffix(more, p);
    TrimDropsFirst(more[p..], max);
    m := if |more| - p <= max then p else p + 1;
    if m == p + 1 {
      assert more[p..][1..] == more[m..];
    }
    forall i | 0 <= i < m ensures !Eligible(more, i, max, now) {
      if i < p {
        assert !Eligible(stores, i, max, now) && more[i] == stores[i];
      }
    }
  }

  /** Any ordered history: the table is a suffix of the stores, and nothing before it could still answer. */
  lemma {:induction false} ReplayKeeps(max: nat, log: seq<Event>, now: real) returns (k: nat)
    requires max >= 1 && Ordered(log, now)
    ensures KeepsFrom(Replay(max, log), Stores(log), k, max, now)
    decreases |log|
  {
    k := 0;
    if log != [] {
      var p, last := log[..|log| - 1], log[|log| - 1];
      var before := ReplayKeeps(max, p, last.now);
      if last.Store? {
        k := StoreKeeps(Replay(max, p), Stores(p), before, last.entry, max, last.now, last.now);
      } else {
        assert Stores(log) == Stores(p);
        k := PurgeKeeps(Replay(max, p), Stores(p), before, max, last.now, last.now);
      }
      forall i | 0 <= i < k ensures !Eligible(Stores(log), i, max, now) {
        assert !Eligible(Stores(log), i, max, last.now);
      }
    }
  }

  /** Refinement: a lookup at `now` chooses among exactly the eligible stores, oldest first. */
  lemma LookupSeesEligible(max: nat, log: seq<Event>, now: real) returns (k: nat)
    requires max >= 1 && Ordered(log, now)
    ensures k <= |Stores(log)| && Purged(Replay(max, log), now) == Stores(log)[k..]
    ensures forall i | 0 <= i < |Stores(log)| :: Eligible(Stores(log), i, max, now) <==> i >= k
  {
    var stores := Stores(log);
    var kept := ReplayKeeps(max, log, now);
    k := PurgeKeeps(Replay(max, log), stores, kept, max, now, now);
    assert |Purged(Replay(max, log), now)| == |stores| - k;
  }

  // ----------------------------------------------------------------- answers

  ghost predicate Candidate(e: Entry, namespace: string, trigrams: set<string>, threshold: real) {
    e.namespace == namespace && Jaccard(trigrams, e.trigrams) >= threshold
  }

  /** The earliest of the most similar candidates, or a miss when there is none. */
  ghost predicate BestHit(es: Entries, namespace: string, trigrams: set<string>, threshold: real, r: Option<Hit>) {
    match r
    case None => forall i | 0 <= i < |es| :: !Candidate(es[i], namespace, trigrams, threshold)
    case Some(hit) =>
      exists i | 0 <= i < |es| ::
        && Candidate(es[i], namespace, trigrams, threshold)
        && hit == Hit(es[i].key, es[i].value, Jaccard(trigrams, es[i].trigrams))
        && (forall j | 0 <= j < |es| && Candidate(es[j], namespace, trigrams, threshold) ::
              Jaccard(trigrams, es[j].trigrams) <= hit.similarity)
        && (forall j | 0 <= j < i && Candidate(es[j], namespace, trigrams, threshold) ::
              Jaccard(trigrams, es[j].trigrams) < hit.similarity)
  }

  /** The share of common runs, common over all, is exactly x. */
  ghost predicate Shares(ws: set<string>, e: Entry, x: real) {
    |ws * e.trigrams| as real == x * |ws + e.trigrams| as real
  }

  ghost predicate SharesLess(ws: set<string>, e: Entry, x: real) {
    |ws * e.trigrams| as real < x * |ws + e.trigrams| as real
  }

  /** Entry i answers: of the namespace, its share the similarity, none greater and no earlier one as great. */
  ghost predicate AnsweredBy(es: Entries, i: nat, namespace: string, ws: set<string>, threshold: real, hit: Hit)
    requires i < |es|
  {
    && es[i].namespace == namespace && hit.key == es[i].key && hit.value == es[i].value
    && Shares(ws, es[i], hit.similarity) && hit.similarity >= threshold
    && (forall j | 0 <= j < |es| && es[j].namespace == namespace ::
          SharesLess(ws, es[j], hit.similarity) || Shares(ws, es[j], hit.similarity))
    && (forall j | 0 <= j < i && es[j].namespace == namespace :: SharesLess(ws, es[j], hit.similarity))
  }

  /** The same in terms of runs; a miss means every entry of the namespace shares less than the threshold. */
  ghost predicate SharesMost(es: Entries, namespace: string, ws: set<string>, threshold: real, r: Option<Hit>) {
    match r
    case None => forall i | 0 <= i < |es| && es[i].namespace == namespace :: SharesLess(ws, es[i], threshold)
    case Some(hit) => exists i | 0 <= i < |es| :: AnsweredBy(es, i, namespace, ws, threshold, hit)
  }

  /** Comparing a similarity is comparing the share of runs. */
  lemma OverlapOrder(ws: set<string>, e: Entry, x: real)
    requires ws != {}
    ensures Jaccard(ws, e.trigrams) == x <==> Shares(ws, e, x)
    ensures Jaccard(ws, e.trigrams) < x <==> SharesLess(ws, e, x)
  {
    JaccardIsOverlap(ws, e.trigrams);
    ScaleOrder(Jaccard(ws, e.trigrams), x, |ws + e.trigrams| as real);
  }

  lemma ScaleOrder(x: real, y: real, k: real)
    requires k > 0.0
    ensures x <= y <==> x * k <= y * k
    ensures x < y <==> x * k < y * k
  {
    assert (y - x) * k == y * k - x * k;
    if x < y {
      assert (y - x) * k > 0.0;
    } else {
      assert (x - y) * k >= 0.0;
    }
  }

  lemma BestSharesMost(es: Entries, namespace: string, ws: set<string>, threshold: real, r: Option<Hit>)
    requires ws != {} && BestHit(es, namespace, ws, threshold, r)
    ensures SharesMost(es, namespace, ws, threshold, r)
  {
    if r.None? {
      forall i | 0 <= i < |es| && es[i].namespace == namespace ensures SharesLess(ws, es[i], threshold) {
        assert !Candidate(es[i], namespace, ws, threshold);
        OverlapOrder(ws, es[i], threshold);
      }
    } else {
      var hit := r.value;
      var i :| 0 <= i < |es| && Candidate(es[i], namespace, ws, threshold)
        && hit == Hit(es[i].key, es[i].value, Jaccard(ws, es[i].trigrams))
        && (forall j | 0 <= j < |es| && Candidate(es[j], namespace, ws, threshold) ::
              Jaccard(ws, es[j].trigrams) <= hit.similarity)
        && (forall j | 0 <= j < i && Candidate(es[j], namespace, ws, threshold) ::
              Jaccard(ws, es[j].trigrams) < hit.similarity);
      forall j | 0 <= j < |es| && es[j].namespace == namespace
        ensures Jaccard(ws, es[j].trigrams) <= hit.similarity
        ensures j < i ==> Jaccard(ws, es[j].trigrams) < hit.similarity
      {
        assert Candidate(es[j], namespace, ws, threshold) || Jaccard(ws, es[j].trigrams) < threshold;
      }
      BestAnswers(es, i, namespace, ws, threshold, hit);
    }
  }

  lemma BestAnswers(es: Entries, i: nat, namespace: string, ws: set<string>, threshold: real, hit: Hit)
    requires ws != {} && i < |es| && es[i].namespace == namespace && hit.similarity >= threshold
    requires hit == Hit(es[i].key, es[i].value, Jaccard(ws, es[i].trigrams))
    requires forall j | 0 <= j < |es| && es[j].namespace == namespace ::
               Jaccard(ws, es[j].trigrams) <= hit.similarity && (j < i ==> Jaccard(ws, es[j].trigrams) < hit.similarity)
    ensures AnsweredBy(es, i, namespace, ws, threshold, hit)
  {
    OverlapOrder(ws, es[i], hit.similarity);
    forall j | 0 <= j < |es| && es[j].namespace == namespace
      ensures SharesLess(ws, es[j], hit.similarity) || Shares(ws, es[j], hit.similarity)
      ensures j < i ==> SharesLess(ws, es[j], hit.similarity)
    {
      OverlapOrder(ws, es[j], hit.similarity);
    }
  }

  lemma SharesOverRuns(es: Entries, text: string, namespace: string, threshold: real, r: Option<Hit>)
    requires BestHit(es, namespace, CharTrigrams(text), threshold, r)
    ensures forall ws | RunsOf(ws, text) :: SharesMost(es, namespace, ws, threshold, r)
  {
    FingerprintIsRuns(text);
    BestSharesMost(es, namespace, CharTrigrams(text), threshold, r);
    forall ws | RunsOf(ws, text) ensures ws == CharTrigrams(text) {
      assert forall w :: w in ws <==> w in CharTrigrams(text);
    }
  }

  /** A message stored and still eligible is found again, in its own namespace and with similarity exactly one. */
  lemma StoredMessageIsFound(max: nat, log: seq<Event>, i: nat, threshold: real, now: real, r: Option<Hit>)
    requires max >= 1 && Ordered(log, now) && threshold <= 1.0
    requires i < |Stores(log)| && Eligible(Stores(log), i, max, now)
    requires BestHit(Purged(Replay(max, log), now), Stores(log)[i].namespace, Stores(log)[i].trigrams, threshold, r)
    ensures r.Some? && r.value.similarity == 1.0
    ensures exists j | 0 <= j <= i ::
              && Eligible(Stores(log), j, max, now)
              && r.value.key == Stores(log)[j].key && r.value.value == Stores(log)[j].value
              && Stores(log)[j].namespace == Stores(log)[i].namespace
              && Stores(log)[j].trigrams == Stores(log)[i].trigrams
  {
    var stores, e := Stores(log), Stores(log)[i];
    var k := LookupSeesEligible(max, log, now);
    var es := Purged(Replay(max, log), now);
    assert es[i - k] == e;
    JaccardIsSimilarity(e.trigrams, e.trigrams);
    assert Candidate(es[i - k], e.namespace, e.trigrams, threshold);
    var b :| 0 <= b < |es| && Candidate(es[b], e.namespace, e.trigrams, threshold)
      && r.value == Hit(es[b].key, es[b].value, Jaccard(e.trigrams, es[b].trigrams))
      && (forall j | 0 <= j < |es| && Candidate(es[j], e.namespace, e.trigrams, threshold) ::
            Jaccard(e.trigrams, es[j].trigrams) <= r.value.similarity)
      && (forall j | 0 <= j < b && Candidate(es[j], e.namespace, e.trigrams, threshold) ::
            Jaccard(e.trigrams, es[j].trigrams) < r.value.similarity);
    JaccardIsSimilarity(e.trigrams, es[b].trigrams);
    assert es[b] == stores[b + k];
  }

  datatype SettingsError = BadSettings

  class SemanticFuzzyCache {
    const ttl: real
    const threshold: real
    const maxEntries: nat
    const enabled: bool
    var entries: Entries
    var hits: nat
    var misses: nat

    ghost predicate Valid()
      reads this
    {
      maxEntries >= 1
    }

    constructor (ttl: real, threshold: real, maxEntries: nat, enabled: bool)
      requires ttl >= 0.0 && 0.0 <= threshold <= 1.0 && maxEntries >= 1
      ensures Valid() && entries == [] && hits == 0 && misses == 0
      ensures this.ttl == ttl && this.threshold == threshold && this.maxEntries == maxEntries && this.enabled == enabled
    {
      this.ttl, this.threshold, this.maxEntries, this.enabled := ttl, threshold, maxEntries, enabled;
      entries, hits, misses := [], 0, 0;
    }

    static method Create(ttl: real, threshold: real, maxEntries: int, enabled: bool)
      returns (r: Result<SemanticFuzzyCache, SettingsError>)
      ensures r.Returned? <==> ttl >= 0.0 && 0.0 <= threshold <= 1.0 && maxEntries >= 1
      ensures r.Returned? ==> fresh(r.value) && r.value.Valid() && r.value.entries == []
      ensures r.Returned? ==> r.value.ttl == ttl && r.value.threshold == threshold
      ensures r.Returned? ==> r.value.maxEntries == maxEntries && r.value.enabled == enabled
      ensures r.Returned? ==> r.value.hits == 0 && r.value.misses == 0
    {
      if ttl < 0.0 || !(0.0 <= threshold <= 1.0) || maxEntries < 1 {
        return Raised(BadSettings);
      }
      var cache := new SemanticFuzzyCache(ttl, threshold, maxEntries, enabled);
      r := Returned(cache);
    }

    method PurgeExpiredLocked(now: real)
      modifies this`entries
      ensures entries == Purged(old(entries), now)
    {
      var kept: Entries := [];
      for i := 0 to |entries|
        invariant entries == old(entries) && kept == Purged(entries[..i], now)
      {
        assert entries[..i + 1][..i] == entries[..i];
        if entries[i].expiresAt > now {
          kept := kept + [entries[i]];
        }
      }
      assert entries[..|entries|] == entries;
      entries := kept;
    }

    method EvictOverflowLocked()
      requires Valid()
      modifies this`entries
      ensures entries == Trimmed(old(entries), maxEntries)
    {
      while |entries| > maxEntries
        invariant Trimmed(entries, maxEntries) == Trimmed(old(entries), maxEntries)
        decreases |entries|
      {
        var k := Oldest(entries);
        entries := entries[..k] + entries[k + 1..];
      }
    }

    /** `get` on normalised text. */
    method Get(text: string, namespace: string, now: real) returns (r: Option<Hit>)
      requires Valid()
      modifies this
      ensures !enabled ==> r == None && entries == old(entries)
      ensures enabled ==> entries == Purged(old(entries), now)
      ensures enabled ==> BestHit(entries, namespace, CharTrigrams(text), threshold, r)
      ensures enabled ==> forall ws | RunsOf(ws, text) :: SharesMost(entries, namespace, ws, threshold, r)
      ensures hits == old(hits) + (if r.Some? then 1 else 0) && misses == old(misses) + (if r.Some? then 0 else 1)
    {
      if !enabled {
        misses := misses + 1;
        return None;
      }
      var trigrams := CharTrigrams(text);
      PurgeExpiredLocked(now);
      var best: Option<Hit> := None;
      for i := 0 to |entries|
        invariant entries == Purged(old(entries), now) && hits == old(hits) && misses == old(misses)
        invariant BestHit(entries[..i], namespace, trigrams, threshold, best)
      {
        var entry := entries[i];
        ghost var was := best;
        var similarity := Jaccard(trigrams, entry.trigrams);
        if entry.namespace == namespace && similarity >= threshold {
          if best.None? || similarity > best.value.similarity {
            best := Some(Hit(entry.key, entry.value, similarity));
          }
        }
        BestHitStep(entries, i, namespace, trigrams, threshold, was, best);
      }
      assert entries[..|entries|] == entries;
      SharesOverRuns(entries, text, namespace, threshold, best);
      if best.None? {
        misses := misses + 1;
        return None;
      }
      hits := hits + 1;
      r := best;
    }

    /** `set` on normalised text; `key` is the fresh digest, `sampled` the clock behind the expiry. */
    method Set(text: string, namespace: string, value: string, key: string, sampled: real, now: real)
      returns (r: string)
      requires Valid()
      modifies this`entries
      ensures !enabled ==> r == "" && entries == old(entries)
      ensures enabled ==> r == key
      ensures enabled ==>
        entries == Stored(old(entries), Entry(key, namespace, CharTrigrams(text), value, sampled + ttl),
                          maxEntries, now)
      ensures enabled ==> RunsOf(CharTrigrams(text), text)
    {
      FingerprintIsRuns(text);
      if !enabled {
        return "";
      }
      var entry := Entry(key, namespace, CharTrigrams(text), value, sampled + ttl);
      PurgeExpiredLocked(now);
      entries := entries + [entry];
      EvictOverflowLocked();
      r := key;
    }
  }

  lemma BestHitStep(es: Entries, i: nat, namespace: string, trigrams: set<string>, threshold: real,
                    was: Option<Hit>, best: Option<Hit>)
    requires i < |es| && BestHit(es[..i], namespace, trigrams, threshold, was)
    requires best == if Candidate(es[i], namespace, trigrams, threshold)
                        && (was.None? || Jaccard(trigrams, es[i].trigrams) > was.value.similarity)
                     then Some(Hit(es[i].key, es[i].value, Jaccard(trigrams, es[i].trigrams)))
                     else was
    ensures BestHit(es[..i + 1], namespace, trigrams, threshold, best)
  {
    var p, q := es[..i], es[..i + 1];
    forall j | 0 <= j < i ensures q[j] == p[j] {
    }
    if best != was || was.None? {
      if best.Some? {
        assert q[i] == es[i];
      }
    } else {
      var b :| 0 <= b < |p| && Candidate(p[b], namespace, trigrams, threshold)
        && was.value == Hit(p[b].key, p[b].value, Jaccard(trigrams, p[b].trigrams))
        && (forall j | 0 <= j < |p| && Candidate(p[j], namespace, trigrams, threshold) ::
              Jaccard(trigrams, p[j].trigrams) <= was.value.similarity)
        && (forall j | 0 <= j < b && Candidate(p[j], namespace, trigrams, threshold) ::
              Jaccard(trigrams, p[j].trigrams) < was.value.similarity);
      assert q[b] == p[b];
    }
  }
}
