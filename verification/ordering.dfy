/** The order in which providers are attempted: the strategy's choice, then fallbacks by provider health. */
module Ordering {
  import opened Wrappers
  import opened Scoreboard

  type Catalog = map<string, string>

  function ProviderOf(catalog: Catalog, model: string): string {
    if model in catalog then catalog[model] else ""
  }

  /** The models of one provider, in chain order. */
  function Of(catalog: Catalog, chain: seq<string>, provider: string): seq<string> {
    if chain == [] then []
    else
      Of(catalog, chain[..|chain| - 1], provider)
      + if ProviderOf(catalog, chain[|chain| - 1]) == provider then [chain[|chain| - 1]] else []
  }

  /** The providers of the chain, each once, in order of first appearance. */
  function FirstSeen(catalog: Catalog, chain: seq<string>): seq<string> {
    if chain == [] then []
    else
      var seen, p := FirstSeen(catalog, chain[..|chain| - 1]), ProviderOf(catalog, chain[|chain| - 1]);
      if p in seen then seen else seen + [p]
  }

  /** The chain regrouped by a list of providers. */
  function Regrouped(catalog: Catalog, chain: seq<string>, providers: seq<string>): seq<string> {
    if providers == [] then []
    else Regrouped(catalog, chain, providers[..|providers| - 1]) + Of(catalog, chain, providers[|providers| - 1])
  }

  ghost predicate Distinct(xs: seq<string>) {
    forall i, j | 0 <= i < j < |xs| :: xs[i] != xs[j]
  }

  lemma {:induction false} FirstSeenIsExact(catalog: Catalog, chain: seq<string>)
    ensures Distinct(FirstSeen(catalog, chain))
    ensures forall p :: p in FirstSeen(catalog, chain) <==> Of(catalog, chain, p) != []
    decreases |chain|
  {
    if chain != [] {
      FirstSeenIsExact(catalog, chain[..|chain| - 1]);
    }
  }

  lemma {:induction false} OfSum(catalog: Catalog, a: seq<string>, b: seq<string>, p: string)
    ensures Of(catalog, a + b, p) == Of(catalog, a, p) + Of(catalog, b, p)
    decreases |b|
  {
    if b == [] {
      assert a + b == a;
    } else {
      assert (a + b)[..|a + b| - 1] == a + b[..|b| - 1];
      OfSum(catalog, a, b[..|b| - 1], p);
    }
  }

  lemma OfOne(catalog: Catalog, m: string, p: string)
    ensures Of(catalog, [m], p) == if ProviderOf(catalog, m) == p then [m] else []
  {
    assert [m][..0] == [];
  }

  lemma {:induction false} OfOf(catalog: Catalog, chain: seq<string>, q: string, p: string)
    ensures Of(catalog, Of(catalog, chain, q), p) == if p == q then Of(catalog, chain, q) else []
    ensures forall m <- Of(catalog, chain, q) :: ProviderOf(catalog, m) == q
    decreases |chain|
  {
    if chain != [] {
      var rest, m := chain[..|chain| - 1], chain[|chain| - 1];
      OfOf(catalog, rest, q, p);
      if ProviderOf(catalog, m) == q {
        OfSum(catalog, Of(catalog, rest, q), [m], p);
        OfOne(catalog, m, p);
      } else {
        assert Of(catalog, chain, q) == Of(catalog, rest, q);
      }
    }
  }

  /** Regrouping keeps each listed provider's models, in order, and drops the others. */
  lemma {:induction false} RegroupedKeeps(catalog: Catalog, chain: seq<string>, providers: seq<string>, p: string)
    requires Distinct(providers)
    ensures Of(catalog, Regrouped(catalog, chain, providers), p) == if p in providers then Of(catalog, chain, p) else []
    decreases |providers|
  {
    if providers != [] {
      var rest, q := providers[..|providers| - 1], providers[|providers| - 1];
      RegroupedKeeps(catalog, chain, rest, p);
      OfSum(catalog, Regrouped(catalog, chain, rest), Of(catalog, chain, q), p);
      OfOf(catalog, chain, q, p);
      assert p in providers <==> p in rest || p == q;
      assert p in rest ==> p != q;
    }
  }

  ghost function CountOf(xs: seq<string>, m: string): nat {
    if xs == [] then 0 else CountOf(xs[..|xs| - 1], m) + if xs[|xs| - 1] == m then 1 else 0
  }

  lemma {:induction false} CountIsMultiplicity(xs: seq<string>, m: string)
    ensures multiset(xs)[m] == CountOf(xs, m)
    decreases |xs|
  {
    if xs != [] {
      var p, x := xs[..|xs| - 1], xs[|xs| - 1];
      CountIsMultiplicity(p, m);
      assert xs == p + [x];
      assert multiset(xs) == multiset(p) + multiset{x};
    }
  }

  lemma {:induction false} CountByProvider(catalog: Catalog, chain: seq<string>, m: string)
    ensures CountOf(chain, m) == CountOf(Of(catalog, chain, ProviderOf(catalog, m)), m)
    decreases |chain|
  {
    if chain != [] {
      var rest, last, p := chain[..|chain| - 1], chain[|chain| - 1], ProviderOf(catalog, m);
      CountByProvider(catalog, rest, m);
      if ProviderOf(catalog, last) == p {
        assert (Of(catalog, rest, p) + [last])[..|Of(catalog, rest, p)|] == Of(catalog, rest, p);
      } else {
        assert Of(catalog, chain, p) == Of(catalog, rest, p);
      }
    }
  }

  /** Position of a provider in a list of distinct providers. */
  ghost function Place(providers: seq<string>, p: string): (k: nat)
    ensures k <= |providers| && (p in providers <==> k < |providers|)
    ensures k < |providers| ==> providers[k] == p
  {
    if providers == [] then 0
    else
      var k := Place(providers[..|providers| - 1], p);
      if k < |providers| - 1 then k
      else if providers[|providers| - 1] == p then |providers| - 1 else |providers|
  }

  ghost predicate InPlaceOrder(catalog: Catalog, out: seq<string>, providers: seq<string>) {
    && (forall i | 0 <= i < |out| :: ProviderOf(catalog, out[i]) in providers)
    && (forall i, j | 0 <= i < j < |out| ::
          Place(providers, ProviderOf(catalog, out[i])) <= Place(providers, ProviderOf(catalog, out[j])))
  }

  lemma {:induction false} RegroupedInOrder(catalog: Catalog, chain: seq<string>, providers: seq<string>)
    requires Distinct(providers)
    ensures InPlaceOrder(catalog, Regrouped(catalog, chain, providers), providers)
    decreases |providers|
  {
    if providers != [] {
      var rest, q := providers[..|providers| - 1], providers[|providers| - 1];
      RegroupedInOrder(catalog, chain, rest);
      OfOf(catalog, chain, q, q);
      var front, out := Regrouped(catalog, chain, rest), Regrouped(catalog, chain, providers);
      forall i | 0 <= i < |out|
        ensures ProviderOf(catalog, out[i]) in providers
        ensures i < |front| ==>
                  Place(providers, ProviderOf(catalog, out[i])) == Place(rest, ProviderOf(catalog, front[i])) < |rest|
        ensures i >= |front| ==> Place(providers, ProviderOf(catalog, out[i])) == |rest|
      {
        if i < |front| {
          assert out[i] == front[i] && ProviderOf(catalog, front[i]) in rest;
        } else {
          assert out[i] == Of(catalog, chain, q)[i - |front|];
          assert out[i] in Of(catalog, chain, q);
        }
      }
    }
  }

  /** The fallbacks: a stable regrouping of the chain in the ranked order of its providers. */
  ghost function Fallbacks(c: Settings, b: Board, catalog: Catalog, chain: seq<string>, now: real): seq<string>
    requires Sound(c) && AllPlausible(b)
  {
    Regrouped(catalog, chain, Names(Ranking(c, b, FirstSeen(catalog, chain), now)))
  }

  /** Nothing is added, lost or repeated, and each provider's models keep the strategy's order. */
  lemma FallbacksPermuteChain(c: Settings, b: Board, catalog: Catalog, chain: seq<string>, now: real)
    requires Sound(c) && AllPlausible(b)
    ensures multiset(Fallbacks(c, b, catalog, chain, now)) == multiset(chain)
    ensures forall p :: Of(catalog, Fallbacks(c, b, catalog, chain, now), p) == Of(catalog, chain, p)
  {
    var out := Fallbacks(c, b, catalog, chain, now);
    var ranked := Names(Ranking(c, b, FirstSeen(catalog, chain), now));
    RankedProviders(c, b, catalog, chain, now);
    FirstSeenIsExact(catalog, chain);
    forall p ensures Of(catalog, out, p) == Of(catalog, chain, p) {
      RegroupedKeeps(catalog, chain, ranked, p);
    }
    forall m ensures multiset(out)[m] == multiset(chain)[m] {
      CountByProvider(catalog, out, m);
      CountByProvider(catalog, chain, m);
      CountIsMultiplicity(out, m);
      CountIsMultiplicity(chain, m);
    }
  }

  lemma RankedProviders(c: Settings, b: Board, catalog: Catalog, chain: seq<string>, now: real)
    requires Sound(c) && AllPlausible(b)
    ensures var ranked := Names(Ranking(c, b, FirstSeen(catalog, chain), now));
            Distinct(ranked) && forall p :: p in ranked <==> p in FirstSeen(catalog, chain)
  {
    var seen := FirstSeen(catalog, chain);
    var t := Ranking(c, b, seen, now);
    RankingIsRight(c, b, seen, now);
    FirstSeenIsExact(catalog, chain);
    forall i, j | 0 <= i < j < |t| ensures Names(t)[i] != Names(t)[j] {
      assert Before(t[i], t[j]);
      assert t[i] in t && t[j] in t;
      BeforeIsStrictOrder(t[i], t[j], t[j]);
    }
    forall p ensures p in Names(t) <==> p in seen {
      assert p in multiset(Names(t)) <==> p in multiset(seen);
    }
  }

  /** A list in place order never leaves a provider and comes back to it. */
  lemma GroupsAreContiguous(catalog: Catalog, out: seq<string>, providers: seq<string>, i: nat, k: nat, j: nat)
    requires InPlaceOrder(catalog, out, providers) && i <= k <= j < |out|
    requires ProviderOf(catalog, out[i]) == ProviderOf(catalog, out[j])
    ensures ProviderOf(catalog, out[k]) == ProviderOf(catalog, out[i])
  {
    assert ProviderOf(catalog, out[k]) in providers && ProviderOf(catalog, out[i]) in providers;
    assert Place(providers, ProviderOf(catalog, out[i])) == Place(providers, ProviderOf(catalog, out[k]));
  }

  /** Fallbacks of one provider are contiguous. */
  lemma FallbacksAreGrouped(c: Settings, b: Board, catalog: Catalog, chain: seq<string>, now: real,
                            i: nat, k: nat, j: nat)
    requires Sound(c) && AllPlausible(b) && i <= k <= j < |Fallbacks(c, b, catalog, chain, now)|
    ensures var out := Fallbacks(c, b, catalog, chain, now);
            ProviderOf(catalog, out[i]) == ProviderOf(catalog, out[j]) ==>
              ProviderOf(catalog, out[k]) == ProviderOf(catalog, out[i])
  {
    var ranked := Names(Ranking(c, b, FirstSeen(catalog, chain), now));
    RankedProviders(c, b, catalog, chain, now);
    RegroupedInOrder(catalog, chain, ranked);
    var out := Fallbacks(c, b, catalog, chain, now);
    if ProviderOf(catalog, out[i]) == ProviderOf(catalog, out[j]) {
      GroupsAreContiguous(catalog, out, ranked, i, k, j);
    }
  }

  /** p occurs in the chain before q does. */
  ghost predicate AppearsFirst(catalog: Catalog, chain: seq<string>, p: string, q: string) {
    exists k | 0 <= k < |chain| ::
      ProviderOf(catalog, chain[k]) == p && forall m | 0 <= m <= k :: ProviderOf(catalog, chain[m]) != q
  }

  lemma {:induction false} SeenInOrder(catalog: Catalog, chain: seq<string>, x: nat, y: nat)
    requires x < y < |FirstSeen(catalog, chain)|
    ensures AppearsFirst(catalog, chain, FirstSeen(catalog, chain)[x], FirstSeen(catalog, chain)[y])
    decreases |chain|
  {
    var rest, seen := chain[..|chain| - 1], FirstSeen(catalog, chain);
    var before := FirstSeen(catalog, rest);
    var k: nat;
    if y < |before| {
      SeenInOrder(catalog, rest, x, y);
      k :| 0 <= k < |rest| && ProviderOf(catalog, rest[k]) == seen[x]
           && forall m | 0 <= m <= k :: ProviderOf(catalog, rest[m]) != seen[y];
    } else {
      assert before[x] in before;
      SeenSomewhere(catalog, rest, before[x]);
      k :| 0 <= k < |rest| && ProviderOf(catalog, rest[k]) == seen[x];
      forall m | 0 <= m <= k ensures ProviderOf(catalog, rest[m]) != seen[y] {
        SeenAll(catalog, rest, m);
      }
    }
    forall m | 0 <= m <= k ensures ProviderOf(catalog, chain[m]) != seen[y] {
      assert chain[m] == rest[m];
    }
    assert chain[k] == rest[k];
  }

  lemma {:induction false} SeenAll(catalog: Catalog, chain: seq<string>, m: nat)
    requires m < |chain|
    ensures ProviderOf(catalog, chain[m]) in FirstSeen(catalog, chain)
    decreases |chain|
  {
    if m < |chain| - 1 {
      SeenAll(catalog, chain[..|chain| - 1], m);
    }
  }

  lemma {:induction false} SeenSomewhere(catalog: Catalog, chain: seq<string>, p: string)
    requires p in FirstSeen(catalog, chain)
    ensures exists k :: 0 <= k < |chain| && ProviderOf(catalog, chain[k]) == p
    decreases |chain|
  {
    var rest := chain[..|chain| - 1];
    if p in FirstSeen(catalog, rest) {
      SeenSomewhere(catalog, rest, p);
      var k :| 0 <= k < |rest| && ProviderOf(catalog, rest[k]) == p;
      assert chain[k] == rest[k];
    } else {
      assert ProviderOf(catalog, chain[|chain| - 1]) == p;
    }
  }

  /**
    * Of two fallbacks of different providers the earlier never scores worse: an unobserved one is followed by
    * unobserved ones only, scores do not rise, and among equals the provider first in the chain comes first.
    */
  lemma FallbacksAreRanked(c: Settings, b: Board, catalog: Catalog, chain: seq<string>, now: real, i: nat, j: nat)
    requires Sound(c) && AllPlausible(b) && i < j < |Fallbacks(c, b, catalog, chain, now)|
    ensures var out := Fallbacks(c, b, catalog, chain, now);
            var p, q := ProviderOf(catalog, out[i]), ProviderOf(catalog, out[j]);
            var x, y := ScoreIn(c, b, p, now), ScoreIn(c, b, q, now);
            p != q ==>
              && (x.None? ==> y.None?)
              && (x.Some? && y.Some? ==> x.value >= y.value)
              && (x == y ==> AppearsFirst(catalog, chain, p, q))
  {
    var ranked := Names(Ranking(c, b, FirstSeen(catalog, chain), now));
    RankedProviders(c, b, catalog, chain, now);
    RegroupedInOrder(catalog, chain, ranked);
    var out := Fallbacks(c, b, catalog, chain, now);
    var p, q := ProviderOf(catalog, out[i]), ProviderOf(catalog, out[j]);
    if p != q {
      assert p in ranked && q in ranked;
      RankedApart(c, b, catalog, chain, now, Place(ranked, p), Place(ranked, q));
    }
  }

  lemma RankedApart(c: Settings, b: Board, catalog: Catalog, chain: seq<string>, now: real, x: nat, y: nat)
    requires Sound(c) && AllPlausible(b)
    requires x < y < |Ranking(c, b, FirstSeen(catalog, chain), now)|
    ensures var t := Ranking(c, b, FirstSeen(catalog, chain), now);
            var p, q := t[x].provider, t[y].provider;
            && t[x].score == ScoreIn(c, b, p, now) && t[y].score == ScoreIn(c, b, q, now)
            && (t[x].score.None? ==> t[y].score.None?)
            && (t[x].score.Some? && t[y].score.Some? ==> t[x].score.value >= t[y].score.value)
            && (t[x].score == t[y].score ==> AppearsFirst(catalog, chain, p, q))
  {
    var seen := FirstSeen(catalog, chain);
    var t := Ranking(c, b, seen, now);
    RankingIsRight(c, b, seen, now);
    assert t[x] in t && t[y] in t;
    if t[x].score == t[y].score {
      SeenInOrder(catalog, chain, t[x].index, t[y].index);
    }
  }

  /** The grouping loop: providers by first appearance, and each one's models in chain order. */
  method GroupByProvider(catalog: Catalog, chain: seq<string>)
    returns (providerOrder: seq<string>, byProvider: map<string, seq<string>>)
    requires forall m <- chain :: m in catalog
    ensures providerOrder == FirstSeen(catalog, chain)
    ensures byProvider.Keys == set p <- providerOrder
    ensures forall p <- byProvider :: byProvider[p] == Of(catalog, chain, p)
  {
    providerOrder, byProvider := [], map[];
    for i := 0 to |chain|
      invariant providerOrder == FirstSeen(catalog, chain[..i])
      invariant forall p :: p in byProvider <==> p in providerOrder
      invariant forall p <- byProvider :: byProvider[p] == Of(catalog, chain[..i], p)
    {
      var model := chain[i];
      assert chain[..i + 1][..i] == chain[..i];
      FirstSeenIsExact(catalog, chain[..i]);
      var provider := catalog[model];
      if provider !in byProvider {
        providerOrder := providerOrder + [provider];
        byProvider := byProvider[provider := []];
      }
      byProvider := byProvider[provider := byProvider[provider] + [model]];
    }
    assert chain[..|chain|] == chain;
  }

  method Concatenate(ghost catalog: Catalog, ghost chain: seq<string>, ranked: seq<string>,
                     byProvider: map<string, seq<string>>)
    returns (ordered: seq<string>)
    requires forall p <- ranked :: p in byProvider && byProvider[p] == Of(catalog, chain, p)
    ensures ordered == Regrouped(catalog, chain, ranked)
  {
    ordered := [];
    for i := 0 to |ranked|
      invariant ordered == Regrouped(catalog, chain, ranked[..i])
    {
      assert ranked[..i + 1][..i] == ranked[..i];
      ordered := ordered + byProvider[ranked[i]];
    }
    assert ranked[..|ranked|] == ranked;
  }

  /** `_order_attempts`. */
  method OrderAttempts(board: ProviderFallbackScoreboard, catalog: Catalog, chosen: string, chain: seq<string>,
                       now: real)
    returns (attempts: seq<string>)
    requires board.Valid() && forall m <- chain :: m in catalog
    modifies board
    ensures board.Valid()
    ensures attempts == [chosen] + Fallbacks(board.settings, old(board.stats), catalog, chain, now)
  {
    RankedProviders(board.settings, board.stats, catalog, chain, now);
    if chain == [] {
      return [chosen];
    }
    var providerOrder, byProvider := GroupByProvider(catalog, chain);
    var ranked := board.Rank(providerOrder, now);
    var ordered := Concatenate(catalog, chain, ranked, byProvider);
    attempts := [chosen] + ordered;
  }
}
