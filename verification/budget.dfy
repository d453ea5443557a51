/** Budget cap under concurrency: how far check-then-record can overrun it, exactly. */
module Budget {
  import opened Wrappers

  const EPSILON_USD: real := 0.000000001

  datatype BudgetError = BudgetExceeded

  predicate Fits(cap: real, spent: real, estimate: real) {
    spent + estimate <= cap + EPSILON_USD
  }

  class BudgetGuardrail {
    const cap: real
    var spendBySubject: map<string, real>

    constructor (cap: real)
      ensures this.cap == cap && spendBySubject == map[]
    {
      this.cap := cap;
      spendBySubject := map[];
    }

    function Spent(subject: string): real
      reads this
    {
      if subject in spendBySubject then spendBySubject[subject] else 0.0
    }

    method AssertCanSpend(subject: string, estimate: real) returns (r: Result<(), BudgetError>)
      ensures r.Returned? <==> Spent(subject) + estimate <= cap + 0.000000001
      ensures r.Returned? <==> Fits(cap, Spent(subject), estimate)
    {
      if Spent(subject) + estimate > cap + EPSILON_USD {
        return Raised(BudgetExceeded);
      }
      r := Returned(());
    }

    method RecordSpend(subject: string, cost: real)
      modifies this
      ensures Spent(subject) == old(Spent(subject)) + cost
      ensures forall s | s != subject :: Spent(s) == old(Spent(s))
    {
      spendBySubject := spendBySubject[subject := Spent(subject) + cost];
    }
  }

  // ------------------------------------------ one subject, many live requests

  /** An admitted attempt between its check and the recording of its cost. */
  datatype Hold = Hold(request: nat, estimate: real)

  datatype Ledger = Ledger(spent: real, holds: seq<Hold>)

  /**
    * Check: a candidate is tested, replacing the request's earlier one.
    * Drop: the attempt failed, nothing is charged.
    */
  datatype Event = Check(request: nat, estimate: real) | Record(request: nat, cost: real) | Drop(request: nat)

  function Without(holds: seq<Hold>, request: nat): seq<Hold> {
    if holds == [] then []
    else (if holds[0].request == request then [] else [holds[0]]) + Without(holds[1..], request)
  }

  function Step(cap: real, l: Ledger, e: Event): Ledger {
    var others := Without(l.holds, e.request);
    match e
    case Check(request, estimate) =>
      Ledger(l.spent, if Fits(cap, l.spent, estimate) then [Hold(request, estimate)] + others else others)
    case Record(_, cost) => Ledger(l.spent + cost, others)
    case Drop(_) => Ledger(l.spent, others)
  }

  function Run(cap: real, l: Ledger, es: seq<Event>): Ledger {
    if es == [] then l else Step(cap, Run(cap, l, es[..|es| - 1]), es[|es| - 1])
  }

  ghost function Sum(holds: seq<Hold>): real {
    if holds == [] then 0.0 else holds[0].estimate + Sum(holds[1..])
  }

  /** What the request itself holds. */
  ghost function Held(holds: seq<Hold>, request: nat): real {
    if holds == [] then 0.0
    else (if holds[0].request == request then holds[0].estimate else 0.0) + Held(holds[1..], request)
  }

  /** Spent, plus everything admitted and not yet recorded. */
  ghost function Exposure(l: Ledger): real {
    l.spent + Sum(l.holds)
  }

  ghost predicate Bounded(holds: seq<Hold>, e: real) {
    forall i | 0 <= i < |holds| :: 0.0 <= holds[i].estimate <= e
  }

  /** The assumptions on one step: at most k live requests, estimates within e, costs within their estimate. */
  ghost predicate Lawful(cap: real, l: Ledger, ev: Event, k: nat, e: real) {
    match ev
    case Check(_, estimate) => 0.0 <= estimate <= e && |Step(cap, l, ev).holds| <= k
    case Record(request, cost) => cost <= Held(l.holds, request)
    case Drop(_) => true
  }

  ghost predicate LawfulRun(cap: real, l: Ledger, es: seq<Event>, k: nat, e: real) {
    es == [] ||
    (&& LawfulRun(cap, l, es[..|es| - 1], k, e)
     && Lawful(cap, Run(cap, l, es[..|es| - 1]), es[|es| - 1], k, e))
  }

  /** What the run records, admitted or not. */
  ghost function Costs(es: seq<Event>): real {
    if es == [] then 0.0
    else Costs(es[..|es| - 1]) + if es[|es| - 1].Record? then es[|es| - 1].cost else 0.0
  }

  /** Nothing but a recorded cost moves the spend. */
  lemma {:induction false} SpendIsRecorded(cap: real, l: Ledger, es: seq<Event>)
    ensures Run(cap, l, es).spent == l.spent + Costs(es)
    decreases |es|
  {
    if es != [] {
      SpendIsRecorded(cap, l, es[..|es| - 1]);
    }
  }

  /** A request holds exactly its latest estimate since it last recorded or dropped, if that was admitted. */
  lemma HoldsLatest(cap: real, l: Ledger, ev: Event, request: nat)
    ensures Held(Step(cap, l, ev).holds, request)
         == if ev.request != request then Held(l.holds, request)
            else if ev.Check? && l.spent + ev.estimate <= cap + 0.000000001 then ev.estimate else 0.0
  {
    HeldWithout(l.holds, ev.request, request);
    if ev.Check? {
      assert ([Hold(ev.request, ev.estimate)] + Without(l.holds, ev.request))[1..] == Without(l.holds, ev.request);
    }
  }

  lemma {:induction false} HeldWithout(holds: seq<Hold>, gone: nat, request: nat)
    ensures Held(Without(holds, gone), request) == if gone == request then 0.0 else Held(holds, request)
    decreases |holds|
  {
    if holds != [] {
      HeldWithout(holds[1..], gone, request);
      if holds[0].request == gone {
        assert Without(holds, gone) == Without(holds[1..], gone);
      } else {
        assert Without(holds, gone)[1..] == Without(holds[1..], gone);
      }
    }
  }

  lemma {:induction false} WithoutSplits(holds: seq<Hold>, request: nat, e: real)
    ensures Sum(holds) == Sum(Without(holds, request)) + Held(holds, request)
    ensures Bounded(holds, e) ==> Bounded(Without(holds, request), e) && Held(holds, request) >= 0.0
    ensures |Without(holds, request)| <= |holds|
    decreases |holds|
  {
    if holds != [] {
      WithoutSplits(holds[1..], request, e);
      if holds[0].request != request {
        assert Without(holds, request)[1..] == Without(holds[1..], request);
      } else {
        assert Without(holds, request) == Without(holds[1..], request);
      }
    }
  }

  lemma {:induction false} SumAtMost(holds: seq<Hold>, e: real)
    requires Bounded(holds, e)
    ensures Sum(holds) <= |holds| as real * e
    decreases |holds|
  {
    if holds != [] {
      SumAtMost(holds[1..], e);
      assert |holds| as real * e == (|holds| - 1) as real * e + e;
    }
  }

  lemma MoreHoldsMoreRoom(n: nat, k: nat, e: real)
    requires n <= k && e >= 0.0
    ensures n as real * e <= k as real * e
  {
    assert (k - n) as real * e >= 0.0;
    assert k as real * e == n as real * e + (k - n) as real * e;
  }

  ghost function Limit(cap: real, k: nat, e: real): real
    requires k >= 1
  {
    cap + EPSILON_USD + (k - 1) as real * e
  }

  /** An admitted check: the request's own estimate fitted, and at most k - 1 others hold theirs. */
  lemma AdmittedExposure(cap: real, spent: real, others: seq<Hold>, h: Hold, k: nat, e: real)
    requires k >= 1 && e >= 0.0 && Bounded(others, e) && |others| <= k - 1 && Fits(cap, spent, h.estimate)
    ensures Exposure(Ledger(spent, [h] + others)) <= Limit(cap, k, e)
  {
    SumAtMost(others, e);
    MoreHoldsMoreRoom(|others|, k - 1, e);
    assert ([h] + others)[1..] == others;
  }

  lemma StepStaysWithin(cap: real, l: Ledger, ev: Event, k: nat, e: real)
    requires k >= 1 && e >= 0.0 && Lawful(cap, l, ev, k, e) && Bounded(l.holds, e)
    ensures Bounded(Step(cap, l, ev).holds, e)
    ensures Exposure(Step(cap, l, ev)) <= Exposure(l) || Exposure(Step(cap, l, ev)) <= Limit(cap, k, e)
  {
    var others := Without(l.holds, ev.request);
    WithoutSplits(l.holds, ev.request, e);
    if ev.Check? && Fits(cap, l.spent, ev.estimate) {
      AdmittedExposure(cap, l.spent, others, Hold(ev.request, ev.estimate), k, e);
    }
  }

  /**
    * With at most k requests between check and record, estimates within e and costs within estimates,
    * spent plus everything still admitted never passes cap + epsilon + (k-1) * e, nor where it started.
    */
  lemma {:induction false} OverrunBound(cap: real, l: Ledger, es: seq<Event>, k: nat, e: real)
    requires k >= 1 && e >= 0.0 && Bounded(l.holds, e) && LawfulRun(cap, l, es, k, e)
    ensures Bounded(Run(cap, l, es).holds, e)
    ensures Exposure(Run(cap, l, es)) <= Exposure(l) || Exposure(Run(cap, l, es)) <= Limit(cap, k, e)
    decreases |es|
  {
    if es != [] {
      OverrunBound(cap, l, es[..|es| - 1], k, e);
      StepStaysWithin(cap, Run(cap, l, es[..|es| - 1]), es[|es| - 1], k, e);
    }
  }

  /** One request at a time: the recorded spend itself stays within cap + epsilon. */
  lemma SequentialSpendWithinCap(cap: real, es: seq<Event>, e: real)
    requires cap + EPSILON_USD >= 0.0 && e >= 0.0 && LawfulRun(cap, Ledger(0.0, []), es, 1, e)
    ensures Run(cap, Ledger(0.0, []), es).spent <= cap + EPSILON_USD
  {
    OverrunBound(cap, Ledger(0.0, []), es, 1, e);
    SumNotNegative(Run(cap, Ledger(0.0, []), es).holds, e);
  }

  lemma {:induction false} SumNotNegative(holds: seq<Hold>, e: real)
    requires Bounded(holds, e)
    ensures Sum(holds) >= 0.0
    decreases |holds|
  {
    if holds != [] {
      SumNotNegative(holds[1..], e);
    }
  }

  /** k requests that all check before any records. */
  ghost function Burst(n: nat, estimate: real): seq<Event> {
    if n == 0 then [] else Burst(n - 1, estimate) + [Check(n, estimate)]
  }

  lemma {:induction false} WithoutStranger(holds: seq<Hold>, request: nat)
    requires forall i | 0 <= i < |holds| :: holds[i].request != request
    ensures Without(holds, request) == holds
    decreases |holds|
  {
    if holds != [] {
      WithoutStranger(holds[1..], request);
    }
  }

  ghost function BurstHolds(n: nat, estimate: real): seq<Hold> {
    if n == 0 then [] else [Hold(n, estimate)] + BurstHolds(n - 1, estimate)
  }

  lemma {:induction false} BurstHoldsShape(n: nat, estimate: real)
    ensures |BurstHolds(n, estimate)| == n
    ensures forall i | 0 <= i < n :: BurstHolds(n, estimate)[i].request <= n
    ensures Sum(BurstHolds(n, estimate)) == n as real * estimate
    decreases n
  {
    if n > 0 {
      BurstHoldsShape(n - 1, estimate);
      assert BurstHolds(n, estimate)[1..] == BurstHolds(n - 1, estimate);
      assert n as real * estimate == (n - 1) as real * estimate + estimate;
    }
  }

  lemma EventAppended(cap: real, l: Ledger, es: seq<Event>, ev: Event, k: nat, e: real)
    requires LawfulRun(cap, l, es, k, e) && Lawful(cap, Run(cap, l, es), ev, k, e)
    ensures LawfulRun(cap, l, es + [ev], k, e)
    ensures Run(cap, l, es + [ev]) == Step(cap, Run(cap, l, es), ev)
  {
    assert (es + [ev])[..|es|] == es;
  }

  /** Where a burst starts: with one more estimate the spend would be exactly the cap. */
  ghost function OneBelowCap(cap: real, e: real): Ledger {
    Ledger(cap + EPSILON_USD - e, [])
  }

  lemma {:induction false} BurstIsAdmitted(cap: real, n: nat, k: nat, e: real)
    requires n <= k && e >= 0.0
    ensures LawfulRun(cap, OneBelowCap(cap, e), Burst(n, e), k, e)
    ensures Run(cap, OneBelowCap(cap, e), Burst(n, e))
         == OneBelowCap(cap, e).(holds := BurstHolds(n, e))
    decreases n
  {
    if n > 0 {
      BurstIsAdmitted(cap, n - 1, k, e);
      BurstHoldsShape(n - 1, e);
      WithoutStranger(BurstHolds(n - 1, e), n);
      EventAppended(cap, OneBelowCap(cap, e), Burst(n - 1, e), Check(n, e), k, e);
    }
  }

  /** The burst, and then m of its n requests finish, the latest first, each at its full estimate. */
  ghost function BurstRecorded(n: nat, m: nat, e: real): seq<Event>
    requires m <= n
  {
    if m == 0 then Burst(n, e) else BurstRecorded(n, m - 1, e) + [Record(n - m + 1, e)]
  }

  lemma LatestHold(n: nat, e: real)
    requires n > 0
    ensures Without(BurstHolds(n, e), n) == BurstHolds(n - 1, e)
    ensures Held(BurstHolds(n, e), n) == e
  {
    BurstHoldsShape(n - 1, e);
    WithoutStranger(BurstHolds(n - 1, e), n);
    HeldByStranger(BurstHolds(n - 1, e), n);
    assert BurstHolds(n, e)[1..] == BurstHolds(n - 1, e);
  }

  lemma {:induction false} HeldByStranger(holds: seq<Hold>, request: nat)
    requires forall i | 0 <= i < |holds| :: holds[i].request != request
    ensures Held(holds, request) == 0.0
    decreases |holds|
  {
    if holds != [] {
      HeldByStranger(holds[1..], request);
    }
  }

  /** The latest of the waiting requests records its full estimate: what was pending is now spent. */
  lemma RecordLatest(cap: real, l: Ledger, n: nat, k: nat, e: real)
    requires n > 0 && l.holds == BurstHolds(n, e)
    ensures Lawful(cap, l, Record(n, e), k, e)
    ensures Step(cap, l, Record(n, e)).holds == BurstHolds(n - 1, e)
    ensures Exposure(Step(cap, l, Record(n, e))) == Exposure(l)
  {
    LatestHold(n, e);
    WithoutSplits(l.holds, n, e);
  }

  lemma {:induction false} RecordsAreLawful(cap: real, n: nat, m: nat, k: nat, e: real)
    requires m <= n <= k && e >= 0.0
    ensures LawfulRun(cap, OneBelowCap(cap, e), BurstRecorded(n, m, e), k, e)
    ensures Run(cap, OneBelowCap(cap, e), BurstRecorded(n, m, e)).holds == BurstHolds(n - m, e)
    ensures Exposure(Run(cap, OneBelowCap(cap, e), BurstRecorded(n, m, e)))
         == Exposure(Run(cap, OneBelowCap(cap, e), Burst(n, e)))
    decreases m
  {
    if m == 0 {
      BurstIsAdmitted(cap, n, k, e);
    } else {
      RecordsAreLawful(cap, n, m - 1, k, e);
      RecordLatest(cap, Run(cap, OneBelowCap(cap, e), BurstRecorded(n, m - 1, e)), n - m + 1, k, e);
      EventAppended(cap, OneBelowCap(cap, e), BurstRecorded(n, m - 1, e), Record(n - m + 1, e), k, e);
    }
  }

  lemma BurstExposure(cap: real, k: nat, e: real)
    requires k >= 1 && e >= 0.0
    ensures Exposure(Run(cap, OneBelowCap(cap, e), Burst(k, e))) == Limit(cap, k, e)
  {
    BurstIsAdmitted(cap, k, k, e);
    BurstHoldsShape(k, e);
    assert k as real * e == (k - 1) as real * e + e;
  }

  /**
    * The bound is reached, for every number of requests and every estimate: k requests that all check before any
    * records are all admitted, and once they have all recorded, the spend itself stands at the bound.
    */
  lemma BurstReachesBound(cap: real, k: nat, e: real)
    requires k >= 1 && e >= 0.0
    ensures LawfulRun(cap, OneBelowCap(cap, e), Burst(k, e), k, e)
    ensures Exposure(Run(cap, OneBelowCap(cap, e), Burst(k, e))) == Limit(cap, k, e)
    ensures LawfulRun(cap, OneBelowCap(cap, e), BurstRecorded(k, k, e), k, e)
    ensures Run(cap, OneBelowCap(cap, e), BurstRecorded(k, k, e)) == Ledger(Limit(cap, k, e), [])
  {
    BurstIsAdmitted(cap, k, k, e);
    BurstExposure(cap, k, e);
    RecordsAreLawful(cap, k, k, k, e);
  }

  /** Whatever was spent so far, within the cap and with nothing pending, no lawful run spends past the cap. */
  ghost predicate CapHolds(cap: real, k: nat, e: real) {
    forall spent: real, es: seq<Event> | spent <= cap + EPSILON_USD && LawfulRun(cap, Ledger(spent, []), es, k, e) ::
      Run(cap, Ledger(spent, []), es).spent <= cap + EPSILON_USD
  }

  lemma CapIsKept(cap: real, spent: real, es: seq<Event>, k: nat, e: real)
    requires k >= 1 && e >= 0.0 && spent <= cap + EPSILON_USD && LawfulRun(cap, Ledger(spent, []), es, k, e)
    requires (k - 1) as real * e == 0.0
    ensures Run(cap, Ledger(spent, []), es).spent <= cap + EPSILON_USD
  {
    OverrunBound(cap, Ledger(spent, []), es, k, e);
    SumNotNegative(Run(cap, Ledger(spent, []), es).holds, e);
  }

  lemma CapIsOverrun(cap: real, k: nat, e: real)
    requires k > 1 && e > 0.0
    ensures !CapHolds(cap, k, e)
  {
    BurstReachesBound(cap, k, e);
    var start := OneBelowCap(cap, e).spent;
    assert Run(cap, Ledger(start, []), BurstRecorded(k, k, e)).spent == Limit(cap, k, e);
    assert (k - 1) as real * e > 0.0;
  }

  /** The cap itself holds exactly when requests come one at a time or may cost nothing. */
  lemma CapHoldsIff(cap: real, k: nat, e: real)
    requires k >= 1 && e >= 0.0
    ensures CapHolds(cap, k, e) <==> k == 1 || e == 0.0
  {
    if k == 1 || e == 0.0 {
      forall spent: real, es: seq<Event> | spent <= cap + EPSILON_USD && LawfulRun(cap, Ledger(spent, []), es, k, e)
        ensures Run(cap, Ledger(spent, []), es).spent <= cap + EPSILON_USD
      {
        CapIsKept(cap, spent, es, k, e);
      }
    } else {
      CapIsOverrun(cap, k, e);
    }
  }
}
