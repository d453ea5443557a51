/** Mid-stream token and cost gate: it stops at the shortest chunk prefix that reaches a ceiling. */
module StreamGate {
  import opened Wrappers

  datatype Limits = Limits(maxTokens: Option<int>, maxCost: Option<real>)

  datatype Reason = TokenBudget(used: int, max: int) | CostBudget(spent: real, ceiling: real)

  datatype Snapshot = Snapshot(tokensUsed: int, costUsd: real, reason: Option<Reason>) {
    predicate Exhausted() { reason.Some? }
  }

  datatype GateError = NoBudget | BadBudget | NegativeUsage | Exceeded(snapshot: Snapshot)

  datatype Chunk = Chunk(tokens: int, cost: real)

  predicate Usable(l: Limits) {
    && (l.maxTokens.Some? || l.maxCost.Some?)
    && (l.maxTokens.Some? ==> l.maxTokens.value > 0)
    && (l.maxCost.Some? ==> l.maxCost.value > 0.0)
  }

  ghost function Tokens(chunks: seq<Chunk>): int {
    if chunks == [] then 0 else Tokens(chunks[..|chunks| - 1]) + chunks[|chunks| - 1].tokens
  }

  ghost function Cost(chunks: seq<Chunk>): real {
    if chunks == [] then 0.0 else Cost(chunks[..|chunks| - 1]) + chunks[|chunks| - 1].cost
  }

  /** The chunks together reach the token ceiling or the cost ceiling. */
  ghost predicate Reaches(l: Limits, chunks: seq<Chunk>) {
    (l.maxTokens.Some? && Tokens(chunks) >= l.maxTokens.value) || (l.maxCost.Some? && Cost(chunks) >= l.maxCost.value)
  }

  /** Length of the shortest prefix that reaches a ceiling; the whole length when none does. */
  ghost function Cut(l: Limits, chunks: seq<Chunk>): (n: nat)
    ensures n <= |chunks|
  {
    if chunks == [] then 0
    else
      var p := chunks[..|chunks| - 1];
      if Reaches(l, p[..Cut(l, p)]) then Cut(l, p) else |chunks|
  }

  /** The cut is exact: nothing shorter reaches a ceiling, and unless it is everything, the cut does. */
  lemma {:induction false} CutIsShortest(l: Limits, chunks: seq<Chunk>)
    requires Usable(l)
    ensures forall n | 0 <= n < Cut(l, chunks) :: !Reaches(l, chunks[..n])
    ensures Cut(l, chunks) < |chunks| ==> Reaches(l, chunks[..Cut(l, chunks)])
    decreases |chunks|
  {
    if chunks != [] {
      var p := chunks[..|chunks| - 1];
      CutIsShortest(l, p);
      forall n | 0 <= n < Cut(l, chunks) ensures !Reaches(l, chunks[..n]) {
        assert chunks[..n] == p[..n];
      }
      assert chunks[..Cut(l, p)] == p[..Cut(l, p)];
    }
  }

  /** The token ceiling is looked at first. */
  function ReasonOf(l: Limits, tokens: int, cost: real): Option<Reason> {
    if l.maxTokens.Some? && tokens >= l.maxTokens.value then Some(TokenBudget(tokens, l.maxTokens.value))
    else if l.maxCost.Some? && cost >= l.maxCost.value then Some(CostBudget(cost, l.maxCost.value))
    else None
  }

  /** Totals of the cut prefix, with the reason when it reaches a ceiling. */
  ghost function Frozen(l: Limits, chunks: seq<Chunk>): Snapshot {
    var seen := chunks[..Cut(l, chunks)];
    Snapshot(Tokens(seen), Cost(seen), ReasonOf(l, Tokens(seen), Cost(seen)))
  }

  /**
    * The gate is exhausted exactly when some prefix of the stream reaches a ceiling; it then names the ceiling the cut
    * prefix reaches, tokens before cost, with that prefix's total.
    */
  lemma ExhaustedIffReached(l: Limits, chunks: seq<Chunk>)
    requires Usable(l)
    ensures Frozen(l, chunks).Exhausted() <==> exists n | 0 <= n <= |chunks| :: Reaches(l, chunks[..n])
    ensures var s := Frozen(l, chunks);
            && s.tokensUsed == Tokens(chunks[..Cut(l, chunks)]) && s.costUsd == Cost(chunks[..Cut(l, chunks)])
            && (s.Exhausted() ==>
                  s.reason == if l.maxTokens.Some? && s.tokensUsed >= l.maxTokens.value
                              then Some(TokenBudget(s.tokensUsed, l.maxTokens.value))
                              else if l.maxCost.Some? then Some(CostBudget(s.costUsd, l.maxCost.value)) else None)
  {
    CutIsShortest(l, chunks);
    var k := Cut(l, chunks);
    assert Frozen(l, chunks).Exhausted() <==> Reaches(l, chunks[..k]);
    if n :| 0 <= n <= |chunks| && Reaches(l, chunks[..n]) {
      assert n >= k;
      if k == |chunks| {
        assert n == k;
      }
    }
  }

  lemma FrozenStep(l: Limits, chunks: seq<Chunk>, c: Chunk)
    requires Usable(l)
    ensures var s, more := Frozen(l, chunks), chunks + [c];
            && (s.Exhausted() ==> Frozen(l, more) == s)
            && (!s.Exhausted() ==>
                  Cut(l, more) == |more| && Tokens(more) == s.tokensUsed + c.tokens && Cost(more) == s.costUsd + c.cost)
  {
    var more := chunks + [c];
    assert more[..|more| - 1] == chunks && more[..|more|] == more;
    CutIsShortest(l, chunks);
    assert chunks[..|chunks|] == chunks;
    assert more[..Cut(l, chunks)] == chunks[..Cut(l, chunks)];
  }

  /** Once a ceiling is reached, nothing that follows changes what the gate reports. */
  lemma {:induction false} ExhaustionIsFinal(l: Limits, chunks: seq<Chunk>, more: seq<Chunk>)
    requires Usable(l) && Frozen(l, chunks).Exhausted()
    ensures Frozen(l, chunks + more) == Frozen(l, chunks)
    decreases |more|
  {
    if more == [] {
      assert chunks + more == chunks;
    } else {
      ExhaustionIsFinal(l, chunks, more[..|more| - 1]);
      FrozenStep(l, chunks + more[..|more| - 1], more[|more| - 1]);
      assert (chunks + more[..|more| - 1]) + [more[|more| - 1]] == chunks + more;
    }
  }

  class StreamingTokenBudgetGate {
    const limits: Limits
    var tokensUsed: int
    var costUsd: real
    var exhausted: bool
    var reason: Option<Reason>
    /** Chunks observed since the last reset. */
    ghost var chunks: seq<Chunk>

    ghost predicate Valid()
      reads this
    {
      && Usable(limits) && exhausted == reason.Some?
      && Snapshot(tokensUsed, costUsd, reason) == Frozen(limits, chunks)
    }

    constructor (limits: Limits)
      requires Usable(limits)
      ensures Valid() && this.limits == limits && chunks == []
    {
      this.limits := limits;
      tokensUsed, costUsd, exhausted, reason, chunks := 0, 0.0, false, None, [];
    }

    static method Create(limits: Limits) returns (r: Result<StreamingTokenBudgetGate, GateError>)
      ensures r.Returned? <==>
                && (limits.maxTokens.Some? || limits.maxCost.Some?)
                && (limits.maxTokens.Some? ==> limits.maxTokens.value > 0)
                && (limits.maxCost.Some? ==> limits.maxCost.value > 0.0)
      ensures r.Raised? ==> r.error == if limits.maxTokens.None? && limits.maxCost.None? then NoBudget else BadBudget
      ensures r.Returned? ==> fresh(r.value) && r.value.Valid() && r.value.limits == limits && r.value.chunks == []
    {
      if limits.maxTokens.None? && limits.maxCost.None? {
        return Raised(NoBudget);
      }
      if limits.maxTokens.Some? && limits.maxTokens.value <= 0 {
        return Raised(BadBudget);
      }
      if limits.maxCost.Some? && limits.maxCost.value <= 0.0 {
        return Raised(BadBudget);
      }
      var gate := new StreamingTokenBudgetGate(limits);
      r := Returned(gate);
    }

    method EvaluateExhaustionLocked()
      requires exhausted == reason.Some?
      modifies this`exhausted, this`reason
      ensures exhausted == reason.Some?
      ensures old(exhausted) ==> reason == old(reason)
      ensures !old(exhausted) ==> reason == ReasonOf(limits, tokensUsed, costUsd)
    {
      if exhausted {
        return;
      }
      if limits.maxTokens.Some? && tokensUsed >= limits.maxTokens.value {
        exhausted, reason := true, Some(TokenBudget(tokensUsed, limits.maxTokens.value));
        return;
      }
      if limits.maxCost.Some? && costUsd >= limits.maxCost.value {
        exhausted, reason := true, Some(CostBudget(costUsd, limits.maxCost.value));
      }
    }

    /** Accounts for one chunk; reports the frozen totals, or raises with them on a hard stop. */
    method ObserveChunk(tokens: int, cost: real, hardStop: bool) returns (r: Result<Snapshot, GateError>)
      requires Valid()
      modifies this
      ensures Valid()
      ensures tokens < 0 || cost < 0.0 ==> r == Raised(NegativeUsage) && chunks == old(chunks)
      ensures tokens >= 0 && cost >= 0.0 ==> chunks == old(chunks) + [Chunk(tokens, cost)]
      ensures tokens >= 0 && cost >= 0.0 ==>
        var s := Frozen(limits, chunks);
        r == if hardStop && s.Exhausted() then Raised(Exceeded(s)) else Returned(s)
    {
      if tokens < 0 || cost < 0.0 {
        return Raised(NegativeUsage);
      }
      FrozenStep(limits, chunks, Chunk(tokens, cost));
      chunks := chunks + [Chunk(tokens, cost)];
      assert chunks[..|chunks|] == chunks;
      if !exhausted {
        tokensUsed := tokensUsed + tokens;
        costUsd := costUsd + cost;
        EvaluateExhaustionLocked();
      }
      var snapshot := Snapshot(tokensUsed, costUsd, reason);
      r := if hardStop && exhausted then Raised(Exceeded(snapshot)) else Returned(snapshot);
    }

    method RemainingTokens() returns (n: Option<int>)
      requires Valid()
      ensures n.Some? <==> limits.maxTokens.Some?
      ensures n.Some? ==> n.value >= 0
      ensures n.Some? ==> (n.value == 0 <==> Frozen(limits, chunks).tokensUsed >= limits.maxTokens.value)
      ensures n.Some? && n.value > 0 ==> n.value + Frozen(limits, chunks).tokensUsed == limits.maxTokens.value
    {
      if limits.maxTokens.None? {
        return None;
      }
      var left := limits.maxTokens.value - tokensUsed;
      n := Some(if left > 0 then left else 0);
    }

    method Reset()
      requires Valid()
      modifies this
      ensures Valid() && chunks == []
    {
      tokensUsed, costUsd, exhausted, reason, chunks := 0, 0.0, false, None, [];
    }
  }
}
