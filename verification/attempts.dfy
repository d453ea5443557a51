/** Provider attempts: what their scripts mean, and what a request made of them does and records. */
module Attempts {
  import opened Wrappers
  import opened Lifecycle

  datatype FinishReason = Stop | Length

  datatype ProviderResponse = ProviderResponse(
    content: string, model: string, inputTokens: int, outputTokens: int, costUsd: real, finishReason: FinishReason)

  /** The strategy's own rationale, or that text with the fallback attempt named after it. */
  datatype Rationale = Primary | FallbackAttempt(index: nat, model: string)

  datatype RouterResponse = RouterResponse(
    content: string, modelUsed: string, inputTokens: int, outputTokens: int, costUsd: real,
    rationale: Rationale, finishReason: FinishReason)

  datatype Guard = Clear | OverBudget | CircuitOpen

  datatype Item = Text(text: string) | Report(report: ProviderResponse)

  /**
    * How a provider call closes: normally, with an exception, or with a BaseException: a
    * cancellation, or the consumer closing the stream at the last text listed.
    */
  datatype Close = Ended | Errored | Aborted

  /** Everything the outside world decides about one attempt of the chain. */
  datatype Attempt = Attempt(
    model: string, provider: string, guard: Guard, adapterKnown: bool,
    items: seq<Item>, close: Close, estimatedCost: real, booked: bool)

  datatype Chunk = Chunk(model: string, text: string)

  datatype RoutingError = RateLimited | RoutingFailed | IllegalTransition

  datatype End =
    | Finished(response: RouterResponse)
    | Threw(error: RoutingError)
    | Aborting

  function RationaleOf(model: string, index: nat): Rationale {
    if index == 0 then Primary else FallbackAttempt(index, model)
  }

  // ------------------------------------------------------ what a script means

  function Assembled(items: seq<Item>): string {
    if items == [] then []
    else
      var last := items[|items| - 1];
      Assembled(items[..|items| - 1]) + if last.Text? then last.text else []
  }

  function Reported(items: seq<Item>): Option<ProviderResponse> {
    if items == [] then None
    else
      var last := items[|items| - 1];
      if last.Report? then Some(last.report) else Reported(items[..|items| - 1])
  }

  function ChunksOf(model: string, items: seq<Item>): seq<Chunk> {
    if items == [] then []
    else
      var last := items[|items| - 1];
      ChunksOf(model, items[..|items| - 1]) + if last.Text? then [Chunk(model, last.text)] else []
  }

  function FateOf(a: Attempt): Fate {
    if a.guard != Clear then Skipped
    else if !a.adapterKnown then Unroutable
    else match a.close
      case Ended => Answered(Assembled(a.items) != [], a.booked)
      case Errored => Broke(Assembled(a.items) != [])
      case Aborted => Cancelled
  }

  function Max(a: int, b: int): int { if b > a then b else a }

  /** Usage, cost and stop reason as reported, or estimated when the stream ended without a report. */
  function Attributed(a: Attempt, promptTokens: int): ProviderResponse {
    var text := Assembled(a.items);
    match Reported(a.items)
    case Some(r) => r.(content := text, model := a.model)
    case None => ProviderResponse(text, a.model, promptTokens, Max(1, |text| / 4), a.estimatedCost, Stop)
  }

  function AsRouted(p: ProviderResponse, rationale: Rationale): RouterResponse {
    RouterResponse(p.content, p.model, p.inputTokens, p.outputTokens, p.costUsd, rationale, p.finishReason)
  }

  /** The routed response of attempt `index`, were it to succeed. */
  function Answer(a: Attempt, index: nat, promptTokens: int): RouterResponse {
    AsRouted(Attributed(a, promptTokens), RationaleOf(a.model, index))
  }

  ghost function Turns(attempts: seq<Attempt>): (ts: seq<Turn>)
    ensures |ts| == |attempts|
    ensures forall i | 0 <= i < |ts| :: ts[i] == Turn(attempts[i].provider, FateOf(attempts[i]))
  {
    seq(|attempts|, i requires 0 <= i < |attempts| => Turn(attempts[i].provider, FateOf(attempts[i])))
  }

  /** Chunks handed over by one attempt. */
  ghost function Said(a: Attempt): seq<Chunk> {
    if a.guard != Clear || !a.adapterKnown then [] else ChunksOf(a.model, a.items)
  }

  ghost function SaidBy(attempts: seq<Attempt>, n: nat): seq<Chunk>
    requires n <= |attempts|
  {
    if n == 0 then [] else SaidBy(attempts, n - 1) + Said(attempts[n - 1])
  }

  /** What an undisturbed consumer of the stream receives: the chunks and how they end. */
  datatype Feed = Feed(chunks: seq<Chunk>, end: End)

  ghost function EndOf(w: Walked, response: RouterResponse): End
    requires w.verdict != Continue
  {
    match w.verdict
    case Respond => Finished(response)
    case RoutingFailure => Threw(RoutingFailed)
    case TransitionFailure => Threw(IllegalTransition)
    case Cancellation => Aborting
  }

  ghost function StreamOf(admitted: bool, attempts: seq<Attempt>, promptTokens: int): Feed
    requires attempts != []
  {
    if !admitted then Feed([], Threw(RateLimited))
    else
      var w := Walk(RequestState.Routed, Turns(attempts), 0);
      Feed(SaidBy(attempts, w.stop + 1),
           EndOf(w, Answer(attempts[w.stop], w.stop, promptTokens)))
  }

  ghost function TextOf(chunks: seq<Chunk>): string {
    if chunks == [] then [] else TextOf(chunks[..|chunks| - 1]) + chunks[|chunks| - 1].text
  }

  // ------------------------------------------------------ the one-shot request

  datatype CallResult = Reply(response: ProviderResponse) | CallRaised | CallCancelled

  datatype Call = Call(
    model: string, provider: string, guard: Guard, adapterKnown: bool, result: CallResult, booked: bool)

  function FateOfCall(c: Call): Fate {
    if c.guard != Clear then Skipped
    else if !c.adapterKnown then Unroutable
    else match c.result
      case Reply(_) => Answered(false, c.booked)
      case CallRaised => Broke(false)
      case CallCancelled => Cancelled
  }

  ghost function CallTurns(calls: seq<Call>): (ts: seq<Turn>)
    ensures |ts| == |calls|
    ensures forall i | 0 <= i < |ts| :: ts[i] == Turn(calls[i].provider, FateOfCall(calls[i]))
  {
    seq(|calls|, i requires 0 <= i < |calls| => Turn(calls[i].provider, FateOfCall(calls[i])))
  }

  /** The provider's own reply, routed as attempt `index`. */
  function CallAnswer(c: Call, index: nat): RouterResponse
    requires c.result.Reply?
  {
    AsRouted(c.result.response, RationaleOf(c.model, index))
  }

  ghost function CompletionOf(admitted: bool, calls: seq<Call>): End
    requires calls != []
  {
    if !admitted then Threw(RateLimited)
    else
      var w := Walk(RequestState.Routed, CallTurns(calls), 0);
      OnlyLastTurnSpeaks(RequestState.Routed, CallTurns(calls), 0);
      match w.verdict
      case Respond => Finished(CallAnswer(calls[w.stop], w.stop))
      case RoutingFailure => Threw(RoutingFailed)
      case TransitionFailure => Threw(IllegalTransition)
      case Cancellation => Aborting
  }

  // ------------------------------------ the same run, read off the attempts alone

  /** The provider is actually called. */
  predicate Tried(a: Attempt) {
    a.guard == Clear && a.adapterKnown
  }

  /** Text reached the caller. */
  ghost predicate Voiced(a: Attempt) {
    Tried(a) && exists k | 0 <= k < |a.items| :: a.items[k].Text? && a.items[k].text != []
  }

  /** Some attempt before j finished its answer. */
  ghost predicate AnsweredBefore(attempts: seq<Attempt>, j: nat)
    requires j <= |attempts|
  {
    exists i | 0 <= i < j :: Tried(attempts[i]) && attempts[i].close == Ended
  }

  /** Attempt j gives the answer: the first to finish one, and its bookkeeping holds. */
  ghost predicate AcceptedAt(attempts: seq<Attempt>, j: nat)
    requires j < |attempts|
  {
    Tried(attempts[j]) && attempts[j].close == Ended && attempts[j].booked && !AnsweredBefore(attempts, j)
  }

  /** No attempt follows j: it answered, was cancelled, or text had reached the caller. */
  ghost predicate StopsAt(attempts: seq<Attempt>, j: nat)
    requires j < |attempts|
  {
    AcceptedAt(attempts, j) || (Tried(attempts[j]) && attempts[j].close == Aborted) || Voiced(attempts[j])
  }

  ghost predicate ReachedAt(attempts: seq<Attempt>, j: nat)
    requires j <= |attempts|
  {
    forall i | 0 <= i < j :: !StopsAt(attempts, i)
  }

  /** Not skipped, and no adapter, an exception, or an answer that was not accepted. */
  ghost predicate FailsAt(attempts: seq<Attempt>, j: nat)
    requires j < |attempts|
  {
    var a := attempts[j];
    a.guard == Clear && (!a.adapterKnown || a.close == Errored || (a.close == Ended && !AcceptedAt(attempts, j)))
  }

  /** How many reached attempts of the provider among the first n count as failures. */
  ghost function FailedAttempts(attempts: seq<Attempt>, n: nat, provider: string): nat
    requires n <= |attempts|
  {
    if n == 0 then 0
    else
      FailedAttempts(attempts, n - 1, provider)
      + if attempts[n - 1].provider == provider && ReachedAt(attempts, n - 1) && FailsAt(attempts, n - 1) then 1 else 0
  }

  /** How many reached attempts of the provider among the first n finished an answer. */
  ghost function FinishedAttempts(attempts: seq<Attempt>, n: nat, provider: string): nat
    requires n <= |attempts|
  {
    if n == 0 then 0
    else
      var a := attempts[n - 1];
      FinishedAttempts(attempts, n - 1, provider)
      + if a.provider == provider && ReachedAt(attempts, n - 1) && Tried(a) && a.close == Ended then 1 else 0
  }

  /** The breaker calls of attempt j, oldest first. */
  ghost function RecordOf(attempts: seq<Attempt>, j: nat): seq<BreakerCall>
    requires j < |attempts|
  {
    var a := attempts[j];
    if !ReachedAt(attempts, j) || a.guard != Clear || (a.adapterKnown && a.close == Aborted) then []
    else if !a.adapterKnown || a.close == Errored then [Failure(a.provider)]
    else if AcceptedAt(attempts, j) then [Success(a.provider)]
    else [Success(a.provider), Failure(a.provider)]
  }

  /** The breaker calls of the attempts from i on. */
  ghost function RecordedFrom(attempts: seq<Attempt>, i: nat): seq<BreakerCall>
    requires i <= |attempts|
    decreases |attempts| - i
  {
    if i == |attempts| then [] else RecordOf(attempts, i) + RecordedFrom(attempts, i + 1)
  }

  /** A turn's fate is what its attempt's own fields say. */
  ghost predicate Tells(a: Attempt, t: Turn) {
    && t.provider == a.provider
    && t.fate == if a.guard != Clear then Skipped
                 else if !a.adapterKnown then Unroutable
                 else match a.close
                   case Ended => Answered(Voiced(a), a.booked)
                   case Errored => Broke(Voiced(a))
                   case Aborted => Cancelled
  }

  ghost predicate Matches(attempts: seq<Attempt>, ts: seq<Turn>) {
    |ts| == |attempts| && forall i | 0 <= i < |ts| :: Tells(attempts[i], ts[i])
  }

  lemma {:induction false} AssembledSpeaks(items: seq<Item>)
    ensures Assembled(items) != [] <==> exists k | 0 <= k < |items| :: items[k].Text? && items[k].text != []
    decreases |items|
  {
    if items != [] {
      var p, last := items[..|items| - 1], items[|items| - 1];
      AssembledSpeaks(p);
      if Assembled(p) != [] {
        var k :| 0 <= k < |p| && p[k].Text? && p[k].text != [];
        assert items[k] == p[k];
      }
    }
  }

  lemma FatesMatch(attempts: seq<Attempt>)
    ensures Matches(attempts, Turns(attempts))
  {
    forall i | 0 <= i < |attempts| ensures Tells(attempts[i], Turns(attempts)[i]) {
      AssembledSpeaks(attempts[i].items);
    }
  }

  /** The state a request is in before attempt i, as far as the attempts before it decide. */
  ghost predicate StateBefore(attempts: seq<Attempt>, i: nat, s: RequestState)
    requires i <= |attempts|
  {
    && s in {RequestState.Routed, Fallback, Responded}
    && (s == Responded <==> AnsweredBefore(attempts, i))
  }

  lemma AnsweredByNow(attempts: seq<Attempt>, i: nat)
    requires i < |attempts|
    ensures AnsweredBefore(attempts, i + 1)
       <==> AnsweredBefore(attempts, i) || (Tried(attempts[i]) && attempts[i].close == Ended)
  {
  }

  /** How a request ends at attempt d, the first that stops it or else the last of the chain. */
  ghost function VerdictAt(attempts: seq<Attempt>, d: nat): Verdict
    requires d < |attempts|
  {
    if AcceptedAt(attempts, d) then Respond
    else if Tried(attempts[d]) && attempts[d].close == Aborted then Cancellation
    else if !Voiced(attempts[d]) && AnsweredBefore(attempts, d + 1) then TransitionFailure
    else RoutingFailure
  }

  lemma TurnAt(attempts: seq<Attempt>, t: Turn, i: nat, s: RequestState)
    requires i < |attempts| && StateBefore(attempts, i, s) && Tells(attempts[i], t)
    ensures var (s', v) := Settle(s, t.fate, i + 1 == |attempts|);
            && (v == Continue <==> !StopsAt(attempts, i) && i + 1 < |attempts|)
            && (v == Continue ==> StateBefore(attempts, i + 1, s'))
            && (v != Continue ==> v == VerdictAt(attempts, i))
    ensures ReachedAt(attempts, i) ==> Calls(s, t) == RecordOf(attempts, i)
  {
    AnsweredByNow(attempts, i);
  }

  lemma {:induction false} WalkStopsWhere(attempts: seq<Attempt>, ts: seq<Turn>, i: nat, s: RequestState)
    requires i < |attempts| && Matches(attempts, ts) && StateBefore(attempts, i, s) && ReachedAt(attempts, i)
    ensures var w := Walk(s, ts, i);
            && ReachedAt(attempts, w.stop) && (StopsAt(attempts, w.stop) || w.stop + 1 == |attempts|)
            && w.verdict == VerdictAt(attempts, w.stop)
    decreases |attempts| - i
  {
    var (s', v) := Settle(s, ts[i].fate, i + 1 == |ts|);
    TurnAt(attempts, ts[i], i, s);
    if v == Continue {
      WalkStopsWhere(attempts, ts, i + 1, s');
    }
  }

  lemma {:induction false} NothingAfterStop(attempts: seq<Attempt>, d: nat, i: nat)
    requires d < i <= |attempts| && StopsAt(attempts, d)
    ensures RecordedFrom(attempts, i) == []
    decreases |attempts| - i
  {
    if i < |attempts| {
      NothingAfterStop(attempts, d, i + 1);
      assert !ReachedAt(attempts, i);
    }
  }

  lemma RecordedGoesOn(attempts: seq<Attempt>, ts: seq<Turn>, i: nat, s: RequestState)
    requires i + 1 < |attempts| == |ts| && Calls(s, ts[i]) == RecordOf(attempts, i)
    ensures var (s', v) := Settle(s, ts[i].fate, false);
            v == Continue && CallsMade(s', ts, i + 1) == RecordedFrom(attempts, i + 1) ==>
              CallsMade(s, ts, i) == RecordedFrom(attempts, i)
  {
  }

  lemma RecordedStops(attempts: seq<Attempt>, ts: seq<Turn>, i: nat, s: RequestState)
    requires i < |attempts| == |ts| && Calls(s, ts[i]) == RecordOf(attempts, i)
    requires Settle(s, ts[i].fate, i + 1 == |ts|).1 != Continue && (StopsAt(attempts, i) || i + 1 == |attempts|)
    ensures CallsMade(s, ts, i) == RecordedFrom(attempts, i)
  {
    if i + 1 < |attempts| {
      NothingAfterStop(attempts, i, i + 1);
    }
  }

  /** The calls made along the walk over the fates are what the attempts themselves say. */
  lemma {:induction false} WalkRecords(attempts: seq<Attempt>, ts: seq<Turn>, i: nat, s: RequestState)
    requires i < |attempts| && Matches(attempts, ts) && StateBefore(attempts, i, s) && ReachedAt(attempts, i)
    ensures CallsMade(s, ts, i) == RecordedFrom(attempts, i)
    decreases |attempts| - i
  {
    var (s', v) := Settle(s, ts[i].fate, i + 1 == |ts|);
    TurnAt(attempts, ts[i], i, s);
    if v == Continue {
      WalkRecords(attempts, ts, i + 1, s');
      RecordedGoesOn(attempts, ts, i, s);
    } else {
      RecordedStops(attempts, ts, i, s);
    }
  }

  lemma {:induction false} EndedAreFailed(attempts: seq<Attempt>, ts: seq<Turn>, n: nat, provider: string)
    requires n <= |attempts| && Matches(attempts, ts) && ReachedAt(attempts, n)
    ensures EndedTurns(ts, 0, n, provider) == FailedAttempts(attempts, n, provider)
    decreases n
  {
    if n > 0 {
      EndedAreFailed(attempts, ts, n - 1, provider);
      EndedOneMore(ts, 0, n - 1, provider);
      assert !StopsAt(attempts, n - 1);
    }
  }

  lemma {:induction false} AnsweredAreFinished(attempts: seq<Attempt>, ts: seq<Turn>, n: nat, provider: string)
    requires n <= |attempts| && Matches(attempts, ts) && (n > 0 ==> ReachedAt(attempts, n - 1))
    ensures AnsweredTurns(ts, 0, n, provider) == FinishedAttempts(attempts, n, provider)
    decreases n
  {
    if n > 0 {
      AnsweredAreFinished(attempts, ts, n - 1, provider);
      AnsweredOneMore(ts, 0, n - 1, provider);
    }
  }

  lemma {:induction false} NoneAfterStop(attempts: seq<Attempt>, d: nat, n: nat, provider: string)
    requires d < n <= |attempts| && (StopsAt(attempts, d) || d + 1 == |attempts|)
    ensures FailedAttempts(attempts, n, provider) == FailedAttempts(attempts, d + 1, provider)
    ensures FinishedAttempts(attempts, n, provider) == FinishedAttempts(attempts, d + 1, provider)
    decreases n
  {
    if n > d + 1 {
      NoneAfterStop(attempts, d, n - 1, provider);
      assert !ReachedAt(attempts, n - 1);
    }
  }

  lemma EndedUpToStop(attempts: seq<Attempt>, ts: seq<Turn>, w: Walked, provider: string)
    requires Matches(attempts, ts) && w.stop < |attempts| && ReachedAt(attempts, w.stop)
    requires StopsAt(attempts, w.stop) || w.stop + 1 == |attempts|
    requires w.verdict == VerdictAt(attempts, w.stop)
    ensures EndedTurns(ts, 0, FailedUpTo(w), provider) == FailedAttempts(attempts, |attempts|, provider)
    ensures AnsweredTurns(ts, 0, w.stop + 1, provider) == FinishedAttempts(attempts, |attempts|, provider)
  {
    EndedAreFailed(attempts, ts, w.stop, provider);
    EndedOneMore(ts, 0, w.stop, provider);
    AnsweredAreFinished(attempts, ts, w.stop + 1, provider);
    NoneAfterStop(attempts, w.stop, |attempts|, provider);
  }

  lemma FailuresCounted(attempts: seq<Attempt>, ts: seq<Turn>, s: RequestState, provider: string)
    requires attempts != [] && Matches(attempts, ts) && StateBefore(attempts, 0, s)
    ensures Count(CallsMade(s, ts, 0), Failure(provider)) == FailedAttempts(attempts, |attempts|, provider)
  {
    WalkStopsWhere(attempts, ts, 0, s);
    EndedUpToStop(attempts, ts, Walk(s, ts, 0), provider);
    FailureAccounting(s, ts, 0, provider);
  }

  lemma SuccessesCounted(attempts: seq<Attempt>, ts: seq<Turn>, s: RequestState, provider: string)
    requires attempts != [] && Matches(attempts, ts) && StateBefore(attempts, 0, s)
    ensures Count(CallsMade(s, ts, 0), Success(provider)) == FinishedAttempts(attempts, |attempts|, provider)
  {
    WalkStopsWhere(attempts, ts, 0, s);
    EndedUpToStop(attempts, ts, Walk(s, ts, 0), provider);
    SuccessAccounting(s, ts, 0, provider);
  }

  // -------------------------------- the same for a one-shot request's calls

  predicate CallTried(c: Call) {
    c.guard == Clear && c.adapterKnown
  }

  ghost predicate RepliedBefore(chain: seq<Call>, j: nat)
    requires j <= |chain|
  {
    exists i | 0 <= i < j :: CallTried(chain[i]) && chain[i].result.Reply?
  }

  /** Call j gives the answer: the first reply, and its bookkeeping holds. */
  ghost predicate CallAcceptedAt(chain: seq<Call>, j: nat)
    requires j < |chain|
  {
    CallTried(chain[j]) && chain[j].result.Reply? && chain[j].booked && !RepliedBefore(chain, j)
  }

  ghost predicate CallReachedAt(chain: seq<Call>, j: nat)
    requires j <= |chain|
  {
    forall i | 0 <= i < j :: !CallAcceptedAt(chain, i) && !(CallTried(chain[i]) && chain[i].result.CallCancelled?)
  }

  /** How many reached calls of the provider among the first n count as failures. */
  ghost function FailedCalls(chain: seq<Call>, n: nat, provider: string): nat
    requires n <= |chain|
  {
    if n == 0 then 0
    else
      var c := chain[n - 1];
      FailedCalls(chain, n - 1, provider)
      + if c.provider == provider && CallReachedAt(chain, n - 1) && c.guard == Clear
           && (!c.adapterKnown || c.result.CallRaised? || (c.result.Reply? && !CallAcceptedAt(chain, n - 1)))
        then 1 else 0
  }

  /** How many reached calls of the provider among the first n replied. */
  ghost function RepliedCalls(chain: seq<Call>, n: nat, provider: string): nat
    requires n <= |chain|
  {
    if n == 0 then 0
    else
      var c := chain[n - 1];
      RepliedCalls(chain, n - 1, provider)
      + if c.provider == provider && CallReachedAt(chain, n - 1) && CallTried(c) && c.result.Reply? then 1 else 0
  }

  /** A call seen as an attempt that sends no text. */
  function AsAttempt(c: Call): Attempt {
    var close := match c.result case Reply(_) => Ended case CallRaised => Errored case CallCancelled => Aborted;
    Attempt(c.model, c.provider, c.guard, c.adapterKnown, [], close, 0.0, c.booked)
  }

  ghost function AsAttempts(chain: seq<Call>): (attempts: seq<Attempt>)
    ensures |attempts| == |chain| && forall i | 0 <= i < |chain| :: attempts[i] == AsAttempt(chain[i])
  {
    seq(|chain|, i requires 0 <= i < |chain| => AsAttempt(chain[i]))
  }

  lemma CallFatesMatch(chain: seq<Call>)
    ensures Matches(AsAttempts(chain), CallTurns(chain))
  {
  }

  lemma CallsAreAttempts(chain: seq<Call>, j: nat)
    requires j <= |chain|
    ensures CallReachedAt(chain, j) <==> ReachedAt(AsAttempts(chain), j)
    ensures j < |chain| ==> (CallAcceptedAt(chain, j) <==> AcceptedAt(AsAttempts(chain), j))
  {
    var attempts := AsAttempts(chain);
    forall i | 0 <= i < |chain| ensures CallAcceptedAt(chain, i) <==> AcceptedAt(attempts, i) {
      assert RepliedBefore(chain, i) ==> AnsweredBefore(attempts, i) by {
        if RepliedBefore(chain, i) {
          var k :| 0 <= k < i && CallTried(chain[k]) && chain[k].result.Reply?;
          assert Tried(attempts[k]) && attempts[k].close == Ended;
        }
      }
      assert AnsweredBefore(attempts, i) ==> RepliedBefore(chain, i);
    }
    forall i | 0 <= i < |chain|
      ensures StopsAt(attempts, i) <==>
                CallAcceptedAt(chain, i) || (CallTried(chain[i]) && chain[i].result.CallCancelled?)
    {
    }
  }

  lemma {:induction false} FailedCallsAre(chain: seq<Call>, n: nat, provider: string)
    requires n <= |chain|
    ensures FailedCalls(chain, n, provider) == FailedAttempts(AsAttempts(chain), n, provider)
    ensures RepliedCalls(chain, n, provider) == FinishedAttempts(AsAttempts(chain), n, provider)
    decreases n
  {
    if n > 0 {
      FailedCallsAre(chain, n - 1, provider);
      CallsAreAttempts(chain, n - 1);
    }
  }

  /** What a streamed request adds to the breaker's log: per provider, its failed and its finished attempts. */
  ghost predicate AttemptsAccounted(before: seq<BreakerCall>, after: seq<BreakerCall>, attempts: seq<Attempt>) {
    && after == before + RecordedFrom(attempts, 0)
    && forall p ::
         && Count(after, Failure(p)) == Count(before, Failure(p)) + FailedAttempts(attempts, |attempts|, p)
         && Count(after, Success(p)) == Count(before, Success(p)) + FinishedAttempts(attempts, |attempts|, p)
  }

  lemma AttemptsRecorded(log: seq<BreakerCall>, attempts: seq<Attempt>)
    requires attempts != []
    ensures AttemptsAccounted(log, log + CallsMade(RequestState.Routed, Turns(attempts), 0), attempts)
  {
    var made := CallsMade(RequestState.Routed, Turns(attempts), 0);
    FatesMatch(attempts);
    WalkRecords(attempts, Turns(attempts), 0, RequestState.Routed);
    forall p
      ensures Count(log + made, Failure(p)) == Count(log, Failure(p)) + FailedAttempts(attempts, |attempts|, p)
      ensures Count(log + made, Success(p)) == Count(log, Success(p)) + FinishedAttempts(attempts, |attempts|, p)
    {
      FailuresCounted(attempts, Turns(attempts), RequestState.Routed, p);
      SuccessesCounted(attempts, Turns(attempts), RequestState.Routed, p);
      CountAppend(log, made, Failure(p));
      CountAppend(log, made, Success(p));
    }
  }

  /** What a one-shot request adds to the breaker's log: per provider, its failed calls and its replies. */
  ghost predicate CallsAccounted(before: seq<BreakerCall>, after: seq<BreakerCall>, chain: seq<Call>) {
    && after == before + RecordedFrom(AsAttempts(chain), 0)
    && forall p ::
         && Count(after, Failure(p)) == Count(before, Failure(p)) + FailedCalls(chain, |chain|, p)
         && Count(after, Success(p)) == Count(before, Success(p)) + RepliedCalls(chain, |chain|, p)
  }

  lemma CallsRecorded(log: seq<BreakerCall>, chain: seq<Call>)
    requires chain != []
    ensures CallsAccounted(log, log + CallsMade(RequestState.Routed, CallTurns(chain), 0), chain)
  {
    var attempts, made := AsAttempts(chain), CallsMade(RequestState.Routed, CallTurns(chain), 0);
    CallFatesMatch(chain);
    WalkRecords(attempts, CallTurns(chain), 0, RequestState.Routed);
    forall p
      ensures Count(log + made, Failure(p)) == Count(log, Failure(p)) + FailedCalls(chain, |chain|, p)
      ensures Count(log + made, Success(p)) == Count(log, Success(p)) + RepliedCalls(chain, |chain|, p)
    {
      FailedCallsAre(chain, |chain|, p);
      FailuresCounted(attempts, CallTurns(chain), RequestState.Routed, p);
      SuccessesCounted(attempts, CallTurns(chain), RequestState.Routed, p);
      CountAppend(log, made, Failure(p));
      CountAppend(log, made, Success(p));
    }
  }
}
