/** The request lifecycle machine and what a sequence of provider attempts does to it. */
module Lifecycle {
  import opened Wrappers

  datatype RequestState = Received | Classified | Routed | Dispatched | Responded | Fallback | Failed

  datatype StateTransitionError = InvalidTransition(from: RequestState, to: RequestState)

  function Allowed(s: RequestState): set<RequestState> {
    match s
    case Received => {Classified, Failed}
    case Classified => {Routed, Failed}
    case Routed => {Dispatched, Failed}
    case Dispatched => {Responded, Fallback, Failed}
    case Fallback => {Dispatched, Responded, Failed}
    case Responded => {}
    case Failed => {}
  }

  /** The table: every unfinished state may fail, and otherwise only these moves are legal. */
  lemma LegalMoves(s: RequestState, next: RequestState)
    ensures next in Allowed(s) <==>
              || (next == Failed && s != Responded && s != Failed)
              || (s == Received && next == Classified)
              || (s == Classified && next == Routed)
              || ((s == Routed || s == Fallback) && next == Dispatched)
              || ((s == Dispatched || s == Fallback) && next == Responded)
              || (s == Dispatched && next == Fallback)
  {
  }

  class RoutingStateMachine {
    var currentState: RequestState

    constructor ()
      ensures currentState == Received
    {
      currentState := Received;
    }

    method Transition(next: RequestState) returns (r: Result<(), StateTransitionError>)
      modifies this
      ensures r == if next in Allowed(old(currentState)) then Returned(())
                   else Raised(InvalidTransition(old(currentState), next))
      ensures currentState == if r.Returned? then next else old(currentState)
    {
      if next !in Allowed(currentState) {
        return Raised(InvalidTransition(currentState, next));
      }
      currentState := next;
      r := Returned(());
    }
  }

  // ------------------------------------------------------- one attempt's fate

  /**
    * Skipped: a guardrail refused the candidate. Unroutable: no adapter for its provider.
    * Broke: the provider call raised. Answered: the provider finished; `booked` tells whether the
    * bookkeeping that follows the move to Responded went through. Cancelled: a BaseException
    * passed through. `spoke`: non-empty text had reached the caller.
    */
  datatype Fate =
    | Skipped
    | Unroutable
    | Broke(spoke: bool)
    | Answered(spoke: bool, booked: bool)
    | Cancelled

  datatype Verdict = Continue | Respond | RoutingFailure | TransitionFailure | Cancellation

  datatype BreakerCall = Success(provider: string) | Failure(provider: string)

  datatype Turn = Turn(provider: string, fate: Fate)

  predicate Spoke(f: Fate) {
    (f.Broke? || f.Answered?) && f.spoke
  }

  function Entered(s: RequestState): RequestState {
    if s == Routed || s == Fallback then Dispatched else s
  }

  /** The failure branch: refuse to splice, fall back, or give up. */
  function GiveUp(s: RequestState, spoke: bool, last: bool): (RequestState, Verdict) {
    if spoke then (if s == Dispatched then Failed else s, RoutingFailure)
    else if !last then (if s == Dispatched then Fallback else s, Continue)
    else if Failed in Allowed(s) then (Failed, RoutingFailure)
    else (s, TransitionFailure)
  }

  function Settle(s: RequestState, f: Fate, last: bool): (RequestState, Verdict) {
    match f
    case Skipped =>
      if !last then (s, Continue)
      else if Failed in Allowed(s) then (Failed, RoutingFailure)
      else (s, TransitionFailure)
    case Unroutable => GiveUp(s, false, last)
    case Broke(spoke) => GiveUp(Entered(s), spoke, last)
    case Cancelled => (Entered(s), Cancellation)
    case Answered(spoke, booked) =>
      if Responded !in Allowed(Entered(s)) then GiveUp(Entered(s), spoke, last)
      else if booked then (Responded, Respond)
      else GiveUp(Responded, spoke, last)
  }

  /** The turn's answer is accepted: the machine may move to Responded, and the bookkeeping holds. */
  predicate Accepted(s: RequestState, f: Fate) {
    f.Answered? && f.booked && Responded in Allowed(Entered(s))
  }

  /** Circuit-breaker calls made during one turn, in order. */
  function Calls(s: RequestState, t: Turn): seq<BreakerCall> {
    match t.fate
    case Skipped => []
    case Cancelled => []
    case Unroutable => [Failure(t.provider)]
    case Broke(_) => [Failure(t.provider)]
    case Answered(_, _) =>
      if Accepted(s, t.fate) then [Success(t.provider)] else [Success(t.provider), Failure(t.provider)]
  }

  // ------------------------------------------------------------- whole request

  datatype Walked = Walked(state: RequestState, verdict: Verdict, stop: nat)

  /** The turns from i on, taken in state s; `stop` is the last turn reached. */
  ghost function Walk(s: RequestState, ts: seq<Turn>, i: nat): (w: Walked)
    requires i < |ts|
    ensures i <= w.stop < |ts| && w.verdict != Continue
    decreases |ts| - i
  {
    var (s', v) := Settle(s, ts[i].fate, i + 1 == |ts|);
    if v != Continue then Walked(s', v, i) else Walk(s', ts, i + 1)
  }

  /** All breaker calls of the turns from i on. */
  ghost function CallsMade(s: RequestState, ts: seq<Turn>, i: nat): seq<BreakerCall>
    requires i < |ts|
    decreases |ts| - i
  {
    var (s', v) := Settle(s, ts[i].fate, i + 1 == |ts|);
    Calls(s, ts[i]) + if v != Continue then [] else CallsMade(s', ts, i + 1)
  }

  ghost predicate Decides(f: Fate) {
    f.Answered? || f.Cancelled? || Spoke(f)
  }

  /** First turn from i on that can decide the request; |ts| when each is skipped or fails silently. */
  ghost function Decisive(ts: seq<Turn>, i: nat): (d: nat)
    requires i <= |ts|
    ensures i <= d <= |ts| && (d < |ts| ==> Decides(ts[d].fate))
    ensures forall j | i <= j < d :: !Decides(ts[j].fate)
    decreases |ts| - i
  {
    if i == |ts| || Decides(ts[i].fate) then i else Decisive(ts, i + 1)
  }

  /** First turn from i on that is cancelled or reaches the caller with text. */
  ghost function Loud(ts: seq<Turn>, i: nat): (d: nat)
    requires i <= |ts|
    ensures i <= d <= |ts| && (d < |ts| ==> ts[d].fate.Cancelled? || Spoke(ts[d].fate))
    ensures forall j | i <= j < d :: !ts[j].fate.Cancelled? && !Spoke(ts[j].fate)
    decreases |ts| - i
  {
    if i == |ts| || ts[i].fate.Cancelled? || Spoke(ts[i].fate) then i else Loud(ts, i + 1)
  }

  /** How a request ends once an earlier answer has been marked Responded but not booked. */
  ghost function TaintedEnd(ts: seq<Turn>, i: nat): Verdict
    requires i <= |ts|
  {
    var d := Loud(ts, i);
    if d == |ts| then TransitionFailure
    else if ts[d].fate.Cancelled? then Cancellation
    else RoutingFailure
  }

  /** After an unbooked answer a turn can only be cancelled, cut off mid-text, or run into the illegal transition. */
  lemma TaintedStep(f: Fate, last: bool)
    ensures Settle(Responded, f, last) == (Responded,
      if f.Cancelled? then Cancellation
      else if Spoke(f) then RoutingFailure
      else if last then TransitionFailure else Continue)
  {
  }

  lemma {:induction false} TaintedWalk(ts: seq<Turn>, i: nat)
    requires i < |ts|
    ensures Walk(Responded, ts, i).state == Responded && Walk(Responded, ts, i).verdict == TaintedEnd(ts, i)
    decreases |ts| - i
  {
    TaintedStep(ts[i].fate, i + 1 == |ts|);
    if i + 1 < |ts| {
      TaintedWalk(ts, i + 1);
    }
  }

  /** Where a request ends, read off the first decisive turn. */
  ghost function Ending(ts: seq<Turn>, i: nat): (RequestState, Verdict)
    requires i <= |ts|
  {
    var d := Decisive(ts, i);
    if d == |ts| then (Failed, RoutingFailure)
    else match ts[d].fate
      case Cancelled => (Dispatched, Cancellation)
      case Answered(spoke, booked) =>
        (Responded, if booked then Respond else if spoke then RoutingFailure else TaintedEnd(ts, d + 1))
      case _ => (Failed, RoutingFailure)
  }

  lemma EndsHere(s: RequestState, ts: seq<Turn>, i: nat)
    requires i < |ts| && (s == Routed || s == Fallback) && Decides(ts[i].fate)
    ensures (Walk(s, ts, i).state, Walk(s, ts, i).verdict) == Ending(ts, i)
  {
    assert Decisive(ts, i) == i;
    if i + 1 < |ts| {
      TaintedWalk(ts, i + 1);
    }
  }

  lemma EndsLater(s: RequestState, ts: seq<Turn>, i: nat)
    requires i + 1 < |ts| && (s == Routed || s == Fallback) && !Decides(ts[i].fate)
    ensures Walk(s, ts, i).stop == Walk(Settle(s, ts[i].fate, false).0, ts, i + 1).stop
    ensures var s' := Settle(s, ts[i].fate, false).0;
            && (s' == Routed || s' == Fallback) && Ending(ts, i) == Ending(ts, i + 1)
            && Walk(s, ts, i).state == Walk(s', ts, i + 1).state
            && Walk(s, ts, i).verdict == Walk(s', ts, i + 1).verdict
  {
  }

  /** Every possible run of attempts, decided by its first decisive turn alone. */
  lemma {:induction false} WalkEnds(s: RequestState, ts: seq<Turn>, i: nat)
    requires i < |ts| && (s == Routed || s == Fallback)
    ensures (Walk(s, ts, i).state, Walk(s, ts, i).verdict) == Ending(ts, i)
    decreases |ts| - i
  {
    if Decides(ts[i].fate) {
      EndsHere(s, ts, i);
    } else if i + 1 < |ts| {
      EndsLater(s, ts, i);
      WalkEnds(Settle(s, ts[i].fate, false).0, ts, i + 1);
    }
  }

  /** An answered request is answered by its first decisive turn: every earlier one was skipped or failed silently. */
  lemma {:induction false} FirstDecisiveAnswers(s: RequestState, ts: seq<Turn>, i: nat)
    requires i < |ts| && (s == Routed || s == Fallback) && Walk(s, ts, i).verdict == Respond
    ensures Walk(s, ts, i).stop == Decisive(ts, i) && ts[Decisive(ts, i)].fate.Answered?
    decreases |ts| - i
  {
    if Decides(ts[i].fate) {
      UnansweredNeverResponds(s, ts, i);
    } else {
      EndsLater(s, ts, i);
      FirstDecisiveAnswers(Settle(s, ts[i].fate, false).0, ts, i + 1);
    }
  }

  /** Past a decisive turn that is not accepted the request can no longer be answered. */
  lemma UnansweredNeverResponds(s: RequestState, ts: seq<Turn>, i: nat)
    requires i < |ts| && (s == Routed || s == Fallback) && Decides(ts[i].fate) && Walk(s, ts, i).verdict == Respond
    ensures Walk(s, ts, i).stop == i && ts[i].fate.Answered?
  {
    if i + 1 < |ts| {
      TaintedWalk(ts, i + 1);
    }
  }

  /**
    * An illegal transition escapes exactly when the first decisive turn is a silent answer whose
    * bookkeeping raised, and nothing after it is cancelled or reaches the caller with text.
    */
  lemma TransitionFailsIff(ts: seq<Turn>)
    requires ts != []
    ensures Walk(Routed, ts, 0).verdict == TransitionFailure <==>
              var d := Decisive(ts, 0);
              d < |ts| && ts[d].fate == Answered(false, false)
              && forall j | d < j < |ts| :: !ts[j].fate.Cancelled? && !Spoke(ts[j].fate)
  {
    WalkEnds(Routed, ts, 0);
    var d := Decisive(ts, 0);
    if d < |ts| {
      assert Loud(ts, d + 1) < |ts| ==> ts[Loud(ts, d + 1)].fate.Cancelled? || Spoke(ts[Loud(ts, d + 1)].fate);
    }
  }

  /** One silent answer with failing bookkeeping is enough. */
  lemma UnbookedAnswerBreaksLifecycle()
    ensures Walk(Routed, [Turn("p", Answered(false, false))], 0).verdict == TransitionFailure
  {
  }

  /**
    * When bookkeeping never raises: no illegal transition; answers end Responded, failures Failed,
    * cancellations Dispatched.
    */
  lemma BookedLifecycleIsLegal(ts: seq<Turn>)
    requires ts != [] && forall i | 0 <= i < |ts| :: ts[i].fate.Answered? ==> ts[i].fate.booked
    ensures (Walk(Routed, ts, 0).state, Walk(Routed, ts, 0).verdict)
         in {(Responded, Respond), (Failed, RoutingFailure), (Dispatched, Cancellation)}
  {
    WalkEnds(Routed, ts, 0);
  }

  /** Text reaches the caller only from the turn the walk stops at, and only that turn can be cancelled. */
  lemma {:induction false} OnlyLastTurnSpeaks(s: RequestState, ts: seq<Turn>, i: nat)
    requires i < |ts|
    ensures forall j | i <= j < Walk(s, ts, i).stop :: !Spoke(ts[j].fate) && !ts[j].fate.Cancelled?
    ensures Walk(s, ts, i).verdict == Respond ==> ts[Walk(s, ts, i).stop].fate.Answered?
    ensures Walk(s, ts, i).verdict == TransitionFailure ==>
              !Spoke(ts[Walk(s, ts, i).stop].fate) && !ts[Walk(s, ts, i).stop].fate.Cancelled?
    decreases |ts| - i
  {
    var (s', v) := Settle(s, ts[i].fate, i + 1 == |ts|);
    if v == Continue {
      OnlyLastTurnSpeaks(s', ts, i + 1);
    }
  }

  // ------------------------------------------------------------- accounting

  ghost function CountUpTo(calls: seq<BreakerCall>, n: nat, c: BreakerCall): nat
    requires n <= |calls|
  {
    if n == 0 then 0 else CountUpTo(calls, n - 1, c) + if calls[n - 1] == c then 1 else 0
  }

  ghost function Count(calls: seq<BreakerCall>, c: BreakerCall): nat {
    CountUpTo(calls, |calls|, c)
  }

  lemma {:induction false} CountOfPrefix(a: seq<BreakerCall>, b: seq<BreakerCall>, n: nat, c: BreakerCall)
    requires n <= |a| && a <= b
    ensures CountUpTo(b, n, c) == CountUpTo(a, n, c)
    decreases n
  {
    if n > 0 {
      CountOfPrefix(a, b, n - 1, c);
    }
  }

  lemma {:induction false} CountAppendUpTo(a: seq<BreakerCall>, b: seq<BreakerCall>, n: nat, c: BreakerCall)
    requires n <= |b|
    ensures CountUpTo(a + b, |a| + n, c) == Count(a, c) + CountUpTo(b, n, c)
    decreases n
  {
    if n == 0 {
      CountOfPrefix(a, a + b, |a|, c);
    } else {
      CountAppendUpTo(a, b, n - 1, c);
    }
  }

  lemma CountAppend(a: seq<BreakerCall>, b: seq<BreakerCall>, c: BreakerCall)
    ensures Count(a + b, c) == Count(a, c) + Count(b, c)
  {
    CountAppendUpTo(a, b, |b|, c);
  }

  /** Turns i to n-1 of the provider whose call ran to an end: an exception or an answer. */
  ghost function EndedTurns(ts: seq<Turn>, i: nat, n: nat, provider: string): nat
    requires i <= n <= |ts|
    decreases n - i
  {
    if i == n then 0
    else (if ts[i].provider == provider && !ts[i].fate.Skipped? && !ts[i].fate.Cancelled? then 1 else 0)
         + EndedTurns(ts, i + 1, n, provider)
  }

  ghost function AnsweredTurns(ts: seq<Turn>, i: nat, n: nat, provider: string): nat
    requires i <= n <= |ts|
    decreases n - i
  {
    if i == n then 0
    else (if ts[i].provider == provider && ts[i].fate.Answered? then 1 else 0) + AnsweredTurns(ts, i + 1, n, provider)
  }

  /** How often one turn makes the given call. */
  function OwnCount(s: RequestState, t: Turn, c: BreakerCall): nat {
    match t.fate
    case Skipped => 0
    case Cancelled => 0
    case Unroutable => if c == Failure(t.provider) then 1 else 0
    case Broke(_) => if c == Failure(t.provider) then 1 else 0
    case Answered(_, _) =>
      if c == Success(t.provider) || (c == Failure(t.provider) && !Accepted(s, t.fate)) then 1 else 0
  }

  lemma OwnCountIs(s: RequestState, t: Turn, c: BreakerCall)
    ensures Count(Calls(s, t), c) == OwnCount(s, t, c)
  {
    CountSingle(Success(t.provider), c);
    CountSingle(Failure(t.provider), c);
    CountAppend([Success(t.provider)], [Failure(t.provider)], c);
    assert [Success(t.provider)] + [Failure(t.provider)] == [Success(t.provider), Failure(t.provider)];
  }

  lemma CountSingle(x: BreakerCall, c: BreakerCall)
    ensures Count([x], c) == if x == c then 1 else 0
  {
    assert CountUpTo([x], 0, c) == 0;
  }

  /** How often the turns from i on make the given call. */
  ghost function CallCount(s: RequestState, ts: seq<Turn>, i: nat, c: BreakerCall): nat
    requires i < |ts|
    decreases |ts| - i
  {
    var (s', v) := Settle(s, ts[i].fate, i + 1 == |ts|);
    OwnCount(s, ts[i], c) + if v == Continue then CallCount(s', ts, i + 1, c) else 0
  }

  lemma CountAdds(own: seq<BreakerCall>, rest: seq<BreakerCall>, c: BreakerCall, x: nat, y: nat)
    requires Count(own, c) == x && Count(rest, c) == y
    ensures Count(own + rest, c) == x + y
  {
    CountAppend(own, rest, c);
  }

  lemma {:induction false} CallCountIs(s: RequestState, ts: seq<Turn>, i: nat, c: BreakerCall)
    requires i < |ts|
    ensures Count(CallsMade(s, ts, i), c) == CallCount(s, ts, i, c)
    decreases |ts| - i
  {
    var (s', v) := Settle(s, ts[i].fate, i + 1 == |ts|);
    OwnCountIs(s, ts[i], c);
    if v == Continue {
      CallCountIs(s', ts, i + 1, c);
      CountAdds(Calls(s, ts[i]), CallsMade(s', ts, i + 1), c, OwnCount(s, ts[i], c), CallCount(s', ts, i + 1, c));
    } else {
      CountAdds(Calls(s, ts[i]), [], c, OwnCount(s, ts[i], c), 0);
    }
  }

  lemma AcceptedResponds(s: RequestState, f: Fate, last: bool)
    ensures Accepted(s, f) <==> Settle(s, f, last).1 == Respond
  {
  }

  /** First turn not counted as failed: the responding one, or the one after the last reached. */
  ghost function FailedUpTo(w: Walked): nat {
    if w.verdict == Respond then w.stop else w.stop + 1
  }

  lemma {:induction false} CountedFailures(s: RequestState, ts: seq<Turn>, i: nat, provider: string)
    requires i < |ts|
    ensures CallCount(s, ts, i, Failure(provider)) == EndedTurns(ts, i, FailedUpTo(Walk(s, ts, i)), provider)
    decreases |ts| - i
  {
    var (s', v) := Settle(s, ts[i].fate, i + 1 == |ts|);
    AcceptedResponds(s, ts[i].fate, i + 1 == |ts|);
    if v == Continue {
      CountedFailures(s', ts, i + 1, provider);
    } else {
      assert EndedTurns(ts, i + 1, i + 1, provider) == 0;
    }
  }

  lemma {:induction false} CountedSuccesses(s: RequestState, ts: seq<Turn>, i: nat, provider: string)
    requires i < |ts|
    ensures CallCount(s, ts, i, Success(provider)) == AnsweredTurns(ts, i, Walk(s, ts, i).stop + 1, provider)
    decreases |ts| - i
  {
    var (s', v) := Settle(s, ts[i].fate, i + 1 == |ts|);
    if v == Continue {
      CountedSuccesses(s', ts, i + 1, provider);
    } else {
      assert AnsweredTurns(ts, i + 1, i + 1, provider) == 0;
    }
  }

  /** Breaker accounting for any run: a failure for every ended turn before the one that responds, none for a skip. */
  lemma FailureAccounting(s: RequestState, ts: seq<Turn>, i: nat, provider: string)
    requires i < |ts|
    ensures Count(CallsMade(s, ts, i), Failure(provider)) == EndedTurns(ts, i, FailedUpTo(Walk(s, ts, i)), provider)
  {
    CallCountIs(s, ts, i, Failure(provider));
    CountedFailures(s, ts, i, provider);
  }

  /** A success for every answer, booked or not. */
  lemma SuccessAccounting(s: RequestState, ts: seq<Turn>, i: nat, provider: string)
    requires i < |ts|
    ensures Count(CallsMade(s, ts, i), Success(provider)) == AnsweredTurns(ts, i, Walk(s, ts, i).stop + 1, provider)
  {
    CallCountIs(s, ts, i, Success(provider));
    CountedSuccesses(s, ts, i, provider);
  }

  lemma {:induction false} EndedOneMore(ts: seq<Turn>, i: nat, n: nat, provider: string)
    requires i <= n < |ts|
    ensures EndedTurns(ts, i, n + 1, provider)
         == EndedTurns(ts, i, n, provider)
            + if ts[n].provider == provider && !ts[n].fate.Skipped? && !ts[n].fate.Cancelled? then 1 else 0
    decreases n - i
  {
    if i < n {
      EndedOneMore(ts, i + 1, n, provider);
    }
  }

  lemma {:induction false} AnsweredOneMore(ts: seq<Turn>, i: nat, n: nat, provider: string)
    requires i <= n < |ts|
    ensures AnsweredTurns(ts, i, n + 1, provider)
         == AnsweredTurns(ts, i, n, provider) + if ts[n].provider == provider && ts[n].fate.Answered? then 1 else 0
    decreases n - i
  {
    if i < n {
      AnsweredOneMore(ts, i + 1, n, provider);
    }
  }
}
