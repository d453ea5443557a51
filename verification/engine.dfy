/** The act phase of the router: attempt loops over an ordered chain of providers. */
module Engine {
  import opened Wrappers
  import opened Attempts
  import opened Lifecycle
  import opened Inflight

  // --------------------------------------------------------- walking by index

  /** Turn i is reached in state s with the calls made so far. */
  ghost predicate Reached(ts: seq<Turn>, i: nat, s: RequestState, made: seq<BreakerCall>)
    requires i < |ts|
  {
    && Walk(RequestState.Routed, ts, 0) == Walk(s, ts, i)
    && CallsMade(RequestState.Routed, ts, 0) == made + CallsMade(s, ts, i)
  }

  lemma Associates(a: seq<BreakerCall>, b: seq<BreakerCall>, c: seq<BreakerCall>)
    ensures a + (b + c) == (a + b) + c
  {
  }

  lemma StartsReached(ts: seq<Turn>)
    requires ts != []
    ensures Reached(ts, 0, RequestState.Routed, [])
  {
    assert [] + CallsMade(RequestState.Routed, ts, 0) == CallsMade(RequestState.Routed, ts, 0);
  }

  lemma StepOn(ts: seq<Turn>, i: nat, s: RequestState, made: seq<BreakerCall>, s': RequestState, v: Verdict)
    requires i < |ts| && Reached(ts, i, s, made)
    requires (s', v) == Settle(s, ts[i].fate, i + 1 == |ts|)
    ensures v == Continue ==> i + 1 < |ts| && Reached(ts, i + 1, s', made + Calls(s, ts[i]))
    ensures v != Continue ==> Walk(RequestState.Routed, ts, 0) == Walked(s', v, i)
    ensures v != Continue ==> CallsMade(RequestState.Routed, ts, 0) == made + Calls(s, ts[i])
  {
    if v == Continue {
      Associates(made, Calls(s, ts[i]), CallsMade(s', ts, i + 1));
    } else {
      assert Calls(s, ts[i]) + [] == Calls(s, ts[i]);
    }
  }

  class NexusRouter {
    /** Calls on the circuit breaker, oldest first; every other outcome statistic gets the same ones. */
    var breaker: seq<BreakerCall>
    var inflight: Counters
    /** Results passed to `on_complete`. */
    var completed: seq<RouterResponse>

    constructor ()
      ensures breaker == [] && inflight == map[] && completed == []
    {
      breaker, inflight, completed := [], map[], [];
    }

    /** Marks the request answered, then books it; false when either raised. */
    method RespondTo(machine: RoutingStateMachine, provider: string, booked: bool) returns (ok: bool)
      requires machine as object != this
      modifies this`breaker, machine
      ensures breaker == old(breaker) + [Success(provider)]
      ensures ok <==> Responded in Allowed(old(machine.currentState)) && booked
      ensures machine.currentState
           == if Responded in Allowed(old(machine.currentState)) then Responded else old(machine.currentState)
    {
      breaker := breaker + [Success(provider)];
      var moved := machine.Transition(Responded);
      ok := moved.Returned? && booked;
    }

    /** The failure branch of both loops. */
    method FailAttempt(machine: RoutingStateMachine, provider: string, spoke: bool, last: bool) returns (v: Verdict)
      requires machine as object != this
      modifies this`breaker, machine
      ensures breaker == old(breaker) + [Failure(provider)]
      ensures (machine.currentState, v) == GiveUp(old(machine.currentState), spoke, last)
    {
      breaker := breaker + [Failure(provider)];
      if spoke {
        if machine.currentState == Dispatched {
          var _ := machine.Transition(RequestState.Failed);
        }
        return RoutingFailure;
      }
      if !last {
        if machine.currentState == Dispatched {
          var _ := machine.Transition(Fallback);
        }
        return Continue;
      }
      var moved := machine.Transition(RequestState.Failed);
      v := if moved.Raised? then TransitionFailure else RoutingFailure;
    }

    /** Counts the call in, relays the provider's chunks, and counts it out again however it closes. */
    method Relay(a: Attempt, tenantKey: string)
      returns (chunks: seq<Chunk>, assembled: string, spoke: bool, reported: Option<ProviderResponse>)
      requires Positive(inflight)
      modifies this`inflight
      ensures inflight == old(inflight)
      ensures chunks == ChunksOf(a.model, a.items)
      ensures assembled == Assembled(a.items) && reported == Reported(a.items) && (spoke <==> assembled != [])
    {
      FinishUndoesBegin(inflight, a.provider);
      FinishUndoesBegin(Begin(inflight, a.provider), tenantKey);
      inflight := Begin(inflight, a.provider);
      inflight := Begin(inflight, tenantKey);
      chunks, assembled, spoke, reported := [], [], false, None;
      for k := 0 to |a.items|
        invariant inflight == Begin(Begin(old(inflight), a.provider), tenantKey)
        invariant chunks == ChunksOf(a.model, a.items[..k])
        invariant assembled == Assembled(a.items[..k]) && reported == Reported(a.items[..k])
        invariant spoke <==> assembled != []
      {
        assert a.items[..k + 1][..k] == a.items[..k];
        match a.items[k] {
          case Report(r) =>
            reported := Some(r);
          case Text(text) =>
            assembled := assembled + text;
            spoke := spoke || text != "";
            chunks := chunks + [Chunk(a.model, text)];
        }
      }
      assert a.items[..|a.items|] == a.items;
      inflight := Finish(inflight, tenantKey);
      inflight := Finish(inflight, a.provider);
    }

    /** Attributes the finished stream, marks and books the answer, and reports it. */
    method Deliver(machine: RoutingStateMachine, a: Attempt, index: nat, promptTokens: int,
                   assembled: string, reported: Option<ProviderResponse>)
      returns (answered: bool)
      requires machine as object != this
      requires assembled == Assembled(a.items) && reported == Reported(a.items)
      modifies this`breaker, this`completed, machine
      ensures breaker == old(breaker) + [Success(a.provider)]
      ensures answered <==> Responded in Allowed(old(machine.currentState)) && a.booked
      ensures machine.currentState
           == if Responded in Allowed(old(machine.currentState)) then Responded else old(machine.currentState)
      ensures completed == if answered then old(completed) + [Answer(a, index, promptTokens)] else old(completed)
    {
      var response := match reported
        case Some(r) => r.(content := assembled, model := a.model)
        case None => ProviderResponse(assembled, a.model, promptTokens, Max(1, |assembled| / 4), a.estimatedCost, Stop);
      answered := RespondTo(machine, a.provider, a.booked);
      if answered {
        completed := completed + [AsRouted(response, RationaleOf(a.model, index))];
      }
    }

    /** The guarded region of one attempt: dispatch, relay, deliver; `spoke` matters when it raises. */
    method TryProvider(machine: RoutingStateMachine, a: Attempt, index: nat, promptTokens: int, tenantKey: string)
      returns (chunks: seq<Chunk>, answered: bool, spoke: bool)
      requires machine as object != this && Positive(inflight)
      requires a.adapterKnown
      modifies this, machine
      ensures inflight == old(inflight) && chunks == ChunksOf(a.model, a.items)
      ensures spoke <==> Assembled(a.items) != []
      ensures var s := Entered(old(machine.currentState));
              && (answered <==> a.close == Ended && Responded in Allowed(s) && a.booked)
              && machine.currentState == if a.close == Ended && Responded in Allowed(s) then Responded else s
      ensures breaker == if a.close == Ended then old(breaker) + [Success(a.provider)] else old(breaker)
      ensures completed == if answered then old(completed) + [Answer(a, index, promptTokens)] else old(completed)
    {
      if machine.currentState == RequestState.Routed || machine.currentState == Fallback {
        var _ := machine.Transition(Dispatched);
      }
      var assembled, reported;
      chunks, assembled, spoke, reported := Relay(a, tenantKey);
      answered := false;
      if a.close == Ended {
        answered := Deliver(machine, a, index, promptTokens, assembled, reported);
      }
    }

    /**
      * One pass of the streaming loop: guardrails, the guarded region, the failure branch.
      * The verdict says whether the loop goes on, returns or raises.
      */
    method StreamTurn(machine: RoutingStateMachine, a: Attempt, index: nat, last: bool, promptTokens: int,
                      tenantKey: string)
      returns (chunks: seq<Chunk>, v: Verdict)
      requires machine as object != this && Positive(inflight)
      modifies this, machine
      ensures inflight == old(inflight) && chunks == Said(a)
      ensures (machine.currentState, v) == Settle(old(machine.currentState), FateOf(a), last)
      ensures breaker == old(breaker) + Calls(old(machine.currentState), Turn(a.provider, FateOf(a)))
      ensures completed == if v == Respond then old(completed) + [Answer(a, index, promptTokens)] else old(completed)
      ensures a.guard != Clear ==> chunks == [] && breaker == old(breaker) && completed == old(completed)
    {
      if a.guard != Clear {
        if last {
          var moved := machine.Transition(RequestState.Failed);
          return [], if moved.Raised? then TransitionFailure else RoutingFailure;
        }
        return [], Continue;
      }
      if !a.adapterKnown {
        v := FailAttempt(machine, a.provider, false, last);
        return [], v;
      }
      var answered, spoke;
      chunks, answered, spoke := TryProvider(machine, a, index, promptTokens, tenantKey);
      if answered {
        return chunks, Respond;
      }
      if a.close == Aborted {
        return chunks, Cancellation;
      }
      Associates(old(breaker), [Success(a.provider)], [Failure(a.provider)]);
      v := FailAttempt(machine, a.provider, spoke, last);
    }

    /** The attempt loop of an admitted stream. */
    method RunStream(attempts: seq<Attempt>, promptTokens: int, tenantKey: string)
      returns (yielded: seq<Chunk>, end: End)
      requires attempts != [] && Positive(inflight)
      modifies this
      ensures inflight == old(inflight)
      ensures Feed(yielded, end) == StreamOf(true, attempts, promptTokens)
      ensures completed == if end.Finished? then old(completed) + [end.response] else old(completed)
      ensures breaker == old(breaker) + CallsMade(RequestState.Routed, Turns(attempts), 0)
    {
      yielded := [];
      var machine := new RoutingStateMachine();
      var _ := machine.Transition(Classified);
      var _ := machine.Transition(RequestState.Routed);
      ghost var ts := Turns(attempts);
      ghost var made: seq<BreakerCall> := [];
      StartsReached(ts);
      for i := 0 to |attempts|
        invariant fresh(machine) && inflight == old(inflight) && completed == old(completed)
        invariant yielded == SaidBy(attempts, i)
        invariant breaker == old(breaker) + made
        invariant i < |attempts| && Reached(ts, i, machine.currentState, made)
      {
        var last := i == |attempts| - 1;
        ghost var s := machine.currentState;
        var chunks, v := StreamTurn(machine, attempts[i], i, last, promptTokens, tenantKey);
        yielded := yielded + chunks;
        ghost var calls := Calls(s, ts[i]);
        StepOn(ts, i, s, made, machine.currentState, v);
        Associates(old(breaker), made, calls);
        made := made + calls;
        if v != Continue {
          end := match v
            case Respond => Finished(completed[|completed| - 1])
            case RoutingFailure => Threw(RoutingFailed)
            case TransitionFailure => Threw(IllegalTransition)
            case _ => Aborting;
          return;
        }
      }
      assert false;
    }

    /**
      * `complete_stream`: yields exactly the chunks of the attempts it reaches, ends as the walk over
      * their fates says, reports one result iff it ends normally, and leaves no attempt counted in.
      */
    method CompleteStream(admitted: bool, attempts: seq<Attempt>, promptTokens: int, tenantKey: string)
      returns (yielded: seq<Chunk>, end: End)
      requires attempts != [] && Positive(inflight)
      modifies this
      ensures inflight == old(inflight)
      ensures Feed(yielded, end) == StreamOf(admitted, attempts, promptTokens)
      ensures completed == if end.Finished? then old(completed) + [end.response] else old(completed)
      ensures admitted ==> AttemptsAccounted(old(breaker), breaker, attempts)
      ensures !admitted ==> yielded == [] && end == Threw(RateLimited) && breaker == old(breaker)
    {
      if !admitted {
        return [], Threw(RateLimited);
      }
      AttemptsRecorded(breaker, attempts);
      yielded, end := RunStream(attempts, promptTokens, tenantKey);
    }

    method TryCall(machine: RoutingStateMachine, c: Call, tenantKey: string) returns (answered: bool)
      requires machine as object != this && Positive(inflight) && c.adapterKnown
      modifies this`breaker, this`inflight, machine
      ensures inflight == old(inflight)
      ensures var s := Entered(old(machine.currentState));
              && (answered <==> c.result.Reply? && Responded in Allowed(s) && c.booked)
              && machine.currentState == if c.result.Reply? && Responded in Allowed(s) then Responded else s
      ensures breaker == if c.result.Reply? then old(breaker) + [Success(c.provider)] else old(breaker)
    {
      if machine.currentState == RequestState.Routed || machine.currentState == Fallback {
        var _ := machine.Transition(Dispatched);
      }
      FinishUndoesBegin(inflight, c.provider);
      FinishUndoesBegin(Begin(inflight, c.provider), tenantKey);
      inflight := Begin(inflight, c.provider);
      inflight := Begin(inflight, tenantKey);
      inflight := Finish(inflight, tenantKey);
      inflight := Finish(inflight, c.provider);
      answered := false;
      if c.result.Reply? {
        answered := RespondTo(machine, c.provider, c.booked);
      }
    }

    method CallTurn(machine: RoutingStateMachine, c: Call, last: bool, tenantKey: string) returns (v: Verdict)
      requires machine as object != this && Positive(inflight)
      modifies this`breaker, this`inflight, machine
      ensures inflight == old(inflight)
      ensures (machine.currentState, v) == Settle(old(machine.currentState), FateOfCall(c), last)
      ensures breaker == old(breaker) + Calls(old(machine.currentState), Turn(c.provider, FateOfCall(c)))
      ensures c.guard != Clear ==> breaker == old(breaker)
    {
      if c.guard != Clear {
        if last {
          var moved := machine.Transition(RequestState.Failed);
          return if moved.Raised? then TransitionFailure else RoutingFailure;
        }
        return Continue;
      }
      if c.adapterKnown {
        var answered := TryCall(machine, c, tenantKey);
        if answered {
          return Respond;
        }
        if c.result == CallCancelled {
          return Cancellation;
        }
        Associates(old(breaker), [Success(c.provider)], [Failure(c.provider)]);
      }
      v := FailAttempt(machine, c.provider, false, last);
    }

    /** The attempt loop of an admitted one-shot request. */
    method RunChain(chain: seq<Call>, tenantKey: string) returns (end: End)
      requires chain != [] && Positive(inflight)
      modifies this`breaker, this`inflight
      ensures inflight == old(inflight)
      ensures end == CompletionOf(true, chain)
      ensures breaker == old(breaker) + CallsMade(RequestState.Routed, CallTurns(chain), 0)
    {
      var machine := new RoutingStateMachine();
      var _ := machine.Transition(Classified);
      var _ := machine.Transition(RequestState.Routed);
      ghost var ts := CallTurns(chain);
      ghost var made: seq<BreakerCall> := [];
      StartsReached(ts);
      for i := 0 to |chain|
        invariant fresh(machine) && inflight == old(inflight)
        invariant breaker == old(breaker) + made
        invariant i < |chain| && Reached(ts, i, machine.currentState, made)
      {
        var last := i == |chain| - 1;
        ghost var s := machine.currentState;
        var v := CallTurn(machine, chain[i], last, tenantKey);
        ghost var calls := Calls(s, ts[i]);
        StepOn(ts, i, s, made, machine.currentState, v);
        Associates(old(breaker), made, calls);
        made := made + calls;
        if v == Respond {
          return Finished(CallAnswer(chain[i], i));
        }
        if v != Continue {
          return match v
            case RoutingFailure => Threw(RoutingFailed)
            case TransitionFailure => Threw(IllegalTransition)
            case _ => Aborting;
        }
      }
      assert false;
    }

    /** `complete`: the same walk over the chain, answering with the provider's reply. */
    method Complete(admitted: bool, chain: seq<Call>, tenantKey: string) returns (end: End)
      requires chain != [] && Positive(inflight)
      modifies this`breaker, this`inflight
      ensures inflight == old(inflight)
      ensures end == CompletionOf(admitted, chain)
      ensures admitted ==> CallsAccounted(old(breaker), breaker, chain)
      ensures !admitted ==> end == Threw(RateLimited) && breaker == old(breaker)
    {
      if !admitted {
        return Threw(RateLimited);
      }
      CallsRecorded(breaker, chain);
      end := RunChain(chain, tenantKey);
    }
  }
}
