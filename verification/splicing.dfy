/** What a caller can rely on about a router stream: one attempt's text, whole, from one model. */
module Splicing {
  import opened Wrappers
  import opened Lifecycle
  import opened Attempts

  lemma {:induction false} TextOfSum(a: seq<Chunk>, b: seq<Chunk>)
    ensures TextOf(a + b) == TextOf(a) + TextOf(b)
    decreases |b|
  {
    if b == [] {
      assert a + b == a;
    } else {
      assert (a + b)[..|a + b| - 1] == a + b[..|b| - 1];
      TextOfSum(a, b[..|b| - 1]);
    }
  }

  lemma {:induction false} ChunksSpellText(model: string, items: seq<Item>)
    ensures TextOf(ChunksOf(model, items)) == Assembled(items)
    ensures forall k | 0 <= k < |ChunksOf(model, items)| :: ChunksOf(model, items)[k].model == model
    decreases |items|
  {
    if items != [] {
      var rest, last := items[..|items| - 1], items[|items| - 1];
      ChunksSpellText(model, rest);
      if last.Text? {
        TextOfSum(ChunksOf(model, rest), [Chunk(model, last.text)]);
        assert TextOf([Chunk(model, last.text)]) == last.text;
      } else {
        assert ChunksOf(model, items) == ChunksOf(model, rest);
      }
    }
  }

  /** One chunk per text item, in order and under the model attempted, and none for a report. */
  lemma {:induction false} ChunksArePiecewise(model: string, a: seq<Item>, b: seq<Item>)
    ensures ChunksOf(model, a + b) == ChunksOf(model, a) + ChunksOf(model, b)
    ensures |a| == 1 ==> ChunksOf(model, a) == if a[0].Text? then [Chunk(model, a[0].text)] else []
    decreases |b|
  {
    if b == [] {
      assert a + b == a;
    } else {
      assert (a + b)[..|a + b| - 1] == a + b[..|b| - 1];
      ChunksArePiecewise(model, a, b[..|b| - 1]);
    }
  }

  lemma {:induction false} SilentChunksAreEmpty(chunks: seq<Chunk>)
    requires TextOf(chunks) == []
    ensures forall k | 0 <= k < |chunks| :: chunks[k].text == []
    decreases |chunks|
  {
    if chunks != [] {
      SilentChunksAreEmpty(chunks[..|chunks| - 1]);
    }
  }

  lemma TurnSpeaks(a: Attempt)
    ensures TextOf(Said(a)) == if a.guard == Clear && a.adapterKnown then Assembled(a.items) else []
    ensures !Spoke(FateOf(a)) && !FateOf(a).Cancelled? ==> TextOf(Said(a)) == []
    ensures forall k | 0 <= k < |Said(a)| :: Said(a)[k].model == a.model
  {
    ChunksSpellText(a.model, a.items);
  }

  lemma {:induction false} SilentSoFar(attempts: seq<Attempt>, n: nat)
    requires n <= |attempts|
    requires forall j | 0 <= j < n :: !Spoke(FateOf(attempts[j])) && !FateOf(attempts[j]).Cancelled?
    ensures TextOf(SaidBy(attempts, n)) == []
    decreases n
  {
    if n > 0 {
      SilentSoFar(attempts, n - 1);
      TurnSpeaks(attempts[n - 1]);
      TextOfSum(SaidBy(attempts, n - 1), Said(attempts[n - 1]));
    }
  }

  ghost function StopOf(attempts: seq<Attempt>): (d: nat)
    requires attempts != []
    ensures d < |attempts|
  {
    Walk(RequestState.Routed, Turns(attempts), 0).stop
  }

  /**
    * No splicing: every run hands over the chunks of earlier attempts, all empty, then those of the
    * attempt it stops at; an answer's content is that last attempt's text.
    */
  lemma NoSplicing(attempts: seq<Attempt>, promptTokens: int)
    requires attempts != []
    ensures var d, feed := StopOf(attempts), StreamOf(true, attempts, promptTokens);
            && feed.chunks == SaidBy(attempts, d) + Said(attempts[d])
            && TextOf(SaidBy(attempts, d)) == []
            && TextOf(feed.chunks) == TextOf(Said(attempts[d]))
            && (feed.end.Finished? ==> feed.end.response == Answer(attempts[d], d, promptTokens))
            && (feed.end.Finished? ==> feed.end.response.content == TextOf(feed.chunks))
            && (feed.end == Threw(IllegalTransition) ==> TextOf(feed.chunks) == [])
  {
    var ts := Turns(attempts);
    var d := StopOf(attempts);
    OnlyLastTurnSpeaks(RequestState.Routed, ts, 0);
    forall j | 0 <= j < d ensures !Spoke(FateOf(attempts[j])) && !FateOf(attempts[j]).Cancelled? {
      assert !Spoke(ts[j].fate) && !ts[j].fate.Cancelled?;
    }
    SilentSoFar(attempts, d);
    TurnSpeaks(attempts[d]);
    TextOfSum(SaidBy(attempts, d), Said(attempts[d]));
  }

  /** The shape of a feed that its consumers need, however it came about. */
  ghost predicate Coherent(f: Feed) {
    && (f.end.Finished? ==> f.end.response.content == TextOf(f.chunks))
    && (f.end == Threw(IllegalTransition) || f.end == Threw(RateLimited) ==> TextOf(f.chunks) == [])
    && (forall i, j | 0 <= i < j < |f.chunks| :: f.chunks[i].text != [] ==> f.chunks[j].model == f.chunks[i].model)
    && (f.end.Finished? ==>
          forall i | 0 <= i < |f.chunks| :: f.chunks[i].text != [] ==> f.chunks[i].model == f.end.response.modelUsed)
  }

  /** Silent chunks followed by chunks of one model: once text has come, the model stays. */
  lemma OneModelAfterText(silent: seq<Chunk>, spoken: seq<Chunk>, model: string)
    requires TextOf(silent) == []
    requires forall k | 0 <= k < |spoken| :: spoken[k].model == model
    ensures var all := silent + spoken;
            forall i, j | 0 <= i <= j < |all| :: all[i].text != [] ==> all[j].model == model
  {
    SilentChunksAreEmpty(silent);
    var all := silent + spoken;
    forall i | 0 <= i < |silent| ensures all[i].text == [] {
      assert all[i] == silent[i];
    }
    forall j | |silent| <= j < |all| ensures all[j].model == model {
      assert all[j] == spoken[j - |silent|];
    }
  }

  lemma RouterFeedIsCoherent(admitted: bool, attempts: seq<Attempt>, promptTokens: int)
    requires attempts != []
    ensures Coherent(StreamOf(admitted, attempts, promptTokens))
  {
    if admitted {
      var d := StopOf(attempts);
      NoSplicing(attempts, promptTokens);
      TurnSpeaks(attempts[d]);
      OneModelAfterText(SaidBy(attempts, d), Said(attempts[d]), attempts[d].model);
      AnswerNamesModel(attempts[d], d, promptTokens);
    }
  }

  lemma AnswerNamesModel(a: Attempt, index: nat, promptTokens: int)
    ensures Answer(a, index, promptTokens).modelUsed == a.model
  {
  }

  /** No report after item k. */
  ghost predicate LastReport(items: seq<Item>, k: nat) {
    k < |items| && items[k].Report? && forall j | k < j < |items| :: !items[j].Report?
  }

  lemma {:induction false} ReportedIsLast(items: seq<Item>, k: nat)
    requires LastReport(items, k)
    ensures Reported(items) == Some(items[k].report)
    decreases |items|
  {
    if k < |items| - 1 {
      ReportedIsLast(items[..|items| - 1], k);
    }
  }

  lemma {:induction false} UnreportedIsNone(items: seq<Item>)
    requires forall j | 0 <= j < |items| :: !items[j].Report?
    ensures Reported(items) == None
    decreases |items|
  {
    if items != [] {
      UnreportedIsNone(items[..|items| - 1]);
    }
  }

  /**
    * Attribution: an answer carries the text sent under the model attempted; its usage, cost and stop
    * reason are those of the provider's last report, or the estimate when there was none.
    */
  lemma AnswerIsAttributed(a: Attempt, index: nat, promptTokens: int, k: nat)
    requires a.guard == Clear && a.adapterKnown
    ensures var r := Answer(a, index, promptTokens);
            && r.content == TextOf(Said(a)) && r.modelUsed == a.model
            && (r.rationale == Primary <==> index == 0)
            && (index > 0 ==> r.rationale == FallbackAttempt(index, a.model))
            && (LastReport(a.items, k) ==>
                  var p := a.items[k].report;
                  && r.inputTokens == p.inputTokens && r.outputTokens == p.outputTokens
                  && r.costUsd == p.costUsd && r.finishReason == p.finishReason)
            && ((forall j | 0 <= j < |a.items| :: !a.items[j].Report?) ==>
                  && r.inputTokens == promptTokens && r.costUsd == a.estimatedCost && r.finishReason == Stop
                  && r.outputTokens == if |r.content| < 4 then 1 else |r.content| / 4)
  {
    TurnSpeaks(a);
    if LastReport(a.items, k) {
      ReportedIsLast(a.items, k);
    }
    if forall j | 0 <= j < |a.items| :: !a.items[j].Report? {
      UnreportedIsNone(a.items);
    }
  }

  /**
    * How a stream ends, over the attempts' own fields: it stops at the first attempt that answers, is cancelled or
    * has sent text, else at the last; there it is answered, aborted, or fails, with an illegal transition only when
    * an answer was not booked and nothing was sent.
    */
  lemma StreamOutcome(attempts: seq<Attempt>, promptTokens: int)
    requires attempts != []
    ensures var d := StopOf(attempts);
            && ReachedAt(attempts, d) && (StopsAt(attempts, d) || d + 1 == |attempts|)
            && StreamOf(true, attempts, promptTokens).end
               == if AcceptedAt(attempts, d) then Finished(Answer(attempts[d], d, promptTokens))
                  else if Tried(attempts[d]) && attempts[d].close == Aborted then Aborting
                  else if !Voiced(attempts[d]) && AnsweredBefore(attempts, d + 1) then Threw(IllegalTransition)
                  else Threw(RoutingFailed)
  {
    FatesMatch(attempts);
    WalkStopsWhere(attempts, Turns(attempts), 0, RequestState.Routed);
  }

  /** How a one-shot request ends, over its calls' own fields; an answer is the provider's reply, field by field. */
  lemma CompletionOutcome(chain: seq<Call>) returns (d: nat)
    requires chain != []
    ensures d < |chain| && CallReachedAt(chain, d)
    ensures CallAcceptedAt(chain, d) || (CallTried(chain[d]) && chain[d].result.CallCancelled?) || d + 1 == |chain|
    ensures CompletionOf(true, chain)
         == if CallAcceptedAt(chain, d) then
              var reply := chain[d].result.response;
              Finished(RouterResponse(reply.content, reply.model, reply.inputTokens, reply.outputTokens, reply.costUsd,
                                      if d == 0 then Primary else FallbackAttempt(d, chain[d].model),
                                      reply.finishReason))
            else if CallTried(chain[d]) && chain[d].result.CallCancelled? then Aborting
            else if RepliedBefore(chain, d + 1) then Threw(IllegalTransition)
            else Threw(RoutingFailed)
  {
    var attempts := AsAttempts(chain);
    d := Walk(RequestState.Routed, CallTurns(chain), 0).stop;
    CallFatesMatch(chain);
    WalkStopsWhere(attempts, CallTurns(chain), 0, RequestState.Routed);
    CallsAreAttempts(chain, d);
    RepliesAreAnswers(chain, d + 1);
  }

  lemma RepliesAreAnswers(chain: seq<Call>, n: nat)
    requires n <= |chain|
    ensures RepliedBefore(chain, n) <==> AnsweredBefore(AsAttempts(chain), n)
  {
    var attempts := AsAttempts(chain);
    if RepliedBefore(chain, n) {
      var k :| 0 <= k < n && CallTried(chain[k]) && chain[k].result.Reply?;
      assert Tried(attempts[k]) && attempts[k].close == Ended;
    }
  }

  /** The first attempt that is neither skipped nor failed gives the answer of a one-shot request. */
  lemma FirstReplyWins(chain: seq<Call>)
    requires chain != [] && CompletionOf(true, chain).Finished?
    ensures var d := Decisive(CallTurns(chain), 0);
            && d < |chain| && chain[d].guard == Clear && chain[d].adapterKnown && chain[d].result.Reply?
            && CompletionOf(true, chain) == Finished(CallAnswer(chain[d], d))
            && CompletionOf(true, chain).response.content == chain[d].result.response.content
            && forall j | 0 <= j < d ::
                 chain[j].guard != Clear || !chain[j].adapterKnown || chain[j].result == CallRaised
  {
    var ts := CallTurns(chain);
    FirstDecisiveAnswers(RequestState.Routed, ts, 0);
    forall j | 0 <= j < Decisive(ts, 0)
      ensures chain[j].guard != Clear || !chain[j].adapterKnown || chain[j].result == CallRaised
    {
      assert !Decides(ts[j].fate);
    }
  }

  /** A finished stream answers with its first attempt that is neither skipped nor failed. */
  lemma FirstAnswerStreams(attempts: seq<Attempt>, promptTokens: int)
    requires attempts != [] && StreamOf(true, attempts, promptTokens).end.Finished?
    ensures StopOf(attempts) == Decisive(Turns(attempts), 0)
    ensures attempts[StopOf(attempts)].close == Ended && attempts[StopOf(attempts)].guard == Clear
    ensures forall j | 0 <= j < StopOf(attempts) ::
              attempts[j].guard != Clear || !attempts[j].adapterKnown || attempts[j].close == Errored
  {
    var ts := Turns(attempts);
    FirstDecisiveAnswers(RequestState.Routed, ts, 0);
    forall j | 0 <= j < StopOf(attempts)
      ensures attempts[j].guard != Clear || !attempts[j].adapterKnown || attempts[j].close == Errored
    {
      assert !Decides(ts[j].fate);
    }
  }
}
