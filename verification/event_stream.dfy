/** Properties of the rendered event sequence, and of the whole path from provider to client. */
module EventStream {
  import opened Wrappers
  import opened Attempts
  import opened Engine
  import opened Inflight
  import opened Splicing
  import opened Responses

  // ----------------------------------------------------------------- grammar

  /** The documented event order, as an automaton over event kinds. */
  datatype Phase =
    | Begin | AfterCreated | AfterProgress | AfterItem | Streaming | AfterText | AfterPart | AfterItemDone | Over | Bad

  function Accept(p: Phase, b: Body): Phase {
    match (p, b)
    case (Begin, Created(_)) => AfterCreated
    case (AfterCreated, Progressing(_)) => AfterProgress
    case (AfterProgress, ItemAdded) => AfterItem
    case (AfterItem, PartAdded) => Streaming
    case (Streaming, Delta(_)) => Streaming
    case (Streaming, Failure(_, _)) => Over
    case (Streaming, TextDone(_)) => AfterText
    case (AfterText, PartDone(_)) => AfterPart
    case (AfterPart, ItemDone(_, _)) => AfterItemDone
    case (AfterItemDone, Completed(_)) => Over
    case (AfterItemDone, CutOff(_)) => Over
    case (_, _) => Bad
  }

  ghost function Run(p: Phase, bodies: seq<Body>): Phase {
    if bodies == [] then p else Accept(Run(p, bodies[..|bodies| - 1]), bodies[|bodies| - 1])
  }

  lemma {:induction false} RunSum(p: Phase, a: seq<Body>, b: seq<Body>)
    ensures Run(p, a + b) == Run(Run(p, a), b)
    decreases |b|
  {
    if b == [] {
      assert a + b == a;
    } else {
      assert (a + b)[..|a + b| - 1] == a + b[..|b| - 1];
      RunSum(p, a, b[..|b| - 1]);
    }
  }

  lemma {:induction false} DeltasKeepStreaming(chunks: seq<Chunk>)
    ensures Run(Streaming, DeltasOf(chunks)) == Streaming
    decreases |chunks|
  {
    if chunks != [] {
      var rest, last := chunks[..|chunks| - 1], chunks[|chunks| - 1];
      DeltasKeepStreaming(rest);
      if last.text != [] {
        RunSum(Streaming, DeltasOf(rest), [Delta(last.text)]);
        RunOne(Streaming, Delta(last.text));
      } else {
        assert DeltasOf(chunks) == DeltasOf(rest);
      }
    }
  }

  lemma RunOne(p: Phase, b: Body)
    ensures Run(p, [b]) == Accept(p, b)
  {
    assert [b][..0] == [];
  }

  lemma RunFour(p: Phase, a: Body, b: Body, c: Body, d: Body)
    ensures Run(p, [a, b, c, d]) == Accept(Accept(Accept(Accept(p, a), b), c), d)
  {
    RunOne(p, a);
    RunSum(p, [a], [b]);
    RunOne(Run(p, [a]), b);
    RunSum(p, [a] + [b], [c]);
    RunOne(Run(p, [a] + [b]), c);
    RunSum(p, [a] + [b] + [c], [d]);
    RunOne(Run(p, [a] + [b] + [c]), d);
    assert [a] + [b] + [c] + [d] == [a, b, c, d];
  }

  lemma HeadOpens(model: string)
    ensures Run(Begin, Head(model)) == Streaming
  {
    var d := Draft(model);
    RunFour(Begin, Created(d), Progressing(d), ItemAdded, PartAdded);
  }

  lemma TailCloses(final: Snapshot, text: string)
    ensures Run(Streaming, Tail(final, text)) == Over
  {
    RunFour(Streaming, TextDone(text), PartDone(text), ItemDone(final.status, text),
            if final.status == Incomplete then CutOff(final) else Completed(final));
  }

  lemma EndingClosesIff(draftModel: string, f: Feed, reporting: bool)
    ensures Run(Streaming, Ending(draftModel, f, reporting)) == Over
       <==> f.end != Aborting && f.end != Threw(IllegalTransition)
  {
    var text, ending := TextOf(f.chunks), Ending(draftModel, f, reporting);
    if f.end.Finished? && reporting {
      TailCloses(CompleteResponse(Draft(OpeningModel(draftModel, f, reporting)), f.end.response, Some(text)), text);
    } else if ending != [] {
      RunOne(Streaming, ending[0]);
      assert ending == [ending[0]];
    }
  }

  /** The sequence is complete, with its one terminal event, unless aborted or ended by an uncaught error. */
  lemma GrammarIff(draftModel: string, f: Feed, reporting: bool)
    ensures Run(Begin, Rendered(draftModel, f, reporting)) == Over
       <==> f.end != Aborting && f.end != Threw(IllegalTransition)
  {
    var head := Head(OpeningModel(draftModel, f, reporting));
    HeadOpens(OpeningModel(draftModel, f, reporting));
    DeltasKeepStreaming(f.chunks);
    EndingClosesIff(draftModel, f, reporting);
    RunSum(Begin, head, DeltasOf(f.chunks));
    RunSum(Begin, head + DeltasOf(f.chunks), Ending(draftModel, f, reporting));
  }

  /** Nothing may follow a terminal event, so an accepted sequence has exactly one, at its end. */
  lemma {:induction false} NothingAfterOver(bodies: seq<Body>, more: seq<Body>)
    requires Run(Begin, bodies) == Over && more != []
    ensures Run(Begin, bodies + more) == Bad
    decreases |more|
  {
    RunSum(Begin, bodies, more);
    if |more| > 1 {
      NothingAfterOver(bodies, more[..|more| - 1]);
      RunSum(Begin, bodies, more[..|more| - 1]);
    } else {
      RunOne(Over, more[0]);
      assert more == [more[0]];
    }
  }

  // ------------------------------------------------------------ text delivered

  /** What a client gets by concatenating the deltas. */
  ghost function Spell(bodies: seq<Body>): string {
    if bodies == [] then []
    else
      var last := bodies[|bodies| - 1];
      Spell(bodies[..|bodies| - 1]) + if last.Delta? then last.text else []
  }

  lemma {:induction false} SpellSum(a: seq<Body>, b: seq<Body>)
    ensures Spell(a + b) == Spell(a) + Spell(b)
    decreases |b|
  {
    if b == [] {
      assert a + b == a;
    } else {
      assert (a + b)[..|a + b| - 1] == a + b[..|b| - 1];
      SpellSum(a, b[..|b| - 1]);
    }
  }

  lemma {:induction false} SpellDeltas(chunks: seq<Chunk>)
    ensures Spell(DeltasOf(chunks)) == TextOf(chunks)
    decreases |chunks|
  {
    if chunks != [] {
      var rest, last := chunks[..|chunks| - 1], chunks[|chunks| - 1];
      SpellDeltas(rest);
      if last.text != [] {
        SpellSum(DeltasOf(rest), [Delta(last.text)]);
        assert [Delta(last.text)][..0] == [];
      } else {
        assert DeltasOf(chunks) == DeltasOf(rest);
      }
    }
  }

  lemma {:induction false} SpellsNothing(bodies: seq<Body>)
    requires forall i | 0 <= i < |bodies| :: !bodies[i].Delta?
    ensures Spell(bodies) == []
    decreases |bodies|
  {
    if bodies != [] {
      SpellsNothing(bodies[..|bodies| - 1]);
    }
  }

  lemma FrameSpellsNothing(draftModel: string, f: Feed, reporting: bool)
    ensures Spell(Head(OpeningModel(draftModel, f, reporting))) == [] && Spell(Ending(draftModel, f, reporting)) == []
  {
    SpellsNothing(Head(OpeningModel(draftModel, f, reporting)));
    SpellsNothing(Ending(draftModel, f, reporting));
  }

  lemma RenderedSpells(draftModel: string, f: Feed, reporting: bool)
    ensures Spell(Rendered(draftModel, f, reporting)) == TextOf(f.chunks)
  {
    var head := Head(OpeningModel(draftModel, f, reporting));
    FrameSpellsNothing(draftModel, f, reporting);
    SpellDeltas(f.chunks);
    SpellSum(head, DeltasOf(f.chunks));
    SpellSum(head + DeltasOf(f.chunks), Ending(draftModel, f, reporting));
  }

  /** Every text a terminal part of the sequence repeats. */
  ghost predicate Repeats(b: Body, text: string) {
    match b
    case TextDone(t) => t == text
    case PartDone(t) => t == text
    case ItemDone(_, t) => t == text
    case Completed(r) => r.output == Some(text)
    case CutOff(r) => r.output == Some(text)
    case Failure(r, _) => r.output == Some(text)
    case _ => true
  }

  ghost predicate NamesModel(b: Body, model: string) {
    match b
    case Created(r) => r.model == model
    case Progressing(r) => r.model == model
    case Completed(r) => r.model == model
    case CutOff(r) => r.model == model
    case Failure(r, _) => r.model == model
    case _ => true
  }

  lemma {:induction false} DeltasAreDeltas(chunks: seq<Chunk>)
    ensures forall i | 0 <= i < |DeltasOf(chunks)| :: DeltasOf(chunks)[i].Delta?
    decreases |chunks|
  {
    if chunks != [] {
      DeltasAreDeltas(chunks[..|chunks| - 1]);
    }
  }

  /** One delta per chunk with text, in order, and none for an empty chunk. */
  lemma {:induction false} DeltasArePiecewise(a: seq<Chunk>, b: seq<Chunk>)
    ensures DeltasOf(a + b) == DeltasOf(a) + DeltasOf(b)
    ensures |a| == 1 ==> DeltasOf(a) == if a[0].text != [] then [Delta(a[0].text)] else []
    decreases |b|
  {
    if b == [] {
      assert a + b == a;
    } else {
      assert (a + b)[..|a + b| - 1] == a + b[..|b| - 1];
      DeltasArePiecewise(a, b[..|b| - 1]);
    }
  }

  ghost predicate Truthful(bodies: seq<Body>, text: string, model: string) {
    forall i | 0 <= i < |bodies| :: Repeats(bodies[i], text) && NamesModel(bodies[i], model)
  }

  /** A coherent feed that starts is rendered with one text and one model throughout. */
  lemma RenderedIsTruthful(draftModel: string, f: Feed)
    requires Coherent(f) && Starts(f)
    ensures Truthful(Rendered(draftModel, f, true), TextOf(f.chunks), OpeningModel(draftModel, f, true))
  {
    var model, text := OpeningModel(draftModel, f, true), TextOf(f.chunks);
    DeltasAreDeltas(f.chunks);
    var ending := Ending(draftModel, f, true);
    assert ClosingModel(draftModel, f, true) == model;
    assert f.end.Finished? ==> f.end.response.modelUsed == model;
    forall i | 0 <= i < |ending| ensures Repeats(ending[i], text) && NamesModel(ending[i], model) {
    }
  }

  /** `response.incomplete` is sent exactly for an answer cut at the token cap. */
  lemma IncompleteIff(draftModel: string, f: Feed, reporting: bool)
    ensures (exists r :: CutOff(r) in Rendered(draftModel, f, reporting))
       <==> reporting && f.end.Finished? && f.end.response.finishReason == Length
  {
    DeltasAreDeltas(f.chunks);
    var bodies, ending := Rendered(draftModel, f, reporting), Ending(draftModel, f, reporting);
    var start := 4 + |DeltasOf(f.chunks)|;
    forall i | start <= i < |bodies| ensures bodies[i] == ending[i - start] {
    }
    forall i | 0 <= i < start ensures !bodies[i].CutOff? {
      if i >= 4 {
        assert bodies[i] == DeltasOf(f.chunks)[i - 4];
      }
    }
    if reporting && f.end.Finished? && f.end.response.finishReason == Length {
      assert bodies[start + 3] == ending[3];
      assert ending[3].CutOff?;
    }
  }

  /** Status, usage and error code each event carries, given how the stream ended. */
  ghost predicate Settled(b: Body, f: Feed) {
    match b
    case Created(r) => Drafted(r)
    case Progressing(r) => Drafted(r)
    case ItemDone(status, _) =>
      f.end.Finished? && status == if f.end.response.finishReason == Length then Incomplete else Complete
    case Completed(r) => Accounts(r, f) && r.status == Complete && r.completedAt && !r.maxTokensHit
    case CutOff(r) => Accounts(r, f) && r.status == Incomplete && r.maxTokensHit && !r.completedAt
    case Failure(r, code) =>
      && r.status == Failing && r.usage == None && !r.completedAt && !r.maxTokensHit
      && (code == RateLimitExceeded <==> f.end == Threw(RateLimited))
    case _ => true
  }

  /** In progress, with nothing decided yet. */
  ghost predicate Drafted(r: Snapshot) {
    r.status == InProgress && r.output == None && r.usage == None && !r.completedAt && !r.maxTokensHit
  }

  ghost predicate Accounts(r: Snapshot, f: Feed) {
    && f.end.Finished?
    && r.usage == Some(Usage(f.end.response.inputTokens, f.end.response.outputTokens,
                             f.end.response.inputTokens + f.end.response.outputTokens))
  }

  lemma EndingIsSettled(draftModel: string, f: Feed)
    ensures forall i | 0 <= i < |Ending(draftModel, f, true)| :: Settled(Ending(draftModel, f, true)[i], f)
  {
    var ending := Ending(draftModel, f, true);
    forall i | 0 <= i < |ending| ensures Settled(ending[i], f) {
    }
  }

  /**
    * Every event's status, usage and error code agree with how the stream ended; once started,
    * failures are server errors.
    */
  lemma RenderedIsSettled(draftModel: string, f: Feed)
    ensures forall i | 0 <= i < |Rendered(draftModel, f, true)| :: Settled(Rendered(draftModel, f, true)[i], f)
    ensures Coherent(f) && Starts(f) ==> f.end != Threw(RateLimited)
  {
    DeltasAreDeltas(f.chunks);
    TextNeedsAChunk(f.chunks);
    EndingIsSettled(draftModel, f);
    var head, deltas := Head(OpeningModel(draftModel, f, true)), DeltasOf(f.chunks);
    var bodies := Rendered(draftModel, f, true);
    forall i | 0 <= i < |bodies| ensures Settled(bodies[i], f) {
      assert bodies[i] == if i < |head| then head[i]
                          else if i < |head| + |deltas| then deltas[i - |head|]
                          else Ending(draftModel, f, true)[i - |head| - |deltas|];
    }
  }

  lemma {:induction false} TextNeedsAChunk(chunks: seq<Chunk>)
    ensures TextOf(chunks) == [] <==> FirstText(chunks) == |chunks|
    decreases |chunks|
  {
    if chunks != [] {
      TextNeedsAChunk(chunks[..|chunks| - 1]);
    }
  }

  /**
    * What a client of a started stream may rely on: its concatenated deltas are the text of one attempt, every
    * closing event and the final object repeat that text and name one model, an answer's content is that same
    * text, and the event sequence is complete unless the request was cancelled or closed.
    */
  ghost predicate Integral(bodies: seq<Body>, attempts: seq<Attempt>, f: Feed)
    requires attempts != []
  {
    && Spell(bodies) == TextOf(Said(attempts[StopOf(attempts)]))
    && Truthful(bodies, Spell(bodies), attempts[StopOf(attempts)].model)
    && (f.end.Finished? ==> f.end.response.content == Spell(bodies))
    && (Run(Begin, bodies) == Over <==> f.end != Aborting)
  }

  lemma FirstTextIsSpoken(silent: seq<Chunk>, spoken: seq<Chunk>, model: string)
    requires TextOf(silent) == [] && FirstText(silent + spoken) < |silent + spoken|
    requires forall k | 0 <= k < |spoken| :: spoken[k].model == model
    ensures (silent + spoken)[FirstText(silent + spoken)].model == model
  {
    OneModelAfterText(silent, spoken, model);
  }

  /** A started stream opens under the model of the attempt it stops at. */
  lemma AttemptedModel(draftModel: string, attempts: seq<Attempt>, promptTokens: int)
    requires attempts != [] && Starts(StreamOf(true, attempts, promptTokens))
    ensures OpeningModel(draftModel, StreamOf(true, attempts, promptTokens), true) == attempts[StopOf(attempts)].model
  {
    var d, f := StopOf(attempts), StreamOf(true, attempts, promptTokens);
    NoSplicing(attempts, promptTokens);
    if HasText(f) {
      TurnSpeaks(attempts[d]);
      FirstTextIsSpoken(SaidBy(attempts, d), Said(attempts[d]), attempts[d].model);
    } else {
      AnswerNamesModel(attempts[d], d, promptTokens);
    }
  }

  /** End to end, for every provider script: once the HTTP response starts, what is rendered is integral. */
  lemma StreamIntegrity(draftModel: string, admitted: bool, attempts: seq<Attempt>, promptTokens: int)
    requires attempts != []
    requires Starts(StreamOf(admitted, attempts, promptTokens))
    ensures var f := StreamOf(admitted, attempts, promptTokens);
            Integral(Rendered(draftModel, f, true), attempts, f)
  {
    var f := StreamOf(admitted, attempts, promptTokens);
    NoSplicing(attempts, promptTokens);
    RouterFeedIsCoherent(admitted, attempts, promptTokens);
    RenderedSpells(draftModel, f, true);
    RenderedIsTruthful(draftModel, f);
    AttemptedModel(draftModel, attempts, promptTokens);
    GrammarIff(draftModel, f, true);
    TextNeedsAChunk(f.chunks);
  }

  /** A response that never starts delivered nothing: the failure is a plain HTTP error and no text is lost. */
  lemma NoStartMeansNoText(admitted: bool, attempts: seq<Attempt>, promptTokens: int)
    requires attempts != []
    requires !Starts(StreamOf(admitted, attempts, promptTokens))
    ensures TextOf(StreamOf(admitted, attempts, promptTokens).chunks) == []
  {
    TextNeedsAChunk(StreamOf(admitted, attempts, promptTokens).chunks);
  }

  ghost function BodiesOf(events: seq<Event>): (bodies: seq<Body>)
    ensures |bodies| == |events| && forall i | 0 <= i < |bodies| :: bodies[i] == events[i].body
  {
    seq(|events|, i requires 0 <= i < |events| => events[i].body)
  }

  lemma NumberedBodies(events: seq<Event>, bodies: seq<Body>)
    requires Numbers(events, bodies)
    ensures BodiesOf(events) == bodies
    ensures forall i | 0 <= i < |events| :: events[i].sequenceNumber == i
  {
  }

  /** The handler's side of a streamed request: pre-flight, then the events. */
  method Serve(draftModel: string, f: Feed) returns (opening: Opening, events: seq<Event>)
    ensures opening.Ready? <==> Starts(f)
    ensures opening.Ready? ==> Numbers(events, Rendered(draftModel, f, true))
    ensures !opening.Ready? ==> events == []
    ensures opening.HttpError? ==>
              && f.end.Threw?
              && opening.status == if f.end.error == RateLimited then 429
                                   else if f.end.error == RoutingFailed then 503 else 500
  {
    var stream := new ChunkStream(f, true);
    opening := PreFlight(stream);
    events := [];
    if opening.Ready? {
      events := StreamResponseEvents(draftModel, opening.first, stream);
    }
  }

  /**
    * One streamed request from the router to the client's events: what is emitted is numbered from zero, spells
    * one attempt's text, repeats it in every closing event, and is complete unless the request was aborted. When
    * no response starts there was no text to lose.
    */
  method StreamResponse(router: NexusRouter, draftModel: string, admitted: bool, attempts: seq<Attempt>,
                        promptTokens: int, tenantKey: string)
    returns (opening: Opening, events: seq<Event>)
    requires attempts != [] && Positive(router.inflight)
    modifies router
    ensures router.inflight == old(router.inflight)
    ensures var f := StreamOf(admitted, attempts, promptTokens);
            && (opening.Ready? <==> Starts(f))
            && (opening.HttpError? ==>
                  && f.end.Threw?
                  && opening.status == if f.end.error == RateLimited then 429
                                       else if f.end.error == RoutingFailed then 503 else 500)
            && (!opening.Ready? ==> events == [] && TextOf(f.chunks) == [])
            && router.completed == old(router.completed) + if f.end.Finished? then [f.end.response] else []
    ensures opening.Ready? ==>
              && (forall i | 0 <= i < |events| :: events[i].sequenceNumber == i)
              && Integral(BodiesOf(events), attempts, StreamOf(admitted, attempts, promptTokens))
  {
    var chunks, end := router.CompleteStream(admitted, attempts, promptTokens, tenantKey);
    opening, events := Serve(draftModel, Feed(chunks, end));
    if opening.Ready? {
      NumberedBodies(events, Rendered(draftModel, Feed(chunks, end), true));
      StreamIntegrity(draftModel, admitted, attempts, promptTokens);
    } else {
      NoStartMeansNoText(admitted, attempts, promptTokens);
    }
  }
}
