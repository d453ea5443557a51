/** The Responses API event stream: pre-flight pull, event writer, and the rendered sequence. */
module Responses {
  import opened Wrappers
  import opened Attempts
  import opened Splicing

  // ------------------------------------------------------------------ events

  datatype Status = InProgress | Complete | Incomplete | Failing

  datatype Usage = Usage(inputTokens: int, outputTokens: int, totalTokens: int)

  /** The parts of a `response` object that routing decides. */
  datatype Snapshot = Snapshot(status: Status, model: string, output: Option<string>, usage: Option<Usage>,
                               maxTokensHit: bool, completedAt: bool)

  datatype ErrorCode = RateLimitExceeded | ServerError

  datatype Body =
    | Created(response: Snapshot)
    | Progressing(response: Snapshot)
    | ItemAdded
    | PartAdded
    | Delta(text: string)
    | TextDone(text: string)
    | PartDone(text: string)
    | ItemDone(status: Status, text: string)
    | Completed(response: Snapshot)
    | CutOff(response: Snapshot)
    | Failure(response: Snapshot, code: ErrorCode)

  datatype Event = Event(sequenceNumber: nat, body: Body)

  function Draft(model: string): Snapshot {
    Snapshot(InProgress, model, None, None, false, false)
  }

  /** The final object of a routed result; `text` overrides the content for streams. */
  function CompleteResponse(draft: Snapshot, r: RouterResponse, text: Option<string>): (s: Snapshot)
    ensures s.status == Incomplete <==> r.finishReason == Length
    ensures s.maxTokensHit <==> s.status == Incomplete
    ensures s.completedAt <==> s.status == Complete
    ensures s.model == r.modelUsed
    ensures s.output == Some(match text case None => r.content case Some(delivered) => delivered)
    ensures s.usage.Some? && s.usage.value.inputTokens == r.inputTokens && s.usage.value.outputTokens == r.outputTokens
    ensures s.usage.Some? && s.usage.value.totalTokens == s.usage.value.inputTokens + s.usage.value.outputTokens
  {
    var output := if text.None? then r.content else text.value;
    var truncated := r.finishReason == Length;
    draft.(status := if truncated then Incomplete else Complete, model := r.modelUsed, output := Some(output),
           usage := Some(Usage(r.inputTokens, r.outputTokens, r.inputTokens + r.outputTokens)),
           maxTokensHit := truncated, completedAt := !truncated)
  }

  function StatusCode(e: RoutingError): int {
    match e
    case RateLimited => 429
    case RoutingFailed => 503
    case IllegalTransition => 500
  }

  predicate IsRoutingError(e: RoutingError) {
    e != IllegalTransition
  }

  // -------------------------------------------------------- the pulled stream

  datatype Pulled = Got(chunk: Chunk) | Exhausted | Raises(error: RoutingError) | Aborts

  /** The router's generator as its consumer sees it; `reporting` says whether `on_complete` fills `completed`. */
  class ChunkStream {
    const feed: Feed
    const reporting: bool
    var pos: nat
    var closed: bool
    var completed: seq<RouterResponse>

    ghost predicate Valid()
      reads this
    {
      && pos <= |feed.chunks|
      && (!closed ==> completed == [])
      && completed == if closed && reporting && feed.end.Finished? && pos == |feed.chunks|
                      then [feed.end.response] else []
    }

    ghost predicate Open()
      reads this
    {
      Valid() && !closed
    }

    constructor (feed: Feed, reporting: bool)
      ensures Open() && pos == 0 && this.feed == feed && this.reporting == reporting
    {
      this.feed, this.reporting := feed, reporting;
      pos, closed, completed := 0, false, [];
    }

    /** `anext`: the next chunk, or the one end of the stream; afterwards nothing more. */
    method Next() returns (r: Pulled)
      requires Valid()
      modifies this
      ensures Valid()
      ensures old(closed) ==> r == Exhausted && pos == old(pos) && closed && completed == old(completed)
      ensures !old(closed) && old(pos) < |feed.chunks| ==>
                r == Got(feed.chunks[old(pos)]) && pos == old(pos) + 1 && !closed
      ensures !old(closed) && old(pos) == |feed.chunks| ==>
                && closed && pos == old(pos)
                && r == (match feed.end
                         case Finished(_) => Exhausted
                         case Threw(e) => Raises(e)
                         case Aborting => Aborts)
    {
      if closed {
        return Exhausted;
      }
      if pos < |feed.chunks| {
        pos := pos + 1;
        return Got(feed.chunks[pos - 1]);
      }
      closed := true;
      match feed.end
      case Finished(response) =>
        if reporting {
          completed := [response];
        }
        r := Exhausted;
      case Threw(e) => r := Raises(e);
      case Aborting => r := Aborts;
    }
  }

  // ------------------------------------------------------ what gets rendered

  ghost function DeltasOf(chunks: seq<Chunk>): seq<Body> {
    if chunks == [] then []
    else
      var last := chunks[|chunks| - 1];
      DeltasOf(chunks[..|chunks| - 1]) + if last.text != [] then [Delta(last.text)] else []
  }

  /** Index of the first chunk with text, or the number of chunks. */
  ghost function FirstText(chunks: seq<Chunk>): (k: nat)
    ensures k <= |chunks| && (k < |chunks| ==> chunks[k].text != [])
    ensures forall i | 0 <= i < k :: chunks[i].text == []
  {
    if chunks == [] then 0
    else
      var k := FirstText(chunks[..|chunks| - 1]);
      if k < |chunks| - 1 then k
      else if chunks[|chunks| - 1].text != [] then |chunks| - 1 else |chunks|
  }

  ghost predicate HasText(f: Feed) {
    FirstText(f.chunks) < |f.chunks|
  }

  /** The HTTP response starts once there is text, or a finished stream without any. */
  ghost predicate Starts(f: Feed) {
    HasText(f) || f.end.Finished?
  }

  ghost function OpeningModel(draftModel: string, f: Feed, reporting: bool): string {
    if HasText(f) then f.chunks[FirstText(f.chunks)].model
    else if f.end.Finished? && reporting then f.end.response.modelUsed
    else if f.chunks != [] then f.chunks[|f.chunks| - 1].model
    else draftModel
  }

  ghost function ClosingModel(draftModel: string, f: Feed, reporting: bool): string {
    if HasText(f) then f.chunks[|f.chunks| - 1].model else OpeningModel(draftModel, f, reporting)
  }

  ghost function Head(model: string): seq<Body> {
    [Created(Draft(model)), Progressing(Draft(model)), ItemAdded, PartAdded]
  }

  function FailedSnapshot(model: string, text: string): Snapshot {
    Snapshot(Failing, model, Some(text), None, false, false)
  }

  function Tail(final: Snapshot, text: string): seq<Body> {
    [TextDone(text), PartDone(text), ItemDone(final.status, text),
     if final.status == Incomplete then CutOff(final) else Completed(final)]
  }

  ghost function Ending(draftModel: string, f: Feed, reporting: bool): seq<Body> {
    var text := TextOf(f.chunks);
    var failed := FailedSnapshot(ClosingModel(draftModel, f, reporting), text);
    match f.end
    case Finished(r) =>
      if reporting then Tail(CompleteResponse(Draft(OpeningModel(draftModel, f, reporting)), r, Some(text)), text)
      else [Failure(failed, ServerError)]
    case Threw(e) =>
      if !IsRoutingError(e) then []
      else [Failure(failed, if StatusCode(e) == 429 then RateLimitExceeded else ServerError)]
    case Aborting => []
  }

  /** The whole event sequence for a started response. */
  ghost function Rendered(draftModel: string, f: Feed, reporting: bool): seq<Body> {
    Head(OpeningModel(draftModel, f, reporting)) + DeltasOf(f.chunks) + Ending(draftModel, f, reporting)
  }

  /** Events carry the bodies in order, numbered from zero without gaps. */
  ghost predicate Numbers(events: seq<Event>, bodies: seq<Body>) {
    |events| == |bodies| && forall i | 0 <= i < |events| :: events[i] == Event(i, bodies[i])
  }

  class EventWriter {
    var sequenceNumber: nat

    constructor ()
      ensures sequenceNumber == 0
    {
      sequenceNumber := 0;
    }

    method Frame(body: Body) returns (e: Event)
      modifies this
      ensures e == Event(old(sequenceNumber), body) && sequenceNumber == old(sequenceNumber) + 1
    {
      e := Event(sequenceNumber, body);
      sequenceNumber := sequenceNumber + 1;
    }

    method Frames(bodies: seq<Body>, sofar: seq<Event>, ghost written: seq<Body>) returns (events: seq<Event>)
      requires Numbers(sofar, written) && sequenceNumber == |sofar|
      modifies this
      ensures Numbers(events, written + bodies) && sequenceNumber == |events|
    {
      events := sofar;
      for i := 0 to |bodies|
        invariant Numbers(events, written + bodies[..i]) && sequenceNumber == |events|
      {
        var e := Frame(bodies[i]);
        events := events + [e];
        assert written + bodies[..i + 1] == (written + bodies[..i]) + [bodies[i]];
      }
      assert bodies[..|bodies|] == bodies;
    }
  }

  datatype Opening = Ready(first: Option<Chunk>) | HttpError(status: int) | Unfinished

  /** What the pre-flight has pulled when it hands the stream over. */
  ghost predicate PreFlighted(s: ChunkStream, first: Option<Chunk>)
    reads s
  {
    && s.Valid()
    && (if HasText(s.feed) then !s.closed && s.pos == FirstText(s.feed.chunks) + 1
        else s.closed && s.feed.end.Finished? && s.pos == |s.feed.chunks|)
    && first == if s.pos == 0 then None else Some(s.feed.chunks[s.pos - 1])
  }

  /** Pulls until text arrives or the stream ends; a failure before that is a plain HTTP error. */
  method PreFlight(s: ChunkStream) returns (r: Opening)
    requires s.Open() && s.pos == 0
    modifies s
    ensures r.Ready? <==> Starts(s.feed)
    ensures r.Ready? ==> PreFlighted(s, r.first)
    ensures r.HttpError? ==> s.feed.end.Threw?
    ensures r.HttpError? ==>
              r.status == if s.feed.end == Threw(RateLimited) then 429
                          else if s.feed.end == Threw(RoutingFailed) then 503 else 500
    ensures r.Unfinished? ==> s.feed.end.Aborting?
  {
    var first: Option<Chunk> := None;
    while true
      invariant s.Open() && s.pos <= FirstText(s.feed.chunks)
      invariant first == if s.pos == 0 then None else Some(s.feed.chunks[s.pos - 1])
      decreases |s.feed.chunks| - s.pos
    {
      var pulled := s.Next();
      match pulled {
        case Got(chunk) =>
          first := Some(chunk);
          if chunk.text != [] {
            return Ready(first);
          }
        case Exhausted => return Ready(first);
        case Raises(e) => return HttpError(StatusCode(e));
        case Aborts => return Unfinished;
      }
    }
  }

  /** One delta frame for a chunk with text, none for an empty one. */
  method ShowChunk(writer: EventWriter, chunk: Chunk, sofar: seq<Event>, ghost head: seq<Body>,
                   ghost before: seq<Chunk>)
    returns (events: seq<Event>)
    requires Numbers(sofar, head + DeltasOf(before)) && writer.sequenceNumber == |sofar|
    modifies writer
    ensures Numbers(events, head + DeltasOf(before + [chunk])) && writer.sequenceNumber == |events|
  {
    assert (before + [chunk])[..|before|] == before;
    if chunk.text == [] {
      return sofar;
    }
    events := writer.Frames([Delta(chunk.text)], sofar, head + DeltasOf(before));
    assert (head + DeltasOf(before)) + [Delta(chunk.text)] == head + (DeltasOf(before) + [Delta(chunk.text)]);
  }

  lemma OneMoreChunk(chunks: seq<Chunk>, n: nat)
    requires n < |chunks|
    ensures chunks[..n + 1] == chunks[..n] + [chunks[n]]
    ensures TextOf(chunks[..n + 1]) == TextOf(chunks[..n]) + chunks[n].text
  {
    assert chunks[..n + 1][..n] == chunks[..n];
  }

  /** The first n chunks have been shown: their deltas follow the head, and `text` is what they spell. */
  ghost predicate Shown(events: seq<Event>, head: seq<Body>, text: string, chunks: seq<Chunk>, n: nat)
    requires n <= |chunks|
  {
    Numbers(events, head + DeltasOf(chunks[..n])) && text == TextOf(chunks[..n])
  }

  /** Chunk n: its delta, if it has text, and the text so far. */
  method ShowNext(writer: EventWriter, chunk: Chunk, sofar: seq<Event>, shown: string, ghost head: seq<Body>,
                  ghost chunks: seq<Chunk>, ghost n: nat)
    returns (events: seq<Event>, text: string)
    requires n < |chunks| && chunk == chunks[n]
    requires Shown(sofar, head, shown, chunks, n) && writer.sequenceNumber == |sofar|
    modifies writer
    ensures Shown(events, head, text, chunks, n + 1) && writer.sequenceNumber == |events|
  {
    OneMoreChunk(chunks, n);
    events := ShowChunk(writer, chunk, sofar, head, chunks[..n]);
    text := shown + chunk.text;
  }

  /** Relays the rest of the stream: deltas, accumulated text, model of the last chunk, and how the stream ended. */
  method RelayRest(s: ChunkStream, writer: EventWriter, openModel: string, shown: string, sofar: seq<Event>,
                   ghost head: seq<Body>)
    returns (events: seq<Event>, text: string, model: string, pulled: Pulled)
    requires s.Valid() && (if s.closed then s.feed.end.Finished? && s.pos == |s.feed.chunks| else s.pos > 0)
    requires !s.closed ==> openModel == s.feed.chunks[s.pos - 1].model
    requires Shown(sofar, head, shown, s.feed.chunks, s.pos) && writer.sequenceNumber == |sofar|
    modifies s, writer
    ensures s.Valid() && s.closed && s.pos == |s.feed.chunks| && pulled == EndPull(s.feed)
    ensures Numbers(events, head + DeltasOf(s.feed.chunks)) && text == TextOf(s.feed.chunks)
    ensures model == if old(s.closed) then openModel else s.feed.chunks[|s.feed.chunks| - 1].model
    ensures writer.sequenceNumber == |events|
  {
    ghost var chunks := s.feed.chunks;
    events, text, model := sofar, shown, openModel;
    pulled := s.Next();
    ghost var n := if pulled.Got? then s.pos - 1 else s.pos;
    while pulled.Got?
      invariant s.Valid() && writer.sequenceNumber == |events|
      invariant n == if pulled.Got? then s.pos - 1 else s.pos
      invariant pulled.Got? ==> !old(s.closed) && !s.closed && s.pos > 1 && pulled.chunk == chunks[n]
      invariant !pulled.Got? ==> s.closed && s.pos == |chunks| && pulled == EndPull(s.feed)
      invariant Shown(events, head, text, chunks, n)
      invariant !old(s.closed) ==> n > 0 && model == chunks[n - 1].model
      invariant old(s.closed) ==> model == openModel
      decreases |chunks| - n
    {
      model := pulled.chunk.model;
      events, text := ShowNext(writer, pulled.chunk, events, text, head, chunks, n);
      n := n + 1;
      pulled := s.Next();
    }
    assert chunks[..|chunks|] == chunks;
  }

  /** The four opening frames, and the first delta when the pre-flight found text. */
  method Open(draftModel: string, first: Option<Chunk>, s: ChunkStream, writer: EventWriter)
    returns (events: seq<Event>, text: string, model: string)
    requires PreFlighted(s, first) && writer.sequenceNumber == 0
    modifies writer
    ensures writer.sequenceNumber == |events|
    ensures model == OpeningModel(draftModel, s.feed, s.reporting) && text == TextOf(s.feed.chunks[..s.pos])
    ensures Numbers(events, Head(model) + DeltasOf(s.feed.chunks[..s.pos]))
  {
    SilentUpTo(s.feed.chunks, s.pos);
    model := if s.completed != [] then s.completed[|s.completed| - 1].modelUsed
             else if first.Some? then first.value.model else draftModel;
    var draft := Draft(model);
    events := writer.Frames([Created(draft), Progressing(draft), ItemAdded, PartAdded], [], []);
    assert [] + Head(model) == Head(model) + DeltasOf([]);
    text := "";
    if first.Some? && first.value.text != [] {
      text := first.value.text;
      events := ShowChunk(writer, first.value, events, Head(model), []);
      assert DeltasOf([] + [first.value]) == DeltasOf(s.feed.chunks[..s.pos]);
    }
  }

  /** The event generator. A BaseException or an error it does not catch ends it without a terminal event. */
  method StreamResponseEvents(draftModel: string, first: Option<Chunk>, s: ChunkStream) returns (events: seq<Event>)
    requires PreFlighted(s, first)
    modifies s
    ensures Numbers(events, Rendered(draftModel, s.feed, s.reporting))
    ensures s.closed
  {
    var writer := new EventWriter();
    var text, model, pulled;
    events, text, model := Open(draftModel, first, s, writer);
    var draft := Draft(model);
    ghost var head := Head(model);
    events, text, model, pulled := RelayRest(s, writer, model, text, events, head);
    if pulled == Aborts || (pulled.Raises? && !IsRoutingError(pulled.error)) {
      assert Ending(draftModel, s.feed, s.reporting) == [];
      assert Rendered(draftModel, s.feed, s.reporting) == head + DeltasOf(s.feed.chunks);
      return;
    }
    events := Conclude(draftModel, s, writer, draft, model, text, pulled, events, head + DeltasOf(s.feed.chunks));
  }

  /** The closing frames: failure, or the done events and the final object. */
  method Conclude(ghost draftModel: string, s: ChunkStream, writer: EventWriter, draft: Snapshot, model: string,
                  text: string, pulled: Pulled, sofar: seq<Event>, ghost written: seq<Body>)
    returns (events: seq<Event>)
    requires s.Valid() && s.closed && s.pos == |s.feed.chunks| && pulled == EndPull(s.feed)
    requires pulled == Exhausted || (pulled.Raises? && IsRoutingError(pulled.error))
    requires draft == Draft(OpeningModel(draftModel, s.feed, s.reporting))
    requires model == ClosingModel(draftModel, s.feed, s.reporting) && text == TextOf(s.feed.chunks)
    requires Numbers(sofar, written) && writer.sequenceNumber == |sofar|
    modifies writer
    ensures Numbers(events, written + Ending(draftModel, s.feed, s.reporting))
  {
    if pulled.Raises? || s.completed == [] {
      var code := if pulled.Raises? && StatusCode(pulled.error) == 429 then RateLimitExceeded else ServerError;
      events := writer.Frames([Failure(FailedSnapshot(model, text), code)], sofar, written);
      return;
    }
    var final := CompleteResponse(draft, s.completed[|s.completed| - 1], Some(text));
    events := writer.Frames(Tail(final, text), sofar, written);
  }

  ghost function EndPull(f: Feed): Pulled {
    match f.end
    case Finished(_) => Exhausted
    case Threw(e) => Raises(e)
    case Aborting => Aborts
  }

  lemma {:induction false} SilentUpTo(chunks: seq<Chunk>, n: nat)
    requires n <= |chunks| && n <= FirstText(chunks) + 1
    ensures var shown := n > 0 && chunks[n - 1].text != [];
            && DeltasOf(chunks[..n]) == (if shown then [Delta(chunks[n - 1].text)] else [])
            && TextOf(chunks[..n]) == (if shown then chunks[n - 1].text else [])
    decreases n
  {
    if n > 0 {
      assert chunks[..n][..n - 1] == chunks[..n - 1];
      SilentUpTo(chunks, n - 1);
    }
  }
}
